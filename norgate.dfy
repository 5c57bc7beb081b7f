/**
 * Simulation behaviour of the n-input, `bits`-wide NOR gate: power-on, evaluation
 * of a new candidate when an input changes, and commit of a carried value.
 */
module Nor {

  import opened Bits
  import opened Sim

  /** Some input reads bit i as set. */
  ghost predicate Asserted(inputs: seq<InputPin>, i: nat)
  {
    exists k :: 0 <= k < |inputs| && i in Reading(inputs[k])
  }

  /** The OR of every input reading, taken in list order. */
  function OrAll(inputs: seq<InputPin>): (r: set<nat>)
    ensures forall i: nat :: i in r <==> Asserted(inputs, i)
  {
    if inputs == [] then {}
    else
      var front := inputs[..|inputs| - 1];
      assert forall k :: 0 <= k < |front| ==> front[k] == inputs[k];
      OrAll(front) + Reading(inputs[|inputs| - 1])
  }

  /**
   * The candidate output computed on an input change: the OR of the inputs with
   * positions below `bits` complemented. An input wider than the gate leaves its
   * high bits set in the candidate, since only 0..bits-1 are flipped.
   */
  function NorValue(inputs: seq<InputPin>, bits: nat): (r: set<nat>)
    ensures forall i: nat :: i < bits ==> (i in r <==> !Asserted(inputs, i))
    ensures forall i: nat :: bits <= i ==> (i in r <==> Asserted(inputs, i))
  {
    FlipBelow(OrAll(inputs), bits)
  }

  /** With every input null or all-zero, the gate computes all-ones: an unconnected NOR settles high. */
  lemma IdleInputsGiveAllOnes(inputs: seq<InputPin>, bits: nat)
    requires forall k :: 0 <= k < |inputs| ==> Reading(inputs[k]) == {}
    ensures NorValue(inputs, bits) == AllOnes(bits)
  {
  }

  /** The outcome of a run of evaluations: the to-be value it ends with and the values it posted, in order. */
  datatype RunResult = RunResult(pending: Option<set<nat>>, posted: seq<set<nat>>)

  /**
   * A run of evaluations starting from to-be value `pending`, one candidate per
   * evaluation: the final to-be value and every value posted, in order. Each
   * evaluation posts its candidate only when it differs from the to-be value.
   */
  function Run(pending: Option<set<nat>>, cands: seq<set<nat>>): (r: RunResult)
    ensures |r.posted| <= |cands|
    decreases |cands|
  {
    if cands == [] then RunResult(pending, [])
    else if Some(cands[0]) != pending then
      var rest := Run(Some(cands[0]), cands[1..]);
      RunResult(rest.pending, [cands[0]] + rest.posted)
    else
      Run(pending, cands[1..])
  }

  /** One more evaluation at the end of a run: its candidate is posted iff it differs from the to-be value left by the run. */
  lemma {:induction false} RunSnoc(pending: Option<set<nat>>, cands: seq<set<nat>>, c: set<nat>)
    ensures Run(pending, cands + [c]).pending == Some(c)
    ensures Run(pending, cands + [c]).posted == Run(pending, cands).posted + (if Some(c) != Run(pending, cands).pending then [c] else [])
    decreases |cands|
  {
    if cands == [] {
      assert cands + [c] == [c];
      assert [c][1..] == [];
      assert Run(pending, []) == RunResult(pending, []);
      assert Run(Some(c), []) == RunResult(Some(c), []);
      if Some(c) != pending {
        assert Run(pending, [c]) == RunResult(Some(c), [c] + []);
        assert [c] + [] == Run(pending, cands).posted + [c];
      } else {
        assert Run(pending, [c]) == Run(pending, []);
      }
    } else {
      assert (cands + [c])[0] == cands[0];
      assert (cands + [c])[1..] == cands[1..] + [c];
      var next := if Some(cands[0]) != pending then Some(cands[0]) else pending;
      RunSnoc(next, cands[1..], c);
      if Some(cands[0]) != pending {
        assert Run(pending, cands + [c]) == RunResult(Run(next, cands[1..] + [c]).pending, [cands[0]] + Run(next, cands[1..] + [c]).posted);
        assert Run(pending, cands) == RunResult(Run(next, cands[1..]).pending, [cands[0]] + Run(next, cands[1..]).posted);
        assert [cands[0]] + (Run(next, cands[1..]).posted + [c]) == ([cands[0]] + Run(next, cands[1..]).posted) + [c];
      } else {
        assert Run(pending, cands + [c]) == Run(next, cands[1..] + [c]);
        assert Run(pending, cands) == Run(next, cands[1..]);
      }
    }
  }

  /**
   * Glitch suppression as the gate implements it: after any run of evaluations the
   * to-be value is the latest candidate, the last value posted is that to-be value,
   * no value is posted equal to the one pending at that moment (so no two
   * consecutive posts are equal), and there are never more posts than evaluations.
   */
  lemma {:induction false} RunPostsOnlyChanges(pending: Option<set<nat>>, cands: seq<set<nat>>)
    ensures cands != [] ==> Run(pending, cands).pending == Some(cands[|cands| - 1])
    ensures cands == [] ==> Run(pending, cands) == RunResult(pending, [])
    ensures var posted := Run(pending, cands).posted;
      |posted| <= |cands|
      && (|posted| == 0 ==> Run(pending, cands).pending == pending)
      && (|posted| > 0 ==> Some(posted[0]) != pending && Some(posted[|posted| - 1]) == Run(pending, cands).pending)
      && (forall j :: 0 < j < |posted| ==> posted[j] != posted[j - 1])
    decreases |cands|
  {
    if cands != [] {
      var next := if Some(cands[0]) != pending then Some(cands[0]) else pending;
      RunPostsOnlyChanges(next, cands[1..]);
      if |cands| > 1 {
        assert cands[1..][|cands[1..]| - 1] == cands[|cands| - 1];
      }
      var rest := Run(next, cands[1..]);
      if Some(cands[0]) != pending {
        assert Run(pending, cands) == RunResult(rest.pending, [cands[0]] + rest.posted);
      } else {
        assert Run(pending, cands) == rest;
      }
    }
  }

  /**
   * Evaluating repeatedly with unchanged inputs posts at most one event: the
   * candidate once if it differs from the to-be value, and nothing otherwise.
   */
  lemma {:induction false} RunStableInputs(pending: Option<set<nat>>, cands: seq<set<nat>>, c: set<nat>)
    requires forall j :: 0 <= j < |cands| ==> cands[j] == c
    ensures Run(pending, cands).posted == if cands == [] || pending == Some(c) then [] else [c]
    decreases |cands|
  {
    if cands != [] {
      RunStableInputs(Some(c), cands[1..], c);
      RunStableInputs(pending, cands[1..], c);
    }
  }

  /**
   * Lumin's gate does not cancel a pending commit: an input pulse shorter
   * than the delay (candidate b, then back to a) posts both values, so the
   * intermediate value b is posted as well and nothing withdraws it.
   */
  lemma ShortPulseIsPosted(a: set<nat>, b: set<nat>)
    requires a != b
    ensures Run(Some(a), [b, a]).posted == [b, a]
  {
    assert [b, a][1..] == [a];
    assert [a][1..] == [];
    assert Run(Some(a), []) == RunResult(Some(a), []);
    assert Run(Some(b), [a]) == RunResult(Some(a), [a] + []);
  }

  /** The value of the most recent commit event for gate g in the log (None if there is none). */
  function LastCommit(events: seq<Event>, g: object): (r: Option<set<nat>>)
  {
    if events == [] then None
    else
      var e := events[|events| - 1];
      if e.target == g && e.todo.Some? then e.todo else LastCommit(events[..|events| - 1], g)
  }

  /** LastCommit finds the latest commit event for g: the one with no commit for g after it. */
  lemma {:induction false} LastCommitIsLatest(events: seq<Event>, g: object)
    ensures LastCommit(events, g).None? <==> forall k :: 0 <= k < |events| ==> !(events[k].target == g && events[k].todo.Some?)
    ensures LastCommit(events, g).Some? ==> exists k :: (0 <= k < |events| && events[k].target == g && events[k].todo == LastCommit(events, g)
      && forall j :: k < j < |events| ==> !(events[j].target == g && events[j].todo.Some?))
  {
    if events != [] {
      var front := events[..|events| - 1];
      LastCommitIsLatest(front, g);
      var e := events[|events| - 1];
      if !(e.target == g && e.todo.Some?) {
        assert forall k :: 0 <= k < |front| ==> front[k] == events[k];
        if LastCommit(front, g).Some? {
          var k :| 0 <= k < |front| && front[k].target == g && front[k].todo == LastCommit(front, g)
            && forall j :: k < j < |front| ==> !(front[j].target == g && front[j].todo.Some?);
          assert events[k] == front[k];
        }
      }
    }
  }

  /** The n-input NOR gate during simulation. */
  class NorGate {
    const out: Output
    const bits: nat
    const propDelay: int
    var inputs: seq<InputPin>
    /** The value on its way to the output: null until power-on. */
    var toBeValue: Option<set<nat>>

    constructor (out: Output, bits: nat, propDelay: int, inputs: seq<InputPin>)
      ensures this.out == out && this.bits == bits && this.propDelay == propDelay
      ensures this.inputs == inputs && toBeValue == None
    {
      this.out := out;
      this.bits := bits;
      this.propDelay := propDelay;
      this.inputs := inputs;
      toBeValue := None;
    }

    /** The latest commit event the gate posted for itself carries its to-be value. */
    ghost predicate CommitsAgree(sim: Simulator)
      reads this, sim
    {
      LastCommit(sim.events, this) == toBeValue
    }

    /**
     * Power-on: the output is driven to all-zero, one event at time 0 carrying
     * all-ones over `bits` is posted to this gate, and that value becomes the
     * to-be value.
     */
    method InitSim(sim: Simulator)
      modifies this`toBeValue, sim, out
      ensures out.value == {} && out.propagated == old(out.propagated)
      ensures sim.events == old(sim.events) + [Event(0, this, Some(AllOnes(bits)))]
      ensures sim.paused == old(sim.paused) && sim.pauseCalls == old(sim.pauseCalls)
      ensures toBeValue == Some(AllOnes(bits))
      ensures CommitsAgree(sim)
    {
      out.SetValue({});
      var one := AllOnes(bits);
      sim.Post(Event(0, this, Some(one)));
      toBeValue := Some(one);
    }

    /**
     * Reaction to an event. With no todo (an input changed) the candidate
     * NorValue(inputs, bits) becomes the to-be value and is posted at
     * now + propDelay only when it differs from the old to-be value. With a todo
     * value, that value is propagated to the output at `now`, unconditionally.
     */
    method React(now: int, sim: Simulator, todo: Option<set<nat>>)
      modifies this`toBeValue, sim, out
      ensures todo.None? ==>
        var c := NorValue(inputs, bits);
        && toBeValue == Some(c)
        && sim.events == old(sim.events) + (if old(toBeValue) == Some(c) then [] else [Event(now + propDelay, this, Some(c))])
        && out.value == old(out.value) && out.propagated == old(out.propagated)
      ensures todo.Some? ==>
        && toBeValue == old(toBeValue)
        && sim.events == old(sim.events)
        && out.value == todo.value && out.propagated == old(out.propagated) + [(now, todo.value)]
      ensures sim.paused == old(sim.paused) && sim.pauseCalls == old(sim.pauseCalls)
      ensures propDelay >= 0 ==> forall k :: |old(sim.events)| <= k < |sim.events| ==> sim.events[k].time >= now
      ensures old(CommitsAgree(sim)) ==> CommitsAgree(sim)
    {
      if todo.None? {
        // OR the input bits, a null reading counting as empty
        var value: set<nat> := {};
        var i := 0;
        while i < |inputs|
          invariant 0 <= i <= |inputs|
          invariant value == OrAll(inputs[..i])
        {
          var inVal := inputs[i].value;
          if inVal.None? {
            inVal := Some({});
          }
          assert inputs[..i + 1][..i] == inputs[..i];
          value := value + inVal.value;
          i := i + 1;
        }
        assert inputs[..|inputs|] == inputs;
        value := FlipBelow(value, bits);
        if Some(value) != toBeValue {
          toBeValue := Some(value);
          sim.Post(Event(now + propDelay, this, Some(value)));
        }
      } else {
        out.Propagate(todo.value, now, sim);
      }
    }
  }

  /** One asserted 1-bit input is enough to drive the candidate of a 1-bit gate to zero. */
  lemma RisingCandidate(low: InputPin, high: InputPin)
    requires low.value == Some({}) && high.value == Some({0})
    ensures NorValue([low, high], 1) == {}
  {
    assert 0 in Reading([low, high][1]);
    assert Asserted([low, high], 0);
    forall i: nat | 1 <= i
      ensures !Asserted([low, high], i)
    {
      assert Reading([low, high][0]) == {} && Reading([low, high][1]) == {0};
    }
  }

  /**
   * A 2-input, 1-bit gate with delay 5: input A stays 0 and input B rises at time
   * 10. The gate commits 1 at time 0 after power-on, a re-evaluation at time 10
   * posts 0 for time 15, and a second re-evaluation with the same inputs posts
   * nothing; the output therefore carries 1 from time 0 and 0 from time 15.
   */
  method RisingInputScenario() returns (posted: seq<(int, Option<set<nat>>)>, committed: seq<(int, set<nat>)>)
    ensures posted == [(0, Some({0})), (15, Some({}))]
    ensures committed == [(0, {0}), (15, {})]
  {
    var sim := new Simulator();
    var out := new Output();
    var low := InputPin("a", 1, true, Some({}), false);
    var high := InputPin("b", 1, true, Some({0}), false);
    var gate := new NorGate(out, 1, 5, [low, low]);
    gate.InitSim(sim);
    assert AllOnes(1) == {0};
    assert sim.events == [Event(0, gate, Some({0}))];
    gate.React(0, sim, Some({0}));
    assert out.propagated == [(0, {0})];
    gate.inputs := [low, high];
    RisingCandidate(low, high);
    gate.React(10, sim, None);
    assert sim.events == [Event(0, gate, Some({0})), Event(15, gate, Some({}))];
    gate.React(10, sim, None);
    gate.React(15, sim, Some({}));
    var evs := sim.events;
    posted := seq(|evs|, j requires 0 <= j < |evs| => (evs[j].time, evs[j].todo));
    committed := out.propagated;
  }

  /** The candidate of each evaluation, one per snapshot of the inputs. */
  function Cands(snaps: seq<seq<InputPin>>, bits: nat): seq<set<nat>>
  {
    if snaps == [] then [] else Cands(snaps[..|snaps| - 1], bits) + [NorValue(snaps[|snaps| - 1], bits)]
  }

  /** The todo carried by each event of a log, in log order. */
  function Carried(events: seq<Event>): seq<Option<set<nat>>>
  {
    if events == [] then [] else Carried(events[..|events| - 1]) + [events[|events| - 1].todo]
  }

  /** Each value wrapped as a carried commit value. */
  function Somes(values: seq<set<nat>>): seq<Option<set<nat>>>
  {
    if values == [] then [] else Somes(values[..|values| - 1]) + [Some(values[|values| - 1])]
  }

  /** Taking one more snapshot adds its candidate at the end. */
  lemma CandsSnoc(snaps: seq<seq<InputPin>>, i: nat, bits: nat)
    requires i < |snaps|
    ensures Cands(snaps[..i + 1], bits) == Cands(snaps[..i], bits) + [NorValue(snaps[i], bits)]
  {
    assert snaps[..i + 1][..i] == snaps[..i];
  }

  /** One more event adds its todo at the end. */
  lemma CarriedSnoc(events: seq<Event>, e: Event)
    ensures Carried(events + [e]) == Carried(events) + [e.todo]
  {
    assert (events + [e])[..|events|] == events;
  }

  /** One more value adds its wrapped form at the end. */
  lemma SomesSnoc(values: seq<set<nat>>, v: set<nat>)
    ensures Somes(values + [v]) == Somes(values) + [Some(v)]
  {
    assert (values + [v])[..|values|] == values;
  }

  /** Carried lists the todo of every event, position by position. */
  lemma {:induction false} CarriedAt(events: seq<Event>)
    ensures |Carried(events)| == |events|
    ensures forall k :: 0 <= k < |events| ==> Carried(events)[k] == events[k].todo
  {
    if events != [] {
      CarriedAt(events[..|events| - 1]);
    }
  }

  /** Somes wraps every value, position by position. */
  lemma {:induction false} SomesAt(values: seq<set<nat>>)
    ensures |Somes(values)| == |values|
    ensures forall k :: 0 <= k < |values| ==> Somes(values)[k] == Some(values[k])
  {
    if values != [] {
      SomesAt(values[..|values| - 1]);
    }
  }

  /**
   * The events a run posts for gate g on top of log0: the log only grows, every
   * new event is addressed to g, and the new events carry the run's posts in order.
   */
  ghost predicate PostsOf(log0: seq<Event>, events: seq<Event>, g: object, posted: seq<set<nat>>)
  {
    && log0 <= events
    && (forall k :: |log0| <= k < |events| ==> events[k].target == g)
    && Carried(events[|log0|..]) == Somes(posted)
  }

  /**
   * After a run's posts for g are appended to a log, the latest commit for g is
   * the last value posted, or the log's own latest commit if nothing was posted.
   */
  lemma LastCommitAfterPosts(log0: seq<Event>, events: seq<Event>, g: object, posted: seq<set<nat>>)
    requires PostsOf(log0, events, g, posted)
    ensures LastCommit(events, g) == if posted == [] then LastCommit(log0, g) else Some(posted[|posted| - 1])
  {
    var added := events[|log0|..];
    CarriedAt(added);
    SomesAt(posted);
    if posted == [] {
      assert events == log0;
    } else {
      assert added[|added| - 1] == events[|events| - 1];
      assert Carried(added)[|added| - 1] == Some(posted[|posted| - 1]);
    }
  }

  /**
   * One evaluation with candidate c at time t, posting c exactly when it differs
   * from the pending value, extends the posts of the run of candidates `cands` to
   * those of `cands + [c]`.
   */
  lemma StepExtendsRun(p0: Option<set<nat>>, cands: seq<set<nat>>, c: set<nat>, log0: seq<Event>, t: int, g: object,
                       before: seq<Event>, after: seq<Event>)
    requires PostsOf(log0, before, g, Run(p0, cands).posted)
    requires after == before + (if Run(p0, cands).pending == Some(c) then [] else [Event(t, g, Some(c))])
    ensures Run(p0, cands + [c]).pending == Some(c)
    ensures PostsOf(log0, after, g, Run(p0, cands + [c]).posted)
  {
    var prior := Run(p0, cands);
    RunSnoc(p0, cands, c);
    if Some(c) != prior.pending {
      var e := Event(t, g, Some(c));
      assert after[|log0|..] == before[|log0|..] + [e];
      CarriedSnoc(before[|log0|..], e);
      SomesSnoc(prior.posted, c);
    } else {
      assert after == before;
      assert Run(p0, cands + [c]).posted == prior.posted;
    }
  }

  /**
   * One input change inside a run: the snapshot becomes the gate's inputs and the
   * gate re-evaluates at time `now`, extending the run of candidates `cands` by one.
   */
  method Reevaluate(g: NorGate, sim: Simulator, now: int, inputs: seq<InputPin>,
                    ghost p0: Option<set<nat>>, ghost log0: seq<Event>, ghost cands: seq<set<nat>>)
    requires g.toBeValue == Run(p0, cands).pending
    requires PostsOf(log0, sim.events, g, Run(p0, cands).posted)
    modifies g`inputs, g`toBeValue, sim, g.out
    ensures g.inputs == inputs
    ensures g.toBeValue == Run(p0, cands + [NorValue(inputs, g.bits)]).pending
    ensures PostsOf(log0, sim.events, g, Run(p0, cands + [NorValue(inputs, g.bits)]).posted)
    ensures var c := NorValue(inputs, g.bits);
      sim.events == old(sim.events) + (if old(g.toBeValue) == Some(c) then [] else [Event(now + g.propDelay, g, Some(c))])
    ensures sim.paused == old(sim.paused) && sim.pauseCalls == old(sim.pauseCalls)
    ensures g.out.value == old(g.out.value) && g.out.propagated == old(g.out.propagated)
  {
    ghost var log1 := sim.events;
    g.inputs := inputs;
    g.React(now, sim, None);
    StepExtendsRun(p0, cands, NorValue(inputs, g.bits), log0, now + g.propDelay, g, log1, sim.events);
  }

  /**
   * A series of input changes handled by the gate, the i-th at time times[i]
   * (so a pulse shorter than the delay is covered): each snapshot becomes the
   * gate's inputs and the gate re-evaluates. The to-be value and the values of
   * the events posted are those the run of candidates predicts, so the facts
   * proved about Run hold of the gate itself.
   */
  method Evaluations(g: NorGate, sim: Simulator, times: seq<int>, snaps: seq<seq<InputPin>>)
    requires |times| == |snaps|
    modifies g`inputs, g`toBeValue, sim, g.out
    ensures g.toBeValue == Run(old(g.toBeValue), Cands(snaps, g.bits)).pending
    ensures old(sim.events) <= sim.events
    ensures forall k :: |old(sim.events)| <= k < |sim.events| ==> sim.events[k].target == g
    ensures Carried(sim.events[|old(sim.events)|..]) == Somes(Run(old(g.toBeValue), Cands(snaps, g.bits)).posted)
    ensures g.inputs == if snaps == [] then old(g.inputs) else snaps[|snaps| - 1]
    ensures sim.paused == old(sim.paused) && sim.pauseCalls == old(sim.pauseCalls)
    ensures g.out.value == old(g.out.value) && g.out.propagated == old(g.out.propagated)
    ensures old(g.CommitsAgree(sim)) ==> g.CommitsAgree(sim)
  {
    ghost var p0, log0 := g.toBeValue, sim.events;
    ghost var cs: seq<set<nat>> := [];
    ghost var last := g.inputs;
    assert sim.events[|log0|..] == [];
    var i := 0;
    while i < |snaps|
      invariant 0 <= i <= |snaps|
      invariant cs == Cands(snaps[..i], g.bits)
      invariant g.toBeValue == Run(p0, cs).pending
      invariant PostsOf(log0, sim.events, g, Run(p0, cs).posted)
      invariant g.inputs == last
      invariant i == 0 ==> last == old(g.inputs)
      invariant i > 0 ==> last == snaps[i - 1]
      invariant sim.paused == old(sim.paused) && sim.pauseCalls == old(sim.pauseCalls)
      invariant g.out.value == old(g.out.value) && g.out.propagated == old(g.out.propagated)
    {
      CandsSnoc(snaps, i, g.bits);
      Reevaluate(g, sim, times[i], snaps[i], p0, log0, cs);
      cs := cs + [NorValue(snaps[i], g.bits)];
      last := snaps[i];
      i := i + 1;
    }
    assert snaps[..|snaps|] == snaps;
    RunPostsOnlyChanges(p0, cs);
    LastCommitAfterPosts(log0, sim.events, g, Run(p0, cs).posted);
  }
}
