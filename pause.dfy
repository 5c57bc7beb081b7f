/**
 * Simulation behaviour of the pause element: up to four 1-bit inputs, the pruning
 * of unattached inputs done while drawing, power-on, and the pause request.
 */
module PauseElement {

  import opened Bits
  import opened Sim

  /**
   * A freshly created, unattached 1-bit input. `Input` is not part of this model:
   * with no wire attached its reading is modelled as null and its net as not
   * tri-state; `react` and `initSim` skip unattached inputs, so neither choice
   * affects them.
   */
  function NewInput(name: string): InputPin
  {
    InputPin(name, 1, false, None, false)
  }

  /** The four inputs the element is created with, in creation order. */
  function DefaultInputs(): (r: seq<InputPin>)
    ensures |r| == 4
    ensures forall k :: 0 <= k < |r| ==> r[k].bits == 1 && !r[k].attached && r[k].value.None?
    ensures r[0].name == "input0" && r[1].name == "input1" && r[2].name == "input2" && r[3].name == "input3"
  {
    [NewInput("input0"), NewInput("input1"), NewInput("input2"), NewInput("input3")]
  }

  /** Index of the first attached input in list order, if any. */
  function FirstAttached(s: seq<InputPin>): (r: Option<nat>)
    ensures r.None? <==> forall k :: 0 <= k < |s| ==> !s[k].attached
    ensures r.Some? ==> r.value < |s| && s[r.value].attached && forall k :: 0 <= k < r.value ==> !s[k].attached
  {
    if s == [] then None
    else if s[0].attached then Some(0)
    else
      match FirstAttached(s[1..])
      case None => None
      case Some(k) => Some(k + 1)
  }

  /** Index of the last attached input in list order, if any. */
  function LastAttached(s: seq<InputPin>): (r: Option<nat>)
    ensures r.None? <==> forall k :: 0 <= k < |s| ==> !s[k].attached
    ensures r.Some? ==> r.value < |s| && s[r.value].attached && forall k :: r.value < k < |s| ==> !s[k].attached
  {
    if s == [] then None
    else if s[|s| - 1].attached then Some(|s| - 1)
    else LastAttached(s[..|s| - 1])
  }

  /** Whether a reaction requests a pause: the first attached input reads non-null with a set bit. */
  function ShouldPause(s: seq<InputPin>): (r: bool)
    ensures r <==> exists k :: 0 <= k < |s| && s[k].attached && (forall j :: 0 <= j < k ==> !s[j].attached)
                                && s[k].value.Some? && |s[k].value.value| != 0
  {
    match FirstAttached(s)
    case None => false
    case Some(k) => s[k].value.Some? && |s[k].value.value| != 0
  }

  /** The current value after power-on, given the value before it. */
  function InitValue(current: Option<set<nat>>, s: seq<InputPin>): (r: Option<set<nat>>)
    ensures (forall k :: 0 <= k < |s| ==> !s[k].attached) ==> r == current
    ensures forall k :: 0 <= k < |s| && s[k].attached && (forall j :: k < j < |s| ==> !s[j].attached)
                        ==> r == if s[k].triState then None else Some({})
  {
    match LastAttached(s)
    case None => current
    case Some(k) => if s[k].triState then None else Some({})
  }

  /** The unattached inputs, in list order. */
  function Unattached(s: seq<InputPin>): (r: seq<InputPin>)
    ensures forall k :: 0 <= k < |r| ==> !r[k].attached
  {
    if s == [] then []
    else Unattached(s[..|s| - 1]) + (if s[|s| - 1].attached then [] else [s[|s| - 1]])
  }

  /** The attached inputs, in list order. */
  function Attached(s: seq<InputPin>): (r: seq<InputPin>)
    ensures forall k :: 0 <= k < |r| ==> r[k].attached
    ensures |r| + |Unattached(s)| == |s|
  {
    if s == [] then []
    else Attached(s[..|s| - 1]) + (if s[|s| - 1].attached then [s[|s| - 1]] else [])
  }

  /** `List.removeAll(d)`: every element that occurs in d is dropped, the rest keep their order. */
  function RemoveAll(s: seq<InputPin>, d: seq<InputPin>): (r: seq<InputPin>)
    ensures |r| <= |s|
    ensures forall k :: 0 <= k < |r| ==> r[k] in s && r[k] !in d
    ensures forall k :: 0 <= k < |s| && s[k] !in d ==> s[k] in r
  {
    if s == [] then []
    else RemoveAll(s[..|s| - 1], d) + (if s[|s| - 1] in d then [] else [s[|s| - 1]])
  }

  /**
   * The input list after the pruning step of drawing: when one to three inputs are
   * unattached they are all removed, and if that leaves nothing the four default
   * inputs are put back; otherwise the list is unchanged.
   */
  function Pruned(s: seq<InputPin>): (r: seq<InputPin>)
    ensures !(0 < |Unattached(s)| < 4) ==> r == s
    ensures 0 < |Unattached(s)| < 4 ==> r == DefaultInputs() || (r != [] && forall k :: 0 <= k < |r| ==> r[k].attached)
  {
    var count := |Unattached(s)|;
    if 0 < count < 4 then
      if Attached(s) == [] then DefaultInputs() else Attached(s)
    else s
  }

  /** The unattached part holds exactly the unattached members of the list. */
  lemma {:induction false} UnattachedMembers(s: seq<InputPin>)
    ensures forall x :: x in Unattached(s) <==> x in s && !x.attached
  {
    if s != [] {
      var front := s[..|s| - 1];
      UnattachedMembers(front);
      assert s == front + [s[|s| - 1]];
    }
  }

  /** The attached part holds exactly the attached members of the list. */
  lemma {:induction false} AttachedMembers(s: seq<InputPin>)
    ensures forall x :: x in Attached(s) <==> x in s && x.attached
  {
    if s != [] {
      var front := s[..|s| - 1];
      AttachedMembers(front);
      assert s == front + [s[|s| - 1]];
    }
  }

  /** A list whose inputs are all unattached is its own unattached part. */
  lemma {:induction false} NoneAttached(s: seq<InputPin>)
    requires forall k :: 0 <= k < |s| ==> !s[k].attached
    ensures Unattached(s) == s
  {
    if s != [] {
      var front := s[..|s| - 1];
      NoneAttached(front);
      assert front + [s[|s| - 1]] == s;
    }
  }

  /** Removing exactly the unattached inputs is keeping the attached ones. */
  lemma {:induction false} RemoveUnattached(s: seq<InputPin>, d: seq<InputPin>)
    requires forall x :: x in s ==> (x in d <==> !x.attached)
    ensures RemoveAll(s, d) == Attached(s)
  {
    if s != [] {
      var front := s[..|s| - 1];
      assert forall x :: x in front ==> x in s;
      RemoveUnattached(front, d);
    }
  }

  /** Removing the unattached inputs collected from a list keeps its attached inputs. */
  lemma RemoveCollected(s: seq<InputPin>)
    ensures RemoveAll(s, Unattached(s)) == Attached(s)
  {
    UnattachedMembers(s);
    RemoveUnattached(s, Unattached(s));
  }

  /** Keeping the attached inputs preserves their order: it distributes over concatenation. */
  lemma {:induction false} AttachedAppend(a: seq<InputPin>, b: seq<InputPin>)
    ensures Attached(a + b) == Attached(a) + Attached(b)
    decreases |b|
  {
    if b == [] {
      assert a + b == a;
    } else {
      var b' := b[..|b| - 1];
      assert (a + b)[..|a + b| - 1] == a + b';
      AttachedAppend(a, b');
    }
  }

  /** The first attached input is the head of the attached inputs. */
  lemma {:induction false} AttachedHead(s: seq<InputPin>)
    ensures FirstAttached(s).Some? <==> Attached(s) != []
    ensures FirstAttached(s).Some? ==> Attached(s)[0] == s[FirstAttached(s).value]
  {
    if s != [] {
      AttachedAppend([s[0]], s[1..]);
      assert [s[0]] + s[1..] == s;
      assert Attached([s[0]]) == (if s[0].attached then [s[0]] else []) by {
        assert [s[0]][..0] == [];
      }
      var rest := s[1..];
      AttachedHead(rest);
      if s[0].attached {
        assert Attached(s) == [s[0]] + Attached(rest);
        assert FirstAttached(s) == Some(0);
      } else {
        assert Attached(s) == Attached(rest);
        match FirstAttached(rest)
        case None =>
          assert FirstAttached(s) == None;
        case Some(k) =>
          assert FirstAttached(s) == Some(k + 1);
          assert s[k + 1] == rest[k];
      }
    }
  }

  /** The last attached input is the last of the attached inputs. */
  lemma {:induction false} AttachedLast(s: seq<InputPin>)
    ensures LastAttached(s).Some? <==> Attached(s) != []
    ensures LastAttached(s).Some? ==> Attached(s)[|Attached(s)| - 1] == s[LastAttached(s).value]
  {
    if s != [] {
      var front := s[..|s| - 1];
      AttachedLast(front);
      if !s[|s| - 1].attached {
        assert Attached(s) == Attached(front);
        assert LastAttached(s) == LastAttached(front);
      }
    }
  }

  /** A list whose inputs are all attached is its own attached part and has no unattached part. */
  lemma {:induction false} AllAttached(s: seq<InputPin>)
    requires forall k :: 0 <= k < |s| ==> s[k].attached
    ensures Attached(s) == s && Unattached(s) == []
  {
    if s != [] {
      var front := s[..|s| - 1];
      AllAttached(front);
      assert front + [s[|s| - 1]] == s;
    }
  }

  /**
   * Pruning never changes which input the reactions consult: a list and its pruned
   * form have the same first and the same last attached input, so `react` decides
   * the same way and `initSim` sets the same current value.
   */
  lemma PruningKeepsBehaviour(s: seq<InputPin>, current: Option<set<nat>>)
    ensures ShouldPause(Pruned(s)) == ShouldPause(s)
    ensures InitValue(current, Pruned(s)) == InitValue(current, s)
  {
    var count := |Unattached(s)|;
    if 0 < count < 4 {
      var kept := Attached(s);
      AttachedHead(s);
      AttachedLast(s);
      if kept == [] {
        assert FirstAttached(DefaultInputs()) == None;
        assert LastAttached(DefaultInputs()) == None;
      } else {
        assert FirstAttached(kept) == Some(0);
        assert LastAttached(kept) == Some(|kept| - 1);
      }
    }
  }

  /** Pruning twice is pruning once: afterwards no input or every input is unattached. */
  lemma PruningIsIdempotent(s: seq<InputPin>)
    ensures Pruned(Pruned(s)) == Pruned(s)
  {
    var count := |Unattached(s)|;
    if 0 < count < 4 {
      var kept := Attached(s);
      if kept == [] {
        NoneAttached(DefaultInputs());
      } else {
        AllAttached(kept);
      }
    }
  }

  /** Only the first attached input matters: the inputs after it may be replaced by anything. */
  lemma LaterInputsIgnored(s: seq<InputPin>, k: nat, t: seq<InputPin>)
    requires FirstAttached(s) == Some(k)
    ensures ShouldPause(s[..k + 1] + t) == ShouldPause(s)
  {
    var s' := s[..k + 1] + t;
    assert s'[k] == s[k];
    assert forall j :: 0 <= j < k ==> s'[j] == s[j];
    assert FirstAttached(s') == Some(k);
  }

  /** An asserted input behind an attached idle one does not cause a pause. */
  lemma AssertedSecondInputIgnored(idle: InputPin, asserted: InputPin)
    requires idle.attached && Reading(idle) == {}
    requires asserted.attached && asserted.value == Some({0})
    ensures !ShouldPause([idle, asserted])
  {
  }

  /** The pause element during simulation. */
  class Pause {
    var inputs: seq<InputPin>
    var currentValue: Option<set<nat>>

    constructor ()
      ensures inputs == [] && currentValue == Some({})
    {
      inputs := [];
      currentValue := Some({});
    }

    /** Creates the four 1-bit inputs input0..input3 at the end of the input list. */
    method Init()
      modifies this`inputs
      ensures inputs == old(inputs) + DefaultInputs()
      ensures |inputs| == |old(inputs)| + 4
      ensures forall k :: |old(inputs)| <= k < |inputs| ==> inputs[k].bits == 1 && !inputs[k].attached
    {
      inputs := inputs + [NewInput("input0")];
      inputs := inputs + [NewInput("input1")];
      inputs := inputs + [NewInput("input2")];
      inputs := inputs + [NewInput("input3")];
    }

    /** The collection loop of drawing: the unattached inputs, in list order. */
    method CollectUnattached() returns (detach: seq<InputPin>)
      ensures detach == Unattached(inputs)
    {
      detach := [];
      var i := 0;
      while i < |inputs|
        invariant 0 <= i <= |inputs|
        invariant detach == Unattached(inputs[..i])
      {
        assert inputs[..i + 1][..i] == inputs[..i];
        if !inputs[i].attached {
          detach := detach + [inputs[i]];
        }
        i := i + 1;
      }
      assert inputs[..|inputs|] == inputs;
    }

    /**
     * The pruning step of drawing: collect the unattached inputs; if there are one
     * to three of them remove them all, restoring the four default inputs if the
     * list became empty.
     */
    method PruneInputs()
      modifies this`inputs
      ensures inputs == Pruned(old(inputs))
      ensures 0 < |Unattached(old(inputs))| < 4 && Attached(old(inputs)) != [] ==> inputs == Attached(old(inputs))
      ensures 0 < |Unattached(old(inputs))| < 4 && Attached(old(inputs)) == [] ==> inputs == DefaultInputs()
      ensures !(0 < |Unattached(old(inputs))| < 4) ==> inputs == old(inputs)
    {
      var detach := CollectUnattached();
      var count := |detach|;
      if 0 < count < 4 {
        RemoveCollected(inputs);
        inputs := RemoveAll(inputs, detach);
        if |inputs| == 0 {
          inputs := inputs + DefaultInputs();
          assert inputs == DefaultInputs();
        }
      }
    }

    /**
     * Power-on: each attached input in turn sets the current value to null when its
     * net is tri-state and to an empty bit-set otherwise, so the last attached
     * input decides; with none attached the value is left as it was.
     */
    method InitSim(sim: Simulator)
      modifies this`currentValue
      ensures currentValue == InitValue(old(currentValue), inputs)
      ensures LastAttached(inputs).None? ==> currentValue == old(currentValue)
    {
      var i := 0;
      while i < |inputs|
        invariant 0 <= i <= |inputs|
        invariant currentValue == InitValue(old(currentValue), inputs[..i])
      {
        assert inputs[..i + 1][..i] == inputs[..i];
        if !inputs[i].attached {
          i := i + 1;
          continue;
        }
        if inputs[i].triState {
          currentValue := None;
        } else {
          currentValue := Some({});
        }
        i := i + 1;
      }
      assert inputs[..|inputs|] == inputs;
    }

    /**
     * Reaction: the first attached input is read and a pause is requested when its
     * value is non-null with a set bit; the inputs after it are not looked at. No
     * event is posted and the current value is not touched.
     */
    method React(now: int, sim: Simulator, todo: Option<set<nat>>)
      modifies sim
      ensures sim.events == old(sim.events)
      ensures ShouldPause(inputs) ==> sim.paused && sim.pauseCalls == old(sim.pauseCalls) + 1
      ensures !ShouldPause(inputs) ==> sim.paused == old(sim.paused) && sim.pauseCalls == old(sim.pauseCalls)
    {
      for i := 0 to |inputs|
        invariant forall k :: 0 <= k < i ==> !inputs[k].attached
        invariant sim.events == old(sim.events) && sim.paused == old(sim.paused)
        invariant sim.pauseCalls == old(sim.pauseCalls)
      {
        if !inputs[i].attached {
          continue;
        }
        var v := inputs[i].value;
        if v.Some? && |v.value| != 0 {
          sim.Pause(true);
        }
        return;
      }
    }
  }
}
