/**
 * The simulator, output pins and input pins as the two elements see them. Their
 * implementations are not part of this model: each is a stub that records what
 * an element asked of it.
 */
module Sim {

  import opened Bits

  /**
   * A scheduled event `SimEvent(time, target, todo)`. A `None` todo (null in
   * Java) means "an input changed, re-evaluate"; `Some(v)` means "v is now due
   * on your output".
   */
  datatype Event = Event(time: int, target: object, todo: Option<set<nat>>)

  /**
   * An input pin: its name and width, whether a wire is attached to it, the value
   * `getValue()` reads from its net (None for null), and whether that net is
   * tri-state.
   */
  datatype InputPin = InputPin(name: string, bits: nat, attached: bool, value: Option<set<nat>>, triState: bool)

  /** What an element reads from an input: a null reading contributes no set bit. */
  function Reading(p: InputPin): set<nat>
  {
    if p.value.Some? then p.value.value else {}
  }

  /** The simulator as elements use it: an event log fed by `post` and a pause flag set by `pause`. */
  class Simulator {
    var events: seq<Event>
    var paused: bool
    var pauseCalls: nat

    constructor ()
      ensures events == [] && !paused && pauseCalls == 0
    {
      events := [];
      paused := false;
      pauseCalls := 0;
    }

    /** `post`: the event is appended to the log; queue order and dispatch are not modelled. */
    method Post(e: Event)
      modifies this
      ensures events == old(events) + [e]
      ensures paused == old(paused) && pauseCalls == old(pauseCalls)
    {
      events := events + [e];
    }

    /** `pause(flag)`: the flag is recorded and the request counted. */
    method Pause(flag: bool)
      modifies this
      ensures paused == flag && pauseCalls == old(pauseCalls) + 1
      ensures events == old(events)
    {
      paused := flag;
      pauseCalls := pauseCalls + 1;
    }
  }

  /** An output pin: the value it drives and the log of (time, value) propagations. */
  class Output {
    var value: set<nat>
    var propagated: seq<(int, set<nat>)>

    constructor ()
      ensures value == {} && propagated == []
    {
      value := {};
      propagated := [];
    }

    /** `setValue`: drive the value without notifying anyone. */
    method SetValue(v: set<nat>)
      modifies this
      ensures value == v && propagated == old(propagated)
    {
      value := v;
    }

    /** `propagate`: drive the value at time `now`; the fan-out to attached inputs is not modelled. */
    method Propagate(v: set<nat>, now: int, sim: Simulator)
      modifies this
      ensures value == v && propagated == old(propagated) + [(now, v)]
    {
      value := v;
      propagated := propagated + [(now, v)];
    }
  }
}
