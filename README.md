# NOR gate and pause element of the Lumin logic simulator

Lumin is a digital-logic circuit editor with an event-driven simulator. Every
logic element has two simulation hooks. `initSim` runs at power-on. `react(now,
sim, todo)` runs when the simulator dispatches an event to the element. This
project models those hooks for two elements, without their drawing and editing
code:

- **NorGate** (n inputs, `bits` wide, delay `propDelay`). At power-on it drives
  its output to all-zero and posts a time-0 event carrying all-ones. That value
  becomes its `toBeValue`. When an input changes (`todo` is null), it ORs the
  inputs and complements positions `0..bits-1`. It posts the result at
  `now + propDelay` only when the result differs from `toBeValue`. When a
  carried value is due (`todo` is not null), it propagates that value to its
  output.
- **Pause** (four 1-bit inputs). `init` creates the inputs. Drawing prunes
  unattached inputs. `initSim` sets `currentValue` from the tri-state flag of the
  last attached input. `react` asks the simulator to pause when the first
  attached input reads a non-null value with a set bit.

A `BitSet` is a `set<nat>` of set positions, and a nullable reference is an
`Option`. The collaborators the elements call are stubs in module `Sim`:
- the simulator keeps a log of posted events, a `paused` flag and a count of
  pause requests;
- an output pin keeps its value and a log of `(time, value)` propagations;
- an input pin is a record of its name, width, attachment, the value its net
  reads and that net's tri-state flag.

Files: `bits.dfy` (bit values), `sim.dfy` (stubs, module `Sim`), `norgate.dfy`
(module `Nor`), `pause.dfy` (module `PauseElement`).

Behaviour of the code worth noting:
- **Unattached or null inputs.** A null reading contributes no set bit to the
  OR. It is not treated as an "unknown" value, because the code is two-valued.
- **Short input pulses.** A pulse shorter than the gate delay is not
  suppressed. Both the intermediate and the final value are posted
  (`ShortPulseIsPosted`). What the gate does guarantee is proved in
  `RunPostsOnlyChanges`: the last value posted is always the latest candidate,
  and no evaluation posts the value that is already pending.
- **Runs of evaluations.** `Evaluations` drives the gate itself through a series
  of input changes, each re-evaluated at its own simulation time. It shows that
  the values the gate posts are the ones `Run` predicts. So the facts proved
  about `Run` hold of `react` too, including for evaluations closer together
  than the delay.
- **Power-on of Pause.** The last attached input decides `currentValue`. A
  later attached input overrides the tri-state flag of an earlier one. `react`
  never reads `currentValue`.
- **Pruning and `react`.** Pruning removes only unattached inputs, or restores
  four unattached defaults. So it never changes which input is the first or the
  last attached one. `react` and `initSim` therefore behave the same before and
  after pruning (`PruningKeepsBehaviour`).

## Model

| member | source | states |
|---|---|---|
| Bits.AllOnes | app/src/main/java/org/hargisa/elem/NorGate.java:160-161 | exactly the positions below n are set, so the value has n set bits |
| Bits.FlipBelow | app/src/main/java/org/hargisa/elem/NorGate.java:188 | positions below n are complemented and every higher position is kept |
| Nor.OrAll | app/src/main/java/org/hargisa/elem/NorGate.java:181-187 | bit i is set iff some input reads bit i as set; null readings contribute nothing |
| Nor.NorValue | app/src/main/java/org/hargisa/elem/NorGate.java:181-188 | below `bits` a bit is set iff no input sets it; at or above `bits` a bit is set iff some input sets it |
| Nor.IdleInputsGiveAllOnes | app/src/main/java/org/hargisa/elem/NorGate.java:181-188 | with every input null or all-zero the candidate is all-ones over `bits`, the value power-on already posted |
| Nor.Run | app/src/main/java/org/hargisa/elem/NorGate.java:190-195 | a run of evaluations against a pending value never posts more values than there were evaluations |
| Nor.RunSnoc | app/src/main/java/org/hargisa/elem/NorGate.java:190-195 | one more evaluation leaves its candidate pending and adds it to the posts exactly when it differs from the value pending before |
| Nor.RunPostsOnlyChanges | app/src/main/java/org/hargisa/elem/NorGate.java:190-195 | over any run of evaluations: the to-be value ends as the last candidate; the last posted value equals it; nothing is posted equal to the pending value; consecutive posts differ; posts never outnumber evaluations |
| Nor.RunStableInputs | app/src/main/java/org/hargisa/elem/NorGate.java:190-195 | re-evaluating with unchanged inputs posts the candidate at most once, and not at all when it is already pending |
| Nor.ShortPulseIsPosted | app/src/main/java/org/hargisa/elem/NorGate.java:190-195 | a candidate that changes and changes back posts both values, because no pending commit is cancelled |
| Nor.LastCommitIsLatest | app/src/main/java/org/hargisa/elem/NorGate.java:192-194 | the latest commit found for a gate is carried by an event for that gate with no later commit for it; none is found iff the log has no commit for the gate |
| Nor.LastCommitAfterPosts | app/src/main/java/org/hargisa/elem/NorGate.java:192-194 | once a run's posts for a gate are appended to a log, its latest commit is the last value posted, or the log's earlier one if nothing was posted |
| Nor.NorGate.constructor | app/src/main/java/org/hargisa/elem/NorGate.java:145 | the to-be value is null until power-on |
| Nor.NorGate.InitSim | app/src/main/java/org/hargisa/elem/NorGate.java:152-166 | output driven to all-zero; exactly one event posted, at time 0, to this gate, carrying all-ones over `bits`; the to-be value is that value; the log's latest commit for the gate agrees with it |
| Nor.NorGate.React | app/src/main/java/org/hargisa/elem/NorGate.java:175-207 | on an input change the to-be value becomes the candidate, which is posted at now + propDelay iff it differed, with the output untouched; on a carried value that value is propagated at `now`, with the to-be value and the log untouched; with propDelay >= 0 every posted event is at time >= now; the latest commit in the log keeps agreeing with the to-be value |
| Nor.StepExtendsRun | app/src/main/java/org/hargisa/elem/NorGate.java:190-195 | an evaluation at any time that posts its candidate exactly when it differs from the pending value turns a log whose new events carry a run's posts into one whose new events carry the posts of the run extended by that candidate |
| Nor.Reevaluate | app/src/main/java/org/hargisa/elem/NorGate.java:175-196 | one input change followed by `react` with a null todo, at any time, extends the run: the to-be value is that of the run extended by the new candidate, and the events added since the run began are addressed to the gate and carry that run's posts; exactly the new candidate is posted, at now + propDelay, iff it differs from the old to-be value; the pause flag and count and the output are untouched |
| Nor.Evaluations | app/src/main/java/org/hargisa/elem/NorGate.java:175-196 | a series of input changes, each followed by `react` at its own time, leaves the to-be value as the run of their candidates predicts; the log only grows, and the events added are addressed to the gate and carry exactly the run's posts in order, so every fact proved about the run holds of the gate; the pause flag and count and the output are untouched and the latest commit keeps agreeing with the to-be value |
| Nor.RisingCandidate | app/src/main/java/org/hargisa/elem/NorGate.java:181-188 | a 1-bit gate with one input reading 0 and one reading 1 computes 0 |
| Nor.RisingInputScenario | app/src/main/java/org/hargisa/elem/NorGate.java:152-207 | a 2-input, 1-bit gate with delay 5 whose input B rises at time 10 posts 1 at time 0 and 0 at time 15, and nothing else; its output carries 1 from time 0 and 0 from time 15 |
| PauseElement.FirstAttached | app/src/main/java/org/hargisa/elem/Pause.java:210-213 | the index of an attached input with no attached input before it, or none when no input is attached |
| PauseElement.LastAttached | app/src/main/java/org/hargisa/elem/Pause.java:188-191 | the index of an attached input with no attached input after it, or none when no input is attached |
| PauseElement.DefaultInputs | app/src/main/java/org/hargisa/elem/Pause.java:71-74 | four inputs named input0 to input3, each 1 bit wide and unattached; their reading is modelled as null |
| PauseElement.ShouldPause | app/src/main/java/org/hargisa/elem/Pause.java:210-217 | a pause is requested iff some attached input, with no attached input before it, reads non-null with at least one set bit |
| PauseElement.InitValue | app/src/main/java/org/hargisa/elem/Pause.java:188-197 | with no attached input the current value is kept; otherwise the last attached input decides: null when its net is tri-state, an empty bit-set when not |
| PauseElement.Unattached | app/src/main/java/org/hargisa/elem/Pause.java:92-96 | the collected inputs are all unattached |
| PauseElement.UnattachedMembers | app/src/main/java/org/hargisa/elem/Pause.java:92-96 | the collected inputs are exactly the unattached members of the list |
| PauseElement.AttachedMembers | app/src/main/java/org/hargisa/elem/Pause.java:99-103 | what `removeAll` keeps holds exactly the attached members of the list |
| PauseElement.Attached | app/src/main/java/org/hargisa/elem/Pause.java:99-103 | what `removeAll` keeps: only attached inputs, as many as the list holds minus the unattached ones |
| PauseElement.RemoveAll | app/src/main/java/org/hargisa/elem/Pause.java:103 | what is left is no longer than the list, holds only list members that do not occur in the removed collection, and keeps every member that does not occur there |
| PauseElement.Pruned | app/src/main/java/org/hargisa/elem/Pause.java:92-112 | with no unattached input or four or more, the list is unchanged; with one to three, the result is either the four defaults (lines 106-110) or a non-empty list of attached inputs only |
| PauseElement.RemoveUnattached | app/src/main/java/org/hargisa/elem/Pause.java:103 | removing the collected unattached inputs leaves exactly the attached inputs |
| PauseElement.RemoveCollected | app/src/main/java/org/hargisa/elem/Pause.java:92-103 | `removeAll` applied to the collected unattached inputs leaves exactly the attached inputs |
| PauseElement.AttachedAppend | app/src/main/java/org/hargisa/elem/Pause.java:103 | keeping the attached inputs distributes over concatenation, so their original order is preserved |
| PauseElement.AttachedHead | app/src/main/java/org/hargisa/elem/Pause.java:103 | the first attached input of the list is the first element left after removal |
| PauseElement.AttachedLast | app/src/main/java/org/hargisa/elem/Pause.java:103 | the last attached input of the list is the last element left after removal |
| PauseElement.PruningKeepsBehaviour | app/src/main/java/org/hargisa/elem/Pause.java:92-112 | after pruning, `react` decides the same way and `initSim` computes the same current value as before |
| PauseElement.PruningIsIdempotent | app/src/main/java/org/hargisa/elem/Pause.java:92-112 | pruning an already pruned list changes nothing |
| PauseElement.LaterInputsIgnored | app/src/main/java/org/hargisa/elem/Pause.java:210-218 | inputs after the first attached one can be replaced by anything without changing whether a pause is requested |
| PauseElement.AssertedSecondInputIgnored | app/src/main/java/org/hargisa/elem/Pause.java:210-218 | an asserted attached input behind an idle attached one does not cause a pause |
| PauseElement.Pause.constructor | app/src/main/java/org/hargisa/elem/Pause.java:179 | the current value starts as an empty bit-set |
| PauseElement.Pause.Init | app/src/main/java/org/hargisa/elem/Pause.java:63-75 | exactly four inputs, input0 to input3, are appended; each is 1 bit wide and unattached |
| PauseElement.Pause.CollectUnattached | app/src/main/java/org/hargisa/elem/Pause.java:92-96 | the collection loop returns exactly the unattached inputs of the list, in list order |
| PauseElement.Pause.PruneInputs | app/src/main/java/org/hargisa/elem/Pause.java:92-112 | with 1 to 3 unattached inputs, the attached ones remain in order, or exactly the four defaults when none remain; otherwise the list is unchanged |
| PauseElement.Pause.InitSim | app/src/main/java/org/hargisa/elem/Pause.java:186-198 | the current value is null if the last attached input's net is tri-state and an empty bit-set otherwise; it is left unchanged when nothing is attached |
| PauseElement.Pause.React | app/src/main/java/org/hargisa/elem/Pause.java:207-220 | pause is requested once iff the first attached input reads non-null with a set bit; the flag is otherwise untouched; no event is posted and the current value is not changed |

## Left out

- Drawing, geometry and editor code: the gate shape, `setup`, `copy`, `save`,
  `showInfo`, the pin positions given to `Input`, and the rendering part of
  `Pause.draw`. These are GUI and persistence plumbing.
- The editor defaults `previousInputs`, `previousBits`, `previousOrientation`
  and `setToPrevious`. They only remember settings for the next gate placed.
- `Simulator`, `SimEvent`, `Output`, `Input`, `Net`, `Gate` and `LogicElement`
  are not part of this model. They appear only as the stubs in `Sim`. The
  event queue's ordering and dispatch loop are not modelled.
- Nor.NorGate.React: the fan-out done by `Output.propagate` is not modelled,
  because its code is not part of this model. The stub only records the value
  and the time, so "posts no event itself" holds of the gate and the stub.
- Nor.NorGate.React: does not model the 64-bit wrap-around of
  `now + propDelay`, because time is an unbounded integer here.
- Runtime exceptions are not modelled. These are a `todo` that is not a
  `BitSet`, a gate without outputs, and a negative `bits`. The width is a
  natural number and the payload is a bit value by type.
- Java object identity is not modelled. Bit values are immutable sets. This is
  faithful because the gate stores a clone as `toBeValue` and nothing changes a
  posted value afterwards. `removeAll` is modelled as removal by value. That
  removes exactly the unattached inputs (`RemoveUnattached`).
- Nor.Evaluations: states the target and the carried value of each event
  posted, not its time. `React` itself states the time of each post: the
  evaluation's time plus `propDelay`.
- Unknown or undriven bit states are not modelled: `BitSet` is two-valued.
