# SSVEP marker-stream experiment: a Dafny model

This project models the PsychoPy script `24SEP.py`, which runs a steady-state
visually evoked potential (SSVEP) session. It shows a "Ready go....." gate.
It then runs a fixed list of phases: Rest, 5 Hz, Rest, 7 Hz, Rest, Ending.
Each phase pushes an integer start code on an LSL marker stream and draws
frames. In the SSVEP phases a square flickers white and black at the phase's
frequency. When the phase ends, it pushes an end code. The recorded EEG is
later cut into epochs using these codes, so the model proves which codes are
sent and in what order.

Modules:

- `Flicker`: the fill-colour rule.
  - Python's float `%` is modelled as a floored remainder over the reals.
  - Python truthiness of the optional frequency is modelled too.
- `Protocol`:
  - the trigger-code constants and the durations;
  - the fixed phase list;
  - `Markers`, the trace a list of phases emits.
- `Devices`: the two pieces of state the script mutates.
  - `Outlet` keeps the pushed samples as a `seq<int>` field.
  - `Display` keeps the stimulus fill, the task text, the list of flipped frames and whether the window is open.
- `Task` / `TaskProperties`: `run_task`.
  - It is an imperative loop over clock readings.
  - It is proved against `StopFrom`, the first reading that ends the phase.
- `Gate`: the ready-gate loop.
- `Run` / `RunProperties`: the top level.
  - Every phase of the list runs in order, and an abort stops the run.
  - The run always leaves the window closed.
  - The properties cover every key and timing input.

The real clock and the keyboard are inputs.

- A phase receives a sequence of `Tick(time, drawTime, keys)`. Each `Tick` holds:
  - the clock reading compared at the loop head;
  - the reading used for the flicker test;
  - the batch `event.getKeys()` returned on that pass.
- The gate receives a sequence of `Poll(time, keys)`.
- A phase's readings must eventually end it (`EndsFrom`). A clock that keeps advancing until it reaches the duration guarantees this.

`core.quit()` becomes the `quit` result. Once it is set, nothing more is sent
or drawn.

## Model

| member | source | states |
|---|---|---|
| Flicker.PyMod | 24SEP.py:28 | Python's `t % period` on floats: the remainder lies in `[0, p)` for a positive period and in `(p, 0]` for a negative one |
| Flicker.FillColour | 24SEP.py:24-35 | with no flicker frequency, or a frequency of zero (falsy), the square is always black |
| Flicker.FlooredRemainderRange | 24SEP.py:28 | the floored remainder `t - floor(t/p)*p` lies in `[0, p)` for a positive `p` and in `(p, 0]` for a negative one |
| Flicker.PyModOfDecomposition | 24SEP.py:28 | writing `t` as whole periods plus `r` in `[0, p)` makes `t % p` equal to `r` |
| Flicker.PyModSplit | 24SEP.py:28 | every reading is a whole number of periods plus `t % p` |
| Flicker.FlickerStartsWhite | 24SEP.py:24-29 | a flickering phase is white at clock reading 0 |
| Flicker.FlickerFirstPeriod | 24SEP.py:24-31 | within the first period `1/f`, the square is white exactly when `t < 1/(2f)` |
| Flicker.FlickerPeriodic | 24SEP.py:24-31 | the colour repeats after any whole number of periods `1/f` |
| Flicker.FlickerHalfPeriodFlips | 24SEP.py:24-31 | half a period later the colour is the other one: a square wave with equal halves |
| Protocol.DefaultRun | 24SEP.py:58-74 | the run has six phases of 30 s each. Every end code is its start code plus 10. Only the 5 Hz and 7 Hz phases flicker, and no phase carries code 99 |
| Protocol.MarkersPaired | 24SEP.py:114-129 | the trace of a phase list is one non-interleaved `[start, end]` pair per phase, in list order |
| Protocol.MarkersAvoid | 24SEP.py:114-129 | a code that no phase carries never appears in the trace |
| Protocol.DefaultRunMarkers | 24SEP.py:114-129 | the full default run emits exactly `3,13,2,12,3,13,4,14,3,13,1,11` |
| Protocol.ReservedCodeNotInDefaultRun | 24SEP.py:70 | no prefix of the default run emits the reserved code 99 |
| Devices.SendTrigger | 24SEP.py:9-12 | pushing a code appends exactly that one sample to the outlet |
| Task.StopFrom | 24SEP.py:22-52 | finds the first reading from `i` on that ends the phase. That reading's verdict is the ending, and every earlier reading lets the loop continue |
| Task.EndsFromWitness | 24SEP.py:22 | any reading at or after `i` that ends the phase makes the loop terminate from `i` |
| Task.DrawFrame | 24SEP.py:24-42 | one pass sets the fill from the flicker rule and the text from the phase, then flips exactly one frame with those values |
| Task.RunTask | 24SEP.py:15-55 | sends exactly the start code and then the end code, and no other sample. `quit` holds iff the first ending reading holds `escape` before the duration. The frames flipped are exactly those of the readings before that one, plus that one unless it timed out. The window is closed iff `quit` |
| TaskProperties.FirstEndingTickDecides | 24SEP.py:22-52 | the first reading that ends the phase decides how it ends, and later readings are ignored |
| TaskProperties.EscapeAbortsPhase | 24SEP.py:46-50 | `escape` before the duration aborts the phase on that reading, even when `return` is in the same batch. That reading's frame was drawn |
| TaskProperties.ReturnAdvancesPhase | 24SEP.py:51-52 | `return` without `escape` leaves the phase on that reading without aborting |
| TaskProperties.QuietPhaseTimesOut | 24SEP.py:22 | with no command keys, the phase ends at the first reading that reaches the duration, with one frame per earlier reading |
| TaskProperties.NonPositiveDurationDrawsNothing | 24SEP.py:22 | a duration `<= 0` ends the phase on the first reading with no frame drawn |
| TaskProperties.OtherKeysIgnored | 24SEP.py:45-52 | readings that differ only in keys other than `escape` and `return` end the same way, on the same reading, with the same frames |
| Gate.GateStopFrom | 24SEP.py:101-107 | finds the first poll from `i` on that ends the gate: its verdict is the ending, and earlier polls continue |
| Gate.GateEndsFromWitness | 24SEP.py:101 | any poll at or after `i` that ends the gate makes the loop terminate from `i` |
| Gate.ReadyGate | 24SEP.py:101-107 | `quit` holds iff the first ending poll has `escape` without `return`, before the duration. The window is closed iff `quit`. Nothing is drawn, and the gate has no outlet, so it sends no marker |
| Gate.FirstEndingPollDecides | 24SEP.py:101-107 | the first poll that ends the gate decides its ending |
| Gate.ReturnSkipsGate | 24SEP.py:103-104 | `return` before the duration skips the gate, even together with `escape` |
| Gate.EscapeQuitsGate | 24SEP.py:105-107 | `escape` without `return` before the duration quits the experiment |
| Gate.GateOtherKeysIgnored | 24SEP.py:102-107 | polls that differ only in keys other than `escape` and `return` end the gate the same way, on the same poll |
| Gate.PrecedenceDiffers | 24SEP.py:46-52 | a batch holding both `escape` and `return` aborts a phase but only skips the gate |
| Run.StartedFrom | 24SEP.py:114-129 | counts the phases that start from `k` on: all of them, or up to and including the first aborted one |
| Run.RunPhases | 24SEP.py:114-129 | the phases run in list order. The outlet receives exactly the start and end codes of the phases that started, and the display exactly their frames. `quit` holds iff a phase was aborted |
| Run.RunPhase | 24SEP.py:114-129 | one phase of the run either aborts, leaving exactly the trace and frames of the whole run, or keeps the run's invariant for the next phase |
| Run.NextPhase | 24SEP.py:114-129 | the trace and frames of the first `k+1` phases extend those of the first `k`, and a phase that does not abort lets the count continue |
| Run.RunExperiment | 24SEP.py:101-133 | the gate, then the phases, then closing the window. The samples and frames are those of `ExperimentTrace`/`ExperimentFrames`, and the window ends closed on every path |
| RunProperties.RunTracePaired | 24SEP.py:114-129 | the sent trace is one non-interleaved `[start, end]` pair per started phase, in order, for every input |
| RunProperties.AbortEndsRun | 24SEP.py:46-50 | an abort in phase `j` makes that phase's end code the last marker, and no later phase starts |
| RunProperties.NonAbortStartsNext | 24SEP.py:51-54 | a phase that ends by `return` or by time is followed by the next phase's start code |
| RunProperties.EscapeFreePhaseNotAborted | 24SEP.py:46 | a phase without `escape` is never aborted |
| RunProperties.NoAbortRunsAll | 24SEP.py:114-129 | with no aborted phase, every phase starts |
| RunProperties.EscapeFreeRunCompletes | 24SEP.py:114-129 | without `escape`, every phase starts and the trace is the whole list's markers |
| RunProperties.UninterruptedExperimentTrace | 24SEP.py:58-70 | once the gate is passed and `escape` is never pressed, the experiment sends exactly `3,13,2,12,3,13,4,14,3,13,1,11` |
| RunProperties.GateEscapeSendsNothing | 24SEP.py:105-107 | `escape` at the gate means no marker at all is sent |
| RunProperties.ReservedCodeNeverSent | 24SEP.py:70 | code 99 is never sent, whatever keys are pressed |

## Left out

- Rendering (PsychoPy window, `Rect`, `TextStim`, their sizes, positions and colours other than the square's fill) is reduced to the `Display` fields; a flip records `Frame(fill, text)`.
- The "Ready go....." pre-message draw and flip before the gate (lines 90-94) are not modelled; the gate starts from whatever the display holds.
- The LSL stream setup (`StreamInfo`, `StreamOutlet`) is not modelled; `Outlet` records pushed samples only, and the timestamps `send_trigger` reads are not modelled.
- Console `print` messages are not modelled.
- Floating-point rounding: clock readings and the flicker arithmetic are exact reals, so flicker boundaries are exact.
- The real clock: the readings are inputs, and each phase's and the gate's readings are required to contain one that ends the loop (a monotone clock reaching the duration provides one); a frozen clock is not modelled.
- The keyboard queue: `event.getKeys()` is an input batch per pass; key timing within a frame is not modelled.
- Process exit: `core.quit()` is modelled as the `quit` result, after which the caller sends and draws nothing more.
- The static-image phase is commented out in the script and is not in the run; its codes 1/11 are still sent, by the closing "Ending" phase.
- On `escape`, the end code of the aborted phase is sent exactly once, before the window closes; the code after the loop is never reached because the process exits. The model follows the code here, not a reading in which the end code would be sent a second time.
- The relative order of markers and screen flips is not captured: samples and frames are kept in two separate logs (`Outlet.samples`, `Display.frames`), so no contract says that a phase's start code precedes its first frame, or that its end code follows its last frame and precedes the window closing, although the script does both in that order.
