# Robotic-hand controller on a Raspberry Pi: a verified model

This project models the control core of a Raspberry Pi application that
drives a six-joint robotic hand. The hand is reached through a vendor motion
library, either over a CAN FD USB adapter or over an EtherCAT master. Front-panel
buttons and status lines sit on the Pi's GPIO header. A data glove streams
finger angles as JSON over UDP.

There is one Dafny module per source file:

- `HandCommands` (commands.dfy) and `HandController` (controller.dfy) cover
  `lhandpro_controller.py`. They model the communication-mode check,
  endpoint selection and the outcome of a connection attempt. They also
  model the calls each move, move sequence, zero move, motor stop and alarm
  scan makes into the motion library, disconnection, and the transport
  hooks. The library is seen only through an ordered log of the calls made
  to it. The log positions at which a call raises, and what each alarm
  query answers, are fixed inputs.
- `Motion` (motion.dfy) covers `main.py`. It models the start and stop
  buttons, the cycle worker, the grasp routine and the glove-frame handler.
  Everything the sequencer does goes into an event log. The stop flag set
  by other threads, alarms and move results are answers from an `Observer`,
  indexed by the step at which they are asked.
- `Gpio` (gpio.dfy) covers `gpio_controller.py`. It models the input, output
  and callback tables, the pulse timer, and the polling monitor's per-pin
  rising-edge/debounce state machine. Every level written to an output line
  is recorded. Times are whole milliseconds.
- `CanFd` (canfd.dfy) covers `canfd_lib.py`. It models the data-length-code
  table of ISO 11898-1:2015, the zero-padded 64-byte transmit frame, the
  receive-side truncation, and the connect/disconnect/receive-callback state.
  Driver calls are logged, and their status codes are parameters.
- `Ethercat` (ethercat.dfy) covers `ethercat_master.py`. It models the
  adapter-name filter, the `init` bookkeeping, the OP-state retry loop, and
  the splitting and joining of the process image across slaves.
- `Glove` (glove.dfy) covers `udp_receiver.py`. It maps a decoded JSON
  datagram to one record per glove device: the calibration flags and six
  sign-inverted, re-ordered angles per hand. It also models the receiver's
  start/stop guards.
- `Base` (base.dfy) holds `Option`, `Result`, `byte` and two sequence helpers.

## Model

| member | source | states |
|---|---|---|
| HandController.Upper | lhandpro_controller.py:36 | Upper-casing keeps the length and maps every character through ASCII upper-casing. |
| HandController.ParseMode | lhandpro_controller.py:36-40 | An accepted mode's name is the upper-cased input. A rejected one reports the upper-cased input, which is neither "CANFD" nor "ECAT". |
| HandController.ParseModeIgnoresCase | lhandpro_controller.py:36-40 | The mode check ignores case ("canfd" and "Ecat" are accepted; "CAN" and "" are not). |
| HandController.Create | lhandpro_controller.py:16-43 | Construction fails exactly for an unknown mode and reports it upper-cased. Otherwise the new controller has that mode and is not connected. |
| HandController.Controller.constructor | lhandpro_controller.py:16-43 | A new controller holds no library, no transport, zero joint counts and an empty log. |
| HandController.IsSpace | lhandpro_controller.py:184 | Defines the whitespace `str.strip` removes, within ASCII. |
| HandController.Blank | lhandpro_controller.py:184 | Defines an answer that strips to nothing: every character is whitespace. |
| HandController.Acceptable | lhandpro_controller.py:181-196 | Defines an answer the prompt accepts: a blank one, which means 0, or an integer in [0, count). |
| HandController.FirstAcceptable | lhandpro_controller.py:181-196 | The operator's answer is absent exactly when no answer is acceptable. A chosen index is below the endpoint count. |
| HandController.PromptOperator | lhandpro_controller.py:181-196 | The prompt loop returns the first acceptable answer of the operator's answer sequence. |
| HandController.SelectEndpoint | lhandpro_controller.py:161-204 | Selection fails iff no endpoint exists. A requested index is used iff it lies in [0, count). With no request it picks 0 when there is one endpoint or auto-select is on. Otherwise it asks the operator, and it ends only when the answers run out. |
| HandController.ResolveEndpoint | lhandpro_controller.py:245-290 | The selection branches, as on the EtherCAT path (which mirrors the CAN FD one), compute `SelectEndpoint`. |
| HandController.SetupCommands | lhandpro_controller.py:329-348 | Setup initialises the library on the mode's channel, then queries the joint counts, before any optional enable or home call. |
| HandController.StageOf | lhandpro_controller.py:150-232 | Defines how far a connection attempt got: no endpoint chosen (or the operator's input ended), link down, `initial` raised, a later setup call raised, or completed. |
| HandController.ConnectStatus | lhandpro_controller.py:89-148 | A connection attempt reports success iff it completes, and then leaves everything up. Every failure closes the library. When the cleanup's close of the adapter succeeds, a failure in `initial` or a later setup call also releases the transport; `CleanupRaises` covers a close that fails. |
| HandController.CleanupRaises | lhandpro_controller.py:142-148 | Defines when the cleanup after a failed attempt raises: on CAN FD, after `initial` or a later setup call raised, when closing the adapter fails (`disconnect` raises, canfd_lib.py:207-217). |
| HandController.Controller.Connect | lhandpro_controller.py:89-232 | The attempt raises iff `CleanupRaises` holds for the stage reached, and then leaves the controller connected with the library closed and the adapter still held. Otherwise the controller state after connecting is `ConnectStatus` of the stage reached. The log gains the setup calls up to the first that raises. The joint counts are taken only once the joint-count query has gone through. |
| HandController.ConnectStatusAsWritten | lhandpro_controller.py:234-327 | As written, EtherCAT never marks the controller connected. CAN FD agrees with `ConnectStatus`. |
| HandController.EcatConnectAsWritten | lhandpro_controller.py:234-327 | As written, an EtherCAT connection from a fresh controller succeeds but leaves it unconnected. A failing `initial` leaves the library open. The corrected outcome differs on both. |
| HandController.Controller.Call | lhandpro_controller.py:410-424 | One checked library call is logged. It succeeds iff its log position is not a fault. |
| HandController.Controller.Issue | lhandpro_controller.py:410-424 | Checked calls go out in order up to and including the first that raises. The count of calls that succeed is `FirstFault`. |
| HandCommands.FirstFault | lhandpro_controller.py:410-424 | The number of calls that succeed before the first raising one is at most the number of calls. |
| HandCommands.FirstFaultWindow | lhandpro_controller.py:410-424 | The calls before the first fault do not raise. When a fault occurs, the call at that position raises. |
| HandCommands.FirstFaultAt | lhandpro_controller.py:410-424 | A window of clean positions ending in a fault (or the end) is the first fault. |
| HandCommands.Issued | lhandpro_controller.py:410-424 | Defines the calls issued from a log position: the commands up to and including the first one that raises. |
| HandCommands.IssuedUpTo | lhandpro_controller.py:410-424 | The calls issued are the commands up to and including the first raising one. |
| HandCommands.IssuedStep | lhandpro_controller.py:410-424 | Issuing a block that does not raise continues the prefix. A raising block ends the whole issue there. |
| HandCommands.JointCommands | lhandpro_controller.py:411-415 | Three calls are issued per joint. |
| HandCommands.MoveCommands | lhandpro_controller.py:411-417 | A move issues three calls per joint plus one group move. |
| HandCommands.JointCommandsAt | lhandpro_controller.py:411-415 | Joint j's three calls set motor j+1's target position, velocity and current limit. |
| HandCommands.JointSlice | lhandpro_controller.py:411-415 | The same three calls sit at offset 3j of the full move. |
| HandCommands.MoveCommandsLayout | lhandpro_controller.py:411-417 | Motor j+1 gets positions[j], the velocity and the current limit, for every joint. Exactly one `move_motors(0)` follows, last. |
| HandCommands.MoveLog | lhandpro_controller.py:402-424 | Defines the driver calls of one move from a log position. A position count other than the active joint count makes no call. Otherwise the move's calls are made in order, up to and including the first that raises. |
| HandCommands.MoveSucceeds | lhandpro_controller.py:402-424 | Defines a move that returns true: the position count matches the active joints and every one of its calls returns. |
| HandCommands.MoveSucceedsIff | lhandpro_controller.py:402-424 | A move succeeds iff the position count equals the active joint count and none of its calls raises. Then its log is exactly the full move. |
| HandController.Controller.MoveToPositions | lhandpro_controller.py:383-424 | When not ready, nothing is logged. Otherwise the log gains the move's calls, and the result is true iff the move succeeds. |
| HandController.Controller.SendMove | lhandpro_controller.py:410-424 | The joint calls and group move are issued up to the first that raises. The result is true iff none raises. |
| HandController.Controller.SendJoints | lhandpro_controller.py:411-415 | The per-joint loop issues the joint calls in order, up to the first that raises. |
| HandCommands.ZeroPositions | lhandpro_controller.py:572 | The zero move's targets are as many zeros as there are active joints (none for a negative count). |
| HandCommands.ZeroMoveTargets | lhandpro_controller.py:572-573 | A zero move fails for a negative joint count. A successful one commands target 0 for every active joint. |
| HandController.Controller.MoveToZero | lhandpro_controller.py:555-573 | The zero move is a move to the zero positions, with the same log and result as `MoveToPositions`. |
| HandCommands.MoveLogLength | lhandpro_controller.py:410-424 | A successful move logs 3 calls per joint plus 1. |
| HandCommands.SequenceLog | lhandpro_controller.py:488-499 | Defines the calls of a move sequence: each move's calls in turn, stopping after the first move that returns false. |
| HandCommands.SequenceSucceeds | lhandpro_controller.py:488-499 | Defines a sequence that returns true: every move in it returns true. |
| HandCommands.AllMoves | lhandpro_controller.py:488-499 | Defines the reference log of a sequence: every call of every move, in order. |
| HandCommands.SequenceSuccessLog | lhandpro_controller.py:488-499 | A successful sequence matched the joint count at every step. Its log is every move's full calls in order. |
| HandCommands.SequenceSucceedsWhenClean | lhandpro_controller.py:488-499 | A sequence whose lists all fit the joint count, with no fault, succeeds. |
| HandCommands.SequenceStep | lhandpro_controller.py:493-497 | A successful first move is followed by the rest of the sequence from the end of its calls. |
| HandCommands.SequenceSucceedsStep | lhandpro_controller.py:493-499 | After a successful first move, the sequence succeeds iff its rest does. |
| HandCommands.StopsAtParts | lhandpro_controller.py:493-497 | Proof helper for `StopsAt`: a sequence stopping at step i has a failing move at i. Its log is the earlier moves followed by that move's calls. |
| HandCommands.StopsAtIntro | lhandpro_controller.py:493-497 | Proof helper for `StopsAt`: conversely, those two facts make step i the stopping point. |
| HandController.SequenceAdvance | lhandpro_controller.py:493-498 | Running the first move from the end of a log leaves the rest of the sequence to run from the new end. |
| HandController.SequenceHalts | lhandpro_controller.py:495-497 | A failing first move ends the sequence, with no later step's calls, and the sequence fails. |
| HandCommands.StopsAt | lhandpro_controller.py:493-497 | Defines where a sequence stops: the moves before move `i` were made in full, move `i` fails, and nothing after it is made. |
| HandController.StopsAtStep | lhandpro_controller.py:493-497 | A stopping point in the rest of a sequence is a stopping point of the whole, one step later. |
| HandController.SequenceStopsAtFailure | lhandpro_controller.py:493-499 | A failing sequence stops at some step. No later step is run. |
| HandController.Controller.MoveSequence | lhandpro_controller.py:469-502 | When not ready, it fails with nothing logged. Otherwise it logs the moves in order up to the first failing one. It returns true iff every step succeeds. |
| HandController.Controller.StopAllMotors | lhandpro_controller.py:541-553 | When ready, exactly one stop call is logged; otherwise nothing. |
| HandCommands.FirstAlarm | lhandpro_controller.py:610-614 | The alarm scan stops at or before the last joint. |
| HandCommands.FirstAlarmWindow | lhandpro_controller.py:610-614 | The queries before the stopping point neither raise nor report code 1. The one at the stopping point does one of the two. |
| HandCommands.AlarmQueries | lhandpro_controller.py:610-611 | The scan queries motors 1, 2, … in order. |
| HandCommands.AlarmLog | lhandpro_controller.py:610-614 | Defines the alarm queries of one scan: motors 1 to dof in turn, up to and including the first that raises or answers 1. |
| HandCommands.AlarmRaised | lhandpro_controller.py:610-615 | Defines a scan that returns true: it stopped at a motor whose query returned 1, not at one that raised. |
| HandCommands.AlarmRaisedIff | lhandpro_controller.py:605-615 | In general, the alarm is raised iff some motor 1..dof answers 1, with every query up to its own returning and no earlier motor answering 1. The scan stops at that motor. A scan with no alarm that stops early stopped at a raising query. With no raising query, an alarm is raised iff some motor answers 1, and a scan with no alarm logs one query per joint. |
| HandCommands.AlarmScanAt | lhandpro_controller.py:610-614 | A clean window ending in an alarm or fault is where the scan stops. |
| HandController.Controller.ScanAlarms | lhandpro_controller.py:609-618 | The scan loop logs the alarm queries and returns `AlarmRaised`. |
| HandController.Controller.GetAlarm | lhandpro_controller.py:598-618 | When disconnected it is false with nothing logged. Otherwise it is true iff a motor reports code 1 before any query raises. |
| HandController.Controller.Disconnect | lhandpro_controller.py:365-381 | Not connected: a no-op. Otherwise the library is dropped and the transport cleaned up, leaving the controller disconnected. A CAN FD close that fails raises, leaving the flag set. |
| HandController.Controller.CanFdSendHook | lhandpro_controller.py:54-62 | With the adapter held and connected, the frame goes out on ID 0x501. The hook succeeds iff the send does; otherwise nothing is sent. |
| HandController.Controller.CanFdReceiveHook | lhandpro_controller.py:64-70 | Only frames with ID 0x481 reach the library, and only while ready. |
| HandController.Controller.EcatSendHook | lhandpro_controller.py:72-77 | With the master held, the data goes to the master and its answer is returned; otherwise false. |
| Motion.PassEvents | main.py:207-241 | Defines the events of one cycle pass from a step on. A set stop flag ends it before the step. An alarm shows the alarm colour and ends it. A failed move skips to the next step. The pulse follows a successful move to the last position. A stop found after a successful move ends the pass. |
| Motion.PassEnds | main.py:207-241 | Defines whether the worker ends inside a pass: at a set stop flag, at an alarm, or at a stop found after a successful move. |
| Motion.PassChecked | main.py:207-241 | In every pass, each move is preceded by a clear stop flag and no alarm. Each pulse follows a successful move to the last position. |
| Motion.WorkerLog | main.py:205-244 | Defines the worker's events: passes run while the stop flag is clear at their start and fewer than the cycle count have run, until one ends the worker. |
| Motion.WorkerChecked | main.py:205-244 | Every move the cycle worker records was preceded by a clear stop check and no alarm. Every pulse follows a successful final move. |
| Motion.CheckedJoin | main.py:205-244 | Both rules survive joining logs. |
| Motion.PulseCountJoin | main.py:233-236 | Pulse counts of joined logs add. |
| Motion.PassPulses | main.py:207-241 | A pass emits at most one pulse. It emits exactly one when its steps all go through undisturbed. |
| Motion.WorkerPulses | main.py:205-244 | The worker emits at most one pulse per remaining pass, so at most DEFAULT_CYCLE_COUNT (10000) in all. |
| Motion.PassRounds | main.py:207-241 | Every move and every pulse of a pass carries that pass's number. |
| Motion.WorkerRounds | main.py:205-243 | The worker runs at most DEFAULT_CYCLE_COUNT passes: every move and pulse from pass `pass` on belongs to a pass in [pass, 10000), whether its moves succeed or fail. Its opening stop check was clear. |
| Motion.UndisturbedPulses | main.py:205-244 | Undisturbed, the worker emits exactly one pulse per remaining pass. |
| Motion.RunStep | main.py:207-241 | One step checks the stop flag, then the alarm, then moves, then pulses after a successful last move, then checks the stop flag again. Its events and end are those of `PassEvents`. |
| Motion.RunPass | main.py:207-241 | The step loop records `PassEvents` and ends the worker iff `PassEnds`. |
| Motion.RunCycle | main.py:204-247 | The pass loop, bounded by DEFAULT_CYCLE_COUNT and the stop flag, records `WorkerLog`. |
| Motion.MotionController.constructor | main.py:25-53 | A new sequencer is idle with a clear flag and no glove listener. |
| Motion.MotionController.OnStartMotion | main.py:104-126 | Starting happens iff the device is connected and no motion is running. It marks motion running, clears the stop flag and shows "running"; otherwise nothing changes. |
| Motion.MotionController.OnStopMotion | main.py:128-151 | The stop flag is set iff motion was running. Then, always, the motors stop, the glove listener stops if it ran, the hand moves to zero and the outputs show "ready". |
| Motion.MotionController.RunMotionCycle | main.py:200-258 | The worker's events are `WorkerLog`, then "ready". Motion is marked not running on every exit. |
| Motion.GraspRound | main.py:296-312 | A grasp round makes the four grasp moves in index order. |
| Motion.GraspRoundClear | main.py:296-312 | A round with no stop found makes all four moves, then goes on to the next round. |
| Motion.GraspComplete | main.py:295-318 | With no stop found, the grasp makes the 4 grasp positions 3 times in order, then moves to zero. |
| Motion.GraspChecked | main.py:295-312 | Every grasp move goes to its index's grasp position, at a step where the stop flag was found clear. |
| Motion.GraspLog | main.py:295-318 | Defines the grasp's events: three rounds over the grasp positions, ended at once by a set stop flag, then the move to zero. |
| Motion.GraspStopped | main.py:297-299 | A grasp that finds the flag set at some step never moves to zero, and the flag was not clear throughout. |
| Motion.GraspFinished | main.py:312-318 | A grasp that ends with the move to zero found the flag clear at every step. |
| Motion.GraspZero | main.py:295-318 | The zero move happens iff the stop flag is found clear at every remaining step. |
| Motion.RunRound | main.py:295-310 | One round of the grasp continues the grasp's `GraspLog` by its moves. When the flag is found set it ends the grasp there, with no move to zero and the flag not clear throughout. |
| Motion.RunGrasp | main.py:294-318 | The grasp loops record exactly `GraspLog`. They report being stopped iff the hand never moved to zero, iff the flag was found set before some step. |
| Motion.MotionController.OnStartGrasp | main.py:277-325 | The grasp's events are `GraspLog`. Motion is marked not running on every exit. The stop flag is left set iff the grasp was stopped. That is iff the flag was found set at some step (`!ClearFrom`), iff the hand never moved to zero. |
| Motion.IsTeleop | main.py:377 | Defines a glove device that drives the hand: its name starts with "teleop_". |
| Motion.GloveMoves | main.py:367-393 | Defines the moves of a batch of glove records. Other devices are skipped. The first teleop record with an uncalibrated right hand ends the batch. A calibrated record with right-hand angles moves the hand to them. |
| Motion.GloveMovesFrom | main.py:373-393 | Every glove move comes from a calibrated "teleop_" record, with that record's right-hand angles. |
| Motion.GloveStopsAtUncalibrated | main.py:381-385 | An uncalibrated teleop record drops itself and every record after it. |
| Motion.GloveSkipsOthers | main.py:376-379 | A record whose name lacks the "teleop_" prefix changes nothing. |
| Motion.MotionController.GloveDataCallback | main.py:361-407 | The handler's moves are `GloveMoves` of the list: none for an empty list. |
| Gpio.LastWrite | gpio_controller.py:133-161 | There is no last level for a pin iff it was never written. |
| Gpio.LastWriteAppend | gpio_controller.py:133-161 | A write sets its pin's last level and leaves every other pin's. |
| Gpio.PollWith | gpio_controller.py:209-236 | Defines one poll of a pin from the monitor's memory. A pin never seen counts as low, and a pin with no debounce time has 0 ms. |
| Gpio.DebounceStep | gpio_controller.py:209-236 | The pin's level is remembered. A low-to-high sample starts a pending trigger at the current time, unless the debounce is not positive. A low pin never fires and keeps no trigger. A pending trigger at least debounce ms old on a high pin is dropped whether or not the second read is high, and the callback runs iff that read is high. A poll fires only on a high pin and a high second read. The trigger must be at least debounce ms old, or, on a fresh edge, the debounce at most 0. |
| Gpio.Monitor | gpio_controller.py:203-240 | Polling over samples keeps the no-pending-trigger-while-low invariant. It fires at most once per sample. |
| Gpio.MonitorAppend | gpio_controller.py:203-240 | Polling a concatenated trace is polling one part and then the other. The callback counts add. |
| Gpio.NoCallbackWhileLow | gpio_controller.py:213-236 | A pin that stays low never fires, and ends low with no trigger. |
| Gpio.NoCallbackWithinDebounce | gpio_controller.py:224-236 | Nothing fires before debounce ms have passed since the rising edge. |
| Gpio.ShortBounceNeverFires | gpio_controller.py:213-236 | A press released again within the debounce time never fires, provided the pin then stays low. |
| Gpio.HeldHighIdle | gpio_controller.py:213-238 | A pin already seen high with no pending trigger never fires while it stays high. |
| Gpio.HeldHighFiresAtMostOnce | gpio_controller.py:213-238 | A pin held high fires at most once. |
| Gpio.PendingTriggerFires | gpio_controller.py:224-236 | A pending trigger on a pin held high fires exactly once, once its time comes. |
| Gpio.SustainedPressFiresOnce | gpio_controller.py:209-238 | A press from low, held high past the debounce time, fires exactly once. |
| Gpio.Remember | gpio_controller.py:215-238 | Recording a poll updates that pin's memory only and keeps the no-trigger-while-low invariant. |
| Gpio.Fires | gpio_controller.py:206-231 | Defines a pin whose callback runs in a pass: it has a callback and its poll fires. |
| Gpio.FiredOf | gpio_controller.py:206-231 | The pins whose callback runs, in the order of the pin list. A pin is listed iff it is in the list and fires. |
| Gpio.Raised | gpio_controller.py:230-236 | The fired pins whose callback raises, in order. A pin is listed iff it fired and raises. |
| Gpio.VisitPin | gpio_controller.py:206-238 | Visiting one pin extends the pass invariant by that pin. |
| Gpio.VisitedInOrder | gpio_controller.py:206-238 | Visiting the next pin keeps the fired and raising lists equal to `FiredOf` and `Raised` of the pins visited so far. |
| Gpio.VisitAt | gpio_controller.py:206-238 | One round of the pin loop extends the pass state, and the ordered fired and raising lists, by the next pin. |
| Gpio.VisitedAll | gpio_controller.py:206-238 | Once every pin is visited, the pass state covers the whole pin list, and the fired and raising lists are those of the whole list. |
| Gpio.PollPins | gpio_controller.py:206-238 | One pass polls every pin with a callback. The fired pins are exactly those whose poll fires, in input-pin order (`FiredOf`). The pins whose callback raised are the fired ones in `raising`, in the same order (`Raised`). A raising callback is caught and the pass goes on. Every polled pin keeps what its poll left, and other pins' memory is untouched. |
| Gpio.GpioController.MonitorPass | gpio_controller.py:203-240 | The same pass over the controller's tables. The fired and raising pins follow the order of `input_pins`, and the table invariants are kept. |
| Gpio.GpioController.constructor | gpio_controller.py:33-82 | A new controller has empty tables and no monitor. |
| Gpio.GpioController.SetupInput | gpio_controller.py:84-106 | An already-configured input pin changes nothing. Otherwise the pin and its debounce time are recorded. A callback is registered and starts the monitor, with a fresh memory, if it is not running. |
| Gpio.GpioController.AddInput | gpio_controller.py:99-106 | Adding a new input pin records it, its debounce time and its callback. |
| Gpio.GpioController.SetupOutput | gpio_controller.py:108-123 | An already-configured output pin changes nothing. Otherwise the pin is driven at its initial level and that level is recorded. |
| Gpio.GpioController.OutputHigh | gpio_controller.py:125-146 | For a configured output, the line is driven high and recorded. A positive duration starts a timer that will drive it low. For other pins it is a no-op. |
| Gpio.GpioController.OutputLow | gpio_controller.py:148-161 | For a configured output, the line is driven low and recorded; otherwise a no-op. |
| Gpio.GpioController.OutputPulse | gpio_controller.py:163-171 | A pulse is `OutputHigh` with a duration. |
| Gpio.GpioController.TimerElapsed | gpio_controller.py:242-245 | A pulse timer running out is `OutputLow` of its pin. |
| Gpio.GpioController.ReadInput | gpio_controller.py:173-187 | A pin reads high iff it is a configured input whose line is high. |
| Gpio.GpioController.Cleanup | gpio_controller.py:247-274 | Every output is driven low, in setup order, and ends low. The monitor stops. The input, output and callback tables are emptied. |
| Gpio.LowWrites | gpio_controller.py:255-259 | The shutdown writes drive each output pin low, in order. |
| Gpio.LowWritesStep | gpio_controller.py:255-259 | The shutdown writes extend one pin at a time. |
| Gpio.LowWritesLeaveLow | gpio_controller.py:255-259 | After the shutdown writes, every output pin's last level is low. |
| Gpio.LastWriteOfLows | gpio_controller.py:255-259 | A pin among the shutdown writes ends low. |
| Gpio.DriveLow | gpio_controller.py:255-259 | The shutdown loop writes exactly `LowWrites`. |
| Gpio.DistinctAppend | gpio_controller.py:96-98 | Adding a pin not yet configured keeps every pin configured once. |
| CanFd.DlcTable | canfd_lib.py:17 | The length table has 16 entries. Codes 0..8 mean their own length, and lengths rise strictly to 64 at code 15. |
| CanFd.FindIndex | canfd_lib.py:246 | The generator search finds the first position holding the value. There is none iff the value is absent; the default 15 is supplied by `FindIndexOr`. |
| CanFd.FindIndexOr | canfd_lib.py:246 | Looking up with a default gives the index when the value is present, the default otherwise. |
| CanFd.FindIndexFirst | canfd_lib.py:246 | The first position holding a value is what `FindIndex` returns. |
| CanFd.SendDlc | canfd_lib.py:246 | Defines the code `send` writes: the first code whose length is 64 bytes, or 15 should the table hold none. |
| CanFd.SendDlcIs15 | canfd_lib.py:246 | Send always uses code 15, whose length is 64. |
| CanFd.BuildDataField | canfd_lib.py:249-255 | The data field is 64 bytes: the payload, then zeros. |
| CanFd.PaddedField | canfd_lib.py:249-255 | A padded field starts with the payload and is zero after it. |
| CanFd.CanFdBus.constructor | canfd_lib.py:103-114 | A new adapter is disconnected, with no callback and no receive thread. |
| CanFd.CanFdBus.Connect | canfd_lib.py:143-186 | A failed open raises with only the open logged. A failed channel init closes the device again, then raises. The adapter is marked connected only after both succeed. |
| CanFd.CanFdBus.Disconnect | canfd_lib.py:188-217 | Not connected: succeeds with no action. Otherwise it stops the receive thread and closes the device. Only a successful close clears the connection and the callback. |
| CanFd.CanFdBus.Send | canfd_lib.py:219-279 | Send raises when not connected or for a payload over 64 bytes, with nothing transmitted. Otherwise it transmits one frame with code 15 and the zero-padded field. It succeeds iff the driver reports exactly one frame sent. |
| CanFd.CanFdBus.SetReceiveCallback | canfd_lib.py:281-301 | The callback is stored. A callback starts the receive thread only when none is alive, and starting needs a connection. |
| CanFd.ToMessage | canfd_lib.py:316-337 | A frame converts iff its code is in the table. The message then holds the first `dlc2len[code]` bytes. |
| CanFd.Convert | canfd_lib.py:303-355 | A batch converts frame by frame up to the first frame whose code has no length, which stops the thread. |
| CanFd.LoopbackPayload | canfd_lib.py:249-321 | A sent frame, received back, gives the payload followed by zeros up to 64 bytes. |
| CanFd.DispatchBatch | canfd_lib.py:310-345 | The delivery loop hands on exactly the converted messages and reports the crash. |
| CanFd.CanFdBus.ReceivePoll | canfd_lib.py:303-355 | With a callback, the converted frames are delivered in order. A frame with no length ends the receive thread. The connection, the callback and the driver log are all unchanged, because the handler's `disconnect` fails at the thread's join on itself. Without a callback, nothing is delivered and nothing changes. |
| CanFd.CanFdBus.ReceivePollClosing | canfd_lib.py:347-354 | Corrected crash handler. Delivery is the same as in `ReceivePoll`. After a crash the thread has ended and a connected adapter closes its device. A successful close clears the connection and the callback. |
| Ethercat.Lower | ethercat_master.py:56-67 | Lower-casing keeps the length and maps every character through ASCII lower-casing. |
| Ethercat.ContainsSub | ethercat_master.py:64 | Defines Python's `keyword in name` on strings: the keyword occurs as a contiguous piece of the name. |
| Ethercat.Excluded | ethercat_master.py:29-64 | Defines an excluded adapter: its lower-cased name contains one of the exclusion keywords. |
| Ethercat.Physical | ethercat_master.py:56-92 | Defines the adapters kept: the reported ones that are not excluded, in reported order, under their original names. |
| Ethercat.PhysicalMembers | ethercat_master.py:30-67 | An adapter is kept iff its lower-cased name contains none of the exclusion keywords. The result is no longer than the input. |
| Ethercat.ExcludedExamples | ethercat_master.py:30-51 | "lo", "Docker0" and "wlan0" are excluded; "eth0" is not. |
| Ethercat.ScanNetworkInterfaces | ethercat_master.py:22-92 | The scan returns the physical adapters, in adapter order with their own names. No adapters gives an empty list. |
| Ethercat.Image | ethercat_master.py:164-165 | A process image's length is the sum of the slaves' area lengths. |
| Ethercat.ImageSlice | ethercat_master.py:213-220 | Slave i's area sits at its offset within the concatenated image. |
| Ethercat.AssignOutputs | ethercat_master.py:213-222 | Assigning outputs keeps the slave count. |
| Ethercat.AssignOutputsFits | ethercat_master.py:213-222 | The assignment completes iff the data reaches the end of the last slave's chunk. |
| Ethercat.AssignOutputsImage | ethercat_master.py:213-222 | After assignment, the concatenated outputs are exactly the data chunk consumed. |
| Ethercat.AssignOutputsJoin | ethercat_master.py:213-222 | Data exactly as long as the output image comes back intact from the slave outputs. |
| Ethercat.AssignOutputsShape | ethercat_master.py:213-222 | Each slave's output keeps its length, and its input is untouched. |
| Ethercat.AssignOwnImage | ethercat_master.py:213-222 | Writing the current output image back changes nothing. |
| Ethercat.HandOut | ethercat_master.py:213-222 | The chunk loop assigns exactly `AssignOutputs` and reports whether it completed. |
| Ethercat.EthercatMaster.SetOutputs | ethercat_master.py:207-222 | Data of the wrong length is refused, with no change. Otherwise chunks go to the slaves in order. When the sizes agree, the outputs afterwards concatenate to the data. |
| Ethercat.JoinInputs | ethercat_master.py:230-234 | The input loop concatenates the slave inputs in slave order. |
| Ethercat.EthercatMaster.GetInputs | ethercat_master.py:224-234 | A size other than `input_size` gives None. Otherwise the result is the concatenated inputs. |
| Ethercat.ZeroOutputs | ethercat_master.py:171-172 | Zeroing keeps the slave count. |
| Ethercat.ZeroOutputsImage | ethercat_master.py:164-172 | Zeroing keeps the area sizes and makes the output image all zeros. |
| Ethercat.ClearOutputs | ethercat_master.py:171-172 | The zeroing loop computes `ZeroOutputs`. |
| Ethercat.PyIndex | ethercat_master.py:110 | Python list indexing accepts -n..n-1 and counts negatives from the end. |
| Ethercat.LoopChecks | ethercat_master.py:149-154 | The OP loop makes at most 10 checks and stops at the first that reaches OP. |
| Ethercat.EthercatMaster.AwaitOperational | ethercat_master.py:143-159 | At most 10 looped checks plus the final one are made. The outcome is the final check's answer. |
| Ethercat.EthercatMaster.Init | ethercat_master.py:107-178 | Init succeeds iff the interface index is valid, the port opens, a slave is found, SAFEOP is reached and OP is reached. On success the sizes are the sums of the slave areas and every output is zero-filled. On failure the sizes are kept. A valid index records the interface name. The port is marked open once it opens. The slaves are replaced only once some are found, and OP is marked requested only once SAFEOP is reached. |
| Ethercat.EthercatMaster.constructor | ethercat_master.py:13-20 | A new master has no slaves and zero sizes, and is not running. |
| Ethercat.EthercatMaster.Stop | ethercat_master.py:184-190 | Stopping leaves the master out of OP with the port closed. |
| Ethercat.EthercatMaster.Run | ethercat_master.py:192-198 | The IO thread starts iff the master was not already running; it is running afterwards. |
| Glove.Get | udp_receiver.py:133-140 | `dict.get` yields the default or a value stored under the key. |
| Glove.GetLast | udp_receiver.py:133-140 | A missing key gives the default. Otherwise the key's last occurrence wins, as JSON decoding keeps. |
| Glove.ToMapKeys | udp_receiver.py:178-187 | The table's keys are exactly the parameter names. |
| Glove.ToMapLastWins | udp_receiver.py:178-187 | A later same-name parameter overwrites an earlier one. |
| Glove.VectorToMap | udp_receiver.py:178-187 | The loop builds exactly that table. |
| Glove.Truthy | udp_receiver.py:139 | Defines Python truthiness of a decoded JSON value, used by the `if p_name:` test: null, false, zero, the empty string, array and object are false. |
| Glove.EntryAction | udp_receiver.py:137-147 | Only an object entry with a non-empty name stores anything, under that name. A non-object entry raises. |
| Glove.Stored | udp_receiver.py:137-147 | The stored parameters are no more than the entries. |
| Glove.StoredNext | udp_receiver.py:137-147 | Each further entry applies its action to what was stored so far. |
| Glove.ToMap | udp_receiver.py:178-186 | Defines the table of a parameter list. A later parameter with the same name replaces an earlier one. |
| Glove.ToMapSnoc | udp_receiver.py:142-147 | Storing a parameter sets its name in the table. |
| Glove.StoredSome | udp_receiver.py:137-147 | A parameter list yields a table iff none of its entries raises. |
| Glove.StoredFails | udp_receiver.py:137-147 | One raising entry makes the whole list raise. |
| Glove.ParamTable | udp_receiver.py:133-147 | Defines a device's parameter table from its entries, or no table when an entry raises. |
| Glove.CollectParameters | udp_receiver.py:136-147 | The collection loop builds `ParamTable`. |
| Glove.Angles | udp_receiver.py:153-166 | There is one angle per channel. |
| Glove.DefaultRecord | udp_receiver.py:19-24 | Defines the record a device starts with: its name, both hands uncalibrated, six zero angles per hand. |
| Glove.FromTable | udp_receiver.py:149-166 | Defines a device's record from its parameter table: the name, the two calibration flags and the negated angle channels. |
| Glove.FromTableChannels | udp_receiver.py:150-166 | A hand is calibrated iff its status parameter is present and equals 3. right = −[r2, r0, r5, r9, r13, r17] and left = −[l2, l0, l5, l9, l13, l17], with missing channels read as 0. |
| Glove.DeviceRecord | udp_receiver.py:127-168 | A device's record carries its name. A device value that is not an object raises. |
| Glove.Records | udp_receiver.py:127-175 | Records come in device order, one per device, up to the first device that raises. |
| Glove.RecordsComplete | udp_receiver.py:127-168 | When no device raises, there is one record per device, named after it. |
| Glove.ParseDevice | udp_receiver.py:129-168 | The per-device loop body computes `DeviceRecord`. A non-list parameter value keeps the defaults. |
| Glove.Parse | udp_receiver.py:115-175 | Defines a datagram's records. Text that does not decode, or is not an object, gives none. Otherwise each device in order gives a record, up to the first device whose parsing raises. |
| Glove.ParseJson | udp_receiver.py:115-175 | The parse loop returns `Parse`: no records for undecodable text, records so far on an error. |
| Glove.UdpReceiver.constructor | udp_receiver.py:28-41 | A new receiver is stopped, with no socket and no callback. |
| Glove.UdpReceiver.SetCallback | udp_receiver.py:43-48 | The callback is stored. |
| Glove.UdpReceiver.Start | udp_receiver.py:50-75 | A no-op when running. Otherwise it runs with an open socket iff the bind succeeds. |
| Glove.UdpReceiver.Stop | udp_receiver.py:77-97 | A no-op when not running. Otherwise it stops and closes the socket. |
| Glove.UdpReceiver.Receive | udp_receiver.py:103-110 | A non-empty datagram is parsed. The records go to the callback when there is one. |

## Left out

- HandController.Upper: maps only ASCII `a`..`z`, while Python's `str.upper` is full Unicode case mapping (`'ß'` becomes `"SS"`, so the length can change). The model keeps the length. Mode names are ASCII, so the choice of mode is the same for every ASCII configuration value.
- Ethercat.Lower: maps only ASCII `A`..`Z`, while `str.lower` also lowers non-ASCII letters (the Kelvin sign U+212A becomes `k`). An adapter name with such letters could match an excluded word in Python but not in the model.
- HandController.IsSpace: covers only the ASCII whitespace that `str.strip` removes. Unicode spaces such as U+3000 or U+00A0 count as whitespace in Python but not here.
- HandController.Blank: inherits the ASCII-only whitespace of `IsSpace`, so an answer made only of Unicode spaces is not treated as blank.
- Threads, sleeps, locks and events are not modelled. The GPIO monitor thread, the CAN FD receive thread, the EtherCAT IO thread, the UDP receive thread, the pulse timers, the hand controller's monitor thread and the cycle worker's daemon thread are all reduced to single steps (`MonitorPass`, `ReceivePoll`, `Receive`, `TimerElapsed`, `RunMotionCycle`). Values set by another thread are inputs: the stop flag, alarms, move results and sample times.
- Hardware and foreign libraries are inputs. RPi.GPIO levels, the CAN FD driver's status codes, pysoem's adapters, slaves and state checks, the UDP socket's bind and datagrams, and the motion library's raising calls and alarm answers are parameters or fixed sets. The library loader and its ctypes wrapper are not part of this model.
- `json.loads` and `float(str)` are not modelled. A datagram arrives decoded (or marked undecodable), and string-to-float conversion is a parameter.
- Glove.Records: duplicate top-level device keys yield one record per occurrence. Python's decoder keeps only the last value, at the first key's position.
- Floating point is not modelled. Angles are reals, GPIO time is whole milliseconds, and pulse durations are reals compared with 0.
- Gpio.GpioController.OutputHigh: a negative duration in Python starts a timer whose sleep raises, so no low is ever written. The model starts no timer for it, which has the same effect on the lines.
- Interactive operator input (`input()` loops) is a finite sequence of answers with an abstract integer parser.
- The RGB PWM calls in `main.py` (`set_rgb_color`, `setup_rgb_pwm`, `RGB_COLORS`) do not exist in `gpio_controller.py`. The status changes appear as `Indicate` events instead. Likewise, `main.py` passes the list of cycle-complete pins as one pin, so the pulse is a `Pulse` event rather than a pin write.
- Motion.MotionController.GloveDataCallback: only the right-hand branch is modelled, because `use_right_hand` is the constant `True`. The glove move is an event; the misspelt `velocity` keyword to `move_to_angles` is not modelled.
- `on_connect_device`, `on_disconnect_device`, `on_start_glove_listen`, `start_glove_listening`, `setup_gpio` and `run` in `main.py` are not modelled. They only wire buttons to controller calls and start threads. The pin numbers of `GPIO_PINS` and the 300 ms default debounce of `setup_input`, which only `setup_gpio` relies on, are therefore not modelled either: `SetupInput` takes its pin and debounce time as arguments. `UDPReceiver(callback)` also puts the callback in the host slot.
- Motion.MotionController.RunMotionCycle: an exception raised inside the worker is not modelled separately. Its `finally` path is the normal exit.
- `move_to_angles`, `enable_motors`, `home`, `clear_alarm`, `get_dof` and the context-manager methods of the hand controller are not modelled. They are single guarded library calls outside the modelled core.
- HandController.Controller.Connect: the transport's own connect is one outcome `linkOk`. The CAN FD scan, baud rates and EtherCAT `init`/`start` are not replayed inside it.
- On the CAN FD path, `is_connected` is set before `initial`, and a raising setup call leaves it set. The model keeps that behaviour, so "connected implies library held" is not claimed. Every library command checks both flags (`Ready`).
- CanFd.CanFdBus.Connect: every failure is modelled as a distinct error variant. The source raises one exception type with a message.
- `scan`, `__del__` and the demo at the end of `canfd_lib.py`, and `_print_slave_states` and `start` of `ethercat_master.py`, are not modelled. They only print or return a constant.
- Ethercat.EthercatMaster.SetOutputs: the chunks go into a list of slave records that the method reassigns. The model does not capture pysoem slave objects being updated in place and shared with the master.

## Findings

| source | as written | input that shows it | evidently intended | confidence | as-written member | corrected member |
|---|---|---|---|---|---|---|
| lhandpro_controller.py:234-327 | The EtherCAT connect path never sets `is_connected` (only the CAN FD path does, at line 220). `connect()` can return true while every move, alarm query and `disconnect` then sees a disconnected controller. A failing `initial` calls `disconnect`, which does nothing, so the library stays open. | `communication_mode="ECAT"`, a fresh controller, every step succeeding: the result is true but `is_connected` is false, so `move_to_positions` returns false. | The EtherCAT path marks the controller connected once the master runs, as the CAN FD path does once its device is open. | high, not executed | HandController.EcatConnectAsWritten | HandController.Controller.Connect |
| canfd_lib.py:347-354 | After a frame whose code has no length, the receive thread's handler calls `disconnect()` from inside the receive thread. `disconnect` joins that still-alive thread (line 204), and joining the current thread raises. The error is wrapped and then swallowed, so `CAN_CloseDevice` is never called and `is_connected` and the callback stay set. | A connected adapter with a callback receives a frame with DLC 16. The thread ends and `is_connected` stays true with the device open. | The auto-disconnect in the comment at line 349 happens: the device is closed once the thread has ended. | medium, not executed | CanFd.CanFdBus.ReceivePoll | CanFd.CanFdBus.ReceivePollClosing |
