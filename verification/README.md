# Crane control: models and proofs

This project models the firmware of a two-axis camera crane and three pieces of the software beside it, and proves what they are for. The crane moves a load up and down (pitch) and left and right (yaw). A master unit with joysticks, knobs and preset buttons sends demands over CAN to a slave unit that drives the motors; either unit runs the same 1 ms control loop.

The crane itself:

- `MathLib`: angles as the representative in (-pi, pi], for any positive pi, and an assumed square root that squares back.
- `MotionProfile`: planning a triangular or trapezoidal move and sampling it. `Filter`: the second-order recursive filter.
- `Control`, `ControlRuns`, `ControlLaw`: one controlled axis (idle, moving, settling, idle) as a class refining a function on its fields, its unbounded runs, and what it puts out for an error.
- `Output`: the slew limiter and the soft end stops. `Measured`: scaled inputs and the unwrapped 16-bit yaw encoder.
- `Can`: the objects received over the bus and the watchdogs of master and slave, over every interleaving of writes and clocks.
- `Preset`, `PresetRuns`, `PresetPace`: saving positions relative to home, loading them, both axes arriving together, and how fast they fly.
- `Firmware`, `FirmwareRuns`, `ManualRuns`, `AutoRuns`: a whole pass of the control loop, safety of every run, stale demands on a slave, steering by hand, and a preset saved, kept and flown to from end to end. `ReportRuns`, `BusRuns`: what each unit measures, and master and slave together.

Beside it:

- `Crc16`, `Crc16Order`, `ModbusTables`, `Modbus`: the table-driven CRC of the Modbus frames against the bit-by-bit definition of section 6.2.2 of the MODBUS over Serial Line Specification V1.02, what it detects, the order of its register, and the frames of server and client.
- `Prelude`: the variable-length bytecode prelude, six interleaved values and two.
- `AsmBase`, `AsmArm`, `AsmMasks`, `AsmPasses`: the two-pass ARM assembler. `ArmCpu`, `ArmRuns`, `ArmFrames`, `ArmPrograms`, `ArmFunctions`: a small ARM processor after the ARM Architecture Reference Manual (DDI 0100I) and what the emitted code does on it.
- `ArgCheck`: binding the arguments of a call to the parameters of a built-in function.
- `Bits`, `Options`: bitwise operators on numbers, and values that may be missing.

Where the source updates fields in place the model is a class. Each of its methods is proved equal to a function on a record of the fields, and the theorems are about that function and its runs. `dafny verify dfyconfig.toml` checks everything.

## Findings

Where the code does something its comments or its use suggest it does not, the model follows the code and a lemma states exactly what happens.

- The client's read request computes its CRC over five of its six bytes (src/modbus.c:282), so no receiver that checks CRCs ever accepts it (`Modbus.ReadRequest`, `Modbus.ShortCrcNeverAccepted`).
- On a slave whose demands have stopped, each expiry re-arms the deadlines it found expired (src/fb_can.c:262-265): the link is reported up again for the next 50 ms and the motors follow the stale demands, a sawtooth that starts from zero at every expiry. `FirmwareRuns.StaleDemandIsContained` follows it pass by pass: the yaw output is zero exactly after the passes that find the deadline over, and after every pass if the stale demand is zero. An expiry stops only a slave that obeys the link: one that flies a preset or is steered by hand in that pass goes on (`FirmwareRuns.ObeysIff`).
- While the master's link is down every clock throws partial reports away, so the link comes up only if all four objects arrive between two clocks (`Can.UpAgainIff`).
- Exactly on an end stop no branch of the limiter fires and the output passes unlimited (`Output.UpperStopHolds`, `Output.LowerStopHolds`).
- The function entry is commented as aligning the stack to eight bytes; the nine saved words leave it four bytes off whatever alignment the caller had (`ArmFrames.EntryAlignment`). The frame has room for at most 62 locals; the first local beyond lies exactly on the saved registers (`ArmFrames.LocalsOffSavedWordsIff`).
- The range test of a branch lets negative distances through that the 24-bit field cannot hold (`AsmPasses.RangeTestIsLoose`); `AsmPasses.BranchReachesIff` is the exact condition.
- Nothing aligns a label behind data, and one odd byte makes branches miss it (`AsmPasses.BranchOverData`). Which branches land can be read off the text of the program: exactly those whose residue modulo four is their label's (`AsmPasses.BranchesLandIff`).
- Counting the matched keywords is right exactly when the names left for keywords are distinct; with a repeated name, a call with every name but the repetition and a stray keyword is accepted (`ArgCheck.CallsNeedDistinctNames`).
- A preset saved in the same pass in which home is saved is relative to the new home (`PresetRuns.PresetAfterPass`).

## Model

| member | source | states |
|---|---|---|
| MathLib.NormalizeCharacterised | src/fb_control.c:61-63 | the normalised angle is the only one in (-pi, pi] that differs from the given one by whole turns |
| MotionProfile.Trajectory.InitLimits | src/motion_profile.c:24-31 | the struct is reset and the absolute limits stored |
| MotionProfile.Trajectory.PlanMove | src/motion_profile.c:33-91 | the struct becomes exactly the planned profile, in both branches |
| MotionProfile.Trajectory.GetPva | src/motion_profile.c:93-136 | set points and new state are the sample of the profile; an unplanned profile fails and writes nothing |
| MotionProfile.Trajectory.IsCompleted | src/motion_profile.c:143-146 | completion is the state left by the last sample |
| MotionProfile.PlanReachesTarget | src/motion_profile.c:59-91 | for any start and end velocity, either direction, both branches: speeds meet at the boundaries, the distance is exactly dend - dstart, the end velocity is vend |
| MotionProfile.SpeedLimitedIffFast | src/motion_profile.c:70-77 | the test of the speed limit is true iff the energy of the move exceeds that of the limit, without the square root |
| MotionProfile.RadicandNonNegative | src/motion_profile.c:59-68 | the square root is never taken of a negative number |
| MotionProfile.DurationsNonNegative | src/motion_profile.c:59-78 | all durations are non-negative iff there is room to change the start speed into the end speed |
| MotionProfile.RestToRestFeasible | src/motion_profile.c:59-78 | a move from rest to rest always has that room |
| MotionProfile.ForwardIffFeasible | src/motion_profile.c:33-91 | the phases of a plan follow one another within the speed limit iff the move is feasible, for any start and end velocity |
| MotionProfile.SamplingIsSmooth | src/motion_profile.c:99-135 | on every such plan, also one that starts or ends against its direction: between any two times, across all phase boundaries, velocity changes by at most max(acc, dec) per second, and both velocity and progress per second stay between the slower of the start and end speeds and the speed limit |
| MotionProfile.PeakWithinLimit | src/motion_profile.c:70-81 | the peak speed of a plan never exceeds the limit |
| MotionProfile.FastReachesLimit | src/motion_profile.c:70-81 | a move that exceeds it has the limit itself as its peak |
| MotionProfile.AccelerationIsSlope | src/motion_profile.c:107-125 | within a phase the acceleration set point is the slope of the velocity set point: the acceleration limit, nothing, or the deceleration limit against the move |
| MotionProfile.RestToRestArrives | src/motion_profile.c:93-136 | a move from rest to rest starts at the start, never leaves the way to the target, is completed iff its time is over, and then holds the target at rest |
| Filter.FilterState.Update | src/fb_filter.c:38-46 | one update shifts the history and returns the recursion's next output |
| Filter.DifferenceEquation | src/fb_filter.c:38-46 | from rest the outputs of any inputs satisfy y[k] + a0 y[k-1] + a1 y[k-2] = b0 x[k] + b1 x[k-1] |
| Filter.PitchEquation | src/fb.c:441-447 | the same with the numbers of the pitch filter |
| Filter.ZeroInputStep | src/fb_filter.c:40-45 | a step without input multiplies the form y0^2 + a0 y0 y1 + a1 y1^2 by exactly a1 |
| Filter.RunContained | src/fb_filter.c:38-46 | for stable coefficients and bounded input the form stays below its bound on every run |
| Filter.PitchFilterBounded | src/fb.c:441-447 | with the pitch coefficients and every input sequence bounded by m, the output stays below 1.76 m for ever |
| Filter.ConstantInputDecay | src/fb_filter.c:38-46 | under a constant input the form of the error against the settled value is multiplied by exactly a1 each step |
| Filter.PitchSettlesOnInput | src/fb.c:441-447 | the output a constant pitch settles on is that pitch, within 0.003 percent |
| Control.FbControl.DoSetTarget | src/fb_control.c:45-52 | a new target ends moving and settling and leaves a start pending |
| Control.FbControl.DoSetTimebase | src/fb_control.c:89-92 | the timebase becomes the absolute value |
| Control.FbControl.GetRemainingTime | src/fb_control.c:84-87 | traversal time less elapsed time |
| Control.FbControl.Run | src/fb_control.c:54-82 | samples the profile, filters the error and computes the limited output, touching nothing else |
| Control.FbControl.DoClock | src/fb_control.c:94-149 | one tick: completion, travelling, settling, idling, and starting a pending move in the same tick |
| Control.FbControl.Reset | src/fb_control.c:156-160 | everything but the configuration is forgotten |
| ControlRuns.RunSound | src/fb_control.c:94-149 | on every run with any requests: moving and settling exclude each other, a pending start excludes both, integral and output stay in their limits |
| ControlRuns.ClockSound | src/fb_control.c:94-149 | after a tick no start is pending, and an idle axis has zero output |
| ControlRuns.FinalTickExists | src/fb_control.c:104-106 | a positive timebase has a first tick at which the traversal time is reached |
| ControlRuns.FinalTickUnique | src/fb_control.c:104-106 | and only one |
| ControlRuns.MoveTerminates | src/fb_control.c:94-149 | whatever is measured, a started axis, whatever the signs of its durations, travels until the first tick n that reaches the largest of t1, t1 + t2 and the total time, settles for settling_time ticks and is idle with zero output at n + settling_time + 1 |
| ControlRuns.MoveArrives | src/fb_control.c:54-67 | from tick n until it has settled, the set point is the goal of the move, at rest |
| ControlRuns.BeginStarts | src/fb_control.c:125-148 | a move starts from any measured velocity, with the normalised distance to the target and a goal determined by it; its durations are non-negative iff it is feasible, and then that largest time is the traversal time |
| ControlRuns.BeginAtRest | src/fb_control.c:125-148 | from rest every move is feasible |
| ControlLaw.FurtherBelowDrivesMore | src/fb_control.c:54-82 | of two measurements of an axis in the same tick the one further below the set point, the shorter way round for angles, gets no smaller an output if no gain is negative, and a larger one unless it is limited |
| ControlLaw.ErrorIsDistance | src/fb_control.c:59-69 | with a filter that lets it through, the error is the set point less the measured position |
| ControlLaw.StepResponse | src/fb_control.c:69-82 | from a fresh start, tick k of a constant error e puts out kff * velocity + kp * e + ki * k * e, and kd * e / dt in the first tick only, cut to full scale, as long as the integral is below its limit |
| ControlLaw.SetPointIsSample | src/fb_control.c:54-67 | in every tick until an axis has settled its set point is the sample of its plan at its time, from where it started |
| ControlLaw.RemainingRunsDown | src/fb_control.c:84-87 | the remaining time falls by the timebase in every tick and is used up exactly in the tick that completes the plan |
| Output.MotorOutput.Drive | src/fb_output.c:46-73 | both outputs become the slewed, end-stopped and speed-limited demands |
| Output.EndStopDamps | src/fb_output.c:19-43 | the soft end stops never reverse the output and never make it larger |
| Output.UpperStopHolds | src/fb_output.c:30-35 | at or beyond the upper limit nothing drives outward iff the pitch is strictly beyond it or nothing asked to |
| Output.LowerStopHolds | src/fb_output.c:36-41 | the same at the lower limit |
| Output.UpperZone | src/fb_output.c:21-35 | at a fraction x of the travel below the upper limit an upward output is cut to speed * x / 0.3, to the speed itself from 0.3 on, and to zero beyond the limit |
| Output.LowerZone | src/fb_output.c:21-41 | at a fraction x above the lower limit a downward output is cut to speed * x / 0.15, to the speed itself from 0.15 on, and to zero beyond the limit |
| Output.UpwardDriveFalls | src/fb_output.c:30-41 | the higher the pitch the less upward drive gets through, except exactly on the limit, where all of it does |
| Output.DownwardDriveFalls | src/fb_output.c:30-41 | the same downward |
| Output.SlewIsLine | src/fb_output.c:53-63 | k steps towards a constant demand are a straight line of slope acc * dt cut off at the demand |
| Output.SlewArrives | src/fb_output.c:53-63 | the demand is reached after k steps iff k * acc * dt covers the distance |
| Output.FeasibleDemandFollowsLine | src/fb_output.c:46-73 | with a feasible demand both channels follow exactly that line, pitch while it is 0.3 of the travel or more below the upper limit and 0.15 or more above the lower |
| Output.NextOnLine | src/fb_output.c:46-73 | any demand is followed in the line as far as full scale and the speed allow |
| Output.OutputsStayInUnit | src/fb_output.c:46-73 | both outputs stay in [-1, 1] on every run of commands |
| Output.YawSlewBounded | src/fb_output.c:59-68 | within its speed limit the yaw output changes by at most acc * dt a tick |
| Output.BridgeIsSafe | src/fb.c:247-270 | for every output the half bridges stay between 0.04 and 0.96 and complementary; the motor sees no voltage iff the output is zero, and the output itself iff that is at most 0.92 |
| Output.BridgeIsMonotone | src/fb.c:247-270 | more output is never less voltage |
| Measured.ScaledStaysInRange | src/measured.c:20-29 | a scaled input is in the output range, ends map to ends, an empty input range gives the lower end |
| Measured.ScaledIsMonotone | src/measured.c:20-29 | scaling is monotone |
| Measured.ScaledIsLinear | src/measured.c:20-29 | an input a share q up its range gives the value that share up the output range |
| Measured.KnobsNeverZero | src/measured.c:82-88 | knobs whose configured limits start above zero never give a zero rate; with the limits of fb_config_init they give at least 0.05 and 0.2 of full scale |
| Measured.JoystickRange | src/measured.c:62-81 | a joystick gives zero, or at least its deadband and at most the larger end of its configured range |
| Measured.JoystickFollowsPush | src/measured.c:62-77 | a joystick gives its push, negative with the second encoder's switch active, positive with only the first's, and zero with neither or within the deadband |
| Measured.DeltaExactIffFits | src/measured.c:47-49 | the 16-bit difference of two readings is the true move iff the move is representable in 16 bits |
| Measured.YawTracksEncoder | src/measured.c:44-55 | over any run the tick counter is congruent to the true count modulo a turn and within half a turn |
| Measured.MeasuredYawIsTrueYaw | src/measured.c:44-58 | the measured yaw is the normalised true angle after any number of wraps and turns |
| Measured.YawScale | src/measured.c:51-58 | 542117 ticks are half a turn, and the angle of fewer is that share of it |
| Measured.Sensors.Update | src/measured.c:31-89 | one update of positions, encoder state, joysticks, rates and motor voltage with the configured limits, on master and slave |
| Can.CanLink.Write | src/fb_can.c:156-228 | each object sets its value, its valid bit or its clamped demand and deadline, and nothing else |
| Can.CanLink.SlaveTimedOut | src/fb_can.c:233-255 | a complete report is collected and re-arms the deadline; otherwise expiry clears what is there |
| Can.CanLink.Clock | src/fb_can.c:257-278 | the monitor of both modes |
| Can.ValidBitsArePending | src/fb_can.c:156-247 | the valid bits are exactly the objects written since the last clock that cleared them |
| Can.MasterUpIff | src/fb_can.c:233-276 | over every interleaving the link is up iff the clock precedes the initial deadline, or a complete report is pending, or one was collected less than a second ago |
| Can.DownUntilComplete | src/fb_can.c:233-276 | once down it stays down until a complete report is collected |
| Can.UpAgainIff | src/fb_can.c:246-251 | while down, the next clock finds it up iff all four objects arrived since the last |
| Can.SlaveUpIff | src/fb_can.c:257-269 | demands are fresh iff each was received, or re-armed by an expiry, less than 50 ms ago |
| Can.ValuesAreLast | src/fb_can.c:162-225 | over every interleaving each reported field is the last value written to its own object, and each demand the last value of its own, cut to a thousand either way |
| Can.DemandCrossesBus | src/fb_can.c:110-128 | on both channels an output arrives as a demand of the same sign, no larger, less than a thousandth away, never clamped |
| BusRuns.PairFromStart | src/fb.c:161-176 | two units started and addressed as master and slave are a sound pair |
| BusRuns.DemandsAreRecent | src/fb_can.c:103-268 | on every run of both, with any traffic: the slave finds the link up iff each demand was sent, or kept by an expiry, less than 50 ms ago, and one that was sent is the master's output of that moment to less than a thousandth |
| BusRuns.DemandIsNear | src/fb_can.c:103-268 | and off from the master's present output by less than a thousandth and delta per pass of the master since, if no pass changes the output by more than delta |
| BusRuns.YawStepBounded | src/fb.c:203-233 | in an automatic move a pass changes the yaw output by at most 4 * acc * dt, by hand within the knob's speed by at most the knob's acc * dt |
| ReportRuns.RunHolds | src/fb_can.c:156-228 | on every run of a unit, passes included, each reported field holds the last value written to its own object |
| ReportRuns.MasterMeasuresReports | src/measured.c:35-39 | after any run a pass of the master measures the last reported yaw, and the last reported pitch through its filter |
| ReportRuns.ReportedYawIsNear | src/fb_can.c:139-142 | that yaw is less than a thousandth off the one the slave read when it reported, and not beyond it |
| ReportRuns.SlaveMeasuresSensors | src/measured.c:40-58 | any other unit measures its own potentiometer and encoder |
| Preset.Presets.DoSetPreset | src/fb_config.c:109-116 | the preset is stored and valid; a number out of range stores nothing |
| Preset.Presets.TryLoadPreset | src/fb_preset.c:20-100 | refuses iff the preset or home is unset; otherwise targets, limits, starts and timebases of both axes |
| Preset.Presets.Operational | src/fb_state_operational.c:26-51 | one pass over the buttons, in order |
| PresetRuns.RequestStarts | src/fb_control.c:45-52 | the tick after a request starts the move, whatever the axis did before |
| PresetRuns.LoadsIffSaved | src/fb_preset.c:22-25 | loading does nothing unless both the preset and home were saved, and otherwise makes the control automatic |
| PresetRuns.LoadedPreset | src/fb_preset.c:35-92 | after loading, both axes have started, with positive timebases, and head for the preset's position relative to home, yaw by at most half a turn |
| PresetRuns.PresetFliesFrom | src/fb_preset.c:27-60 | each of those axes sets off from what was measured of it, over the distance to its target |
| PresetRuns.AxesFinishTogether | src/fb_preset.c:64-86 | if the shorter move lasts more than 0.05 s both profiles complete in the same tick |
| PresetRuns.AxesCompleteTogether | src/fb_preset.c:64-86 | and on the running axes neither or both have completed up to that tick |
| PresetRuns.ShorterIsSlowed | src/fb_preset.c:64-92 | the longer move is flown at full speed and the shorter slowed down by as much as it is shorter; both at full speed if it lasts at most 0.05 s |
| PresetPace.RequestKeepsLimits | src/fb_control.c:125-148 | at any time a started move accelerates at its first limit, is no faster than its second, and brakes at its third |
| PresetPace.PresetPaced | src/fb_preset.c:53-57 | a loaded preset never passes 0.9 of the pitch speed and 0.5 of the yaw speed, reaches them on a long move, and changes them by at most 0.5 of the pitch and 0.6 of the yaw acceleration a second |
| PresetPace.HomePaced | src/fb_preset.c:47-48 | home is flown at 0.9 and 0.5 of full speed, with accelerations of 0.5 and 0.6 |
| PresetPace.ReleasedPaced | src/fb_preset.c:53-57 | in the running firmware those are the speeds and accelerations that each axis's own knobs give in the pass in which the button is released |
| PresetPace.FlightPaced | src/fb_control.c:54-67 | the set point's velocity keeps that speed in every tick until the axis has settled |
| PresetRuns.SavedPresetIsReached | src/fb_state_operational.c:34-49 | a saved preset leads back to where it was saved, displaced by as much as home was moved |
| PresetRuns.RoundTrip | src/fb_state_operational.c:34-49 | with home unchanged: exactly the saved pitch, and the saved yaw when that is in (-pi, pi] |
| PresetRuns.HomeIsNear | src/fb_preset.c:42-46 | the yaw chosen for home is at most a quarter turn away, home itself iff home is that near, else the opposite direction |
| PresetRuns.HomeIsReached | src/fb_preset.c:42-52 | once home is loaded, the next tick of both axes sets them off to it, yaw by at most a quarter turn |
| PresetRuns.HomeFliesFrom | src/fb_preset.c:27-52 | each axis of that flight sets off from what was measured of it, over the distance to its target |
| PresetRuns.PresetAfterPass | src/fb_state_operational.c:34-50 | what one pass over the buttons leaves in each preset, in closed form |
| Firmware.Fb.Update | src/fb.c:289-299 | one pass of the control loop is the composition of its stages, and the motors are driven with what it leaves |
| Firmware.Fb.DoSense | src/fb.c:272-287 | watchdog, link state and measurements |
| Firmware.Fb.DoCheckMode | src/fb.c:161-176 | the address switch decides the mode; a new slave obeys the link |
| Firmware.Fb.DoUpdateControl | src/fb.c:185-245 | the four control modes; a moved joystick ends an automatic move |
| Firmware.MotorsFollow | src/fb.c:247-270 | each motor sees the output of its own channel, cut to 0.92 |
| FirmwareRuns.StepReady | src/fb.c:289-299 | nothing that can happen leaves a pending move that could not be planned, so every pass can run |
| FirmwareRuns.RunSafe | src/fb.c:289-299 | from start-up, on every run of CAN writes and passes: axes sound, outputs in [-1, 1], demands and yaw counter in range |
| FirmwareRuns.RunKeepsSound | src/fb.c:289-299 | the same from any sound state |
| FirmwareRuns.Serve | src/fb.c:289-299 | the object, started and given any events, goes through that run |
| FirmwareRuns.NewSlaveObeys | src/fb.c:161-176 | a unit that finds itself with a slave's address obeys the link after that pass, whatever else happens in it |
| FirmwareRuns.PassLink | src/fb.c:161-176 | a pass does to the link what the clock does; a turned address switch decides the mode, address 1 being the master's |
| FirmwareRuns.NewMasterGoesOn | src/fb.c:161-176 | a unit that finds itself with address 1 is a master after that pass and is controlled the way it was |
| FirmwareRuns.NothingPressed | src/fb_state_operational.c:26-51 | buttons that are neither held nor just released do nothing |
| FirmwareRuns.ObeysIff | src/fb.c:272-287 | without buttons, fresh demands make a slave obey the link, and old ones stop it iff it did already |
| FirmwareRuns.SlaveFromStart | src/fb.c:289-299 | a unit started and addressed as a slave obeys the link on every run without buttons |
| FirmwareRuns.SlavePass | src/fb.c:185-202 | a slave without buttons is stopped when a demand is too old and driven by the demands otherwise |
| ManualRuns.ManualRun | src/fb.c:203-209 | steered by hand with the controls held, over any run, each output is on the line from where it was towards its own joystick, with its own knobs' acceleration and speed; pitch outside the slow zones |
| ManualRuns.AutoDrives | src/fb.c:210-243 | in an automatic move yaw slews by 0.004 and pitch by 0.008 a pass towards the negated output of its own axis, and the move ends iff either joystick is beyond its own deadband |
| FirmwareRuns.StaleDemandIsContained | src/fb_can.c:257-269 | after demands stop, for every list of later events: the link is down, the crane stopped and both outputs zero exactly after the passes that find the deadline over; j passes later yaw is on the line of slope 4 * acc towards the stale demand, zero only if that is, pitch no further than it, and both below 200 / gap for passes gap microseconds apart |
| FirmwareRuns.StaleFromStart | src/fb_can.c:257-269 | the same from start-up: addressed as a slave, any traffic for any time, then demands stop |
| AutoRuns.AutoRun | src/fb.c:211-232 | with hands off, the firmware ticks both axes once a pass with what it measures |
| AutoRuns.SavedPresetIsFlownTo | src/fb_preset.c:20-100 | a preset saved, its button released in the running firmware, hands off: when a profile completes and until it has settled, its set point is the saved position, at rest |
| AutoRuns.PresetSurvives | src/fb_state_operational.c:26-51 | a preset and home survive every run in which neither of their buttons is held |
| AutoRuns.HeldThenFlownTo | src/fb_state_operational.c:26-51 | from the pass in which the button is held, over any such run, to the button released and hands off: the set point becomes what was measured in that first pass, at rest |
| AutoRuns.HomeIsFlownTo | src/fb_preset.c:42-52 | the home button released in the running firmware, hands off: when a profile completes and until it has settled, its set point is home's pitch, and home's yaw or its opposite, at rest, at most a quarter turn of yaw away |
| Crc16.StepsAreLinear | src/modbus.c:100-104 | the shift register is linear |
| Crc16.BytesAreBits | src/modbus.c:100-104 | the byte-wise register is the bit-by-bit register of the message's bits |
| Crc16.BurstDetected | src/modbus.c:93-107 | equal-length messages that differ only within sixteen consecutive bits have different CRCs |
| Crc16.AdjacentBytesDetected | src/modbus.c:93-107 | as do messages that differ only in one byte or two adjacent ones |
| Crc16.OddErrorsDetected | src/modbus.c:93-107 | and messages that differ in an odd number of bits |
| Crc16.ResidueZero | src/modbus.c:161-163 | a message followed by two bytes leaves the register at zero iff they are its CRC, low byte first |
| Crc16Order.ReturnsIff | src/modbus.c:100-104 | shifting brings every register back after n steps iff n is a multiple of 32767 |
| Crc16Order.TwoBitsCancelIff | src/modbus.c:93-107 | two flipped bits leave the CRC unchanged iff they are a multiple of 32767 positions apart |
| Crc16Order.ThreeBitsDetected | src/modbus.c:93-107 | one to three flipped bits change the CRC of any message of up to 4095 bytes |
| Modbus.TableCrc | src/modbus.c:93-107 | the loop over both tables computes the bit-by-bit CRC, bytes exchanged, for every message of every length |
| Modbus.FrameAccepted | src/modbus.c:161-163 | a frame with its CRC in the order sent is accepted by a receiver that checks the residue |
| Modbus.DamagedFrameRejected | src/modbus.c:93-107 | a frame damaged within sixteen consecutive bits, in an odd number of bits, or in up to three bits, is not |
| Modbus.ModbusServer.DoRequest | src/modbus.c:141-201 | the answer, its length and its bytes, or the error, and the register map afterwards, for every request |
| Modbus.AnsweredIff | src/modbus.c:141-201 | which requests are answered, with what code all others are refused, and which alone can change a register |
| Modbus.AnswersCarry | src/modbus.c:150-199 | a read by function 3 or 4 answers with the low word of that register, higher byte first, function 17 with the slave's id |
| Modbus.WriteRequest | src/modbus.c:317-331 | the client's write frame, accepted by any receiver |
| Modbus.ReadRequest | src/modbus.c:271-285 | the client's read frame as built |
| Modbus.ShortCrcNeverAccepted | src/modbus.c:282-284 | a frame whose CRC leaves out a byte 1 at the end is never accepted |
| Modbus.ReadRoundTrip | src/modbus.c:150-168 | a read request gets the register's low word back |
| Modbus.TakenIff | src/modbus.c:287-294 | the client takes a value exactly from seven bytes with its address and function 3; any other length is -1, anything else -5 |
| Modbus.WriteRoundTrip | src/modbus.c:169-187 | a write request writes the value to the register map and is echoed |
| Modbus.WriteThenRead | src/modbus.c:150-187 | over a register map that keeps values, a later read over the bus gets the written value, whatever is served in between but other writes to that register |
| Prelude.WriteSignature | include/py/bc.h:74-104 | the encoder's loop terminates and writes the structural encoding |
| Prelude.ReadSignature | include/py/bc.h:106-127 | the decoder's loop reads the value and stops behind it |
| Prelude.LoopIsStructural | include/py/bc.h:116-125 | or-ing shifted bits round by round is reading the bytes from the back |
| Prelude.SignatureRoundTrip | include/py/bc.h:74-127 | decoding an encoded signature followed by anything returns all six values and consumes exactly its bytes |
| Prelude.ReEncodeSignature | include/py/bc.h:74-127 | re-encoding what was decoded gives the same bytes iff no byte was idle |
| Prelude.SignatureOnWire | include/py/bc.h:86-101 | for every n, which bit of which value stands where in byte n of an encoded signature, and which bytes are marked as not the last |
| Prelude.WriteSizes | include/py/bc.h:134-147 | the size encoder terminates and writes the structural encoding |
| Prelude.ReadSizes | include/py/bc.h:149-163 | the size decoder reads the pair and stops behind it |
| Prelude.SizesRoundTrip | include/py/bc.h:134-163 | the round trip for the size pair |
| Prelude.SizesOnWire | include/py/bc.h:134-147 | the same for the size pair |
| AsmBase.Assembler.StartPass | src/py/asmbase.c:50-62 | labels are cleared or a buffer of the counted size is allocated; the offset restarts |
| AsmBase.Assembler.GetCurToWriteBytes | src/py/asmbase.c:67-76 | counts, and in the emit pass gives a place inside the buffer |
| AsmBase.Assembler.LabelAssign | src/py/asmbase.c:78-89 | assigns in the counting pass, changes nothing in the emit pass |
| AsmBase.Assembler.Data | src/py/asmbase.c:98-107 | little-endian bytes at the offset, everything else unchanged |
| AsmBase.DataIsValue | src/py/asmbase.c:98-107 | the bytes of data, lowest first, are the value modulo 256 to their number |
| AsmMasks.MaskedIsNext | src/py/asmbase.c:92-95 | in 32 bits, (offset + align - 1) & ~(align - 1) is the first multiple of the alignment not before the offset |
| AsmArm.ArmAssembler.MovRegI32 | src/py/asmarm.c:222-230 | the three words, and the place of the literal |
| AsmArm.ArmAssembler.MovRegPcrel | src/py/asmarm.c:318-332 | the four words for the label as known in this pass |
| AsmArm.ArmAssembler.BccLabel | src/py/asmarm.c:407-420 | one branch word, or nothing when the distance fails the test |
| AsmArm.ArmAssembler.Entry | src/py/asmarm.c:174-196 | the entry code and the adjustment remembered for the exit |
| AsmArm.ArmAssembler.Exit | src/py/asmarm.c:198-205 | the exit code for that adjustment |
| AsmArm.ArmAssembler.Perform | src/py/asmarm.c:62-420 | every operation's effect on offset, labels, code and adjustment |
| AsmMasks.AlignIsMasked | src/py/asmbase.c:92-95 | that expression is the quotient form the model uses |
| AsmMasks.RangeTestIsMasked | src/py/asmarm.c:39 | the masks of the range test accept exactly the distances the model's test does |
| AsmMasks.OppositeFlips | src/py/asmarm.c:272 | the opposite condition is the exclusive or with bit 28 |
| AsmMasks.ConditionsJoin | src/py/asmarm.c:72-75 | or-ing a condition into an instruction adds it |
| AsmMasks.BranchesJoin | src/py/asmarm.c:416 | so does or-ing the masked distance into a branch |
| AsmMasks.RegisterEncodersAreOrs | src/py/asmarm.c:90-130 | the encoders of moves, sums, differences and comparisons of registers are the ors of the source |
| AsmMasks.ImmediateEncodersAreOrs | src/py/asmarm.c:96-124 | the same with immediate operands |
| AsmMasks.MemoryEncodersAreOrs | src/py/asmarm.c:78-88 | the same for loads and stores of up to 1024 locals and for register lists |
| AsmPasses.BranchReachesIff | src/py/asmarm.c:409-416 | for all 32-bit offsets the emitted branch word goes to the destination iff the distance is a multiple of four and fits the field |
| AsmPasses.RangeTestIsLoose | src/py/asmarm.c:39 | a distance that passes the masks of the range test and is encoded as another |
| AsmPasses.TwoPasses | src/py/asmbase.c:50-89 | for every well-formed program below 2^25 bytes both passes run without a failed assertion, every write is in bounds, and offsets and labels agree |
| AsmPasses.EveryOpInPlace | src/py/asmbase.c:67-76 | at the end the bytes of every operation are where it was performed |
| AsmPasses.LabelIsPlace | src/py/asmbase.c:78-89 | a label's offset is the place where it was assigned, seen from before and behind |
| AsmPasses.BranchesLand | src/py/asmarm.c:407-420 | every branch, forward or backward, decodes to its label iff both are equally aligned |
| AsmPasses.ResidueIsOffset | src/py/asmbase.c:92-107 | in every run of a program the offsets modulo four are those read off its text |
| AsmPasses.BranchesLandIff | src/py/asmarm.c:407-420 | for every well-formed program below the reach of a branch: a branch goes to its label iff their residues in the text agree |
| AsmPasses.OffsetsAreWords | src/py/asmbase.c:67-107 | in a program whose data comes in whole words every operation is at a multiple of four, whatever powers of two it aligns to |
| AsmPasses.WordSizedBranchesLand | src/py/asmarm.c:407-420 | so there every branch goes to its label |
| AsmPasses.BranchOverData | src/py/asmbase.c:97-107 | a branch over data goes to the label behind it iff the size of the data is a multiple of four |
| AsmPasses.Assemble | src/py/asmbase.c:50-107 | the calls made in both passes on the object leave exactly that program |
| ArmCpu.ImmediateLoads | src/py/asmarm.c:232-243 | for every immediate the code leaves exactly it in rd, changes nothing else and continues behind its own words |
| ArmCpu.LiteralLoads | src/py/asmarm.c:222-230 | the same for the three-word form |
| ArmCpu.LabelAddressLoads | src/py/asmarm.c:318-332 | the code leaves the label's address in rd wherever the program is loaded |
| ArmRuns.BranchGoesToLabel | src/py/asmarm.c:407-420 | an executed branch goes to its label when the condition holds and on otherwise |
| ArmRuns.SetccSets | src/py/asmarm.c:269-273 | two conditional moves leave the truth of the condition |
| ArmRuns.ComparisonSets | src/py/emitnative.c:2705-2722 | a comparison leaves 1 iff the relation holds, for all ten unsigned and signed conditions the emitter uses |
| ArmRuns.RegisterOpsLoad | src/py/asmarm.c:217-285 | moves, sums and differences of registers leave what their names say, modulo 2^32, and nothing else behind |
| ArmRuns.JumpsOnZero | include/py/asmarm.h:163-172 | a compare with zero and a branch reach the label iff the register is zero, or is not, and go on behind otherwise |
| ArmRuns.LocalRoundTrip | src/py/asmarm.c:245-255 | a local gives back what was stored in it |
| ArmFrames.PushPop | src/py/asmarm.c:207-215 | for every register list popping after pushing restores exactly the list and the stack pointer |
| ArmFrames.FunctionEnters | src/py/asmarm.c:174-196 | the entry saves r1 to r8 and the link register and moves the stack pointer by the frame |
| ArmFrames.FunctionReturns | src/py/asmarm.c:198-205 | for any number of locals the exit restores stack pointer and r1 to r8 and continues at the return address |
| ArmFrames.RoomForLocals | src/py/asmarm.c:184-195 | there is room for all locals iff there are at most 62 |
| ArmFrames.LocalsOffSavedWordsIff | src/py/asmarm.c:163-195 | after the entry no local shares a word with the saved registers iff there are none, or four to 62 (up to three are kept in registers) |
| ArmFrames.LocalBehindFrame | src/py/asmarm.c:184-195 | the local that does otherwise, and the word it shares |
| ArmFrames.EntryAlignment | src/py/asmarm.c:183-195 | the stack pointer after entry is four bytes off the caller's alignment modulo eight |
| ArmPrograms.ProgramBranches | src/py/asmarm.c:407-420 | an assembled program loaded anywhere: executing a branch leads to the address of its label |
| ArmPrograms.ProgramAddresses | src/py/asmarm.c:318-332 | and the code for a label's address leaves that address |
| ArmPrograms.ProgramBranchesIff | src/py/asmarm.c:407-420 | an executed branch of an assembled program leads to its label's address iff the label's residue in the text is zero |
| ArmPrograms.ProgramAddressesByText | src/py/asmarm.c:318-332 | a label's address is loaded wherever the code for it stands at residue zero |
| ArmPrograms.WordSizedBranches | src/py/asmarm.c:407-420 | when data comes in whole words the same without any condition on offsets |
| ArmPrograms.WordSizedAddresses | src/py/asmarm.c:318-332 | and for addresses of labels |
| ArmFunctions.FrameInForce | src/py/asmarm.c:174-205 | an exit is written with the frame of the last entry before it |
| ArmFunctions.ProgramFunction | src/py/asmarm.c:174-205 | a function of an assembled program, loaded anywhere: the entry saves what the caller needs, and whatever is done in between, the exit that closes it gives that back and returns |
| ArmFunctions.ProgramImmediates | src/py/asmarm.c:232-243 | an executed load of an immediate of an assembled program leaves exactly it |
| ArmFunctions.ProgramConditions | src/py/asmarm.c:269-273 | an executed pair of conditional moves leaves the truth of its condition |
| ArgCheck.ParseAll | src/py/argcheck.c:84-142 | returns normally iff every slot fits and nothing is left over, with exactly the binding in the output; otherwise the error of the first slot that does not fit |
| ArgCheck.CountingIsMatching | src/py/argcheck.c:134-141 | with distinct names the count comparison is equivalent to every keyword naming a different free parameter |
| ArgCheck.AcceptedIffValid | src/py/argcheck.c:84-142 | and the call is accepted iff it is a valid binding |
| ArgCheck.BoundAsGiven | src/py/argcheck.c:88-124 | a valid call binds each parameter to its position, else to the keyword of its name, else to its default, as a value of its kind |
| ArgCheck.BlamedForWhatIsWrong | src/py/argcheck.c:90-121 | the error of a parameter that does not fit is what is wrong with it |
| ArgCheck.SurplusIsNamed | src/py/argcheck.c:125-141 | when every parameter fits, too many positions are complained about before a stray keyword |
| ArgCheck.CountingNeedsDistinctNames | src/py/argcheck.c:134-141 | distinct names are exactly what the count needs |
| ArgCheck.CallsNeedDistinctNames | src/py/argcheck.c:84-142 | calls with any keywords are accepted iff valid exactly when, the positions fitting, the names left for keywords are distinct |

## Left out

- Floating point: all arithmetic is over exact real numbers; rounding, infinities and the test for NaN (src/motion_profile.c:128) are not modelled, and neither are limits of zero, which the source divides by. The configured limits of the acceleration and speed knobs are any that start above zero (`Measured.Scaling`); the source does not check them.
- `normalize_angle`, `constrain_float` and the timestamps come from headers that are not part of this model: the angle is the representative in (-pi, pi] for an arbitrary positive pi, a deadline has expired from its own instant on, and time is in microseconds.
- Threads and mutexes: a CAN write and a pass of the control loop are atomic steps.
- Device probing, GPIO, ADC, serial transfers, register maps, PDO configuration, LEDs, console commands, button timing: readings, button states and register contents are parameters.
- The states that wait for power and for home: nothing enters them, the firmware starts in the operational state.
- Widths of the values of the preludes: they are natural numbers, and the shifts of the source are taken as exact; the extension of `int` shifts beyond its width is not modelled.
- Words of the assembler and of the processor are numbers below 2^32, and fields of an instruction are added where the source uses a bitwise or; `AsmMasks` shows that this is the same for registers below 16, immediates below 256 and locals below 1024, as the encoders assume.
- AsmBase.Assembler.Align: only for alignments that are powers of two, which is what the masking of the source needs; its comment asks for multiples of two.
- Allocation of the code buffer always succeeds, and what the memory held before is arbitrary.
- The processor has no rotated immediates, shifted registers, byte or halfword transfers, multiplications, logical operations or exchange of instruction sets; memory is read and written by words. The emitters of those instructions are covered by `Plain` operations in the two-pass theorems only.
- `asm_arm_bl_ind` and `asm_arm_bx_reg`: calls through the function table need code that is not shown.
- mp_arg_check_num_sig and the conversions of objects to integers: an argument carries the integer it converts to, if any; the error texts are not modelled.
- The client's read of the slave id and the reception side of the client (src/modbus.c:286-315): plumbing over the frames that are modelled.
- Measured.Sensors.Update: motor currents and temperatures are not modelled; nothing modelled reads them.
- Firmware.Fb.Update: the LED stages and the change of the CAN node's address are not modelled, and the six writes to the motor bridges are one value.
- BusRuns.DemandsAreRecent: the bus carries a demand at once, in one step; queues and retransmission of the CAN controller are not modelled.
- Preset.Presets.TryLoadPreset: only for numbers of presets that exist, as the buttons give; the console passes an unchecked number to the same function (src/fb_cmd.c:388-389), and the access beyond the table that a larger one causes is not modelled.
- FirmwareRuns.StaleDemandIsContained: the pitch output is bounded by the line, not equal to it, because the end stops depend on the measured pitch.
- PresetRuns.AxesFinishTogether: only for a shorter move of more than 0.05 s, as the source rescales; below that both axes run at timebase 1 (`PresetRuns.ShorterIsSlowed`).
