# Lane geometry, PID control and actuator tables — a Dafny model

This project models the pure logic of a small self-driving-car stack written
in Python on top of OpenCV and pigpio:

- **Lane detection** (`LaneDetection.py`, `process_LaneDetection`): the line
  segments the probabilistic Hough transform returns are filtered (vertical
  segments and segments with absolute slope below 0.3 are skipped), fitted
  exactly through their two end points, sorted into a left bucket (negative
  slope) and a right bucket (positive slope), averaged per bucket with an
  unweighted mean, extrapolated to the bottom row and to the row at 4/5 of
  the frame height (`make_points`, using `int()`, which truncates toward
  zero), and joined into a centre point by floor division when both lanes
  exist. Module `LaneDetection`; the segment list (or its absence) and the
  frame height are the inputs.
- **PID controller** (`PID.py`): an immutable state record
  `(kp, ki, kd, integral, prev_error)` transformed by `Compute`, `Reset` and
  `SetGains`, read by `GetGains`. Module `Pid`.
- **Actuator lookup tables** (`DcMotorPWM.py`, `Test.py`, `ServoMotor.py`):
  the rpm → duty and angle → pulse-width tables built once, stored in typed
  `array.array`s, and the setters that clamp their input before indexing.
  The hardware call is modelled as the last commanded value held in the
  driver record. Modules `DcMotorPwm`, `DcMotorRange` (the `Test.py` variant
  with a `pwm_resolution` parameter), `ServoMotor`, with the shared
  `PwmTable`.
- Python's number conversions used above — `int()` on a float, `//` and
  `round()` (half to even) — are stated once in module `PyNum`.

All floating-point arithmetic is modelled as exact rational arithmetic over
`real`. Python errors that the code can raise are modelled as values:
a table built for a maximum of 0 raises `ZeroDivisionError` (`range(1)`
evaluates `0/0`); a table value that does not fit the array's typecode
raises `OverflowError` (in `Test.py` this happens, for `max_rpm >= 1`,
exactly when `pwm_resolution` lies outside `[0, 255]`; for `max_rpm == 0`
the build raises `ZeroDivisionError` first, and for a negative `max_rpm` it
stores nothing, so any resolution builds the empty table); a negative maximum builds an empty
table, and the first lookup in it raises `IndexError` (the DC motor
constructors' own `set_rpm(0)`, or the servo's first `set_angle`).

The upper extrapolation row is `int(height * 4/5)`, a truncation; for the
non-negative heights a frame has this is the floor of `height * 4/5`, and
the model states it as `5 * y2 <= 4 * height < 5 * y2 + 5`.

## Model

| member | source | states |
|---|---|---|
| `PyNum.Trunc` | LaneDetection.py:78-80 | `int(x)` gives the integer part of `x`, truncated toward zero (never farther from zero than `x`), not the floor |
| `PyNum.TruncationUnique` | LaneDetection.py:79-80 | at most one integer is a truncation of a given number, so `Trunc` is pinned down by its contract |
| `PyNum.TruncIsNotFloor` | LaneDetection.py:79-80 | for negative non-integers truncation and floor differ: `int(-2.5)` is -2 while the floor is -3 |
| `PyNum.TruncOdd` | LaneDetection.py:79-80 | truncation is symmetric about zero: `int(-x) == -int(x)` |
| `PyNum.FloorDiv` | LaneDetection.py:102-103 | `a // b` is the quotient rounded toward negative infinity, for either sign of the divisor |
| `PyNum.RoundHalfEven` | DcMotorPWM.py:46 | `round(x)` is within 1/2 of `x`, and at an exact tie it is the even neighbour |
| `PyNum.RoundHalfEvenUnique` | DcMotorPWM.py:46 | only one integer satisfies the half-to-even rounding contract |
| `PyNum.RoundOfInteger` | DcMotorPWM.py:46 | rounding an integer returns it unchanged |
| `PyNum.RoundMonotone` | DcMotorPWM.py:45-47 | rounding preserves order, which is what makes every table non-decreasing |
| `PyNum.RoundWithin` | ServoMotor.py:37-38 | a value between two integers rounds to an integer between them |
| `PwmTable.SlotCount` | DcMotorPWM.py:43-44 | a table for maximum `m` has `m + 1` slots, or none when `m + 1` is not positive |
| `PwmTable.Store` | DcMotorPWM.py:43-47 | storing into a typed array succeeds exactly when every value fits the typecode, and then holds exactly those values; otherwise `OverflowError` |
| `PwmTable.Clamp` | DcMotorPWM.py:51 | `max(0, min(v, hi))` lies in `[0, hi]`, keeps in-range requests, sends negatives to 0 and requests above `hi` to `hi` |
| `PwmTable.Lookup` | DcMotorPWM.py:52 | indexing succeeds exactly for an index below the table length, else `IndexError` |
| `PwmTable.ClampedIndexInRange` | DcMotorPWM.py:51-52 | a clamped request always indexes a table of `max + 1` entries |
| `PwmTable.ProportionWithin` | DcMotorPWM.py:45-46 | `k * full / max` lies in `[0, full]` for `k` in `[0, max]` |
| `PwmTable.ProportionMonotone` | DcMotorPWM.py:45-46 | `k * full / max` grows with `k` |
| `DcMotorPwm.DutyBeforeRounding` | DcMotorPWM.py:45-46 | the percentage detour computes exactly `rpm * 255 / max_rpm` |
| `DcMotorPwm.Entry` | DcMotorPWM.py:45-47 | each table value is Python's `round` (half to even) of `rpm * 255 / max_rpm` |
| `DcMotorPwm.BuildLookupTable` | DcMotorPWM.py:40-47 | `ZeroDivisionError` iff `max_rpm == 0`; empty for negative `max_rpm`; otherwise `max_rpm + 1` entries, entry `k` being `round(k * 255 / max_rpm)` half to even; entry 0 is 0, the last is 255, all in `[0, 255]`, non-decreasing |
| `DcMotorPwm.DutyEntryEndpoints` | DcMotorPWM.py:44-47 | the rounded duty is 0 at rpm 0 and 255 at `max_rpm` |
| `DcMotorPwm.DutyEntryWithin` | DcMotorPWM.py:45-47 | every rounded duty for rpm in `[0, max_rpm]` lies in `[0, 255]` |
| `DcMotorPwm.DutyEntryMonotone` | DcMotorPWM.py:45-47 | the rounded duty never decreases as rpm grows |
| `DcMotorPwm.Init` | DcMotorPWM.py:23-37 | construction succeeds iff `max_rpm >= 1` (0 fails in the build, negatives at the `set_rpm(0)` lookup); a built motor has commanded duty 0 |
| `DcMotorPwm.SetRpm` | DcMotorPWM.py:49-53 | the commanded duty is the table entry of the clamped rpm, in `[0, 255]`; rpm at or above the maximum commands 255, at or below 0 commands 0; the table is untouched |
| `DcMotorPwm.Stop` | DcMotorPWM.py:55-56 | stop commands duty 0 and changes nothing else |
| `DcMotorPwm.StopMatchesZeroRpm` | DcMotorPWM.py:51-56 | stopping commands the same duty as requesting any rpm at or below 0 |
| `DcMotorPwm.SetRpmMonotone` | DcMotorPWM.py:45-53 | a larger rpm request never commands a smaller duty |
| `DcMotorPwm.DefaultMotor` | DcMotorPWM.py:23 | with the default `max_rpm = 95` the motor builds, with 96 entries ending at 255 |
| `DcMotorRange.DutyBeforeRounding` | Test.py:36-37 | the percentage detour computes exactly `rpm * pwm_resolution / max_rpm` |
| `DcMotorRange.Entry` | Test.py:36-38 | each table value is Python's `round` (half to even) of `rpm * pwm_resolution / max_rpm` |
| `DcMotorRange.EntryEndpoints` | Test.py:35-38 | the rounded duty is 0 at rpm 0 and exactly `pwm_resolution` at `max_rpm` |
| `DcMotorRange.EntryWithin` | Test.py:36-38 | every rounded duty lies in `[0, pwm_resolution]` for a non-negative resolution |
| `DcMotorRange.EntryMonotone` | Test.py:36-38 | the rounded duty never decreases as rpm grows |
| `DcMotorRange.BuildLookupTable` | Test.py:32-38 | for `max_rpm >= 1` the build succeeds iff `0 <= pwm_resolution <= 255` (otherwise `OverflowError` from the `'B'` array); a built table has `max_rpm + 1` entries, entry `k` being `round(k * pwm_resolution / max_rpm)` half to even, non-decreasing, in `[0, pwm_resolution]`, from 0 to `pwm_resolution` |
| `DcMotorRange.Init` | Test.py:15-30 | with pigpio's range check left out, construction succeeds iff `max_rpm >= 1` and the resolution fits a byte; a built motor has commanded duty 0 |
| `DcMotorRange.SetRpm` | Test.py:40-44 | the commanded duty is the entry of the clamped rpm, in `[0, pwm_resolution]`, with both clamping ends as in the fixed driver |
| `DcMotorRange.Stop` | Test.py:46-47 | stop commands duty 0 and changes nothing else |
| `DcMotorRange.DefaultResolutionMatchesFixedDriver` | Test.py:15-38 | with `pwm_resolution = 255` the table (or the error) is exactly that of the fixed-scale driver |
| `DcMotorRange.SetRpmMatchesFixedDriver` | Test.py:40-44 | for every maximum rpm both drivers construct under the same conditions, and with resolution 255 they command the same duty for every rpm |
| `ServoMotor.PulseBeforeRounding` | ServoMotor.py:37 | the unrounded width is `angle * 1000 / max_angle + 1000` |
| `ServoMotor.Entry` | ServoMotor.py:37-38 | each table value is Python's `round` (half to even) of `angle * 1000 / max_angle + 1000` |
| `ServoMotor.EntryEndpoints` | ServoMotor.py:36-38 | the rounded width is 1000 at angle 0 and 2000 at `max_angle` |
| `ServoMotor.EntryWithin` | ServoMotor.py:36-38 | every rounded width for an angle in `[0, max_angle]` lies in `[1000, 2000]` |
| `ServoMotor.EntryMonotone` | ServoMotor.py:37-38 | the rounded width never decreases as the angle grows |
| `ServoMotor.BuildLookupTable` | ServoMotor.py:30-38 | `ZeroDivisionError` iff `max_angle == 0`; empty for negative `max_angle`; otherwise `max_angle + 1` entries, entry `k` being `round(k * 1000 / max_angle + 1000)` half to even, from 1000 to 2000, all in `[1000, 2000]` (so they fit `'H'`), non-decreasing |
| `ServoMotor.Init` | ServoMotor.py:14-28 | construction fails (division by zero) iff `max_angle == 0`, and sends no pulse |
| `ServoMotor.SetAngle` | ServoMotor.py:40-49 | succeeds iff `max_angle >= 1` (else `IndexError` on the empty table); the commanded width is the entry of the clamped angle, in `[1000, 2000]`, 1000 for angles at or below 0 and 2000 at or above the maximum |
| `ServoMotor.Stop` | ServoMotor.py:51-53 | stop commands pulse width 0 and changes nothing else |
| `ServoMotor.SetAngleMonotone` | ServoMotor.py:37-49 | a larger angle never commands a narrower pulse |
| `ServoMotor.DefaultServo` | ServoMotor.py:14 | the default servo (`max_angle = 180`) has 181 entries and commands 1500 at 90 degrees |
| `Pid.New` | PID.py:8-21 | a fresh controller has the given gains, integral 0 and previous error 0 |
| `Pid.Compute` | PID.py:22-52 | the gains never change; with `dt <= 0` the output is 0 and the state is untouched; otherwise the integral grows by `e * dt`, the previous error becomes `e = setpoint - actual`, and the output is the control law `kp*e + ki*integral + kd*(e - old prev)/dt`, with the integral already updated |
| `Pid.Law` | PID.py:38-51 | defines the output as the sum of the three terms; the contract checks each term alone and the steady-error case: with only `kp` it is `kp * e`, with only `ki` it is `ki * integral`, with only `kd` it is `kd * (e - prev) / dt`, and a steady error contributes no derivative term |
| `Pid.Reset` | PID.py:54-59 | reset zeroes the integral and previous error and keeps the gains |
| `Pid.SetGains` | PID.py:61-79 | set_gains replaces only the gains; get_gains then returns exactly the new gains |
| `Pid.GetGains` | PID.py:73-79 | get_gains returns `(kp, ki, kd)` in that order |
| `Pid.SetGainsOwnGains` | PID.py:61-79 | setting the gains read by get_gains changes nothing |
| `Pid.ResetMatchesFresh` | PID.py:20-21 | after a reset, any compute returns and leaves what it would on a fresh controller with the same gains |
| `Pid.ResetForgetsHistory` | PID.py:54-59 | a reset after any compute gives the same state as a reset before it |
| `Pid.RunInvariant` | PID.py:31-48 | over any sequence of ticks the gains stay, the integral equals the start value plus the sum of `error * dt` over ticks with `dt > 0`, and the previous error is that of the last such tick |
| `Pid.IgnoredTickLeavesNoTrace` | PID.py:31-32 | a tick with `dt <= 0` appended at the end of a run outputs 0 and leaves the final state unchanged |
| `Pid.IgnoredTickAnywhere` | PID.py:31-32 | a tick with `dt <= 0` anywhere in a run outputs 0, and the final state and every later output are those of the run without it |
| `Pid.RunPrefix` | PID.py:22-52 | the outputs of the first `k` ticks do not depend on later ticks |
| `Pid.RunOutputs` | PID.py:31-52 | the `k`-th output of a run is 0 if that tick has `dt <= 0`, and otherwise the control law applied to that tick's error, the integral accumulated through it and the error of the last earlier tick with `dt > 0` |
| `Pid.RunSnoc` | PID.py:22-52 | running one more tick appends that tick's output to the earlier outputs and continues from the earlier final state |
| `Pid.ResetAfterRun` | PID.py:54-59 | after any run, a reset gives exactly a fresh controller with the original gains |
| `Pid.TickState` | PID.py:35-48 | a tick with `dt > 0` keeps the gains, adds `e * dt` to the integral, sets the previous error to `e`, and changes nothing else |
| `Pid.ProportionalOnly` | PID.py:35-51 | with `ki = kd = 0` the output is `kp * e` whatever the accumulated state |
| `Pid.IntegralOnly` | PID.py:38-51 | with `kp = kd = 0` the output is `ki` times the integral after this tick's `e * dt` is added |
| `Pid.IntegralExample` | PID.py:35-51 | with `ki = 1` only, two ticks of error 5 over `dt = 1` output 5 then 10 |
| `Pid.ProportionalExample` | PID.py:35-51 | with `kp = 1` only, two ticks of error 10 both output 10 and leave previous error 10 |
| `LaneDetection.Fit` | LaneDetection.py:60-62 | the fitted line passes exactly through both end points |
| `LaneDetection.FitUnique` | LaneDetection.py:60-62 | any line through both end points is the fitted one |
| `LaneDetection.SlopeFilterFacts` | LaneDetection.py:65 | `abs(slope) < 0.3` holds exactly when `10*abs(dy) < 3*abs(dx)` |
| `LaneDetection.SlopeSignFacts` | LaneDetection.py:69 | the slope is negative exactly when `dy * dx < 0` |
| `LaneDetection.Classify` | LaneDetection.py:53-72 | a segment is kept iff it is not vertical and `10*abs(dy) >= 3*abs(dx)`; a kept segment carries its exact fit and goes left iff `dy*dx < 0`; left slopes are at most -0.3, right slopes at least 0.3 |
| `LaneDetection.ClassifyBySide` | LaneDetection.py:56-72 | the classifier agrees with the coordinate-only descriptions of the left and right buckets |
| `LaneDetection.Sort` | LaneDetection.py:52-72 | the left bucket holds exactly one fit per segment that is left by its coordinates, the right bucket one per right segment; every left fit has slope at most -0.3 and every right fit at least 0.3 |
| `LaneDetection.SortMultiplicity` | LaneDetection.py:52-72 | each fit occurs in a bucket exactly as many times as segments classify to it on that side |
| `LaneDetection.SortMembers` | LaneDetection.py:52-72 | a fit is in a bucket exactly when some segment classifies to that side with that fit |
| `LaneDetection.BucketsNonEmpty` | LaneDetection.py:84-90 | a bucket is non-empty exactly when some segment belongs to it by its coordinates |
| `LaneDetection.SortConcat` | LaneDetection.py:52-72 | the per-segment loop over a concatenation concatenates the buckets |
| `LaneDetection.RejectedSegmentIgnoredBySort` | LaneDetection.py:56-66 | a rejected segment anywhere in the list leaves both buckets unchanged |
| `LaneDetection.Mean` | LaneDetection.py:84-92 | `np.average(..., axis=0)` is the unweighted mean: the bucket size times the mean slope (intercept) is the sum of the slopes (intercepts) |
| `LaneDetection.MeanSlopeBounds` | LaneDetection.py:85-91 | the mean of a bucket keeps its members' slope bound, so `make_points` never divides by zero |
| `LaneDetection.MeanOfUniform` | LaneDetection.py:85-91 | a bucket whose members share one line averages to exactly that line |
| `LaneDetection.MakePoints` | LaneDetection.py:75-81 | `y1` is the height, `y2` is the floor of `4/5` of it, between 0 and `y1`, and each `x` is `(y - intercept)/slope` truncated toward zero |
| `LaneDetection.Center` | LaneDetection.py:97-103 | the centre coordinates are the floor halves of the sums of the lanes' bottom coordinates |
| `LaneDetection.LaneOf` | LaneDetection.py:84-92 | a bucket's lane is the mean of the bucket, extrapolated by `make_points`, and keeps the bucket's slope bound |
| `LaneDetection.Detect` | LaneDetection.py:46-103 | no lines gives no lanes and no centre; each lane is present iff some segment belongs to its side; the centre is present iff both lanes are, lies on the bottom row, and is the floor half of the lanes' bottom x-sum; a present lane is the mean of its side's bucket extrapolated by `make_points`, and the centre is `Center` of the two lanes' points; lane slopes are at most -0.3 (left) and at least 0.3 (right) |
| `LaneDetection.NoLinesNoLanes` | LaneDetection.py:51 | no lines and an empty line list give the same empty result |
| `LaneDetection.RejectedSegmentIgnored` | LaneDetection.py:56-66 | adding a vertical or flat segment anywhere changes neither lane, neither mean, nor the centre |
| `LaneDetection.OnlyLeftSegments` | LaneDetection.py:84-103 | with only left-lane segments, the left lane is present and the right lane and the centre are absent |
| `LaneDetection.UniformLeftLane` | LaneDetection.py:69-86 | when every segment classifies left onto one line, the left lane is exactly that line |
| `LaneDetection.ExtrapolationExample` | LaneDetection.py:75-81 | the lane of slope -1 and intercept 100 in a 400-row frame runs from (-300, 400) to (-220, 320) |
| `LaneDetection.ExampleBuckets` | LaneDetection.py:52-72 | one segment on `y = -0.8x + 500` and one on `y = 0.8x - 100` sort into exactly those two fits, left and right |
| `LaneDetection.ExampleLanes` | LaneDetection.py:75-92 | those single-member buckets extrapolate in a 400-row frame to (125, 400)-(225, 320) and (625, 400)-(525, 320) |
| `LaneDetection.EndToEndExample` | LaneDetection.py:51-103 | the whole pass over those two segments in a 400-row frame gives both lanes and the centre (375, 400) |

## Left out

- The OpenCV image pipeline of `process_LaneDetection` (blur, grayscale, Canny, the region-of-interest polygon mask, the Hough transform itself, all windows and drawing): image processing with no pure logic to state; the segment list and frame height are inputs instead.
- `process_video` and `main` in `LaneDetection.py`, the `main` loop in `Test.py`: camera capture, key polling and sleeping are device I/O.
- All pigpio calls (daemon connection and its `IOError`, `set_mode`, `set_PWM_frequency`, `set_PWM_range`, `pi.stop`), their error paths, and the `cleanup` methods beyond their `stop` part: hardware I/O; the duty / pulse-width calls are kept only as the last commanded value.
- DcMotorRange.Init: succeeds for every resolution in 0..255, although `Test.py:27` first calls pigpio's `set_PWM_range`, which accepts only ranges 25 to 40000, so in the program a resolution in 0..24 already fails during construction; the pigpio call is hardware I/O and is not modelled, so "`Init` succeeds iff the resolution fits a byte" is a statement about the table build alone.
- `HardwarePWMPin`: pin identity does not affect any computed value.
- `vehicle_detector.py`, `CalibrateImages.py`, `CameraRun/camera.cpp`, `displayImage/displayimage.cpp`: a neural detector, offline calibration and camera/window programs, outside the computed core.
- IEEE double rounding: slopes, intercepts, means, PID terms and the table formulas are exact rationals. Float noise (including `np.polyfit`'s least-squares arithmetic and the float value of `0.3`) could move a segment sitting exactly on the slope threshold, or a table value sitting exactly on a rounding tie, to the other side.
- numpy's fixed-width integers: segment coordinates (int32) and `make_points`' int64 array are unbounded here, so overflow of huge coordinates is not modelled.
- Non-integer rpm or angle requests (Python raises `TypeError` when indexing with a float): requests are integers in the model.
