# Swerve module high-frequency odometry bookkeeping

This project models the bookkeeping one swerve drive module does on every
scheduler tick (`SwerveModule.periodic()`). It is written in Dafny and
verified there.

- **Drive-distance deltas.** The hardware hands over the batch of cumulative
  drive distances it sampled since the previous tick. The module replaces its
  `deltas` array with a fresh array holding one increment per sample. Each
  increment is that sample minus the distance carried in `lastDistance`, and
  `lastDistance` then advances to that sample. `lastDistance` starts at 0 and
  `deltas` starts empty. The getter hands out the latest array itself, not a
  copy.
- **Offset re-application.** The module starts and resets a timer when it is
  built. On a tick where the timer shows at least one second, the module
  writes `OFFSETS[number - 1]` to the steering hardware and resets the timer.
- **Motor currents.** The two getters add the drive motor's and the angle
  motor's stator currents, and their supply currents.

Layout:

- `odometry_deltas.dfy`, module `HighFreqOdometry`: the reference definition
  `Deltas(last, ds)` and its properties. These are the element-wise formula,
  the telescoping sum, splitting a batch in two, and the inverse
  `Accumulate`.
- `offset_recalibration.dfy`, module `OffsetRecalibration`: one timer tick as
  a function `Tick`. A run of ticks is `TimerBefore`/`OutcomeAt`. Lemmas show
  that applications are rate-limited to one per second. They also show that,
  for a valid module number, an application is never withheld past the first
  tick a period after construction or after the previous application. With
  an invalid module number nothing is ever applied.
- `swerve_module.dfy`, module `Swerve`: the class `SwerveModule`, which holds
  the fields `lastDistance`, `deltas` and the timer. Its `Periodic` method
  fills the fresh array in a loop, as the source does. The module also holds
  the current sums as plain definitions, and three clients that state
  properties of the class: `FirstTickPublishesFirstSample`,
  `ConsumerWriteIgnored` and `TwoTicksAsOne`.

Modelling choices:

- Distances, times and currents are `real`. There is no floating-point
  rounding.
- The distance batch (`loggerInputs.highFreqDistances`, filled by hardware
  I/O) is a `seq<real>` parameter of `Periodic`. The clock reading is a
  parameter `now`.
- The timer is represented by the time of its last reset. "One second has
  elapsed" is `now - timerStart >= 1`. This reads `Timer.hasElapsed` as
  "the time since the last reset is at least the argument". The timer class
  itself is not part of this model.
- The offset table `SwerveConstantsTalonFX.OFFSETS` is not part of this
  model. It is a constructor parameter `offsets`.
- The write to the hardware is returned as a `Recalibration` value.
  `Applied(v)` means `v` was written. `NotDue` means nothing was written.
  `OffsetIndexOutOfRange` covers a module number that does not index the
  table. In Java that lookup throws before `timer.reset()`. The model keeps
  the delta update, which ran before the throw. It writes nothing and leaves
  the timer as it was.
- The first tick is not special-cased. Its first delta is the first sample
  minus the initial `lastDistance` of 0, that is, the sample itself.
- The ghost fields `history`, `batch`, `published`, `builtAt` and `ticks`
  are not in the source. They record every sample seen, every delta handed
  out, the construction time and the clock reading of every tick. The class
  invariant `Valid()` uses them for two facts. Everything published so far
  equals `Deltas(0, all samples)`. The timer stands where the run of ticks
  so far leaves it (`TimerBefore`). So the run lemmas of
  `OffsetRecalibration` apply to the module's own ticks: each `Periodic`
  returns `OutcomeAt(number, offsets, builtAt, ticks, n)` for its tick `n`.
- The getter hands out the array itself, as the Java does. `Valid()` does
  not constrain that array's contents, so a caller may write into it and
  `Periodic` still runs. A separate predicate, `DeltasIntact()`, holds right
  after a tick and says the array still holds that tick's deltas.

## Model

| member | source | states |
|---|---|---|
| `HighFreqOdometry.Deltas` | src/main/java/frc/robot/swerve/SwerveModule.java:138 | the deltas array has exactly one entry per sample of the batch |
| `HighFreqOdometry.DeltasAt` | src/main/java/frc/robot/swerve/SwerveModule.java:139-142 | entry 0 is the first sample minus the carried-in distance; entry i > 0 is sample i minus sample i-1 |
| `HighFreqOdometry.DeltasUnique` | src/main/java/frc/robot/swerve/SwerveModule.java:139-142 | any sequence of the batch's length that satisfies that element-wise formula is the deltas |
| `HighFreqOdometry.DeltasSnoc` | src/main/java/frc/robot/swerve/SwerveModule.java:139-142 | one loop iteration: one more sample appends its difference from the distance carried so far and moves the carried distance to that sample |
| `HighFreqOdometry.DeltasConcat` | src/main/java/frc/robot/swerve/SwerveModule.java:138-142 | processing batch a and then batch b, with `lastDistance` carried between them, gives the deltas and the final carried distance of processing a + b at once |
| `HighFreqOdometry.SumDeltas` | src/main/java/frc/robot/swerve/SwerveModule.java:139-142 | the deltas of a batch add up to its last sample minus the carried-in distance (the carried-in distance if the batch is empty, so the sum is 0) |
| `HighFreqOdometry.AccumulateDeltas` | src/main/java/frc/robot/swerve/SwerveModule.java:139-142 | running totals of the deltas, started from the carried-in distance, give back every sample: the deltas lose no information |
| `HighFreqOdometry.DeltasAccumulate` | src/main/java/frc/robot/swerve/SwerveModule.java:139-142 | the other direction of that inverse: the deltas of running totals are the original increments |
| `OffsetRecalibration.Tick` | src/main/java/frc/robot/swerve/SwerveModule.java:144-147 | NotDue exactly when less than 1 s has elapsed; the offset is applied exactly when 1 s has elapsed and `number - 1` indexes the table; the applied value is `offsets[number - 1]` and the timer resets to `now`; otherwise the timer is untouched |
| `OffsetRecalibration.TimerBeforeExtend` | src/main/java/frc/robot/swerve/SwerveModule.java:144-147 | later ticks do not change where the timer stood before an earlier tick, so each new tick extends the run |
| `OffsetRecalibration.TimerHeldSinceApplied` | src/main/java/frc/robot/swerve/SwerveModule.java:144-147 | between two applications the timer stays at the time of the earlier one |
| `OffsetRecalibration.TimerHeldSinceStart` | src/main/java/frc/robot/swerve/SwerveModule.java:29-30 | before the first application the timer stays at its reset in the constructor |
| `OffsetRecalibration.RateLimited` | src/main/java/frc/robot/swerve/SwerveModule.java:144-147 | two consecutive applications are at least 1 s apart |
| `OffsetRecalibration.FirstApplicationDelayed` | src/main/java/frc/robot/swerve/SwerveModule.java:29-30 | the first application comes at least 1 s after construction |
| `OffsetRecalibration.NotStarved` | src/main/java/frc/robot/swerve/SwerveModule.java:144-147 | with a valid module number, after an application some tick up to the first one 1 s later applies the module's own offset again |
| `OffsetRecalibration.NotStarvedFromStart` | src/main/java/frc/robot/swerve/SwerveModule.java:29-30 | with a valid module number, some tick up to the first one 1 s after construction applies the module's own offset |
| `Swerve.SwerveModule.constructor` | src/main/java/frc/robot/swerve/SwerveModule.java:22-31 | `lastDistance` is 0, `deltas` is empty and the timer is reset at construction time, which starts the run of ticks |
| `Swerve.SwerveModule.GetHighFreqDriveDistanceDeltas` | src/main/java/frc/robot/swerve/SwerveModule.java:117-119 | returns the very array the latest tick built (empty before any), shared and not copied |
| `Swerve.SwerveModule.Periodic` | src/main/java/frc/robot/swerve/SwerveModule.java:135-148 | `deltas` is a fresh array equal to `Deltas(old lastDistance, batch)`; `lastDistance` is the batch's last sample, or unchanged for an empty batch; everything published so far sums to `lastDistance`; the recalibration outcome and the new timer are those of `Tick`, and the outcome is `OutcomeAt` of this tick in the module's run of ticks since construction; the old array's contents are not needed |
| `Swerve.FirstTickPublishesFirstSample` | src/main/java/frc/robot/swerve/SwerveModule.java:22 | the first tick of a new module publishes the first sample itself as its first delta, because `lastDistance` starts at 0 |
| `Swerve.ConsumerWriteIgnored` | src/main/java/frc/robot/swerve/SwerveModule.java:117-119 | a consumer may write into the shared array; the next tick still publishes the deltas of its batch from the carried distance |
| `Swerve.TwoTicksAsOne` | src/main/java/frc/robot/swerve/SwerveModule.java:138-142 | one module fed a then b publishes the same deltas and ends with the same `lastDistance` as one module fed a + b in a single tick; the result sums to the last sample |

## Left out

- `encoderTrigger.update` in `periodic()`: `BooleanTrigger` is not part of this model, and the call only records encoder health.
- `setVelocity`: its scaling by the cosine of the steering error uses floating-point trigonometry from the `Rotation2d` library class.
- `setModuleState`: `SwerveModuleState.optimize` is a library call that is not part of this model.
- Hardware I/O through `ModuleIO`: `getModuleState`, `getModulePosition`, `getPosition`, `updateOffset`, `stop`, `encoderConnected`, `checkModule`, `updateInputs`, `getHighFreqDriveDistances` and `getHighFreqAngles` only forward to the hardware interface or the logged inputs. The batch and the currents they would provide are parameters here.
- Logging through `Logger.processInputs` and the auto-logged input struct: telemetry only.
- `Units.rotationsToRadians` and the `Rotation2d` wrapper around the offset: the recorded offset is the raw table entry.
- What happens after the out-of-range table lookup throws: the exception leaves `periodic()` and the scheduler is not part of this model.
- Floating-point rounding of the subtraction in the delta loop: distances are exact reals.
- `PoseEstimation.java`: every operation forwards to the library pose estimator or to vision results, and neither is part of this model.
