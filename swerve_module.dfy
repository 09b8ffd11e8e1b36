/** One swerve drive module: the state it carries between scheduler ticks
    (the last cumulative drive distance, the latest array of high-frequency
    distance deltas and its recalibration timer) and the periodic update
    that advances it. Hardware I/O is replaced by parameters: the batch of
    high-frequency drive distances the hardware captured since the last
    tick, the current time, and the motor currents last read. */
module Swerve {
  import opened HighFreqOdometry
  import opened OffsetRecalibration

  /** The motor currents last read from the module's hardware. [amps] */
  datatype ModuleCurrents = ModuleCurrents(
    driveMotorStatorCurrent: real,
    angleMotorStatorCurrent: real,
    driveMotorSupplyCurrent: real,
    angleMotorSupplyCurrent: real)

  /** Stator current of both motors combined. [amps] */
  function StatorCurrent(c: ModuleCurrents): real
  {
    c.driveMotorStatorCurrent + c.angleMotorStatorCurrent
  }

  /** Supply current of both motors combined. [amps] */
  function SupplyCurrent(c: ModuleCurrents): real
  {
    c.driveMotorSupplyCurrent + c.angleMotorSupplyCurrent
  }

  class SwerveModule {
    /** The module's number, counted from 1; selects its entry of `offsets`. */
    const number: int
    /** The steering-encoder offset table of the whole drive. [rotations] */
    const offsets: seq<real>

    /** Cumulative drive distance at the last sample processed. */
    var lastDistance: real
    /** Deltas built by the latest tick. */
    var deltas: array<real>
    /** Time of the recalibration timer's last reset. */
    var timerStart: real

    /** The drive distances sampled before the latest batch, in order. */
    ghost var history: seq<real>
    /** The latest batch of drive distances. */
    ghost var batch: seq<real>
    /** Every delta published since the module was built, tick after tick. */
    ghost var published: seq<real>
    /** The time at which the module was built and its timer first reset. */
    ghost const builtAt: real
    /** The clock reading of every tick so far, in order. */
    ghost var ticks: seq<real>

    /** The carried distance is that of the latest sample (0 before any).
        Everything published so far is exactly the deltas of all samples
        taken as one batch from 0. The timer is where the run of ticks so
        far, started at `builtAt`, leaves it. The contents of the array
        handed out are not part of this invariant: callers share that array
        and may write into it, which no later tick depends on. */
    ghost predicate Valid()
      reads this
    {
      lastDistance == LastAfter(LastAfter(0.0, history), batch) &&
      published == Deltas(0.0, history + batch) &&
      timerStart == TimerBefore(number, offsets, builtAt, ticks, |ticks|)
    }

    /** The array handed out still holds what the latest tick wrote: the
        deltas of the latest batch, measured from the distance carried in
        from every earlier sample. */
    ghost predicate DeltasIntact()
      reads this, deltas
    {
      deltas[..] == Deltas(LastAfter(0.0, history), batch)
    }

    /** Builds the module; the timer is started and reset at `now`. */
    constructor (number: int, offsets: seq<real>, now: real)
      ensures Valid() && DeltasIntact()
      ensures this.number == number && this.offsets == offsets
      ensures lastDistance == 0.0 && deltas.Length == 0 && timerStart == now
      ensures history == [] && batch == [] && published == []
      ensures builtAt == now && ticks == []
    {
      this.number := number;
      this.offsets := offsets;
      lastDistance := 0.0;
      deltas := new real[0];
      timerStart := now;
      history, batch, published := [], [], [];
      builtAt, ticks := now, [];
    }

    /** The array built by the latest tick, shared, not copied. */
    method GetHighFreqDriveDistanceDeltas() returns (r: array<real>)
      ensures r == deltas
    {
      r := deltas;
    }

    /** One scheduler tick. `highFreqDistances` is the batch of cumulative
        drive distances sampled since the previous tick, oldest first. A
        fresh array of their deltas replaces `deltas`, the carried distance
        moves to the last sample, and the offset is re-applied if the
        timer has run a full period; `recalibration` records that write. */
    method Periodic(highFreqDistances: seq<real>, now: real) returns (recalibration: Recalibration)
      requires Valid()
      modifies this
      ensures Valid() && DeltasIntact()
      ensures fresh(deltas)
      ensures deltas[..] == Deltas(old(lastDistance), highFreqDistances)
      ensures lastDistance == LastAfter(old(lastDistance), highFreqDistances)
      ensures history == old(history + batch) && batch == highFreqDistances
      ensures published == old(published) + deltas[..]
      ensures Sum(published) == lastDistance
      ensures TimerStep(recalibration, timerStart) == Tick(number, offsets, old(timerStart), now)
      ensures ticks == old(ticks) + [now]
      ensures recalibration == OutcomeAt(number, offsets, builtAt, ticks, |ticks| - 1)
    {
      ghost var last0 := lastDistance;
      deltas := new real[|highFreqDistances|];
      var i := 0;
      while i < deltas.Length
        invariant fresh(deltas) && deltas.Length == |highFreqDistances|
        invariant 0 <= i <= deltas.Length
        invariant deltas[..i] == Deltas(last0, highFreqDistances[..i])
        invariant lastDistance == LastAfter(last0, highFreqDistances[..i])
        invariant history == old(history) && batch == old(batch) && published == old(published)
        invariant timerStart == old(timerStart) && ticks == old(ticks)
      {
        DeltasSnoc(last0, highFreqDistances[..i], highFreqDistances[i]);
        assert highFreqDistances[..i + 1] == highFreqDistances[..i] + [highFreqDistances[i]];
        deltas[i] := highFreqDistances[i] - lastDistance;
        lastDistance := highFreqDistances[i];
        i := i + 1;
      }
      assert deltas[..] == deltas[..i];
      assert highFreqDistances[..i] == highFreqDistances;
      DeltasConcat(0.0, history, batch);
      DeltasConcat(0.0, history + batch, highFreqDistances);
      history, batch := history + batch, highFreqDistances;
      published := published + deltas[..];
      SumDeltas(0.0, history + batch);

      if HasElapsed(timerStart, now) {
        if ValidModuleNumber(number, offsets) {
          recalibration := Applied(offsets[number - 1]);
          timerStart := now;
        } else {
          recalibration := OffsetIndexOutOfRange;
        }
      } else {
        recalibration := NotDue;
      }
      TimerBeforeExtend(number, offsets, builtAt, ticks, [now], |ticks|);
      ticks := ticks + [now];
    }
  }

  /** The first tick of a new module is not special-cased: since the
      carried distance starts at 0, the first delta it publishes is the
      first sample itself. */
  method FirstTickPublishesFirstSample(number: int, offsets: seq<real>, builtAt: real,
                                       highFreqDistances: seq<real>, now: real)
    returns (firstDelta: real)
    requires highFreqDistances != []
    ensures firstDelta == highFreqDistances[0]
  {
    var m := new SwerveModule(number, offsets, builtAt);
    var _ := m.Periodic(highFreqDistances, now);
    var published := m.GetHighFreqDriveDistanceDeltas();
    DeltasAt(0.0, highFreqDistances, 0);
    firstDelta := published[0];
  }

  /** A consumer may write into the array it was handed: the next tick
      neither reads nor needs it, and publishes the same deltas it would
      have published otherwise. */
  method ConsumerWriteIgnored(a: seq<real>, b: seq<real>, number: int, offsets: seq<real>, overwrite: real)
    returns (next: seq<real>)
    requires a != []
    ensures next == Deltas(LastAfter(0.0, a), b)
  {
    var m := new SwerveModule(number, offsets, 0.0);
    var _ := m.Periodic(a, 0.0);
    var shared := m.GetHighFreqDriveDistanceDeltas();
    shared[0] := overwrite;
    var _ := m.Periodic(b, 0.0);
    var latest := m.GetHighFreqDriveDistanceDeltas();
    next := latest[..];
  }

  /** Two ticks fed batches `a` and then `b` publish, between them, exactly
      the deltas of one tick fed `a + b`, and leave the same carried
      distance: nothing is lost or counted twice at a tick boundary. */
  method TwoTicksAsOne(a: seq<real>, b: seq<real>, number: int, offsets: seq<real>)
    returns (split: seq<real>, joined: seq<real>, splitLast: real, joinedLast: real)
    ensures split == joined && splitLast == joinedLast
    ensures joined == Deltas(0.0, a + b) && joinedLast == LastAfter(0.0, a + b)
    ensures |joined| == |a| + |b|
    ensures Sum(joined) == LastAfter(0.0, a + b)
  {
    var m1 := new SwerveModule(number, offsets, 0.0);
    var _ := m1.Periodic(a, 0.0);
    var first := m1.GetHighFreqDriveDistanceDeltas();
    var firstDeltas := first[..];
    var _ := m1.Periodic(b, 0.0);
    var second := m1.GetHighFreqDriveDistanceDeltas();
    split, splitLast := firstDeltas + second[..], m1.lastDistance;

    var m2 := new SwerveModule(number, offsets, 0.0);
    var _ := m2.Periodic(a + b, 0.0);
    var both := m2.GetHighFreqDriveDistanceDeltas();
    joined, joinedLast := both[..], m2.lastDistance;

    DeltasConcat(0.0, a, b);
    SumDeltas(0.0, a + b);
  }
}
