/** The periodic re-application of a swerve module's steering-encoder
    offset. The module owns a timer that is started and reset when the
    module is built; on every tick, once at least one second has elapsed on
    that timer, the configured offset for the module is written to the
    steering hardware and the timer is reset. Time is an abstract `now`
    reading supplied by the caller; the timer is represented by the time of
    its last reset. */
module OffsetRecalibration {

  /** Seconds the timer must run before the offset is written again. */
  const RecalibrationPeriod: real := 1.0

  /** What a tick did about the offset. `OffsetIndexOutOfRange` is the
      case where the timer had elapsed but the module number does not
      select an entry of the offset table: the lookup fails before the
      timer is reset. */
  datatype Recalibration = NotDue | Applied(offset: real) | OffsetIndexOutOfRange

  /** The outcome of one tick and the time of the timer's last reset after it. */
  datatype TimerStep = TimerStep(outcome: Recalibration, timerStart: real)

  /** The timer, last reset at `timerStart`, reports the period elapsed at `now`. */
  predicate HasElapsed(timerStart: real, now: real)
  {
    now - timerStart >= RecalibrationPeriod
  }

  /** Whether module `number` (counted from 1) selects an entry of `offsets`. */
  predicate ValidModuleNumber(number: int, offsets: seq<real>)
  {
    1 <= number <= |offsets|
  }

  /** One tick of the recalibration timer for module `number`. */
  function Tick(number: int, offsets: seq<real>, timerStart: real, now: real): (s: TimerStep)
    ensures s.outcome.NotDue? <==> !HasElapsed(timerStart, now)
    ensures s.outcome.Applied? <==> HasElapsed(timerStart, now) && ValidModuleNumber(number, offsets)
    ensures s.outcome.Applied? ==> s.outcome.offset == offsets[number - 1] && s.timerStart == now
    ensures !s.outcome.Applied? ==> s.timerStart == timerStart
  {
    if !HasElapsed(timerStart, now) then TimerStep(NotDue, timerStart)
    else if ValidModuleNumber(number, offsets) then TimerStep(Applied(offsets[number - 1]), now)
    else TimerStep(OffsetIndexOutOfRange, timerStart)
  }

  /** The time of the timer's last reset before tick `k` of a run of ticks
      at the times `times`, the timer having been reset at `start`. */
  function TimerBefore(number: int, offsets: seq<real>, start: real, times: seq<real>, k: nat): real
    requires k <= |times|
  {
    if k == 0 then start
    else Tick(number, offsets, TimerBefore(number, offsets, start, times, k - 1), times[k - 1]).timerStart
  }

  /** What tick `k` of that run did about the offset. */
  function OutcomeAt(number: int, offsets: seq<real>, start: real, times: seq<real>, k: nat): Recalibration
    requires k < |times|
  {
    Tick(number, offsets, TimerBefore(number, offsets, start, times, k), times[k]).outcome
  }

  /** Later ticks do not change where the timer stood before an earlier one. */
  lemma {:induction false} TimerBeforeExtend(number: int, offsets: seq<real>, start: real,
                                             times: seq<real>, more: seq<real>, k: nat)
    requires k <= |times|
    ensures TimerBefore(number, offsets, start, times + more, k) == TimerBefore(number, offsets, start, times, k)
    decreases k
  {
    if k > 0 {
      TimerBeforeExtend(number, offsets, start, times, more, k - 1);
      assert (times + more)[k - 1] == times[k - 1];
    }
  }

  /** Until the next application, the timer stays where the last
      application (tick `i`) left it: at that tick's time. */
  lemma {:induction false} TimerHeldSinceApplied(number: int, offsets: seq<real>, start: real, times: seq<real>, i: nat, j: nat)
    requires i < j <= |times|
    requires OutcomeAt(number, offsets, start, times, i).Applied?
    requires forall k :: i < k < j ==> !OutcomeAt(number, offsets, start, times, k).Applied?
    ensures TimerBefore(number, offsets, start, times, j) == times[i]
    decreases j
  {
    if j - 1 > i {
      TimerHeldSinceApplied(number, offsets, start, times, i, j - 1);
      assert !OutcomeAt(number, offsets, start, times, j - 1).Applied?;
    }
  }

  /** Before the first application, the timer stays at its initial reset. */
  lemma {:induction false} TimerHeldSinceStart(number: int, offsets: seq<real>, start: real, times: seq<real>, j: nat)
    requires j <= |times|
    requires forall k :: 0 <= k < j ==> !OutcomeAt(number, offsets, start, times, k).Applied?
    ensures TimerBefore(number, offsets, start, times, j) == start
    decreases j
  {
    if j > 0 {
      TimerHeldSinceStart(number, offsets, start, times, j - 1);
      assert !OutcomeAt(number, offsets, start, times, j - 1).Applied?;
    }
  }

  /** The offset is written at most once per period: two consecutive
      applications are at least a period apart, whatever the clock does in
      between. */
  lemma RateLimited(number: int, offsets: seq<real>, start: real, times: seq<real>, i: nat, j: nat)
    requires i < j < |times|
    requires OutcomeAt(number, offsets, start, times, i).Applied?
    requires OutcomeAt(number, offsets, start, times, j).Applied?
    requires forall k :: i < k < j ==> !OutcomeAt(number, offsets, start, times, k).Applied?
    ensures times[j] - times[i] >= RecalibrationPeriod
  {
    TimerHeldSinceApplied(number, offsets, start, times, i, j);
  }

  /** The first application comes at least a period after the timer's
      initial reset. */
  lemma FirstApplicationDelayed(number: int, offsets: seq<real>, start: real, times: seq<real>, j: nat)
    requires j < |times|
    requires OutcomeAt(number, offsets, start, times, j).Applied?
    requires forall k :: 0 <= k < j ==> !OutcomeAt(number, offsets, start, times, k).Applied?
    ensures times[j] - start >= RecalibrationPeriod
  {
    TimerHeldSinceStart(number, offsets, start, times, j);
  }

  /** With a valid module number the offset is never withheld for long:
      after an application at tick `i`, some tick up to and including the
      first tick a period later applies it again, and that application
      writes the module's own entry of the table. */
  lemma NotStarved(number: int, offsets: seq<real>, start: real, times: seq<real>, i: nat, j: nat)
    requires ValidModuleNumber(number, offsets)
    requires i < j < |times|
    requires OutcomeAt(number, offsets, start, times, i).Applied?
    requires times[j] - times[i] >= RecalibrationPeriod
    ensures exists k :: i < k <= j && OutcomeAt(number, offsets, start, times, k) == Applied(offsets[number - 1])
  {
    if forall k :: i < k < j ==> !OutcomeAt(number, offsets, start, times, k).Applied? {
      TimerHeldSinceApplied(number, offsets, start, times, i, j);
      assert OutcomeAt(number, offsets, start, times, j) == Applied(offsets[number - 1]);
    } else {
      var k :| i < k < j && OutcomeAt(number, offsets, start, times, k).Applied?;
      assert OutcomeAt(number, offsets, start, times, k) == Applied(offsets[number - 1]);
    }
  }

  /** With a valid module number the first application is not withheld
      either: some tick up to and including the first tick a period after
      the timer's initial reset applies the module's own entry. */
  lemma NotStarvedFromStart(number: int, offsets: seq<real>, start: real, times: seq<real>, j: nat)
    requires ValidModuleNumber(number, offsets)
    requires j < |times|
    requires times[j] - start >= RecalibrationPeriod
    ensures exists k :: 0 <= k <= j && OutcomeAt(number, offsets, start, times, k) == Applied(offsets[number - 1])
  {
    if forall k :: 0 <= k < j ==> !OutcomeAt(number, offsets, start, times, k).Applied? {
      TimerHeldSinceStart(number, offsets, start, times, j);
      assert OutcomeAt(number, offsets, start, times, j) == Applied(offsets[number - 1]);
    } else {
      var k :| 0 <= k < j && OutcomeAt(number, offsets, start, times, k).Applied?;
      assert OutcomeAt(number, offsets, start, times, k) == Applied(offsets[number - 1]);
    }
  }
}
