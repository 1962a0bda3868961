/**
 * The real-time scheduler's error budget (services/realtime_index_service.py): the 30 s
 * dedupe, the busy lock and the consecutive-error counter of `calculate_indices`, the
 * circuit breaker and the branch order of `run`, and the next-run-time arithmetic of
 * `run_scheduled`.
 *
 * The lock is a flag; the database health check, the worker's completion within the
 * timeout and the clock are parameters. Wall-clock times are seconds.
 */
module Scheduler {
  import opened Wrappers
  import TradingCalendar

  const DedupeSeconds: real := 30.0
  const MaxConsecutiveErrors: nat := 5
  const ServiceEndWindowMinutes: int := 10

  /** A previous calculation finished less than 30 s before `now`. */
  predicate Deduped(last: Option<real>, now: real) {
    last.Some? && now - last.value < DedupeSeconds
  }

  /** `max(0, x)`. */
  function AtLeastZero(x: int): (r: nat)
    ensures r >= x && (x >= 0 ==> r == x)
  {
    if x < 0 then 0 else x
  }

  /** What one call of `run` did. */
  datatype RunOutcome =
    | BackedOff                  // too many consecutive errors: waited and lowered the counter
    | Calculated(success: bool)  // within trading hours: `calculate_indices` ran
    | DaySummary                 // after the close: the daily summary would be saved
    | Idle                       // outside trading hours
    | DayEndRaised               // the day-end window is not a valid time of day

  class RealIndexService {
    var lastCalculationTime: Option<real>
    var calculationErrors: nat
    /** `calculation_lock.locked()`. */
    var locked: bool
    const tradingConfig: TradingCalendar.TradingHourConfig
    const tradingDayEnd: TradingCalendar.TradingDayEnd

    /**
     * The constructor hands `TradingDayEnd` the current date as `trading_day_processed`;
     * a date is truthy, so the day is born processed.
     */
    constructor (tradingStart: int, tradingEnd: int)
      requires 0 <= tradingEnd
      ensures lastCalculationTime == None && calculationErrors == 0 && !locked
      ensures fresh(tradingConfig) && tradingConfig.Valid()
      ensures tradingDayEnd == TradingCalendar.TradingDayEnd(tradingStart, tradingEnd, ServiceEndWindowMinutes, true)
    {
      lastCalculationTime := None;
      calculationErrors := 0;
      locked := false;
      tradingConfig := new TradingCalendar.TradingHourConfig();
      tradingDayEnd := TradingCalendar.TradingDayEnd(tradingStart, tradingEnd, ServiceEndWindowMinutes, true);
    }

    /**
     * `calculate_indices` at wall-clock time `now`. `healthy` is the health check's answer
     * (an exception counts as unhealthy) and `finishedInTime` says whether the worker ended
     * within the join timeout; an exception inside the worker stays in its thread.
     */
    method CalculateIndices(now: real, healthy: bool, finishedInTime: bool) returns (ok: bool)
      modifies this
      // A recent success makes the call a no-op that reports success.
      ensures Deduped(old(lastCalculationTime), now) ==>
        ok && lastCalculationTime == old(lastCalculationTime) && calculationErrors == old(calculationErrors) && locked == old(locked)
      // Someone else holds the lock: report failure and change nothing.
      ensures !Deduped(old(lastCalculationTime), now) && old(locked) ==>
        !ok && lastCalculationTime == old(lastCalculationTime) && calculationErrors == old(calculationErrors) && locked
      // Otherwise the lock is taken and released on every path, and the counter is reset or bumped.
      ensures !Deduped(old(lastCalculationTime), now) && !old(locked) ==>
        && !locked
        && (ok <==> healthy && finishedInTime)
        && (ok ==> calculationErrors == 0 && lastCalculationTime == Some(now))
        && (!ok ==> calculationErrors == old(calculationErrors) + 1 && lastCalculationTime == old(lastCalculationTime))
    {
      if lastCalculationTime.Some? {
        var timeSinceLast := now - lastCalculationTime.value;
        if timeSinceLast < DedupeSeconds {
          return true;
        }
      }
      if locked {
        return false;
      }
      locked := true;
      if !healthy {
        calculationErrors := calculationErrors + 1;
        ok := false;
      } else if !finishedInTime {
        calculationErrors := calculationErrors + 1;
        ok := false;
      } else {
        calculationErrors := 0;
        lastCalculationTime := Some(now);
        ok := true;
      }
      locked := false;
    }

    /**
     * `run` at wall-clock time `now`, which is day `today` at time of day `timeOfDay`;
     * `hours` is what a reload of the trading window would see.
     */
    method Run(now: real, today: int, timeOfDay: real, hours: TradingCalendar.HoursFetch, healthy: bool, finishedInTime: bool)
      returns (outcome: RunOutcome)
      requires tradingConfig.Valid() && 0 <= tradingDayEnd.tradingEnd
      modifies this, tradingConfig
      ensures tradingConfig.Valid()
      // The circuit breaker: at five or more consecutive errors nothing is attempted and the counter drops by one.
      ensures old(calculationErrors) >= MaxConsecutiveErrors ==>
        && outcome == BackedOff
        && calculationErrors == old(calculationErrors) - 1
        && lastCalculationTime == old(lastCalculationTime) && locked == old(locked)
      ensures old(calculationErrors) < MaxConsecutiveErrors ==>
        && tradingConfig.cachedDay == Some(today) && tradingConfig.cachedTradingHours.Some?
        && (old(tradingConfig.cachedDay) != Some(today) ==>
              tradingConfig.cachedTradingHours == Some(TradingCalendar.LoadTradingHours(hours)))
        && (old(tradingConfig.cachedDay) == Some(today) ==>
              tradingConfig.cachedTradingHours == old(tradingConfig.cachedTradingHours))
      // Trading hours come first; then the day-end window; otherwise nothing happens.
      ensures old(calculationErrors) < MaxConsecutiveErrors ==>
        var trading := TradingCalendar.InWindow(tradingConfig.cachedTradingHours.value, timeOfDay);
        && (trading ==> outcome.Calculated?)
        && (!trading && tradingDayEnd.IsDayEnd(timeOfDay).Failure? ==> outcome == DayEndRaised)
        && (!trading && tradingDayEnd.IsDayEnd(timeOfDay) == Ok(true) ==> outcome == DaySummary)
        && (!trading && tradingDayEnd.IsDayEnd(timeOfDay) == Ok(false) ==> outcome == Idle)
        && (!outcome.Calculated? ==>
              lastCalculationTime == old(lastCalculationTime) && calculationErrors == old(calculationErrors) && locked == old(locked))
      // A calculation skipped by the dedupe reports success and changes nothing.
      ensures (old(calculationErrors) < MaxConsecutiveErrors && outcome.Calculated?
               && Deduped(old(lastCalculationTime), now)) ==>
        && outcome == Calculated(true)
        && lastCalculationTime == old(lastCalculationTime) && calculationErrors == old(calculationErrors) && locked == old(locked)
      // A calculation that finds the lock taken reports failure and changes nothing.
      ensures (old(calculationErrors) < MaxConsecutiveErrors && outcome.Calculated?
               && !Deduped(old(lastCalculationTime), now) && old(locked)) ==>
        && outcome == Calculated(false)
        && lastCalculationTime == old(lastCalculationTime) && calculationErrors == old(calculationErrors) && locked
      // A calculation that was not skipped by the dedupe and found the lock free resets or bumps the counter.
      ensures (old(calculationErrors) < MaxConsecutiveErrors && outcome.Calculated?
               && !Deduped(old(lastCalculationTime), now) && !old(locked)) ==>
        && !locked
        && (outcome.success <==> healthy && finishedInTime)
        && (outcome.success ==> calculationErrors == 0 && lastCalculationTime == Some(now))
        && (!outcome.success ==> calculationErrors == old(calculationErrors) + 1 && lastCalculationTime == old(lastCalculationTime))
    {
      if calculationErrors >= MaxConsecutiveErrors {
        calculationErrors := AtLeastZero(calculationErrors - 1);
        return BackedOff;
      }
      var trading := tradingConfig.IsTradingHours(today, timeOfDay, hours);
      if trading {
        var success := CalculateIndices(now, healthy, finishedInTime);
        return Calculated(success);
      }
      var dayEnd := tradingDayEnd.IsDayEnd(timeOfDay);
      if dayEnd.Failure? {
        return DayEndRaised;
      }
      outcome := if dayEnd.value then DaySummary else Idle;
    }
  }

  /** The service's day-end check never fires: the day it is given counts as processed. */
  method ServiceNeverReachesDayEnd(tradingStart: int, tradingEnd: int, now: real, today: int, timeOfDay: real,
                                   hours: TradingCalendar.HoursFetch, healthy: bool, finishedInTime: bool)
    returns (outcome: RunOutcome)
    requires 0 <= tradingEnd
    ensures outcome != DaySummary
  {
    var service := new RealIndexService(tradingStart, tradingEnd);
    outcome := service.Run(now, today, timeOfDay, hours, healthy, finishedInTime);
    TradingCalendar.ProcessedNeverDayEnd(service.tradingDayEnd, timeOfDay);
  }

  /** Five unhealthy attempts in a row open the circuit breaker; the next run backs off. */
  method FiveFailuresOpenBreaker(s: RealIndexService, times: seq<real>, today: int, timeOfDay: real,
                                 hours: TradingCalendar.HoursFetch) returns (outcome: RunOutcome)
    requires |times| == 6 && s.lastCalculationTime == None && s.calculationErrors == 0 && !s.locked
    requires s.tradingConfig.Valid() && 0 <= s.tradingDayEnd.tradingEnd
    modifies s, s.tradingConfig
    ensures outcome == BackedOff && s.calculationErrors == MaxConsecutiveErrors - 1
  {
    var i := 0;
    while i < 5
      invariant 0 <= i <= 5
      invariant s.lastCalculationTime == None && s.calculationErrors == i && !s.locked
      invariant s.tradingConfig.Valid()
    {
      var ok := s.CalculateIndices(times[i], false, true);
      i := i + 1;
    }
    outcome := s.Run(times[5], today, timeOfDay, hours, true, true);
  }

  // ---------------------------------------------------------------------------
  // run_scheduled
  // ---------------------------------------------------------------------------

  /** `now.replace(second=0, microsecond=0) + timedelta(minutes=interval)`. */
  function NextRunTime(now: real, intervalMinutes: int): (r: real)
    // The minute `now` falls in, moved on by the interval.
    ensures var minute := r - (60 * intervalMinutes) as real;
      minute == minute.Floor as real && minute.Floor % 60 == 0 && minute <= now < minute + 60.0
  {
    var minute := MinuteStart(now.Floor);
    IntFloor(minute);
    (minute + 60 * intervalMinutes) as real
  }

  /** The start, in whole seconds, of the minute that second `k` falls in. */
  function MinuteStart(k: int): (m: int)
    ensures m % 60 == 0 && m <= k < m + 60
  {
    k - k % 60
  }

  lemma IntFloor(k: int)
    ensures (k as real).Floor == k
  {}

  /** The clock readings at which `run` was called so far, and the time the next call is due. */
  datatype Schedule = Schedule(runs: seq<real>, next: real)

  /** The polling loop of `run_scheduled` over clock readings, starting with `first` as the due time. */
  function Scheduled(first: real, readings: seq<real>, intervalMinutes: int): Schedule {
    if |readings| == 0 then Schedule([], first)
    else
      var s := Scheduled(first, readings[..|readings| - 1], intervalMinutes);
      var now := readings[|readings| - 1];
      if now >= s.next then Schedule(s.runs + [now], NextRunTime(now, intervalMinutes)) else s
  }

  /** `run_scheduled` after its start-up (lines 154-175): the readings at which `run` is called. */
  method RunScheduled(start: real, readings: seq<real>, intervalMinutes: int) returns (runs: seq<real>)
    ensures runs == Scheduled(NextRunTime(start, intervalMinutes), readings, intervalMinutes).runs
  {
    var nextRunTime := NextRunTime(start, intervalMinutes);
    runs := [];
    var i := 0;
    while i < |readings|
      invariant 0 <= i <= |readings|
      invariant Schedule(runs, nextRunTime) == Scheduled(NextRunTime(start, intervalMinutes), readings[..i], intervalMinutes)
    {
      assert readings[..i + 1][..i] == readings[..i];
      var currentTime := readings[i];
      if currentTime >= nextRunTime {
        runs := runs + [currentTime];
        nextRunTime := NextRunTime(currentTime, intervalMinutes);
      }
      i := i + 1;
    }
    assert readings[..|readings|] == readings;
  }

  /**
   * No run happens before it is due: the first at or after the initial due time, and each
   * later one at or after the minute of the previous run plus the interval; with an interval
   * of a minute or more the runs are strictly later each time.
   */
  lemma {:induction false} RunsAreSpaced(first: real, readings: seq<real>, intervalMinutes: int)
    ensures var s := Scheduled(first, readings, intervalMinutes);
      && (|s.runs| > 0 ==> s.runs[0] >= first && s.next == NextRunTime(s.runs[|s.runs| - 1], intervalMinutes))
      && (|s.runs| == 0 ==> s.next == first)
      && (forall i :: 0 <= i < |s.runs| - 1 ==> s.runs[i + 1] >= NextRunTime(s.runs[i], intervalMinutes))
      && (intervalMinutes >= 1 ==> forall i :: 0 <= i < |s.runs| - 1 ==> s.runs[i] < s.runs[i + 1])
  {
    if |readings| > 0 {
      var init := readings[..|readings| - 1];
      RunsAreSpaced(first, init, intervalMinutes);
      var p := Scheduled(first, init, intervalMinutes);
      var s := Scheduled(first, readings, intervalMinutes);
      if s != p {
        assert s.runs == p.runs + [readings[|readings| - 1]];
        forall i | 0 <= i < |s.runs| - 1 ensures s.runs[i + 1] >= NextRunTime(s.runs[i], intervalMinutes) {
          if i < |p.runs| - 1 {
            assert s.runs[i] == p.runs[i] && s.runs[i + 1] == p.runs[i + 1];
          }
        }
        if intervalMinutes >= 1 {
          forall i | 0 <= i < |s.runs| - 1 ensures s.runs[i] < s.runs[i + 1] {
            assert s.runs[i + 1] >= NextRunTime(s.runs[i], intervalMinutes);
          }
        }
      }
    }
  }

  /** A run at 09:59:40 with a one-minute interval makes 10:00:00 the next due time. */
  lemma NextRunExample()
    ensures NextRunTime(35980.0, 1) == 36000.0
  {
  }
}
