/**
 * The trading calendar: the per-day trading window and its day cache
 * (config/trading_hour_config.py), the day-end window (config/day_end_config.py) and the
 * minute timestamps of a date range (utils/timestamp_processors.py).
 *
 * A day is a day number, a time of day is a count of seconds after midnight (the clock's
 * reading may carry a fraction), and a timestamp is `day * 86400 + seconds`. Query
 * results and the clock are parameters.
 */
module TradingCalendar {
  import opened Wrappers

  const SecondsPerDay: int := 86400
  const SecondsPerMinute: int := 60
  /** 10:00 and 14:31. */
  const DefaultStart: int := 36000
  const DefaultEnd: int := 52260
  const DefaultEndWindowMinutes: int := 30

  /** A trading window, from `start` to `end` (times of day). */
  datatype Window = Window(start: int, end: int)

  /** What the `set_trading_hour` query for one day gave. */
  datatype HoursFetch = HoursRow(start: int, end: int) | NoHoursRow | HoursQueryFailed

  /** `_load_trading_hours_from_db`: the stored row when there is one, 10:00 to 14:31 otherwise. */
  function LoadTradingHours(f: HoursFetch): Window {
    if f.HoursRow? then Window(f.start, f.end) else Window(DefaultStart, DefaultEnd)
  }

  /** `start <= now <= end`, both ends included. */
  predicate InWindow(w: Window, now: real) {
    w.start as real <= now <= w.end as real
  }

  /** The trading-hour configuration with its one-day cache. */
  class TradingHourConfig {
    var cachedTradingHours: Option<Window>
    var cachedDay: Option<int>

    /** The day and the hours are set together. */
    predicate Valid()
      reads this
    {
      cachedDay.Some? <==> cachedTradingHours.Some?
    }

    constructor ()
      ensures Valid() && cachedDay == None && cachedTradingHours == None
    {
      cachedTradingHours := None;
      cachedDay := None;
    }

    /** `_refresh_trading_hours`: reload only when the cached day is not today. */
    method RefreshTradingHours(today: int, fetch: HoursFetch)
      requires Valid()
      modifies this
      ensures Valid() && cachedDay == Some(today)
      ensures old(cachedDay) == Some(today) ==> cachedTradingHours == old(cachedTradingHours)
      ensures old(cachedDay) != Some(today) ==> cachedTradingHours == Some(LoadTradingHours(fetch))
    {
      if cachedDay != Some(today) {
        cachedDay := Some(today);
        cachedTradingHours := Some(LoadTradingHours(fetch));
      }
    }

    /** `is_trading_hours` at time of day `now` on day `today`; `fetch` is what a reload would see. */
    method IsTradingHours(today: int, now: real, fetch: HoursFetch) returns (b: bool)
      requires Valid()
      modifies this
      ensures Valid() && cachedDay == Some(today) && cachedTradingHours.Some?
      ensures old(cachedDay) == Some(today) ==> cachedTradingHours == old(cachedTradingHours)
      ensures old(cachedDay) != Some(today) ==> cachedTradingHours == Some(LoadTradingHours(fetch))
      ensures b <==> InWindow(cachedTradingHours.value, now)
    {
      RefreshTradingHours(today, fetch);
      var w := cachedTradingHours.value;
      b := w.start as real <= now && now <= w.end as real;
    }
  }

  /** Two checks on the same day: the second one uses the window the first one loaded, whatever the store says then. */
  method SameDayUsesCache(c: TradingHourConfig, today: int, now1: real, now2: real, first: HoursFetch, second: HoursFetch)
    returns (b1: bool, b2: bool)
    requires c.Valid() && c.cachedDay != Some(today)
    modifies c
    ensures b1 <==> InWindow(LoadTradingHours(first), now1)
    ensures b2 <==> InWindow(LoadTradingHours(first), now2)
  {
    b1 := c.IsTradingHours(today, now1, first);
    b2 := c.IsTradingHours(today, now2, second);
  }

  /**
   * `TradingDayEnd`: the minutes after the close during which the day-end work runs.
   * `processed` is the truth value of `trading_day_processed`.
   */
  datatype TradingDayEnd = TradingDayEnd(tradingStart: int, tradingEnd: int, endWindowMinutes: int, processed: bool) {

    /**
     * `is_day_end` at time of day `now`: the close's hour and minute plus the window, split
     * back into an hour and a minute; `time(hour, minute)` raises unless the hour is 0..23.
     */
    function IsDayEnd(now: real): (r: Result<bool>)
      requires 0 <= tradingEnd
      // The split is exact: the window ends that many minutes after the close's minute.
      ensures r.Failure? <==> !(0 <= tradingEnd / 60 + endWindowMinutes < 24 * 60)
      ensures r.Ok? ==> (r.value <==> tradingEnd as real < now <= ((tradingEnd / 60 + endWindowMinutes) * 60) as real && !processed)
    {
      var endMinutes := (tradingEnd / 3600) * 60 + (tradingEnd % 3600) / 60;
      var windowMinutes := endMinutes + endWindowMinutes;
      var windowHour := windowMinutes / 60;
      var windowMinute := windowMinutes % 60;
      if windowHour < 0 || windowHour >= 24 then Failure("hour must be in 0..23")
      else
        var endWindow := windowHour * 3600 + windowMinute * 60;
        Ok(tradingEnd as real < now <= endWindow as real && !processed)
    }
  }

  /** A processed day never reports day end, whatever the clock says. */
  lemma ProcessedNeverDayEnd(d: TradingDayEnd, now: real)
    requires 0 <= d.tradingEnd && d.processed
    ensures d.IsDayEnd(now) != Ok(true)
  {
  }

  /** With the default 10:00-14:31 session and default window, day end is exactly 14:31 < now <= 15:01 on an unprocessed day. */
  lemma DefaultDayEndWindow(now: real)
    ensures TradingDayEnd(DefaultStart, DefaultEnd, DefaultEndWindowMinutes, false).IsDayEnd(now)
      == Ok(52260.0 < now <= 54060.0)
  {
  }

  // ---------------------------------------------------------------------------
  // Trading timestamps
  // ---------------------------------------------------------------------------

  /**
   * The holidays the day loop sees, or an exception from lines 30-39 (a bad date argument, or
   * a `holiday_date` that `pd.to_datetime` rejects). A failed database query is not such an
   * exception: the connector then returns an empty frame, which is `Holidays({})`.
   */
  datatype HolidayFetch = Holidays(days: set<int>) | HolidayLookupRaised

  /** `pd.date_range(lo, hi, freq="1min")`: `lo`, `lo + 60`, ... up to and including `hi`. */
  function MinuteRange(lo: int, hi: int): (r: seq<int>)
    ensures forall k :: 0 <= k < |r| ==> r[k] == lo + SecondsPerMinute * k && r[k] <= hi
    ensures lo + SecondsPerMinute * |r| > hi
    decreases hi - lo
  {
    if lo > hi then [] else [lo] + MinuteRange(lo + SecondsPerMinute, hi)
  }

  /** The timestamps one day contributes: none on a holiday, its window's minutes otherwise. */
  function DayStamps(day: int, holidays: set<int>, hoursFor: int -> HoursFetch): seq<int> {
    if day in holidays then []
    else
      var w := LoadTradingHours(hoursFor(day));
      MinuteRange(day * SecondsPerDay + w.start, day * SecondsPerDay + w.end)
  }

  /** The timestamps of days `startDay .. day-1`, in day order. */
  function StampsBefore(startDay: int, day: int, holidays: set<int>, hoursFor: int -> HoursFetch): seq<int>
    decreases day - startDay
  {
    if day <= startDay then []
    else StampsBefore(startDay, day - 1, holidays, hoursFor) + DayStamps(day - 1, holidays, hoursFor)
  }

  /** What `get_trading_timestamps(start, end)` returns; an exception while reading the holidays gives `[]`. */
  function TradingTimestamps(startDay: int, endDay: int, holidays: HolidayFetch, hoursFor: int -> HoursFetch): seq<int> {
    if holidays.HolidayLookupRaised? then [] else StampsBefore(startDay, endDay + 1, holidays.days, hoursFor)
  }

  /** The day loop of `get_trading_timestamps` (lines 20-69). */
  method GetTradingTimestamps(startDay: int, endDay: int, holidays: HolidayFetch, hoursFor: int -> HoursFetch)
    returns (timestamps: seq<int>)
    ensures timestamps == TradingTimestamps(startDay, endDay, holidays, hoursFor)
  {
    if holidays.HolidayLookupRaised? {
      return [];
    }
    var manualHolidays := holidays.days;
    timestamps := [];
    var currentDay := startDay;
    while currentDay <= endDay
      invariant startDay <= currentDay <= endDay + 1 || currentDay == startDay
      invariant timestamps == StampsBefore(startDay, currentDay, manualHolidays, hoursFor)
      decreases endDay - currentDay
    {
      if currentDay !in manualHolidays {
        var w := LoadTradingHours(hoursFor(currentDay));
        var dailyRange := MinuteRange(currentDay * SecondsPerDay + w.start, currentDay * SecondsPerDay + w.end);
        timestamps := timestamps + dailyRange;
      }
      currentDay := currentDay + 1;
    }
  }

  // ---------------------------------------------------------------------------
  // Properties
  // ---------------------------------------------------------------------------

  /** Every configured window lies within its day. */
  ghost predicate WindowsWithinDays(hoursFor: int -> HoursFetch) {
    forall d :: 0 <= LoadTradingHours(hoursFor(d)).start && LoadTradingHours(hoursFor(d)).end < SecondsPerDay
  }

  /** The minute range holds exactly the whole minutes after `lo` up to `hi`. */
  lemma MinuteRangeMembers(lo: int, hi: int, t: int)
    ensures t in MinuteRange(lo, hi) <==> lo <= t <= hi && (t - lo) % SecondsPerMinute == 0
  {
    var r := MinuteRange(lo, hi);
    if lo <= t <= hi && (t - lo) % SecondsPerMinute == 0 {
      var k := (t - lo) / SecondsPerMinute;
      assert t == lo + SecondsPerMinute * k;
      assert k < |r|;
      assert r[k] == t;
    }
  }

  lemma DayOf(day: int, s: int)
    requires 0 <= s < SecondsPerDay
    ensures (day * SecondsPerDay + s) / SecondsPerDay == day
    ensures (day * SecondsPerDay + s) % SecondsPerDay == s
  {
  }

  /** A day's stamps all fall on that day, at whole minutes of its window. */
  lemma DayStampsMembers(day: int, holidays: set<int>, hoursFor: int -> HoursFetch, t: int)
    requires WindowsWithinDays(hoursFor)
    ensures var w := LoadTradingHours(hoursFor(day));
      t in DayStamps(day, holidays, hoursFor) <==>
        && day !in holidays && t / SecondsPerDay == day
        && w.start <= t % SecondsPerDay <= w.end && (t % SecondsPerDay - w.start) % SecondsPerMinute == 0
  {
    var w := LoadTradingHours(hoursFor(day));
    var base := day * SecondsPerDay;
    MinuteRangeMembers(base + w.start, base + w.end, t);
    if t / SecondsPerDay == day {
      DayOf(day, t % SecondsPerDay);
      assert t == base + t % SecondsPerDay;
    }
    if base + w.start <= t <= base + w.end {
      DayOf(day, t - base);
    }
  }

  /** A timestamp is emitted iff its day is in range and no holiday, and it is a whole minute of that day's window. */
  lemma {:induction false} StampsBeforeMembers(startDay: int, day: int, holidays: set<int>, hoursFor: int -> HoursFetch, t: int)
    requires WindowsWithinDays(hoursFor)
    ensures t in StampsBefore(startDay, day, holidays, hoursFor) <==>
      startDay <= t / SecondsPerDay < day && t in DayStamps(t / SecondsPerDay, holidays, hoursFor)
    decreases day - startDay
  {
    if day > startDay {
      StampsBeforeMembers(startDay, day - 1, holidays, hoursFor, t);
      DayStampsMembers(day - 1, holidays, hoursFor, t);
      DayStampsMembers(t / SecondsPerDay, holidays, hoursFor, t);
    }
  }

  /** The timestamps are exactly the whole minutes of the non-holiday days' windows in the date range. */
  lemma TradingTimestampsMembers(startDay: int, endDay: int, holidays: HolidayFetch, hoursFor: int -> HoursFetch, t: int)
    requires WindowsWithinDays(hoursFor)
    ensures var day := t / SecondsPerDay;
      var w := LoadTradingHours(hoursFor(day));
      t in TradingTimestamps(startDay, endDay, holidays, hoursFor) <==>
        && holidays.Holidays? && startDay <= day <= endDay && day !in holidays.days
        && w.start <= t % SecondsPerDay <= w.end && (t % SecondsPerDay - w.start) % SecondsPerMinute == 0
  {
    if holidays.Holidays? {
      StampsBeforeMembers(startDay, endDay + 1, holidays.days, hoursFor, t);
      DayStampsMembers(t / SecondsPerDay, holidays.days, hoursFor, t);
    }
  }

  /** No emitted timestamp falls on a holiday, and a range that starts after it ends is empty. */
  lemma NoHolidayEmitted(startDay: int, endDay: int, holidays: set<int>, hoursFor: int -> HoursFetch)
    requires WindowsWithinDays(hoursFor)
    ensures forall t :: t in TradingTimestamps(startDay, endDay, Holidays(holidays), hoursFor) ==> t / SecondsPerDay !in holidays
    ensures startDay > endDay ==> TradingTimestamps(startDay, endDay, Holidays(holidays), hoursFor) == []
  {
    forall t | t in TradingTimestamps(startDay, endDay, Holidays(holidays), hoursFor) ensures t / SecondsPerDay !in holidays {
      TradingTimestampsMembers(startDay, endDay, Holidays(holidays), hoursFor, t);
    }
  }

  predicate Increasing(s: seq<int>) {
    forall i, j :: 0 <= i < j < |s| ==> s[i] < s[j]
  }

  lemma {:induction false} MinuteRangeIncreasing(lo: int, hi: int)
    ensures Increasing(MinuteRange(lo, hi))
  {
  }

  /** The stamps of days before `day` all come before `day` starts. */
  lemma StampsBeforeBounded(startDay: int, day: int, holidays: set<int>, hoursFor: int -> HoursFetch)
    requires WindowsWithinDays(hoursFor)
    ensures forall t :: t in StampsBefore(startDay, day, holidays, hoursFor) ==> t < day * SecondsPerDay
  {
    forall t | t in StampsBefore(startDay, day, holidays, hoursFor) ensures t < day * SecondsPerDay {
      StampsBeforeMembers(startDay, day, holidays, hoursFor, t);
      DayOf(t / SecondsPerDay, t % SecondsPerDay);
    }
  }

  /** When every window lies within its day, the timestamps are strictly increasing. */
  lemma {:induction false} StampsBeforeIncreasing(startDay: int, day: int, holidays: set<int>, hoursFor: int -> HoursFetch)
    requires WindowsWithinDays(hoursFor)
    ensures Increasing(StampsBefore(startDay, day, holidays, hoursFor))
    decreases day - startDay
  {
    if day > startDay {
      var left := StampsBefore(startDay, day - 1, holidays, hoursFor);
      var right := DayStamps(day - 1, holidays, hoursFor);
      StampsBeforeIncreasing(startDay, day - 1, holidays, hoursFor);
      StampsBeforeBounded(startDay, day - 1, holidays, hoursFor);
      if day - 1 !in holidays {
        var w := LoadTradingHours(hoursFor(day - 1));
        MinuteRangeIncreasing((day - 1) * SecondsPerDay + w.start, (day - 1) * SecondsPerDay + w.end);
      }
      var s := left + right;
      forall i, j | 0 <= i < j < |s| ensures s[i] < s[j] {
        if j >= |left| && i < |left| {
          assert s[i] in left;
          assert s[j] in right;
          DayStampsMembers(day - 1, holidays, hoursFor, s[j]);
          DayOf(day - 1, s[j] % SecondsPerDay);
        } else if i >= |left| {
          assert s[i] == right[i - |left|] && s[j] == right[j - |left|];
        } else {
          assert s[i] == left[i] && s[j] == left[j];
        }
      }
    }
  }

  lemma TradingTimestampsIncreasing(startDay: int, endDay: int, holidays: HolidayFetch, hoursFor: int -> HoursFetch)
    requires WindowsWithinDays(hoursFor)
    ensures Increasing(TradingTimestamps(startDay, endDay, holidays, hoursFor))
  {
    if holidays.Holidays? {
      StampsBeforeIncreasing(startDay, endDay + 1, holidays.days, hoursFor);
    }
  }

  /** One ordinary day with the default window gives the 272 minutes 10:00, 10:01, ..., 14:31. */
  lemma DefaultDayHas272Minutes(day: int, hoursFor: int -> HoursFetch)
    requires !hoursFor(day).HoursRow?
    ensures |TradingTimestamps(day, day, Holidays({}), hoursFor)| == 272
  {
    var lo := day * SecondsPerDay + DefaultStart;
    assert StampsBefore(day, day + 1, {}, hoursFor) == [] + DayStamps(day, {}, hoursFor);
    var r := MinuteRange(lo, lo + 16260);
    assert DayStamps(day, {}, hoursFor) == r;
    assert |r| > 271;
    assert r[|r| - 1] <= lo + 16260;
  }
}
