# Sector-wise index: a verified model

This project models the core of a service that computes sector indices weighted by free-float market capitalisation. It is written in Dafny. Each sector's index is chain-linked: one tick, or one interval between two trading timestamps, moves it by the weighted mean of the constituents' price returns, `current = previous × (1 + return)`. The weights are each company's share of the sector's free-float capitalisation. The returns are measured against a baseline snapshot, and the calculator refreshes that baseline as it goes.

What is modelled:

- **Calculators and snapshots:**
  - both copies of the chain-linking engine: the real-time `RealTimeSectorCalculator` and the historical `HistoricalSectorIndexCalculator`;
  - the market-cap snapshot builder;
  - the sector directory with its one-hour cache;
  - the index seeding and the historical summary.
- **Calendar and scheduling:**
  - the trading calendar: the timestamp generator, the per-day trading window and its cache, and the day-end window;
  - the real-time service's dedupe, busy flag and error budget, with its circuit breaker and its minute-aligned schedule.
- **Supporting code:**
  - the validated record types of `database/models.py`;
  - the event dispatcher;
  - the metrics event handler.

Classes keep the source's state: the calculators, the caches, the service, the records, the dispatcher and the metrics handler. Their methods use loops where the source loops, and each loop is proved against a specification function. The properties the source promises are lemmas about those functions.

Arithmetic is in `real`. A missing or NaN price is `None`. Wall-clock readings, query results, holiday sets and each worker's outcome are parameters.

Files:

| file | module |
|---|---|
| `wrappers.dfy` | `Option`, `Result` |
| `lists.dfy` | `list.remove` and duplicate-freedom |
| `market_data.dfy` | snapshots; utils/mcap_data_processors.py |
| `sector_directory.dfy` | the directory cache; utils/cache_processors.py and its copy in the real-time calculator |
| `chain_index.dfy` | the per-sector arithmetic shared by both calculators |
| `index_data.dfy` | utils/index_data_processors.py |
| `realtime_calculator.dfy` | calculators/realtime_sector_calculator.py |
| `historical_calculator.dfy` | calculators/historical_sector_calculator.py |
| `trading_calendar.dfy` | utils/timestamp_processors.py, config/trading_hour_config.py, config/day_end_config.py |
| `scheduler.dfy` | services/realtime_index_service.py |
| `models.dfy` | database/models.py |
| `events.dfy` | event/event_dispatcher.py, `MetricsEventHandler` of event/event_handlers.py |

## Model

| member | source | states |
|---|---|---|
| Lists.RemoveFirst | database/models.py:36-39 | `list.remove` drops exactly one element |
| Lists.FirstIndex | database/models.py:36-39 | the position `list.remove` acts on is the first occurrence of the value |
| Lists.RemoveFirstIsSplice | database/models.py:36-39 | removal cuts out exactly the element at the first occurrence and keeps the rest in order |
| Lists.RemoveFirstRemovesOne | database/models.py:36-39 | removal takes one copy of the value out of the multiset of elements |
| Lists.RemoveFirstKeepsUnique | database/models.py:36-39 | in a list without duplicates, removal leaves no copy of the value and no duplicates |
| Lists.SpliceIndex | database/models.py:36-39 | each element after removal is the element at the same index, or one further on, before it |
| Lists.AppendThenRemove | event/event_dispatcher.py:20-36 | appending a new handler and then removing it gives the original list back |
| MarketData.EntryOf | utils/mcap_data_processors.py:133-144 | a kept row's entry has `market_cap = ltp × shares`, `free_float_mcap = market_cap × pct / 100` and the row's timestamp |
| MarketData.ProcessMarketCapRows | utils/mcap_data_processors.py:109-151 | the loop raises exactly when a kept row lacks a percentage; otherwise it returns the kept records as a list, or as a dict keyed by company |
| MarketData.KeptRecordsAreDerived | utils/mcap_data_processors.py:125-144 | every kept record comes from a row with a positive numeric price and share count, and carries the derived values |
| MarketData.KeptRowsAppear | utils/mcap_data_processors.py:125-149 | every row that passes both filters yields a record, so none is lost |
| MarketData.DictOfKeys | utils/mcap_data_processors.py:146-149 | the dict form holds exactly the companies of the list form |
| MarketData.DictOfLastWins | utils/mcap_data_processors.py:146-149 | in the dict form a company maps to its last record |
| MarketData.GetMarketCapDataReal | utils/mcap_data_processors.py:29-60 | the real mode returns the data of the first of three attempts that returned rows and processed without raising (possibly `{}` when no row survives the filters), else `{}` |
| MarketData.RealFetchGivesUpAfterThree | utils/mcap_data_processors.py:29-60 | three empty or failing attempts give `{}`; a fourth answer is never consulted |
| MarketData.RealFetchTakesFirstSuccess | utils/mcap_data_processors.py:29-60 | the result is the data of the first successful attempt |
| MarketData.GetMarketCapDataHist | utils/mcap_data_processors.py:62-100 | fewer than two timestamps, no share data or an exception give `[]`; otherwise interval `i`'s kept rows are tagged `timestamps[i]` |
| MarketData.NoRaiseExtends | utils/mcap_data_processors.py:62-100 | whether an interval raises is decided interval by interval |
| MarketData.HistRecordsAreTagged | utils/mcap_data_processors.py:75-95 | every historical record carries the current timestamp of some interval `i ≥ 1` |
| MarketData.EffectiveLtp | utils/mcap_data_processors.py:209 | a present, non-zero `ltp` wins; a missing or zero one falls through to `LTP` |
| MarketData.PrevSnapshotKeys | utils/mcap_data_processors.py:207-213 | the baseline holds exactly the companies of some row passing `_is_valid_data` |
| MarketData.PrevSnapshotEntries | utils/mcap_data_processors.py:213-231 | every baseline entry carries a price, its share structure, `market_cap = ltp × shares` and `free_float_mcap = market_cap × pct / 100` |
| MarketData.MarketCapDataProcessor.constructor | utils/mcap_data_processors.py:14-19 | no previous-data cache yet: the attribute is only set by the first type-1 load, so `hasattr` fails before then |
| MarketData.MarketCapDataProcessor.GetPreviousMarketCapData | utils/mcap_data_processors.py:154-240 | without share data or with an unknown source type the result is `{}`; type 0 needs a start date and does not cache; type 1 returns and stores the cached baseline, or the first non-empty attempt, or `{}` after three |
| SectorDirectory.Unique | utils/cache_processors.py:46 | `unique()` keeps exactly the values of its input, each once |
| SectorDirectory.UniqueKeepsFirstOrder | utils/cache_processors.py:46 | `unique()` lists the values in the order of their first appearance |
| SectorDirectory.BuildDirectory | utils/cache_processors.py:45-53 | the reload loop builds the directory |
| SectorDirectory.FirstNameIsFirst | utils/cache_processors.py:47 | a sector's name is that of the first row carrying its code |
| SectorDirectory.SymbolsOfIsFilter | utils/cache_processors.py:48 | a sector's symbols are exactly the companies mapped to its code |
| SectorDirectory.DirectoryOfIsCorrect | utils/cache_processors.py:45-53 | a reload yields each distinct active code once, in the order of its first row, named by that row, with its symbols and, in the cache processor's copy, `last_index_value = 100.0` |
| SectorDirectory.SectorCache.constructor | utils/cache_processors.py:13-18 | the cache and its load time start unset |
| SectorDirectory.SectorCache.Get | utils/cache_processors.py:20-63 | a hit (set, timed and younger than 3600 s) returns the cache unchanged; a reload replaces cache and time together; a failed reload returns the stale cache or `{}` and changes nothing |
| SectorDirectory.ReloadThenHit | calculators/realtime_sector_calculator.py:43-85 | a reload followed, within the time-to-live, by a second call serves the same directory whatever the store says then |
| ChainIndex.IndexOr | calculators/realtime_sector_calculator.py:337 | `current_indices.get(code, 100.0)` |
| ChainIndex.RealtimeQualifyingMembers | calculators/realtime_sector_calculator.py:271-277 | a real-time constituent is a listed symbol present in both maps with a positive free-float cap in both |
| ChainIndex.HistoricalQualifyingMembers | calculators/historical_sector_calculator.py:133-136 | a historical constituent is a listed symbol present in both maps |
| ChainIndex.PositiveTotal | calculators/realtime_sector_calculator.py:284-293 | a nonempty sector whose caps are all positive has a positive total |
| ChainIndex.TotalNonNegative | calculators/historical_sector_calculator.py:143-151 | the total sums only positive caps, so it is never negative, and it is zero when none is positive |
| ChainIndex.RealtimeRow | calculators/realtime_sector_calculator.py:301-319 | one real-time row has a percentage weight and `price_return × weight / 100` equal to `(ffc/total)(ffc/ffp − 1)` |
| ChainIndex.RealtimeWeightSum | calculators/realtime_sector_calculator.py:301-319 | the real-time weights sum to the constituents' share of the total, in percent |
| ChainIndex.RealtimeReturnIsWeightedMean | calculators/realtime_sector_calculator.py:301-334 | the real-time sector return is Σ (ffc/total)(ffc/ffp − 1) |
| ChainIndex.RealtimeWeightsSumToHundred | calculators/realtime_sector_calculator.py:284-319 | with the sector's own total, the real-time weights sum to 100 |
| ChainIndex.RealtimeRowsAreConsistent | calculators/realtime_sector_calculator.py:301-319 | every real-time row belongs to a constituent and carries its weight, return and weighted return |
| ChainIndex.WeightedMeanUnchanged | calculators/realtime_sector_calculator.py:301-334 | the reference return is zero when no constituent's cap moved |
| ChainIndex.RealtimeUnchangedGivesZero | calculators/realtime_sector_calculator.py:301-334 | a real-time sector whose caps are all unchanged has return 0 |
| ChainIndex.HistoricalWeightSum | calculators/historical_sector_calculator.py:164-178 | the historical weights sum to the constituents' share of the total |
| ChainIndex.HistoricalReturnIsWeightedMean | calculators/historical_sector_calculator.py:164-186 | the historical sector return is the same weighted mean |
| ChainIndex.HistoricalWeightsSumToOne | calculators/historical_sector_calculator.py:143-178 | with positive caps the historical fractional weights sum to 1 |
| ChainIndex.CopiesAgree | calculators/historical_sector_calculator.py:164-186 | on the same constituents and maps, the two copies compute the same sector return |
| ChainIndex.TwoCompanyExample | calculators/realtime_sector_calculator.py:284-334 | caps 52500 and 58800 against 50000 and 60000 give total 111300 and return 1449/111300 |
| IndexData.ApplyLatestRows | utils/index_data_processors.py:76-81 | the row loop writes each row's `end_index_value` under its code; later rows win |
| IndexData.ApplyDefaults | utils/index_data_processors.py:86-99 | the fallback loop writes 100.0 under every directory code |
| IndexData.SeedRealtime | utils/index_data_processors.py:64-103 | a missing argument gives `False` with nothing written; rows seed the dict; no rows or a failed query seed 100.0 |
| IndexData.SeedFromRowsValues | utils/index_data_processors.py:76-85 | a code named by rows takes its last row's value; every other key is untouched and no other key appears |
| IndexData.SeedDefaultsValues | utils/index_data_processors.py:86-100 | every directory code is 100.0 afterwards, and other keys are untouched |
| IndexData.LatestBefore | utils/index_data_processors.py:45-51 | `MAX(timestamp)` strictly before the start, or none when no row is earlier |
| IndexData.IndicesAtValues | utils/index_data_processors.py:53-58 | the comprehension holds exactly the sectors recorded at the timestamp, each with a value recorded there |
| IndexData.LatestHistoricalIsLatestBefore | utils/index_data_processors.py:34-62 | each sector maps to its value at the latest timestamp before the start date; none earlier gives `{}` |
| IndexData.LatestHistoricalCoversLatestRows | utils/index_data_processors.py:53-58 | every sector recorded at that latest timestamp appears |
| IndexData.GetLatestSectorIndices | utils/index_data_processors.py:20-111 | type 0 returns the historical map; type 1 returns the real-time flag and seeds the caller's dict; any other type gives `False` |
| IndexData.PeriodReturnPct | utils/index_data_processors.py:139-141 | `(last / first − 1) × 100`, undefined when the first previous index is zero |
| IndexData.SummarizeKeys | utils/index_data_processors.py:127-137 | one summary row per sector code occurring in the results |
| IndexData.SummarizeFirst | utils/index_data_processors.py:127-137 | name and `previous_index` come from the sector's first row |
| IndexData.SummarizeLast | utils/index_data_processors.py:127-137 | `current_index` comes from the sector's last row |
| IndexData.SummarizeRange | utils/index_data_processors.py:127-137 | max and min bound every `current_index` of the sector and are attained by one of its rows |
| IndexData.SummarizeReturns | utils/index_data_processors.py:127-137 | `total_period_return` is the sum of the sector's `total_return` |
| IndexData.ReturnsOfAbsent | utils/index_data_processors.py:127-137 | a sector without rows sums to zero |
| IndexData.PeriodReturnOfSummary | utils/index_data_processors.py:127-141 | the period return compares the last row's current index with the first row's previous index |
| RealtimeCalculator.Merge | calculators/realtime_sector_calculator.py:229-249 | after the merge every baseline company is a key; an absent one is the baseline entry re-stamped; a present one keeps baseline pct and shares, its own price unless invalid, and recomputed caps |
| RealtimeCalculator.MergedState | calculators/realtime_sector_calculator.py:214-249 | an empty fetch makes the current map the baseline itself, re-stamped and merged, so both end equal; otherwise the baseline is untouched |
| RealtimeCalculator.RealTimeSectorCalculator.constructor | calculators/realtime_sector_calculator.py:21-41 | empty indices, no baseline, not initialised, no directory cached |
| RealtimeCalculator.RealTimeSectorCalculator.InitializeIndices | calculators/realtime_sector_calculator.py:87-105 | seeds once from the stored rows or with 100.0 per sector, and sets the flag either way |
| RealtimeCalculator.RealTimeSectorCalculator.StampAll | calculators/realtime_sector_calculator.py:224-225 | every entry gets the current minute |
| RealtimeCalculator.RealTimeSectorCalculator.MergeInto | calculators/realtime_sector_calculator.py:229-249 | the merge loop computes the merge |
| RealtimeCalculator.RealTimeSectorCalculator.MergeSnapshots | calculators/realtime_sector_calculator.py:219-249 | the merged map, and the baseline as the merge leaves it, aliasing included |
| RealtimeCalculator.RealTimeSectorCalculator.ComputeReturns | calculators/realtime_sector_calculator.py:301-319 | the returns loop builds the company rows |
| RealtimeCalculator.RealTimeSectorCalculator.RefreshBaseline | calculators/realtime_sector_calculator.py:322-331 | the refresh loop writes the constituents' stamped entries into the baseline |
| RealtimeCalculator.RealTimeSectorCalculator.ProcessSector | calculators/realtime_sector_calculator.py:266-355 | one sector's effect on baseline, indices and results |
| RealtimeCalculator.RealTimeSectorCalculator.RunSectors | calculators/realtime_sector_calculator.py:262-357 | the sector loop in directory order |
| RealtimeCalculator.RealTimeSectorCalculator.Calculate | calculators/realtime_sector_calculator.py:173-380 | one tick: seed once, stop when the store is down or the baseline is empty, merge, chain-link every sector and leave the refreshed baseline |
| RealtimeCalculator.Constituents | calculators/realtime_sector_calculator.py:270-277 | constituents are listed symbols in both maps with positive caps |
| RealtimeCalculator.RefreshValues | calculators/realtime_sector_calculator.py:322-331 | constituents take their current entries, stamped; every other baseline entry stays |
| RealtimeCalculator.StepSkipsExactlyWithoutConstituents | calculators/realtime_sector_calculator.py:270-293 | a sector leaves indices, baseline and results unchanged exactly when nothing qualifies; otherwise it adds exactly one result |
| RealtimeCalculator.StepChains | calculators/realtime_sector_calculator.py:336-352 | `current = get(code, 100.0) × (1 + weighted mean return)` is stored and appended with the constituent count; no other index changes |
| RealtimeCalculator.StepRefreshesConstituents | calculators/realtime_sector_calculator.py:321-331 | the baseline keeps its key set; constituents take their merged entries and non-constituents keep their old ones |
| RealtimeCalculator.LaterSectorSeesRefreshedBaseline | calculators/realtime_sector_calculator.py:321-331 | a later sector made only of an earlier sector's constituents sees return 0 and repeats its index |
| RealtimeCalculator.PassKeepsPriced | calculators/realtime_sector_calculator.py:262-357 | the sector loop keeps the baseline's companies and their prices |
| RealtimeCalculator.StepAppendsChained | calculators/realtime_sector_calculator.py:336-352 | one sector appends at most one result, and it is chain-linked at the tick's minute |
| RealtimeCalculator.PassAppendsChained | calculators/realtime_sector_calculator.py:262-357 | the loop only appends, at most one result per sector, all chain-linked |
| RealtimeCalculator.TickInvariants | calculators/realtime_sector_calculator.py:173-380 | a tick keeps the baseline's companies and every stored result is chain-linked |
| RealtimeCalculator.FallbackTickIsFlat | calculators/realtime_sector_calculator.py:220-249 | after an empty fetch every company's return against the baseline is zero |
| RealtimeCalculator.TwoCompanyTick | calculators/realtime_sector_calculator.py:229-352 | prices 5 % up and 2 % down move a fresh sector from 100.0 to 100 × (1 + 1449/111300) |
| HistoricalCalculator.MergeHist | calculators/historical_sector_calculator.py:109-121 | missing baseline companies take the baseline entry stamped; invalid prices take baseline price, pct and shares and are recomputed; valid ones keep their own fields |
| HistoricalCalculator.StampMissing | calculators/historical_sector_calculator.py:110-113 | through the shared entry, the baseline's missing companies get the interval's timestamp, with caps and prices unchanged |
| HistoricalCalculator.Interval | calculators/historical_sector_calculator.py:77-212 | one interval keeps the baseline's key set and its prices |
| HistoricalCalculator.Intervals | calculators/historical_sector_calculator.py:77-212 | the interval loop keeps the baseline's key set and its prices |
| HistoricalCalculator.LoadedBaseline | calculators/historical_sector_calculator.py:56-59 | the loaded baseline carries prices |
| HistoricalCalculator.HistoricalSectorIndexCalculator.constructor | calculators/historical_sector_calculator.py:22-34 | empty indices and baseline, and a fresh cache processor that seeds `last_index_value` |
| HistoricalCalculator.HistoricalSectorIndexCalculator.SeedFromLatest | calculators/historical_sector_calculator.py:49-52 | every directory sector starts from the latest stored value or 100.0 |
| HistoricalCalculator.HistoricalSectorIndexCalculator.BuildDict | calculators/historical_sector_calculator.py:95-107 | one entry per company, the last record winning |
| HistoricalCalculator.HistoricalSectorIndexCalculator.FillFromBaseline | calculators/historical_sector_calculator.py:109-121 | the fill loop computes the merged map and the stamped baseline |
| HistoricalCalculator.HistoricalSectorIndexCalculator.CompanyReturns | calculators/historical_sector_calculator.py:156-178 | the run stops exactly when some constituent has unusable data; otherwise all baseline caps are positive and the rows are the fractional ones |
| HistoricalCalculator.HistoricalSectorIndexCalculator.ProcessSector | calculators/historical_sector_calculator.py:128-207 | one sector's effect on indices and results, or the stop |
| HistoricalCalculator.HistoricalSectorIndexCalculator.RunSectors | calculators/historical_sector_calculator.py:128-207 | the sector loop, ending at the first stop |
| HistoricalCalculator.HistoricalSectorIndexCalculator.CopyIntoBaseline | calculators/historical_sector_calculator.py:209-212 | baseline companies take their current entry and no company is added |
| HistoricalCalculator.HistoricalSectorIndexCalculator.ProcessInterval | calculators/historical_sector_calculator.py:78-212 | one interval: skipped when empty, else merged, chain-linked and copied into the baseline |
| HistoricalCalculator.HistoricalSectorIndexCalculator.Calculate | calculators/historical_sector_calculator.py:36-230 | seeds, returns empty without a connection, baseline, timestamps or records, otherwise runs the intervals to the end or to the stop |
| HistoricalCalculator.HistoricalSectorIndexCalculator.RunIntervals | calculators/historical_sector_calculator.py:77-212 | the interval loop over consecutive timestamp pairs, ending at the first stop |
| HistoricalCalculator.ExitedStays | calculators/historical_sector_calculator.py:160-162 | once a company has stopped the run, later sectors change nothing |
| HistoricalCalculator.SeedIndicesValues | calculators/historical_sector_calculator.py:49-52 | each directory sector is the latest stored value or 100.0; other codes are untouched |
| HistoricalCalculator.WindowMembers | calculators/historical_sector_calculator.py:83-86 | the interval holds exactly the records with `timestamps[i-1] ≤ ts ≤ timestamps[i]`, in order |
| HistoricalCalculator.HistConstituents | calculators/historical_sector_calculator.py:133-136 | historical constituents are listed symbols present in both maps |
| HistoricalCalculator.HistStepChains | calculators/historical_sector_calculator.py:164-205 | a sector that does not stop has positive caps and weights summing to 1, and it chain-links with the interval's timestamp and the constituent count |
| HistoricalCalculator.HistStepExits | calculators/historical_sector_calculator.py:160-162 | a sector stops the run exactly when a constituent has price ≤ 0, previous cap ≤ 0, current cap ≤ 0 or shares ≤ 0 |
| HistoricalCalculator.HistStepSkips | calculators/historical_sector_calculator.py:138-151 | without unusable data, a sector with no positive current cap is skipped, and otherwise it yields a result |
| HistoricalCalculator.IntervalCopiesBaseline | calculators/historical_sector_calculator.py:209-212 | after an interval every baseline company holds its merged entry |
| HistoricalCalculator.IntervalTagged | calculators/historical_sector_calculator.py:197-205 | an interval only appends results, each carrying `curr_timestamp` |
| HistoricalCalculator.IntervalsResultsTagged | calculators/historical_sector_calculator.py:77-212 | results come interval by interval, each tagged with its interval's end timestamp |
| HistoricalCalculator.SectorsTagged | calculators/historical_sector_calculator.py:128-207 | the sector loop only appends, and every result carries the interval's timestamp |
| TradingCalendar.TradingHourConfig.constructor | config/trading_hour_config.py:11-19 | no day and no hours are cached |
| TradingCalendar.TradingHourConfig.RefreshTradingHours | config/trading_hour_config.py:47-52 | reloads only when the cached day is not today; the stored row wins, otherwise 10:00–14:31 |
| TradingCalendar.TradingHourConfig.IsTradingHours | config/trading_hour_config.py:54-59 | true iff `start ≤ now ≤ end` for the day's (possibly just loaded) window |
| TradingCalendar.SameDayUsesCache | config/trading_hour_config.py:47-59 | a second check on the same day uses the first one's window whatever the store says |
| TradingCalendar.TradingDayEnd.IsDayEnd | config/day_end_config.py:18-27 | raises when the window end passes midnight; otherwise true iff `end < now ≤ end + window` and the day is unprocessed |
| TradingCalendar.ProcessedNeverDayEnd | config/day_end_config.py:27 | a processed day is never day end |
| TradingCalendar.DefaultDayEndWindow | config/day_end_config.py:8-27 | with the defaults, day end is exactly 14:31 < now ≤ 15:01 |
| TradingCalendar.MinuteRange | utils/timestamp_processors.py:51-56 | `date_range(start, end, 1min)`: `lo + 60k` up to and including `hi` |
| TradingCalendar.GetTradingTimestamps | utils/timestamp_processors.py:20-69 | the day loop returns the specified timestamps; every day is emitted when the holiday query fails (the connector returns an empty frame), and `[]` only when reading the holidays raises |
| TradingCalendar.MinuteRangeMembers | utils/timestamp_processors.py:51-56 | the range holds exactly the whole minutes from `lo` to `hi` |
| TradingCalendar.DayStampsMembers | utils/timestamp_processors.py:46-58 | a day's stamps fall on that day, at whole minutes of its window, none on a holiday |
| TradingCalendar.StampsBeforeMembers | utils/timestamp_processors.py:44-59 | a stamp is emitted iff its day is in range and no holiday, and it is a minute of that day's window |
| TradingCalendar.TradingTimestampsMembers | utils/timestamp_processors.py:20-69 | the output is exactly the minutes of the non-holiday days' windows between the two dates |
| TradingCalendar.NoHolidayEmitted | utils/timestamp_processors.py:44-59 | nothing falls on a holiday, and a start after the end gives `[]` |
| TradingCalendar.MinuteRangeIncreasing | utils/timestamp_processors.py:51-56 | a minute range is strictly increasing |
| TradingCalendar.StampsBeforeBounded | utils/timestamp_processors.py:44-59 | stamps of earlier days come before the day starts |
| TradingCalendar.StampsBeforeIncreasing | utils/timestamp_processors.py:44-59 | when every window lies within its day, the stamps are strictly increasing |
| TradingCalendar.TradingTimestampsIncreasing | utils/timestamp_processors.py:20-69 | the output is strictly increasing when every window lies within its day |
| TradingCalendar.DefaultDayHas272Minutes | config/trading_hour_config.py:18-45 | a day with no stored hours yields the 272 minutes 10:00 … 14:31 |
| Scheduler.RealIndexService.constructor | services/realtime_index_service.py:18-42 | no last calculation, zero errors, unlocked; the day-end check is given a truthy processed flag |
| Scheduler.RealIndexService.CalculateIndices | services/realtime_index_service.py:52-96 | within 30 s: true, nothing touched; busy: false, counter unchanged; unhealthy or timed out: counter + 1, false; finished: counter reset, time set, true; the lock is released on every path |
| Scheduler.RealIndexService.Run | services/realtime_index_service.py:112-130 | at ≥ 5 errors it backs off and decrements; otherwise trading hours take precedence over day end. Within trading hours: a deduped call gives `Calculated(true)`, and one finding the lock taken gives `Calculated(false)`, both changing nothing. Otherwise the counter is reset with the time set, or bumped with the time kept |
| Scheduler.ServiceNeverReachesDayEnd | services/realtime_index_service.py:25-29 | the service's day-end branch never fires, because the day it passes counts as processed |
| Scheduler.FiveFailuresOpenBreaker | services/realtime_index_service.py:69-119 | five unhealthy calculations in a row open the breaker, and the next run backs off to four |
| Scheduler.NextRunTime | services/realtime_index_service.py:170-171 | the current time truncated to the minute plus the interval |
| Scheduler.RunScheduled | services/realtime_index_service.py:159-175 | the polling loop calls `run` at the readings that reach the due time |
| Scheduler.RunsAreSpaced | services/realtime_index_service.py:159-175 | no run before it is due; each run is at least a minute-truncated interval after the previous one |
| Scheduler.NextRunExample | services/realtime_index_service.py:170-171 | a run at 09:59:40 every minute makes 10:00:00 the next due time |
| Models.SectorInfoError | database/models.py:22-29 | rejects an empty code, an empty name or a negative index value |
| Models.SectorInfo.constructor | database/models.py:11-29 | a validated instance with the given fields |
| Models.SectorInfo.AddSymbol | database/models.py:31-34 | appends only a non-empty symbol not yet present, so no duplicate arises, and the count grows by one exactly then |
| Models.SectorInfo.SymbolCount | database/models.py:41-43 | the number of symbols, which AddSymbol and RemoveSymbol move by one exactly when they change the list |
| Models.SectorInfo.ToDict | database/models.py:45-56 | every key `from_dict` would default is written, so the round trip takes no default |
| Models.SectorInfo.RemoveSymbol | database/models.py:36-39 | removes the first occurrence if present; the count drops by one exactly then |
| Models.SectorInfoFromDict | database/models.py:57-68 | missing keys default; validation failures are errors |
| Models.SectorInfoRoundTrip | database/models.py:45-68 | `from_dict(to_dict(s))` equals `s` field by field |
| Models.MarketCapError | database/models.py:95-104 | rejects an empty company, `ltp ≤ 0`, `total_shares ≤ 0` or `market_cap ≤ 0` |
| Models.DerivationIsIdempotent | database/models.py:106-112 | a zero pct becomes `max(0, 100 − (sponsor + govt))`, a zero cap becomes `market_cap × pct / 100`, and deriving again changes nothing |
| Models.MarketCapData.constructor | database/models.py:72-112 | a validated record with derived pct and cap |
| Models.MarketCapData.CalculateReturn | database/models.py:114-120 | raises on a non-positive previous cap; otherwise stores and returns `ffc / ffp − 1` |
| Models.MarketCapData.CalculateWeight | database/models.py:122-128 | raises on a non-positive total; otherwise stores and returns `ffc / total` |
| Models.MarketCapData.CalculateWeightedReturn | database/models.py:130-136 | raises until both are set; then stores and returns their product |
| Models.MarketCapData.IsValidForCalculation | database/models.py:138-145 | `ltp`, shares, market cap and free-float cap all positive; ValidForCalculationIff reduces it to the last one |
| Models.MarketCapData.ToDict | database/models.py:147-166 | the five keys `from_dict` reads with `data[key]` are all written |
| Models.ValidForCalculationIff | database/models.py:138-145 | a validated record is usable iff its free-float cap is positive |
| Models.CompanyRow | database/models.py:114-136 | the three helpers in order give `(ffc/ffp − 1)(ffc/total)` |
| Models.MarketCapDataFromDict | database/models.py:167-186 | a missing required key or a failed validation is an error; otherwise the fields come from the dict with defaults |
| Models.MarketCapRoundTrip | database/models.py:147-186 | `from_dict(to_dict(m))` equals `m` field by field |
| Models.IndexResult.IndexChange | database/models.py:232-234 | positive exactly when the index rose, zero exactly when it did not move |
| Models.IndexResult.ReturnPercentage | database/models.py:236-238 | the return in percent, positive exactly when `is_positive_return` holds |
| Models.IndexResult.IsPositiveReturn | database/models.py:240-242 | `total_return > 0` |
| Models.IndexResult.PerformanceCategory | database/models.py:244-253 | the category of the result's own return |
| Models.Category | database/models.py:244-253 | the `if`/`elif` chain on a return, characterised by CategoriesPartitionReturns |
| Models.IndexResult.CompareToBase | database/models.py:255-260 | both percentages against the base, raising on a zero base |
| Models.IndexResultError | database/models.py:214-225 | requires non-empty code and name, previous > 0, current > 0 and at least one company |
| Models.PostInit | database/models.py:207-230 | a result that validates gets `period_return_pct = (current / previous − 1) × 100` when missing |
| Models.PeriodReturnOfChainedResult | database/models.py:227-236 | for a chain-linked result the period return is its total return in percent |
| Models.CategoriesPartitionReturns | database/models.py:244-253 | the four categories split returns at 0.02, 0 and −0.02, monotonically |
| Models.IndexResultToDict | database/models.py:262-280 | the seven keys `from_dict` reads with `data[key]` are all written |
| Models.IndexResultFromDict | database/models.py:281-299 | a missing required key or a failed validation is an error |
| Models.IndexResultRoundTrip | database/models.py:262-299 | `from_dict(to_dict(r))` gives back `r` |
| Models.ValidateModelData | database/models.py:346-355 | the loop collects one message per failing model |
| Models.ErrorsUpToSound | database/models.py:346-355 | every message names a failing model by index and carries its error |
| Models.ErrorsUpToComplete | database/models.py:346-355 | every failing model has a message |
| Models.ErrorsUpToOrdered | database/models.py:346-355 | messages come in index order, so no model has two |
| Events.TypeOf | event/event_dispatcher.py:46 | each event class is its own dispatch key |
| Events.TotalAfterUpdate | event/event_dispatcher.py:62-66 | replacing one list changes the total by the difference in length |
| Events.TotalOfEmpty | event/event_dispatcher.py:68-74 | with no lists the total is zero |
| Events.FailingIsFilter | event/event_dispatcher.py:49-60 | a handler's error is logged iff it was called and raised |
| Events.EventDispatcher.constructor | event/event_dispatcher.py:16-18 | no subscribers |
| Events.EventDispatcher.Subscribe | event/event_dispatcher.py:20-24 | appends the handler unless present (no duplicates), leaves other lists alone, and changes the count by one exactly then |
| Events.EventDispatcher.Unsubscribe | event/event_dispatcher.py:32-36 | removes the handler if present, leaves other lists alone, and changes the count by one exactly then |
| Events.EventDispatcher.SubscribeAll | event/event_dispatcher.py:26-30 | the same for the global list |
| Events.EventDispatcher.UnsubscribeAll | event/event_dispatcher.py:38-42 | removes from the global list only |
| Events.EventDispatcher.Dispatch | event/event_dispatcher.py:44-60 | calls the exact type's handlers in order, then the global ones; a raising handler is logged and does not stop the rest |
| Events.EventDispatcher.SubscriberCount | event/event_dispatcher.py:62-66 | with a type, that type's list length; without one, a total covering the global list and every type's count |
| Events.EventDispatcher.ClearSubscribers | event/event_dispatcher.py:68-74 | with a type, empties that list only; without one, empties everything and the count is zero |
| Events.SubscribeThenUnsubscribe | event/event_dispatcher.py:20-36 | subscribing a new handler and unsubscribing it restores list and count |
| Events.RecordMovesOneCounter | event/event_handlers.py:200-218 | an event moves at most one counter, the total time only with a success, and a non-completed export nothing |
| Events.RecordAllCounts | event/event_handlers.py:200-218 | from fresh metrics each counter is the number of matching events and the time is the sum over successes |
| Events.RecordAllCountsErrors | event/event_handlers.py:212-215 | an error type has an entry iff such an error occurred, and the entry counts them |
| Events.MetricsEventHandler.constructor | event/event_handlers.py:190-198 | all counters zero, no error types |
| Events.MetricsEventHandler.Handle | event/event_handlers.py:200-218 | records the event by the `elif` chain |
| Events.MetricsEventHandler.GetMetrics | event/event_handlers.py:220-222 | returns the current values |
| Events.MetricsEventHandler.ResetMetrics | event/event_handlers.py:224-233 | every counter back to zero and no error types |
| Events.CollectMetrics | event/event_handlers.py:187-233 | a fresh handler fed a sequence of events ends with the counts of that sequence |

## Left out

- Floating point: all arithmetic is exact `real`, so IEEE rounding, `inf` and NaN are not modelled. A missing or NaN price is `None`. Other numeric fields are assumed numeric. In the historical path, a record with a NaN `ltp` survives `_process_market_cap_rows` in the source, because `NaN <= 0` is false. The fill at calculators/historical_sector_calculator.py:116 does not repair it, so the pandas `sum` skips that company's NaN return, and the NaN entry is copied into the baseline. The model treats that price as `None` and takes the company's entry from the baseline instead.
- MarketData.EffectiveLtp: a NaN `ltp` is `None` here and falls through to `LTP`. In the source NaN is truthy, so `ltp or LTP` keeps the NaN and `_is_valid_data` then drops the row. A row with a NaN `ltp` and a valid `LTP` is therefore kept by the model but dropped by the source.
- Database access, SQL text and connection handling: query results and exceptions are inputs. Examples are `DirectoryFetch`, `Attempt`, `HoursFetch`, `HolidayFetch`, `LatestFetch` and `HistoryFetch`.
- Threads, signals, sleeps, the join timeout, `shutdown_event` and `stop_scheduler`: they are left out. The lock is a flag. Database health and "the worker finished in time" are inputs.
- The worker body: `calculate_indices` does not call the real-time calculator here. Its effect on the calculator is not composed with `Calculate`.
- Clocks: `time.time()` and `datetime.now()` are parameters. Market timestamps are whole seconds; wall-clock readings are `real` seconds.
- Logging, Excel/CSV export, SMTP notification, the GUI, `store_results` and `save_previous_market_cap_data`: I/O only.
- Message texts: number formatting inside error messages is not reproduced. Each message keeps its fixed text.
- RealtimeCalculator.RealTimeSectorCalculator.Calculate: assumes, without proof, that every row the stored procedure `sector_index.get_previous_market_cap_data` returns has a non-null, non-NaN `ltp`. The calculator's own loader (calculators/realtime_sector_calculator.py:134-144) copies every row unfiltered, and the method requires every loaded entry to carry a price. So the model does not cover a NULL/NaN stored price. In the source, such a company keeps its stored caps while absent from the fetch. If it is fetched with an invalid price, it gets NaN caps and drops out of every sector. The loader's result is an input, because it reads `_query_retry_delay`, which this class's constructor does not set.
- RealtimeCalculator.RealTimeSectorCalculator.Calculate: both `sector_cache()` calls of one tick share one clock reading and one store answer. A reload between them is not modelled.
- HistoricalCalculator.HistoricalSectorIndexCalculator.Calculate: the latest stored indices are an input. The source calls a misspelled `get_lastest_sector_indices` (calculators/historical_sector_calculator.py:45), which as written lands in the handler at line 228. The intended seeding is modelled.
- HistoricalCalculator.HistoricalSectorIndexCalculator.Calculate: takes the trading timestamps and market-cap records as inputs. They are not composed with `GetTradingTimestamps` and `GetMarketCapDataHist`.
- The `except Exception` around each sector in both calculators is not modelled. With exact arithmetic and total maps, nothing in the modelled body raises.
- Aliasing: it is modelled where it changes results (the real-time fallback's shallow copy and the historical baseline entry shared at line 112) by writing both maps. Object identity itself is not modelled.
- Scheduler.RealIndexService.Run: the day-summary branch calls `save_daily_index_data`, which the processor lacks (services/realtime_index_service.py:128). Only the `DaySummary` outcome is modelled.
- Scheduler.RunScheduled: the start-up retries, the first `run` at start-up (services/realtime_index_service.py:135-152), the drift warning, exception recovery and the shutdown save are not modelled.
- utils/index_data_processors.py:154-176 (`save_daily_index_data`) uses attributes that are never set. It is not modelled.
- utils/index_data_processors.py:113-119 (`initialize_indices`) only forwards to the real-time branch. It is covered by `IndexData.SeedRealtime`, not as a member of its own.
- IndexData: the summary is a map from sector code to a row. The DataFrame's column layout and row order are not modelled.
- Times of day are whole seconds, so sub-second `datetime` precision is not modelled.
- Models: `create_*_from_db_row` and `__str__`/`__repr__` are not modelled.
- Models.SectorInfo.ToDict: returns the symbol list by value. In the source `to_dict` shares the list object with the instance.
- Models: a dict key that is present with the value `None` is treated like a missing key for `data.get`.
- Models.MarketCapDataFromDict: the dict's `total_shares` is already an integer. So the truncation of a fractional share count by `int(data['total_shares'])` (database/models.py:174) is not modelled.
- Events: handlers are identified by name. What a handler does when called, including changing the dispatcher during `dispatch`, is not modelled; only whether it raises is an input.
- Events.MetricsEventHandler.GetMetrics: returns the metrics by value. The source's shallow copy shares the `errors_by_type` dict with the handler.
- event/events.py: events are records with only the fields the handler reads. Event ids and `data` dicts are not modelled.
