/**
 * Index seeding and the historical summary (utils/index_data_processors.py).
 *
 * `get_latest_sector_indices` has two branches: the historical one returns the index of
 * every sector at the latest stored timestamp before the start date; the real-time one
 * writes starting values into the caller's `current_indices`. The caller's dictionary is
 * passed in and the updated dictionary returned. Query results are inputs.
 */
module IndexData {
  import opened Wrappers
  import opened ChainIndex

  // ---------------------------------------------------------------------------
  // Real-time branch
  // ---------------------------------------------------------------------------

  /** A row of `GetLatestSectorIndices` (`sector_code`, `end_index_value`). */
  datatype LatestRow = LatestRow(sectorCode: string, endIndexValue: real)

  /** The stored procedure's result set, or its exception. */
  datatype LatestFetch = LatestRows(rows: seq<LatestRow>) | LatestQueryFailed

  /** The values the row loop leaves in `current_indices`: later rows overwrite earlier ones. */
  function SeedFromRows(indices: map<string, real>, rows: seq<LatestRow>): map<string, real> {
    if |rows| == 0 then indices
    else
      var last := rows[|rows| - 1];
      SeedFromRows(indices, rows[..|rows| - 1])[last.sectorCode := last.endIndexValue]
  }

  /** Every code of the directory set to 100.0, every other entry kept. */
  function SeedDefaults(indices: map<string, real>, codes: seq<string>): map<string, real> {
    map c | c in indices.Keys + set k | 0 <= k < |codes| :: codes[k] :: if c in codes then BaseIndex else indices[c]
  }

  /** The row loop (lines 76-81). */
  method ApplyLatestRows(indices: map<string, real>, rows: seq<LatestRow>) returns (out: map<string, real>)
    ensures out == SeedFromRows(indices, rows)
  {
    out := indices;
    var i := 0;
    while i < |rows|
      invariant 0 <= i <= |rows|
      invariant out == SeedFromRows(indices, rows[..i])
    {
      assert rows[..i + 1][..i] == rows[..i];
      out := out[rows[i].sectorCode := rows[i].endIndexValue];
      i := i + 1;
    }
    assert rows[..|rows|] == rows;
  }

  /** The default loop (lines 87-90 and 96-99). */
  method ApplyDefaults(indices: map<string, real>, codes: seq<string>) returns (out: map<string, real>)
    ensures out == SeedDefaults(indices, codes)
  {
    out := indices;
    var i := 0;
    while i < |codes|
      invariant 0 <= i <= |codes|
      invariant out == SeedDefaults(indices, codes[..i])
    {
      assert forall c :: c in codes[..i + 1] <==> c in codes[..i] || c == codes[i] by {
        assert codes[..i + 1] == codes[..i] + [codes[i]];
      }
      out := out[codes[i] := BaseIndex];
      i := i + 1;
    }
    assert codes[..|codes|] == codes;
  }

  /**
   * The real-time branch. `indices` is `current_indices` and `codes` the keys that
   * `sector_cache_func()` returns (`None` for a missing argument); `codes` is consulted
   * only when no row came back.
   */
  method SeedRealtime(indices: Option<map<string, real>>, codes: Option<seq<string>>, fetch: LatestFetch)
    returns (ok: bool, out: map<string, real>)
    ensures indices.None? || codes.None? ==> !ok && out == indices.GetOr(map[])
    ensures indices.Some? && codes.Some? && fetch.LatestRows? && |fetch.rows| > 0
      ==> ok && out == SeedFromRows(indices.value, fetch.rows)
    ensures indices.Some? && codes.Some? && !(fetch.LatestRows? && |fetch.rows| > 0)
      ==> ok && out == SeedDefaults(indices.value, codes.value)
  {
    if indices.None? || codes.None? {
      return false, indices.GetOr(map[]);
    }
    if fetch.LatestRows? && |fetch.rows| > 0 {
      out := ApplyLatestRows(indices.value, fetch.rows);
      return true, out;
    }
    out := ApplyDefaults(indices.value, codes.value);
    ok := true;
  }

  /** A sector named by the last row carrying it takes that row's value; other entries are untouched. */
  lemma {:induction false} SeedFromRowsValues(indices: map<string, real>, rows: seq<LatestRow>)
    ensures forall c :: c in SeedFromRows(indices, rows) <==> c in indices || exists k :: 0 <= k < |rows| && rows[k].sectorCode == c
    ensures forall c :: (c in indices && (forall k :: 0 <= k < |rows| ==> rows[k].sectorCode != c)
      ==> SeedFromRows(indices, rows)[c] == indices[c])
    ensures forall k :: (0 <= k < |rows| && (forall j :: k < j < |rows| ==> rows[j].sectorCode != rows[k].sectorCode)
      ==> SeedFromRows(indices, rows)[rows[k].sectorCode] == rows[k].endIndexValue)
  {
    if |rows| > 0 {
      var init := rows[..|rows| - 1];
      SeedFromRowsValues(indices, init);
      assert forall k :: 0 <= k < |init| ==> init[k] == rows[k];
    }
  }

  /** The fallback sets every directory sector to 100.0 and leaves other entries alone. */
  lemma SeedDefaultsValues(indices: map<string, real>, codes: seq<string>)
    ensures forall c :: c in codes ==> c in SeedDefaults(indices, codes) && SeedDefaults(indices, codes)[c] == BaseIndex
    ensures forall c :: c in indices && c !in codes ==> c in SeedDefaults(indices, codes) && SeedDefaults(indices, codes)[c] == indices[c]
    ensures forall c :: c in SeedDefaults(indices, codes) ==> c in indices || c in codes
  {
    forall c | c in codes ensures c in SeedDefaults(indices, codes) {
      var k :| 0 <= k < |codes| && codes[k] == c;
    }
  }

  // ---------------------------------------------------------------------------
  // Historical branch
  // ---------------------------------------------------------------------------

  /** A row of `Historical_Sector_Index_Values` (`timestamp`, `sector_code`, `Cindex_value`). */
  datatype HistoryRow = HistoryRow(timestamp: int, sectorCode: string, cindexValue: real)

  /** The table's rows, or an exception from any of the queries. */
  datatype HistoryFetch = HistoryTable(rows: seq<HistoryRow>) | HistoryFailed

  /** `MAX(timestamp) ... WHERE timestamp < start`. */
  function LatestBefore(rows: seq<HistoryRow>, start: int): (r: Option<int>)
    ensures r.None? <==> forall k :: 0 <= k < |rows| ==> rows[k].timestamp >= start
    ensures r.Some? ==> r.value < start && (exists k :: 0 <= k < |rows| && rows[k].timestamp == r.value)
    ensures r.Some? ==> forall k :: 0 <= k < |rows| && rows[k].timestamp < start ==> rows[k].timestamp <= r.value
  {
    if |rows| == 0 then None
    else
      var init := LatestBefore(rows[..|rows| - 1], start);
      var t := rows[|rows| - 1].timestamp;
      assert forall k :: 0 <= k < |rows| - 1 ==> rows[..|rows| - 1][k] == rows[k];
      if t >= start then init
      else if init.Some? && init.value >= t then init
      else Some(t)
  }

  /** The comprehension over the rows at timestamp `ts`: later rows overwrite earlier ones. */
  function IndicesAt(rows: seq<HistoryRow>, ts: int): map<string, real> {
    if |rows| == 0 then map[]
    else
      var last := rows[|rows| - 1];
      var init := IndicesAt(rows[..|rows| - 1], ts);
      if last.timestamp == ts then init[last.sectorCode := last.cindexValue] else init
  }

  /** The historical branch: `{}` without a start date, on an empty table, with nothing before the start, or on an exception. */
  function LatestSectorIndicesHistorical(startDate: Option<int>, history: HistoryFetch): map<string, real> {
    if startDate.None? || history.HistoryFailed? || |history.rows| == 0 then map[]
    else
      match LatestBefore(history.rows, startDate.value)
      case None => map[]
      case Some(ts) => IndicesAt(history.rows, ts)
  }

  lemma {:induction false} IndicesAtValues(rows: seq<HistoryRow>, ts: int)
    ensures forall c :: c in IndicesAt(rows, ts) <==> exists k :: 0 <= k < |rows| && rows[k].timestamp == ts && rows[k].sectorCode == c
    ensures forall c :: c in IndicesAt(rows, ts) ==> exists k :: (0 <= k < |rows| && rows[k].timestamp == ts
      && rows[k].sectorCode == c && rows[k].cindexValue == IndicesAt(rows, ts)[c])
  {
    if |rows| > 0 {
      var init := rows[..|rows| - 1];
      IndicesAtValues(init, ts);
      assert forall k :: 0 <= k < |init| ==> init[k] == rows[k];
    }
  }

  /** Each sector maps to its value at the latest stored timestamp strictly before the start date. */
  lemma LatestHistoricalIsLatestBefore(start: int, rows: seq<HistoryRow>)
    ensures var r := LatestSectorIndicesHistorical(Some(start), HistoryTable(rows));
      forall c :: c in r ==> exists k :: (0 <= k < |rows|
        && rows[k].sectorCode == c && rows[k].cindexValue == r[c] && rows[k].timestamp < start
        && forall j :: 0 <= j < |rows| && rows[j].timestamp < start ==> rows[j].timestamp <= rows[k].timestamp)
    ensures (forall k :: 0 <= k < |rows| ==> rows[k].timestamp >= start) ==> LatestSectorIndicesHistorical(Some(start), HistoryTable(rows)) == map[]
  {
    if |rows| > 0 {
      var l := LatestBefore(rows, start);
      if l.Some? {
        IndicesAtValues(rows, l.value);
      }
    }
  }

  /** The latest earlier timestamp contributes every sector recorded at it. */
  lemma LatestHistoricalCoversLatestRows(start: int, rows: seq<HistoryRow>, k: nat)
    requires k < |rows| && rows[k].timestamp < start
    requires forall j :: 0 <= j < |rows| && rows[j].timestamp < start ==> rows[j].timestamp <= rows[k].timestamp
    ensures rows[k].sectorCode in LatestSectorIndicesHistorical(Some(start), HistoryTable(rows))
  {
    var l := LatestBefore(rows, start);
    assert l.Some? && l.value == rows[k].timestamp;
    IndicesAtValues(rows, l.value);
  }

  // ---------------------------------------------------------------------------
  // Dispatcher
  // ---------------------------------------------------------------------------

  /** A dictionary for the historical branch, a flag for the real-time one. */
  datatype LatestResult = IndicesMap(indices: map<string, real>) | Flag(ok: bool)

  /** `get_latest_sector_indices(source_type, ...)`; `out` is the caller's `current_indices` afterwards. */
  method GetLatestSectorIndices(sourceType: int, startDate: Option<int>, history: HistoryFetch,
                                indices: Option<map<string, real>>, codes: Option<seq<string>>, fetch: LatestFetch)
    returns (r: LatestResult, out: map<string, real>)
    ensures sourceType == 0 ==> r == IndicesMap(LatestSectorIndicesHistorical(startDate, history)) && out == indices.GetOr(map[])
    ensures sourceType == 1 ==> r.Flag? && (r.ok <==> indices.Some? && codes.Some?)
    ensures sourceType == 1 && r.ok && fetch.LatestRows? && |fetch.rows| > 0 ==> out == SeedFromRows(indices.value, fetch.rows)
    ensures sourceType == 1 && r.ok && !(fetch.LatestRows? && |fetch.rows| > 0) ==> out == SeedDefaults(indices.value, codes.value)
    ensures sourceType != 0 && sourceType != 1 ==> r == Flag(false) && out == indices.GetOr(map[])
  {
    if sourceType == 0 {
      return IndicesMap(LatestSectorIndicesHistorical(startDate, history)), indices.GetOr(map[]);
    } else if sourceType == 1 {
      var ok;
      ok, out := SeedRealtime(indices, codes, fetch);
      return Flag(ok), out;
    }
    return Flag(false), indices.GetOr(map[]);
  }

  // ---------------------------------------------------------------------------
  // summarize_historical_index_results
  // ---------------------------------------------------------------------------

  /** One summary row: first name and previous index, last/max/min current index, summed return. */
  datatype Summary = Summary(
    sectorName: string,
    previousIndex: real,
    currentIndex: real,
    maxIndex: real,
    minIndex: real,
    totalPeriodReturn: real)

  /** `period_return_pct`; undefined (pandas gives inf or NaN) when the first previous index is 0. */
  function PeriodReturnPct(s: Summary): (r: Option<real>)
    ensures s.previousIndex != 0.0 <==> r.Some?
  {
    if s.previousIndex == 0.0 then None else Some((s.currentIndex / s.previousIndex - 1.0) * 100.0)
  }

  function Max(a: real, b: real): real { if a >= b then a else b }
  function Min(a: real, b: real): real { if a <= b then a else b }

  /** The group-by over `sector_code`, folded row by row. */
  function Summarize(results: seq<SectorResult>): map<string, Summary> {
    if |results| == 0 then map[]
    else
      var m := Summarize(results[..|results| - 1]);
      var r := results[|results| - 1];
      if r.sectorCode in m then
        var s := m[r.sectorCode];
        m[r.sectorCode := s.(currentIndex := r.currentIndex,
                             maxIndex := Max(s.maxIndex, r.currentIndex),
                             minIndex := Min(s.minIndex, r.currentIndex),
                             totalPeriodReturn := s.totalPeriodReturn + r.totalReturn)]
      else
        m[r.sectorCode := Summary(r.sectorName, r.previousIndex, r.currentIndex, r.currentIndex, r.currentIndex, r.totalReturn)]
  }

  /** The sum of `total_return` over the rows of one sector. */
  function ReturnsOf(results: seq<SectorResult>, code: string): real {
    if |results| == 0 then 0.0
    else
      var r := results[|results| - 1];
      ReturnsOf(results[..|results| - 1], code) + (if r.sectorCode == code then r.totalReturn else 0.0)
  }

  /** The summary has one row per sector code that occurs in the results. */
  lemma {:induction false} SummarizeKeys(results: seq<SectorResult>)
    ensures forall c :: c in Summarize(results) <==> exists k :: 0 <= k < |results| && results[k].sectorCode == c
  {
    if |results| > 0 {
      var init := results[..|results| - 1];
      SummarizeKeys(init);
      assert forall k :: 0 <= k < |init| ==> init[k] == results[k];
    }
  }

  /** Name and previous index come from the sector's first row. */
  lemma {:induction false} SummarizeFirst(results: seq<SectorResult>, c: string, first: nat)
    requires first < |results| && results[first].sectorCode == c
    requires forall j :: 0 <= j < first ==> results[j].sectorCode != c
    ensures c in Summarize(results)
    ensures Summarize(results)[c].previousIndex == results[first].previousIndex
    ensures Summarize(results)[c].sectorName == results[first].sectorName
  {
    var init := results[..|results| - 1];
    if first < |results| - 1 {
      assert forall j :: 0 <= j <= first ==> init[j] == results[j];
      SummarizeFirst(init, c, first);
    } else {
      SummarizeKeys(init);
      assert forall k :: 0 <= k < |init| ==> init[k] == results[k];
    }
  }

  /** The current index comes from the sector's last row. */
  lemma {:induction false} SummarizeLast(results: seq<SectorResult>, c: string, last: nat)
    requires last < |results| && results[last].sectorCode == c
    requires forall j :: last < j < |results| ==> results[j].sectorCode != c
    ensures c in Summarize(results)
    ensures Summarize(results)[c].currentIndex == results[last].currentIndex
  {
    var init := results[..|results| - 1];
    if last < |results| - 1 {
      assert init[last] == results[last];
      forall j | last < j < |init| ensures init[j].sectorCode != c { assert init[j] == results[j]; }
      SummarizeLast(init, c, last);
    }
  }

  /** The largest and smallest current index of the sector, both attained by one of its rows. */
  lemma {:induction false} SummarizeRange(results: seq<SectorResult>, c: string)
    requires c in Summarize(results)
    ensures forall k :: 0 <= k < |results| && results[k].sectorCode == c ==>
      Summarize(results)[c].minIndex <= results[k].currentIndex <= Summarize(results)[c].maxIndex
    ensures exists k :: 0 <= k < |results| && results[k].sectorCode == c && Summarize(results)[c].maxIndex == results[k].currentIndex
    ensures exists k :: 0 <= k < |results| && results[k].sectorCode == c && Summarize(results)[c].minIndex == results[k].currentIndex
  {
    var init := results[..|results| - 1];
    var r := results[|results| - 1];
    var m := Summarize(init);
    var n := Summarize(results);
    assert forall k :: 0 <= k < |init| ==> init[k] == results[k];
    if c in m {
      SummarizeRange(init, c);
      if c == r.sectorCode {
        var k :| 0 <= k < |init| && init[k].sectorCode == c && m[c].maxIndex == init[k].currentIndex;
        var l :| 0 <= l < |init| && init[l].sectorCode == c && m[c].minIndex == init[l].currentIndex;
        if n[c].maxIndex != r.currentIndex { assert results[k].currentIndex == n[c].maxIndex; }
        if n[c].minIndex != r.currentIndex { assert results[l].currentIndex == n[c].minIndex; }
      } else {
        var k :| 0 <= k < |init| && init[k].sectorCode == c && m[c].maxIndex == init[k].currentIndex;
        var l :| 0 <= l < |init| && init[l].sectorCode == c && m[c].minIndex == init[l].currentIndex;
        assert results[k] == init[k] && results[l] == init[l];
      }
    } else {
      SummarizeKeys(init);
      assert r.sectorCode == c;
    }
  }

  /** `total_period_return` is the sector's summed `total_return`. */
  lemma {:induction false} SummarizeReturns(results: seq<SectorResult>, c: string)
    requires c in Summarize(results)
    ensures Summarize(results)[c].totalPeriodReturn == ReturnsOf(results, c)
  {
    var init := results[..|results| - 1];
    var r := results[|results| - 1];
    if c in Summarize(init) {
      SummarizeReturns(init, c);
    } else {
      SummarizeKeys(init);
      assert forall k :: 0 <= k < |init| ==> init[k] == results[k];
      if ReturnsOf(init, c) != 0.0 {
        ReturnsOfAbsent(init, c);
      }
    }
  }

  /** A sector with no rows sums to zero. */
  lemma {:induction false} ReturnsOfAbsent(results: seq<SectorResult>, c: string)
    requires forall k :: 0 <= k < |results| ==> results[k].sectorCode != c
    ensures ReturnsOf(results, c) == 0.0
  {
    if |results| > 0 {
      var init := results[..|results| - 1];
      assert forall k :: 0 <= k < |init| ==> init[k] == results[k];
      ReturnsOfAbsent(init, c);
    }
  }

  /** `period_return_pct` compares the last current index with the first previous one. */
  lemma PeriodReturnOfSummary(results: seq<SectorResult>, c: string, first: nat, last: nat)
    requires first <= last < |results|
    requires results[first].sectorCode == c && results[last].sectorCode == c
    requires forall j :: 0 <= j < first ==> results[j].sectorCode != c
    requires forall j :: last < j < |results| ==> results[j].sectorCode != c
    requires results[first].previousIndex != 0.0
    ensures c in Summarize(results)
    ensures PeriodReturnPct(Summarize(results)[c])
      == Some((results[last].currentIndex / results[first].previousIndex - 1.0) * 100.0)
  {
    SummarizeFirst(results, c, first);
    SummarizeLast(results, c, last);
  }
}
