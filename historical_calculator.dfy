/**
 * The historical sector calculator (calculators/historical_sector_calculator.py).
 *
 * The same chain-linking as the real-time copy, run over consecutive pairs of trading
 * timestamps. Each interval builds the current map from the market-cap records stamped
 * inside it, fills it from the baseline, chain-links every sector against the baseline and
 * then copies the current entries into the baseline. A company with unusable data stops
 * the whole run (`sys.exit`). The store's answers and the clock are parameters.
 */
module HistoricalCalculator {
  import opened Wrappers
  import opened MarketData
  import opened ChainIndex
  import SectorDirectory

  // ---------------------------------------------------------------------------
  // Index seeding (lines 49-52)
  // ---------------------------------------------------------------------------

  /** Every directory sector starts from the latest stored index, or from 100.0. */
  function SeedIndices(indices: map<string, real>, latest: map<string, real>, sectors: seq<SectorDirectory.Sector>): map<string, real> {
    if |sectors| == 0 then indices
    else
      var code := sectors[|sectors| - 1].code;
      SeedIndices(indices, latest, sectors[..|sectors| - 1])[code := IndexOr(latest, code)]
  }

  // ---------------------------------------------------------------------------
  // One interval's current map (lines 82-121)
  // ---------------------------------------------------------------------------

  /** `timestamps[i-1] <= timestamp <= timestamps[i]`. */
  predicate InWindow(r: McapRecord, lo: int, hi: int) {
    lo <= r.entry.timestamp <= hi
  }

  /** The records of the interval, in order. */
  function Window(records: seq<McapRecord>, lo: int, hi: int): seq<McapRecord> {
    if |records| == 0 then []
    else
      var last := records[|records| - 1];
      Window(records[..|records| - 1], lo, hi) + (if InWindow(last, lo, hi) then [last] else [])
  }

  /** A present company with a missing or non-positive price takes price, shares and percentage from the baseline. */
  function HistEntry(cur: McapEntry, prev: McapEntry): McapEntry
    requires prev.ltp.Some?
  {
    if ValidPrice(cur.ltp) then cur
    else
      var marketCap := prev.ltp.value * prev.totalShares;
      cur.(ltp := prev.ltp, freeFloatPct := prev.freeFloatPct, totalShares := prev.totalShares,
           marketCap := marketCap, freeFloatMcap := (marketCap * prev.freeFloatPct) / 100.0)
  }

  /** The current map once the fill loop has handled the baseline companies in `done`. */
  function FillOver(cur: Snapshot, base: Snapshot, done: set<string>, t: int): Snapshot
    requires done <= base.Keys && Priced(base)
  {
    map c | c in cur.Keys + done ::
      if c !in done then cur[c]
      else if c !in cur then base[c].(timestamp := t)
      else HistEntry(cur[c], base[c])
  }

  /** The baseline once the fill loop has handled the companies in `done`. */
  function StampOver(cur: Snapshot, base: Snapshot, done: set<string>, t: int): Snapshot {
    map c | c in base :: if c in done && c !in cur then base[c].(timestamp := t) else base[c]
  }

  /** One more baseline company handled by the fill loop. */
  lemma FillOverStep(cur: Snapshot, base: Snapshot, done: set<string>, t: int, c: string, m: Snapshot)
    requires done <= base.Keys && Priced(base) && c in base && c !in done
    requires m == FillOver(cur, base, done, t)
    ensures c !in m ==> FillOver(cur, base, done + {c}, t) == m[c := base[c].(timestamp := t)]
    ensures c in m && !ValidPrice(m[c].ltp) ==> FillOver(cur, base, done + {c}, t) == m[c := HistEntry(m[c], base[c])]
    ensures c in m && ValidPrice(m[c].ltp) ==> FillOver(cur, base, done + {c}, t) == m
  {
  }

  /** One more baseline company handled by the fill loop, as the baseline sees it. */
  lemma StampOverStep(cur: Snapshot, base: Snapshot, done: set<string>, t: int, c: string, b: Snapshot)
    requires c in base && b == StampOver(cur, base, done, t)
    ensures c !in cur ==> StampOver(cur, base, done + {c}, t) == b[c := base[c].(timestamp := t)]
    ensures c in cur ==> StampOver(cur, base, done + {c}, t) == b
  {
  }

  /** The current map after the fill loop (lines 110-121). */
  function MergeHist(cur: Snapshot, base: Snapshot, t: int): (r: Snapshot)
    requires Priced(base)
    ensures r.Keys == cur.Keys + base.Keys
    ensures forall c :: c in base && c !in cur ==> r[c] == base[c].(timestamp := t)
    ensures forall c :: c in cur && (c !in base || ValidPrice(cur[c].ltp)) ==> r[c] == cur[c]
    ensures forall c :: (c in cur && c in base && !ValidPrice(cur[c].ltp) ==>
      && r[c].ltp == base[c].ltp
      && r[c].freeFloatPct == base[c].freeFloatPct
      && r[c].totalShares == base[c].totalShares
      && r[c].marketCap == base[c].ltp.value * base[c].totalShares
      && r[c].freeFloatMcap == r[c].marketCap * base[c].freeFloatPct / 100.0
      && r[c].timestamp == cur[c].timestamp)
    ensures forall c :: c in base ==> r[c].ltp.Some?
  {
    FillOver(cur, base, base.Keys, t)
  }

  /**
   * The baseline during the interval. Line 112 stores the baseline's own entry into the
   * current map, so the timestamp written on line 113 is the baseline entry's too.
   */
  function StampMissing(cur: Snapshot, base: Snapshot, t: int): (r: Snapshot)
    ensures r.Keys == base.Keys
    ensures forall c :: c in base ==> r[c].freeFloatMcap == base[c].freeFloatMcap && r[c].ltp == base[c].ltp
  {
    StampOver(cur, base, base.Keys, t)
  }

  // ---------------------------------------------------------------------------
  // The sector loop of one interval (lines 128-207)
  // ---------------------------------------------------------------------------

  /** Line 160: data that stops the run. */
  predicate ExitsOn(c: string, m: Snapshot, base: Snapshot) {
    || (c in m && !ValidPrice(m[c].ltp))
    || FfOf(base, c) <= 0.0
    || FfOf(m, c) <= 0.0
    || (c in m && m[c].totalShares <= 0.0)
  }

  /** Indices and results so far, and whether a company stopped the run. */
  datatype Progress = Progress(indices: map<string, real>, results: seq<SectorResult>, exited: bool)

  function HistSectorStep(p: Progress, s: SectorDirectory.Sector, m: Snapshot, base: Snapshot, t: int): Progress {
    if p.exited then p
    else
      var q := HistoricalQualifying(s.symbols, m, base);
      if |q| == 0 then p
      else
        var total := PositiveFfTotal(q, m);
        if total <= 0.0 then p
        else if exists k :: 0 <= k < |q| && ExitsOn(q[k], m, base) then p.(exited := true)
        else
          var rs := HistoricalReturns(q, m, base, total);
          var ret := SumWeighted(rs);
          var prev := IndexOr(p.indices, s.code);
          var cur := prev * (1.0 + ret);
          Progress(p.indices[s.code := cur], p.results + [SectorResult(s.code, s.name, t, prev, cur, ret, |rs|)], false)
  }

  function HistSectors(p: Progress, sectors: seq<SectorDirectory.Sector>, m: Snapshot, base: Snapshot, t: int): Progress {
    if |sectors| == 0 then p
    else HistSectorStep(HistSectors(p, sectors[..|sectors| - 1], m, base, t), sectors[|sectors| - 1], m, base, t)
  }

  // ---------------------------------------------------------------------------
  // The interval loop (lines 77-212)
  // ---------------------------------------------------------------------------

  datatype HistState = HistState(indices: map<string, real>, baseline: Snapshot, results: seq<SectorResult>, exited: bool)

  /** One interval: skipped without records; otherwise merged, chain-linked and copied into the baseline. */
  function Interval(st: HistState, lo: int, hi: int, sectors: seq<SectorDirectory.Sector>, records: seq<McapRecord>): (r: HistState)
    requires Priced(st.baseline)
    ensures r.baseline.Keys == st.baseline.Keys && Priced(r.baseline)
  {
    var window := Window(records, lo, hi);
    if |window| == 0 then st
    else
      var cur := DictOf(window);
      var m := MergeHist(cur, st.baseline, hi);
      var b := StampMissing(cur, st.baseline, hi);
      var p := HistSectors(Progress(st.indices, st.results, false), sectors, m, b, hi);
      if p.exited then HistState(p.indices, b, p.results, true)
      else HistState(p.indices, map c | c in st.baseline :: m[c], p.results, false)
  }

  /** Intervals `i .. |timestamps|-1` (interval `i` ends at `timestamps[i]`), stopping at the first one in which a company stops the run. */
  function Intervals(st: HistState, timestamps: seq<int>, i: nat, sectors: seq<SectorDirectory.Sector>, records: seq<McapRecord>): (r: HistState)
    requires 1 <= i && Priced(st.baseline)
    ensures r.baseline.Keys == st.baseline.Keys && Priced(r.baseline)
    decreases |timestamps| - i
  {
    if i >= |timestamps| then st
    else
      var p := Interval(st, timestamps[i - 1], timestamps[i], sectors, records);
      if p.exited then p else Intervals(p, timestamps, i + 1, sectors, records)
  }

  /** `sys.exit` leaves `calculate` without a frame. */
  datatype HistOutcome = Results(results: seq<SectorResult>) | Exited

  datatype HistFinal = HistFinal(outcome: HistOutcome, indices: map<string, real>, baseline: Option<Snapshot>)

  /** `get_previous_market_cap_data(source_type=0, start_date)`. */
  ghost function LoadedBaseline(startDate: Option<int>, shares: map<string, ShareInfo>, prevRows: seq<PrevRow>): (r: Snapshot)
    ensures Priced(r)
  {
    PrevSnapshotEntries(prevRows, shares);
    if |shares| == 0 || startDate.None? || |prevRows| == 0 then map[] else PrevSnapshot(prevRows, shares)
  }

  /** What `calculate(start_date, end_date)` returns and leaves behind. */
  function HistCalc(indices: map<string, real>, baseline: Option<Snapshot>, dbConnected: bool, latest: map<string, real>,
                    directory: seq<SectorDirectory.Sector>, loaded: Snapshot, timestamps: seq<int>, records: seq<McapRecord>): HistFinal
    requires Priced(loaded)
  {
    if !dbConnected then HistFinal(Results([]), indices, baseline)
    else
      var seeded := SeedIndices(indices, latest, directory);
      if |loaded| == 0 || |timestamps| == 0 || |records| == 0 then HistFinal(Results([]), seeded, Some(loaded))
      else
        var st := Intervals(HistState(seeded, loaded, [], false), timestamps, 1, directory, records);
        HistFinal(if st.exited then Exited else Results(st.results), st.indices, Some(st.baseline))
  }

  // ---------------------------------------------------------------------------
  // The calculator
  // ---------------------------------------------------------------------------

  class HistoricalSectorIndexCalculator {
    var currentIndices: map<string, real>
    var prevMarketCapData: Option<Snapshot>
    /** The cache processor's directory copy, which seeds `last_index_value`. */
    const cacheProcessor: SectorDirectory.SectorCache
    const marketCapProcessor: MarketCapDataProcessor

    constructor ()
      ensures currentIndices == map[] && prevMarketCapData == None
      ensures fresh(cacheProcessor) && fresh(marketCapProcessor)
      ensures cacheProcessor.cache == None && cacheProcessor.cachedAt == None && cacheProcessor.seedsBaseIndex
    {
      currentIndices := map[];
      prevMarketCapData := None;
      cacheProcessor := new SectorDirectory.SectorCache(true);
      marketCapProcessor := new MarketCapDataProcessor();
    }

    /** Lines 50-52. */
    method SeedFromLatest(latest: map<string, real>, sectors: seq<SectorDirectory.Sector>)
      modifies this
      ensures currentIndices == SeedIndices(old(currentIndices), latest, sectors)
      ensures prevMarketCapData == old(prevMarketCapData)
    {
      ghost var indices := currentIndices;
      var i := 0;
      while i < |sectors|
        invariant 0 <= i <= |sectors|
        invariant currentIndices == SeedIndices(indices, latest, sectors[..i])
        invariant prevMarketCapData == old(prevMarketCapData)
      {
        assert sectors[..i + 1][..i] == sectors[..i];
        currentIndices := currentIndices[sectors[i].code := IndexOr(latest, sectors[i].code)];
        i := i + 1;
      }
      assert sectors[..|sectors|] == sectors;
    }

    /** Lines 95-107: one entry per company, the last record winning. */
    static method BuildDict(window: seq<McapRecord>) returns (d: Snapshot)
      ensures d == DictOf(window)
    {
      d := map[];
      var i := 0;
      while i < |window|
        invariant 0 <= i <= |window|
        invariant d == DictOf(window[..i])
      {
        assert window[..i + 1][..i] == window[..i];
        d := d[window[i].company := window[i].entry];
        i := i + 1;
      }
      assert window[..|window|] == window;
    }

    /** The fill loop (lines 110-121); `b` is the baseline, whose missing companies' shared entries get the timestamp. */
    static method FillFromBaseline(cur: Snapshot, base: Snapshot, t: int) returns (m: Snapshot, b: Snapshot)
      requires Priced(base)
      ensures m == MergeHist(cur, base, t) && b == StampMissing(cur, base, t)
    {
      m := cur;
      b := base;
      assert m == FillOver(cur, base, {}, t);
      assert b == StampOver(cur, base, {}, t);
      var todo := base.Keys;
      var done: set<string> := {};
      while todo != {}
        invariant todo <= base.Keys && done == base.Keys - todo
        invariant m == FillOver(cur, base, done, t)
        invariant b == StampOver(cur, base, done, t)
        decreases todo
      {
        var c :| c in todo;
        FillOverStep(cur, base, done, t, c, m);
        StampOverStep(cur, base, done, t, c, b);
        if c !in m {
          m := m[c := base[c].(timestamp := t)];
          b := b[c := base[c].(timestamp := t)];
        } else if !ValidPrice(m[c].ltp) {
          m := m[c := HistEntry(m[c], base[c])];
        }
        todo := todo - {c};
        done := done + {c};
      }
    }

    /** The returns loop (lines 156-178): the per-company exit check, then the fractional weight and return. */
    static method CompanyReturns(q: seq<string>, m: Snapshot, base: Snapshot, total: real)
      returns (rs: seq<CompanyReturn>, exited: bool)
      requires total != 0.0
      ensures exited <==> exists k :: 0 <= k < |q| && ExitsOn(q[k], m, base)
      ensures !exited ==> AllPositive(q, base) && rs == HistoricalReturns(q, m, base, total)
    {
      rs := [];
      var i := 0;
      while i < |q|
        invariant 0 <= i <= |q|
        invariant forall k :: 0 <= k < i ==> !ExitsOn(q[k], m, base)
        invariant AllPositive(q[..i], base) && rs == HistoricalReturns(q[..i], m, base, total)
      {
        if ExitsOn(q[i], m, base) {
          return rs, true;
        }
        rs := rs + [HistoricalReturnOf(q[i], m, base, total)];
        i := i + 1;
      }
      assert q[..|q|] == q;
      exited := false;
    }

    /** One pass of the sector loop's body (lines 129-207). */
    method ProcessSector(s: SectorDirectory.Sector, m: Snapshot, base: Snapshot, t: int, results: seq<SectorResult>)
      returns (results': seq<SectorResult>, exited: bool)
      modifies this
      ensures Progress(currentIndices, results', exited) == HistSectorStep(Progress(old(currentIndices), results, false), s, m, base, t)
      ensures prevMarketCapData == old(prevMarketCapData)
    {
      results', exited := results, false;
      var q := HistoricalQualifying(s.symbols, m, base);
      if |q| == 0 {
        return;
      }
      var total := PositiveFfTotal(q, m);
      if total <= 0.0 {
        return;
      }
      var rs;
      rs, exited := CompanyReturns(q, m, base, total);
      if exited {
        return;
      }
      var ret := SumWeighted(rs);
      var prev := IndexOr(currentIndices, s.code);
      var cur := prev * (1.0 + ret);
      currentIndices := currentIndices[s.code := cur];
      results' := results + [SectorResult(s.code, s.name, t, prev, cur, ret, |rs|)];
    }

    /** The sector loop of one interval (lines 128-207); `sys.exit` ends it at once. */
    method RunSectors(sectors: seq<SectorDirectory.Sector>, m: Snapshot, base: Snapshot, t: int, results: seq<SectorResult>)
      returns (results': seq<SectorResult>, exited: bool)
      modifies this
      ensures Progress(currentIndices, results', exited) == HistSectors(Progress(old(currentIndices), results, false), sectors, m, base, t)
      ensures prevMarketCapData == old(prevMarketCapData)
    {
      ghost var p0 := Progress(currentIndices, results, false);
      results', exited := results, false;
      var i := 0;
      while i < |sectors|
        invariant 0 <= i <= |sectors|
        invariant Progress(currentIndices, results', exited) == HistSectors(p0, sectors[..i], m, base, t)
        invariant prevMarketCapData == old(prevMarketCapData)
      {
        assert sectors[..i + 1][..i] == sectors[..i];
        results', exited := ProcessSector(sectors[i], m, base, t, results');
        i := i + 1;
        if exited {
          break;
        }
      }
      ExitedStays(p0, sectors, i, m, base, t);
    }

    /** The baseline once the copy loop has handled the current companies in `done`. */
    static function CopyOver(base: Snapshot, m: Snapshot, done: set<string>): Snapshot
      requires done <= m.Keys
    {
      map c | c in base :: if c in done then m[c] else base[c]
    }

    /** Lines 210-212: baseline companies take their current entry; no company is added. */
    method CopyIntoBaseline(m: Snapshot)
      requires prevMarketCapData.Some? && prevMarketCapData.value.Keys <= m.Keys
      modifies this
      ensures prevMarketCapData == Some(map c | c in old(prevMarketCapData.value) :: m[c])
      ensures currentIndices == old(currentIndices)
    {
      ghost var base := prevMarketCapData.value;
      assert base == CopyOver(base, m, {});
      var todo := m.Keys;
      ghost var done: set<string> := {};
      while todo != {}
        invariant todo <= m.Keys && done == m.Keys - todo
        invariant prevMarketCapData == Some(CopyOver(base, m, done))
        invariant currentIndices == old(currentIndices)
        decreases todo
      {
        var c :| c in todo;
        if c in prevMarketCapData.value {
          prevMarketCapData := Some(prevMarketCapData.value[c := m[c]]);
          assert prevMarketCapData.value == CopyOver(base, m, done + {c});
        } else {
          assert CopyOver(base, m, done) == CopyOver(base, m, done + {c});
        }
        todo := todo - {c};
        done := done + {c};
      }
      assert done == m.Keys;
      assert CopyOver(base, m, m.Keys) == map c | c in base :: m[c];
    }

    /** One iteration of the interval loop (lines 78-212). */
    method ProcessInterval(lo: int, hi: int, sectors: seq<SectorDirectory.Sector>, records: seq<McapRecord>, results: seq<SectorResult>)
      returns (results': seq<SectorResult>, exited: bool)
      requires prevMarketCapData.Some? && Priced(prevMarketCapData.value)
      modifies this
      ensures prevMarketCapData.Some?
      ensures HistState(currentIndices, prevMarketCapData.value, results', exited)
        == Interval(HistState(old(currentIndices), old(prevMarketCapData.value), results, false), lo, hi, sectors, records)
    {
      results', exited := results, false;
      var window := Window(records, lo, hi);
      if |window| == 0 {
        return;
      }
      var cur := BuildDict(window);
      var m, b := FillFromBaseline(cur, prevMarketCapData.value, hi);
      prevMarketCapData := Some(b);
      results', exited := RunSectors(sectors, m, b, hi, results);
      if exited {
        return;
      }
      CopyIntoBaseline(m);
    }

    /**
     * `calculate(start_date, end_date)` (lines 36-230). `latest` stands for the latest
     * stored indices, `now` and `dirFetch` for the directory cache's clock and answer,
     * `shares` and `prevRows` for the previous-data query, `timestamps` for the trading
     * timestamps and `records` for the historical market-cap frame.
     */
    method Calculate(dbConnected: bool, latest: map<string, real>, now: real, dirFetch: SectorDirectory.DirectoryFetch,
                     startDate: Option<int>, shares: map<string, ShareInfo>, prevRows: seq<PrevRow>,
                     timestamps: seq<int>, records: seq<McapRecord>)
      returns (r: HistOutcome)
      modifies this, cacheProcessor, marketCapProcessor
      ensures HistFinal(r, currentIndices, prevMarketCapData)
        == HistCalc(old(currentIndices), old(prevMarketCapData), dbConnected, latest,
                    SectorDirectory.Served(old(cacheProcessor.cache), old(cacheProcessor.cachedAt), now, dirFetch, cacheProcessor.seedsBaseIndex),
                    LoadedBaseline(startDate, shares, prevRows), timestamps, records)
    {
      if !dbConnected {
        return Results([]);
      }
      var sectors := cacheProcessor.Get(now, dirFetch);
      SeedFromLatest(latest, sectors);
      var loaded := marketCapProcessor.GetPreviousMarketCapData(0, startDate, shares, prevRows, []);
      assert loaded == LoadedBaseline(startDate, shares, prevRows);
      prevMarketCapData := Some(loaded);
      if |loaded| == 0 || |timestamps| == 0 || |records| == 0 {
        return Results([]);
      }
      r := RunIntervals(timestamps, sectors, records);
    }

    /** The interval loop (lines 77-212), up to the end or to the first `sys.exit`. */
    method RunIntervals(timestamps: seq<int>, sectors: seq<SectorDirectory.Sector>, records: seq<McapRecord>)
      returns (r: HistOutcome)
      requires prevMarketCapData.Some? && Priced(prevMarketCapData.value)
      modifies this
      ensures var st := Intervals(HistState(old(currentIndices), old(prevMarketCapData.value), [], false), timestamps, 1, sectors, records);
        HistFinal(r, currentIndices, prevMarketCapData) == HistFinal(if st.exited then Exited else Results(st.results), st.indices, Some(st.baseline))
    {
      ghost var st0 := HistState(currentIndices, prevMarketCapData.value, [], false);
      if |timestamps| <= 1 {
        return Results([]);
      }
      var results: seq<SectorResult> := [];
      var i := 1;
      while i < |timestamps|
        invariant 1 <= i <= |timestamps| && prevMarketCapData.Some?
        invariant Priced(prevMarketCapData.value)
        invariant Intervals(HistState(currentIndices, prevMarketCapData.value, results, false), timestamps, i, sectors, records)
          == Intervals(st0, timestamps, 1, sectors, records)
      {
        var exited;
        results, exited := ProcessInterval(timestamps[i - 1], timestamps[i], sectors, records, results);
        if exited {
          return Exited;
        }
        i := i + 1;
      }
      r := Results(results);
    }
  }

  // ---------------------------------------------------------------------------
  // Properties
  // ---------------------------------------------------------------------------

  /** Once a company has stopped the run, later sectors change nothing. */
  lemma {:induction false} ExitedStays(p: Progress, sectors: seq<SectorDirectory.Sector>, i: nat, m: Snapshot, base: Snapshot, t: int)
    requires i <= |sectors|
    requires HistSectors(p, sectors[..i], m, base, t).exited || i == |sectors|
    ensures HistSectors(p, sectors, m, base, t) == HistSectors(p, sectors[..i], m, base, t)
    decreases |sectors| - i
  {
    if i == |sectors| {
      assert sectors[..i] == sectors;
    } else {
      assert sectors[..i + 1][..i] == sectors[..i];
      ExitedStays(p, sectors, i + 1, m, base, t);
    }
  }

  /** Each directory sector starts at the latest stored value or at 100.0; indices of other codes are untouched. */
  lemma {:induction false} SeedIndicesValues(indices: map<string, real>, latest: map<string, real>, sectors: seq<SectorDirectory.Sector>)
    ensures forall k :: 0 <= k < |sectors| ==> sectors[k].code in SeedIndices(indices, latest, sectors)
    ensures forall k :: 0 <= k < |sectors| ==> SeedIndices(indices, latest, sectors)[sectors[k].code] == IndexOr(latest, sectors[k].code)
    ensures forall c :: c in indices && c !in SectorDirectory.Codes(sectors) ==> c in SeedIndices(indices, latest, sectors) && SeedIndices(indices, latest, sectors)[c] == indices[c]
    ensures forall c :: c in SeedIndices(indices, latest, sectors) ==> c in indices || c in SectorDirectory.Codes(sectors)
  {
    if |sectors| > 0 {
      var init := sectors[..|sectors| - 1];
      SeedIndicesValues(indices, latest, init);
      assert forall k :: 0 <= k < |init| ==> init[k] == sectors[k];
      assert SectorDirectory.Codes(sectors) == SectorDirectory.Codes(init) + [sectors[|sectors| - 1].code];
    }
  }

  /** The window holds exactly the records stamped inside the interval, in their order. */
  lemma {:induction false} WindowMembers(records: seq<McapRecord>, lo: int, hi: int)
    ensures forall r :: r in Window(records, lo, hi) <==> r in records && InWindow(r, lo, hi)
  {
    if |records| > 0 {
      WindowMembers(records[..|records| - 1], lo, hi);
      assert records == records[..|records| - 1] + [records[|records| - 1]];
    }
  }

  /** The historical constituents are the listed symbols present in both maps. */
  lemma HistConstituents(symbols: seq<string>, m: Snapshot, base: Snapshot)
    ensures var q := HistoricalQualifying(symbols, m, base);
      forall k :: 0 <= k < |q| ==> q[k] in symbols && q[k] in m && q[k] in base
  {
    HistoricalQualifyingMembers(symbols, m, base);
    var q := HistoricalQualifying(symbols, m, base);
    assert forall k :: 0 <= k < |q| ==> q[k] in q;
  }

  /**
   * A sector that does not stop the run: its constituents all have positive caps, the
   * fractional weights add up to 1, the index moves by the weighted mean return, and the
   * result carries the interval's timestamp and the constituent count.
   */
  lemma HistStepChains(p: Progress, s: SectorDirectory.Sector, m: Snapshot, base: Snapshot, t: int)
    requires !p.exited && !HistSectorStep(p, s, m, base, t).exited && HistSectorStep(p, s, m, base, t) != p
    ensures var q := HistoricalQualifying(s.symbols, m, base);
      q != [] && PositiveFfTotal(q, m) > 0.0 && AllPositive(q, m) && AllPositive(q, base)
    ensures var q := HistoricalQualifying(s.symbols, m, base);
      SumWeights(HistoricalReturns(q, m, base, PositiveFfTotal(q, m))) == 1.0
    ensures var q := HistoricalQualifying(s.symbols, m, base);
      var total := PositiveFfTotal(q, m);
      var ret := WeightedMeanReturn(q, m, base, total);
      var prev := IndexOr(p.indices, s.code);
      && HistSectorStep(p, s, m, base, t).results == p.results + [SectorResult(s.code, s.name, t, prev, prev * (1.0 + ret), ret, |q|)]
      && HistSectorStep(p, s, m, base, t).indices == p.indices[s.code := prev * (1.0 + ret)]
  {
    var q := HistoricalQualifying(s.symbols, m, base);
    assert forall k :: 0 <= k < |q| ==> !ExitsOn(q[k], m, base);
    PositiveTotal(q, m);
    HistoricalWeightsSumToOne(q, m, base);
    HistoricalReturnIsWeightedMean(q, m, base, PositiveFfTotal(q, m));
  }

  /** A sector stops the run exactly when one of its constituents has unusable data. */
  lemma HistStepExits(p: Progress, s: SectorDirectory.Sector, m: Snapshot, base: Snapshot, t: int)
    requires !p.exited
    ensures var q := HistoricalQualifying(s.symbols, m, base);
      HistSectorStep(p, s, m, base, t).exited <==> PositiveFfTotal(q, m) > 0.0 && exists k :: 0 <= k < |q| && ExitsOn(q[k], m, base)
  {
  }

  /**
   * Without unusable data, a sector whose constituents all lack a positive current cap
   * is skipped; with one, the total is positive and the sector yields a result or stops
   * the run.
   */
  lemma HistStepSkips(p: Progress, s: SectorDirectory.Sector, m: Snapshot, base: Snapshot, t: int)
    requires !p.exited
    ensures var q := HistoricalQualifying(s.symbols, m, base);
      HistSectorStep(p, s, m, base, t) == p <==> q == [] || PositiveFfTotal(q, m) <= 0.0
  {
    var q := HistoricalQualifying(s.symbols, m, base);
    if q != [] && PositiveFfTotal(q, m) > 0.0 && !exists k :: 0 <= k < |q| && ExitsOn(q[k], m, base) {
      assert |HistSectorStep(p, s, m, base, t).results| == |p.results| + 1;
    }
  }

  /** After an interval that did not stop, every baseline company holds its merged entry, stamped with the interval's end if it had no record. */
  lemma IntervalCopiesBaseline(st: HistState, lo: int, hi: int, sectors: seq<SectorDirectory.Sector>, records: seq<McapRecord>)
    requires Priced(st.baseline) && |Window(records, lo, hi)| > 0
    requires !Interval(st, lo, hi, sectors, records).exited
    ensures var cur := DictOf(Window(records, lo, hi));
      forall c :: c in st.baseline ==> Interval(st, lo, hi, sectors, records).baseline[c] == MergeHist(cur, st.baseline, hi)[c]
  {
  }

  /** An interval only appends results, each carrying the interval's end timestamp. */
  lemma IntervalTagged(st: HistState, lo: int, hi: int, sectors: seq<SectorDirectory.Sector>, records: seq<McapRecord>)
    requires Priced(st.baseline)
    ensures var r := Interval(st, lo, hi, sectors, records);
      |st.results| <= |r.results| && r.results[..|st.results|] == st.results
      && forall k :: |st.results| <= k < |r.results| ==> r.results[k].timestamp == hi
  {
    var window := Window(records, lo, hi);
    if |window| > 0 {
      var cur := DictOf(window);
      SectorsTagged(Progress(st.indices, st.results, false), sectors, MergeHist(cur, st.baseline, hi), StampMissing(cur, st.baseline, hi), hi);
    }
  }

  /** The results come interval by interval, each carrying the end timestamp of the interval that produced it. */
  lemma {:induction false} IntervalsResultsTagged(st: HistState, timestamps: seq<int>, i: nat, sectors: seq<SectorDirectory.Sector>, records: seq<McapRecord>)
    requires 1 <= i && Priced(st.baseline)
    ensures var r := Intervals(st, timestamps, i, sectors, records);
      |st.results| <= |r.results| && r.results[..|st.results|] == st.results
    ensures var r := Intervals(st, timestamps, i, sectors, records);
      forall k :: |st.results| <= k < |r.results| ==> exists j :: i <= j < |timestamps| && r.results[k].timestamp == timestamps[j]
    decreases |timestamps| - i
  {
    if i < |timestamps| {
      IntervalTagged(st, timestamps[i - 1], timestamps[i], sectors, records);
      var p := Interval(st, timestamps[i - 1], timestamps[i], sectors, records);
      if !p.exited {
        IntervalsResultsTagged(p, timestamps, i + 1, sectors, records);
        var r := Intervals(p, timestamps, i + 1, sectors, records);
        assert r == Intervals(st, timestamps, i, sectors, records);
        assert r.results[..|st.results|] == st.results by {
          assert r.results[..|st.results|] == r.results[..|p.results|][..|st.results|];
        }
        forall k | |st.results| <= k < |r.results| ensures exists j :: i <= j < |timestamps| && r.results[k].timestamp == timestamps[j] {
          if k < |p.results| {
            assert r.results[k] == r.results[..|p.results|][k];
            assert r.results[k].timestamp == timestamps[i];
          } else {
            var j :| i + 1 <= j < |timestamps| && r.results[k].timestamp == timestamps[j];
          }
        }
      }
    }
  }

  /** The sector loop only appends, and every result it appends carries the interval's timestamp. */
  lemma {:induction false} SectorsTagged(p: Progress, sectors: seq<SectorDirectory.Sector>, m: Snapshot, base: Snapshot, t: int)
    ensures var r := HistSectors(p, sectors, m, base, t);
      |p.results| <= |r.results| && r.results[..|p.results|] == p.results
      && forall k :: |p.results| <= k < |r.results| ==> r.results[k].timestamp == t
  {
    if |sectors| > 0 {
      SectorsTagged(p, sectors[..|sectors| - 1], m, base, t);
    }
  }
}
