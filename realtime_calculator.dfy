/**
 * The real-time sector calculator (calculators/realtime_sector_calculator.py).
 *
 * One call of `calculate` is one tick: the current snapshot is merged with the baseline
 * (`prev_market_cap_data`), every sector of the directory is chain-linked from its
 * previous index, and each sector's constituents are written back into the baseline
 * inside the sector loop. The clock, the connection check and the store's answers are
 * parameters of the tick.
 */
module RealtimeCalculator {
  import opened Wrappers
  import opened MarketData
  import opened ChainIndex
  import SectorDirectory
  import IndexData

  // ---------------------------------------------------------------------------
  // Merging the current snapshot with the baseline (lines 219-249)
  // ---------------------------------------------------------------------------

  /** Every entry with its timestamp replaced by the current minute. */
  function Stamp(s: Snapshot, now: int): Snapshot {
    map c | c in s :: s[c].(timestamp := now)
  }

  /** A company present in both maps: shares and percentage from the baseline, the price unless it is invalid, caps recomputed. */
  function MergeEntry(cur: McapEntry, prev: McapEntry): McapEntry
    requires prev.ltp.Some?
  {
    var ltp := if ValidPrice(cur.ltp) then cur.ltp.value else prev.ltp.value;
    var marketCap := ltp * prev.totalShares;
    cur.(ltp := Some(ltp), totalShares := prev.totalShares, marketCap := marketCap,
         freeFloatPct := prev.freeFloatPct, freeFloatMcap := (marketCap * prev.freeFloatPct) / 100.0)
  }

  /** The current map once the merge loop has handled the baseline companies in `done`. */
  function MergeOver(start: Snapshot, base: Snapshot, done: set<string>, now: int): Snapshot
    requires done <= base.Keys && Priced(base)
  {
    map c | c in start.Keys + done ::
      if c !in done then start[c]
      else if c in start then MergeEntry(start[c], base[c])
      else base[c].(timestamp := now)
  }

  /** The merge loop over the whole baseline. */
  function Merge(start: Snapshot, base: Snapshot, now: int): (r: Snapshot)
    requires Priced(base)
    ensures r.Keys == start.Keys + base.Keys
    ensures forall c :: c in base && c !in start ==> r[c] == base[c].(timestamp := now)
    ensures forall c :: c in start && c !in base ==> r[c] == start[c]
    ensures forall c :: (c in start && c in base ==>
      && r[c].totalShares == base[c].totalShares
      && r[c].freeFloatPct == base[c].freeFloatPct
      && r[c].ltp == (if ValidPrice(start[c].ltp) then start[c].ltp else base[c].ltp)
      && r[c].marketCap == r[c].ltp.value * r[c].totalShares
      && r[c].freeFloatMcap == r[c].marketCap * r[c].freeFloatPct / 100.0
      && r[c].timestamp == start[c].timestamp)
    ensures forall c :: c in base ==> r[c].ltp.Some?
  {
    MergeOver(start, base, base.Keys, now)
  }

  /** The current map after the merge, and the baseline as the merge leaves it. */
  datatype Merged = Merged(current: Snapshot, baseline: Snapshot)

  /**
   * With an empty current fetch the current map is a shallow copy of the baseline
   * (line 222): its entries are the baseline's own, so the timestamp writes and the merge
   * writes land in the baseline as well.
   */
  function MergedState(cur: Snapshot, base: Snapshot, now: int): (r: Merged)
    requires Priced(base)
    ensures |cur| > 0 ==> r.current == Merge(cur, base, now) && r.baseline == base
    ensures |cur| == 0 ==> r.baseline == r.current && r.current.Keys == base.Keys
    ensures |cur| == 0 ==> forall c :: (c in base ==>
      && r.current[c].timestamp == now
      && r.current[c].ltp == base[c].ltp
      && r.current[c].totalShares == base[c].totalShares
      && r.current[c].freeFloatPct == base[c].freeFloatPct
      && r.current[c].marketCap == base[c].ltp.value * base[c].totalShares
      && r.current[c].freeFloatMcap == r.current[c].marketCap * base[c].freeFloatPct / 100.0)
    ensures r.baseline.Keys == base.Keys && Priced(r.baseline)
    ensures forall c :: c in base ==> c in r.current && r.current[c].ltp.Some?
  {
    if |cur| == 0 then
      var s := Stamp(base, now);
      var m := Merge(s, s, now);
      Merged(m, m)
    else
      Merged(Merge(cur, base, now), base)
  }

  // ---------------------------------------------------------------------------
  // The sector loop (lines 262-357)
  // ---------------------------------------------------------------------------

  /** What the sector loop carries from one sector to the next. */
  datatype PassState = PassState(baseline: Snapshot, indices: map<string, real>, results: seq<SectorResult>)

  /** The baseline after the refresh loop (lines 322-331) over the constituents `q`. */
  function Refresh(base: Snapshot, q: seq<string>, m: Snapshot, now: int): Snapshot
    requires forall k :: 0 <= k < |q| ==> q[k] in m
  {
    if |q| == 0 then base
    else
      var c := q[|q| - 1];
      Refresh(base, q[..|q| - 1], m, now)[c := m[c].(timestamp := now)]
  }

  /** One sector: no result when nothing qualifies, otherwise one chain-linked result and the refreshed baseline. */
  function SectorStep(st: PassState, s: SectorDirectory.Sector, m: Snapshot, now: int): PassState {
    var q := RealtimeQualifying(s.symbols, m, st.baseline);
    if |q| == 0 then st
    else
      var total := PositiveFfTotal(q, m);
      if total <= 0.0 then st
      else
        Constituents(s.symbols, m, st.baseline);
        var rs := RealtimeReturns(q, m, st.baseline, total);
        var ret := SumWeighted(rs);
        var prev := IndexOr(st.indices, s.code);
        var cur := prev * (1.0 + ret);
        PassState(Refresh(st.baseline, q, m, now), st.indices[s.code := cur],
                  st.results + [SectorResult(s.code, s.name, now, prev, cur, ret, |rs|)])
  }

  /** The sector loop, in directory order. */
  function SectorPass(st: PassState, sectors: seq<SectorDirectory.Sector>, m: Snapshot, now: int): PassState {
    if |sectors| == 0 then st
    else SectorStep(SectorPass(st, sectors[..|sectors| - 1], m, now), sectors[|sectors| - 1], m, now)
  }

  /** A stored result obeys the chain identity, carries the tick's minute and counts at least one company. */
  predicate Chained(r: SectorResult, now: int) {
    r.currentIndex == r.previousIndex * (1.0 + r.totalReturn) && r.timestamp == now && r.numCompanies > 0
  }

  // ---------------------------------------------------------------------------
  // One tick
  // ---------------------------------------------------------------------------

  /** `initialize_indices`: seeds once, from the stored procedure's rows or with 100.0 for each sector of the directory. */
  function Seeded(indices: map<string, real>, initialized: bool, latest: IndexData.LatestFetch,
                  directory: seq<SectorDirectory.Sector>): map<string, real> {
    if initialized then indices
    else if latest.LatestRows? && |latest.rows| > 0 then IndexData.SeedFromRows(indices, latest.rows)
    else IndexData.SeedDefaults(indices, SectorDirectory.Codes(directory))
  }

  datatype TickOutcome = TickOutcome(results: seq<SectorResult>, indices: map<string, real>, baseline: Option<Snapshot>)

  /**
   * The state a tick leaves: `directory` is what `sector_cache()` serves, `fetched` the
   * current snapshot and `loaded` the baseline the loader would return.
   */
  function Tick(indices: map<string, real>, initialized: bool, baseline: Option<Snapshot>,
                directory: seq<SectorDirectory.Sector>, now: int, dbConnected: bool,
                latest: IndexData.LatestFetch, fetched: Snapshot, loaded: Snapshot): TickOutcome
    requires baseline.Some? ==> Priced(baseline.value)
    requires Priced(loaded)
  {
    var seeded := Seeded(indices, initialized, latest, directory);
    if !dbConnected then TickOutcome([], seeded, baseline)
    else
      var base := if baseline.Some? then baseline.value else loaded;
      if |base| == 0 then TickOutcome([], seeded, Some(base))
      else
        var mg := MergedState(fetched, base, now);
        var st := SectorPass(PassState(mg.baseline, seeded, []), directory, mg.current, now);
        TickOutcome(st.results, st.indices, Some(st.baseline))
  }

  // ---------------------------------------------------------------------------
  // The calculator
  // ---------------------------------------------------------------------------

  class RealTimeSectorCalculator {
    var currentIndices: map<string, real>
    var prevMarketCapData: Option<Snapshot>
    var indicesInitialized: bool
    /** The calculator's own copy of `sector_cache()`, without `last_index_value`. */
    const directory: SectorDirectory.SectorCache

    /** Every baseline entry carries a price. */
    ghost predicate Valid()
      reads this
    {
      prevMarketCapData.Some? ==> Priced(prevMarketCapData.value)
    }

    constructor ()
      ensures Valid() && fresh(directory)
      ensures currentIndices == map[] && prevMarketCapData == None && !indicesInitialized
      ensures directory.cache == None && directory.cachedAt == None && !directory.seedsBaseIndex
    {
      currentIndices := map[];
      prevMarketCapData := None;
      indicesInitialized := false;
      directory := new SectorDirectory.SectorCache(false);
    }

    /** Lines 87-105: the flag is set whether or not seeding succeeded. */
    method InitializeIndices(now: real, latest: IndexData.LatestFetch, dirFetch: SectorDirectory.DirectoryFetch)
      modifies this, directory
      ensures indicesInitialized
      ensures prevMarketCapData == old(prevMarketCapData)
      ensures currentIndices == Seeded(old(currentIndices), old(indicesInitialized), latest,
        SectorDirectory.Served(old(directory.cache), old(directory.cachedAt), now, dirFetch, directory.seedsBaseIndex))
      ensures SectorDirectory.Served(directory.cache, directory.cachedAt, now, dirFetch, directory.seedsBaseIndex)
        == SectorDirectory.Served(old(directory.cache), old(directory.cachedAt), now, dirFetch, directory.seedsBaseIndex)
    {
      if indicesInitialized {
        return;
      }
      if latest.LatestRows? && |latest.rows| > 0 {
        currentIndices := IndexData.ApplyLatestRows(currentIndices, latest.rows);
      } else {
        var d := directory.Get(now, dirFetch);
        currentIndices := IndexData.ApplyDefaults(currentIndices, SectorDirectory.Codes(d));
      }
      indicesInitialized := true;
    }

    /** The timestamp loop of the fallback (lines 224-225). */
    static method StampAll(s: Snapshot, now: int) returns (r: Snapshot)
      ensures r == Stamp(s, now)
    {
      r := s;
      var todo := s.Keys;
      while todo != {}
        invariant todo <= s.Keys && r.Keys == s.Keys
        invariant forall c :: c in r ==> r[c] == if c in todo then s[c] else s[c].(timestamp := now)
        decreases todo
      {
        var c :| c in todo;
        r := r[c := r[c].(timestamp := now)];
        todo := todo - {c};
      }
    }

    /** The merge loop (lines 229-249) over the baseline's companies. */
    static method MergeInto(start: Snapshot, base: Snapshot, now: int) returns (merged: Snapshot)
      requires Priced(base)
      ensures merged == Merge(start, base, now)
    {
      merged := start;
      var todo := base.Keys;
      while todo != {}
        invariant todo <= base.Keys
        invariant merged == MergeOver(start, base, base.Keys - todo, now)
        decreases todo
      {
        var c :| c in todo;
        if c !in merged {
          merged := merged[c := base[c].(timestamp := now)];
        } else {
          merged := merged[c := MergeEntry(merged[c], base[c])];
        }
        todo := todo - {c};
      }
    }

    /**
     * Lines 219-249. With an empty fetch the current map is a shallow copy of the
     * baseline, so every entry the merge writes is also the baseline's entry: once the
     * loop is done the baseline holds exactly the merged entries.
     */
    method MergeSnapshots(fetched: Snapshot, now: int) returns (merged: Snapshot)
      requires Valid() && prevMarketCapData.Some?
      modifies this
      ensures merged == MergedState(fetched, old(prevMarketCapData.value), now).current
      ensures prevMarketCapData == Some(MergedState(fetched, old(prevMarketCapData.value), now).baseline)
      ensures currentIndices == old(currentIndices) && indicesInitialized == old(indicesInitialized)
      ensures Valid()
    {
      var base := prevMarketCapData.value;
      if |fetched| == 0 {
        var shared := StampAll(base, now);
        merged := MergeInto(shared, shared, now);
        prevMarketCapData := Some(merged);
      } else {
        merged := MergeInto(fetched, base, now);
      }
    }

    /** The returns loop (lines 301-319). */
    static method ComputeReturns(q: seq<string>, cur: Snapshot, base: Snapshot, total: real) returns (rs: seq<CompanyReturn>)
      ensures rs == RealtimeReturns(q, cur, base, total)
    {
      rs := [];
      var i := 0;
      while i < |q|
        invariant 0 <= i <= |q|
        invariant rs == RealtimeReturns(q[..i], cur, base, total)
      {
        rs := rs + [RealtimeReturnOf(q[i], cur, base, total)];
        i := i + 1;
      }
      assert q[..|q|] == q;
    }

    /** The baseline refresh loop (lines 322-331). */
    method RefreshBaseline(q: seq<string>, m: Snapshot, now: int)
      requires prevMarketCapData.Some?
      requires forall k :: 0 <= k < |q| ==> q[k] in m
      modifies this
      ensures prevMarketCapData == Some(Refresh(old(prevMarketCapData.value), q, m, now))
      ensures currentIndices == old(currentIndices) && indicesInitialized == old(indicesInitialized)
    {
      ghost var base := prevMarketCapData.value;
      var i := 0;
      while i < |q|
        invariant 0 <= i <= |q|
        invariant prevMarketCapData == Some(Refresh(base, q[..i], m, now))
        invariant currentIndices == old(currentIndices) && indicesInitialized == old(indicesInitialized)
      {
        assert q[..i + 1][..i] == q[..i];
        prevMarketCapData := Some(prevMarketCapData.value[q[i] := m[q[i]].(timestamp := now)]);
        i := i + 1;
      }
      assert q[..|q|] == q;
    }

    /** One pass of the sector loop's body (lines 267-355). */
    method ProcessSector(s: SectorDirectory.Sector, m: Snapshot, now: int, results: seq<SectorResult>)
      returns (results': seq<SectorResult>)
      requires prevMarketCapData.Some?
      modifies this
      ensures prevMarketCapData.Some?
      ensures PassState(prevMarketCapData.value, currentIndices, results')
        == SectorStep(PassState(old(prevMarketCapData.value), old(currentIndices), results), s, m, now)
      ensures indicesInitialized == old(indicesInitialized)
    {
      results' := results;
      var base := prevMarketCapData.value;
      var q := RealtimeQualifying(s.symbols, m, base);
      if |q| == 0 {
        return;
      }
      var total := PositiveFfTotal(q, m);
      if total <= 0.0 {
        return;
      }
      Constituents(s.symbols, m, base);
      var rs := ComputeReturns(q, m, base, total);
      RefreshBaseline(q, m, now);
      var ret := SumWeighted(rs);
      var prev := IndexOr(currentIndices, s.code);
      var cur := prev * (1.0 + ret);
      currentIndices := currentIndices[s.code := cur];
      results' := results + [SectorResult(s.code, s.name, now, prev, cur, ret, |rs|)];
    }

    /** The sector loop (lines 262-357). */
    method RunSectors(sectors: seq<SectorDirectory.Sector>, m: Snapshot, now: int) returns (results: seq<SectorResult>)
      requires prevMarketCapData.Some?
      modifies this
      ensures var st := SectorPass(PassState(old(prevMarketCapData.value), old(currentIndices), []), sectors, m, now);
        results == st.results && currentIndices == st.indices && prevMarketCapData == Some(st.baseline)
      ensures indicesInitialized == old(indicesInitialized)
    {
      ghost var st0 := PassState(prevMarketCapData.value, currentIndices, []);
      results := [];
      var i := 0;
      while i < |sectors|
        invariant 0 <= i <= |sectors| && prevMarketCapData.Some?
        invariant PassState(prevMarketCapData.value, currentIndices, results) == SectorPass(st0, sectors[..i], m, now)
        invariant indicesInitialized == old(indicesInitialized)
      {
        assert sectors[..i + 1][..i] == sectors[..i];
        results := ProcessSector(sectors[i], m, now, results);
        i := i + 1;
      }
      assert sectors[..|sectors|] == sectors;
    }

    /**
     * `calculate` (lines 173-380). `now` is the wall clock of the directory cache and
     * `nowMinute` the current minute; `dbConnected` is `verify_connection()`, `attempts` the
     * real-mode store answers and `loaded` what the baseline loader returns. Both calls of
     * `sector_cache()` share `now` and `dirFetch`.
     */
    method Calculate(now: real, nowMinute: int, dbConnected: bool, latest: IndexData.LatestFetch,
                     dirFetch: SectorDirectory.DirectoryFetch, attempts: seq<Attempt>, loaded: Snapshot)
      returns (r: seq<SectorResult>)
      requires Valid() && Priced(loaded)
      modifies this, directory
      ensures Valid() && indicesInitialized
      ensures TickOutcome(r, currentIndices, prevMarketCapData)
        == Tick(old(currentIndices), old(indicesInitialized), old(prevMarketCapData),
                SectorDirectory.Served(old(directory.cache), old(directory.cachedAt), now, dirFetch, directory.seedsBaseIndex),
                nowMinute, dbConnected, latest, FirstSuccess(attempts, nowMinute, 0), loaded)
    {
      ghost var served := SectorDirectory.Served(directory.cache, directory.cachedAt, now, dirFetch, directory.seedsBaseIndex);
      if !indicesInitialized {
        InitializeIndices(now, latest, dirFetch);
      }
      if !dbConnected {
        return [];
      }
      var fetched := GetMarketCapDataReal(nowMinute, attempts);
      if prevMarketCapData.None? {
        prevMarketCapData := Some(loaded);
      }
      if |prevMarketCapData.value| == 0 {
        return [];
      }
      var merged := MergeSnapshots(fetched, nowMinute);
      var sectors := directory.Get(now, dirFetch);
      assert sectors == served;
      r := RunSectors(sectors, merged, nowMinute);
      PassKeepsPriced(PassState(MergedState(fetched, old(prevMarketCapData).GetOr(loaded), nowMinute).baseline,
                                Seeded(old(currentIndices), old(indicesInitialized), latest, served), []),
                      sectors, merged, nowMinute);
      PassAppendsChained(PassState(MergedState(fetched, old(prevMarketCapData).GetOr(loaded), nowMinute).baseline,
                                   Seeded(old(currentIndices), old(indicesInitialized), latest, served), []),
                         sectors, merged, nowMinute);
    }
  }

  // ---------------------------------------------------------------------------
  // Properties
  // ---------------------------------------------------------------------------

  /** The real-time constituents are baseline and current companies with positive caps in both. */
  lemma Constituents(symbols: seq<string>, cur: Snapshot, base: Snapshot)
    ensures var q := RealtimeQualifying(symbols, cur, base);
      AllPositive(q, cur) && AllPositive(q, base) && forall k :: 0 <= k < |q| ==> q[k] in cur && q[k] in base
  {
    RealtimeQualifyingMembers(symbols, cur, base);
    var q := RealtimeQualifying(symbols, cur, base);
    assert forall k :: 0 <= k < |q| ==> q[k] in q;
  }

  /** The refresh writes the constituents' current entries, stamped, and leaves every other baseline entry alone. */
  lemma {:induction false} RefreshValues(base: Snapshot, q: seq<string>, m: Snapshot, now: int)
    requires forall k :: 0 <= k < |q| ==> q[k] in m
    ensures forall c :: c in Refresh(base, q, m, now) <==> c in base || c in q
    ensures forall c :: c in q ==> Refresh(base, q, m, now)[c] == m[c].(timestamp := now)
    ensures forall c :: c in base && c !in q ==> Refresh(base, q, m, now)[c] == base[c]
  {
    if |q| > 0 {
      var init := q[..|q| - 1];
      RefreshValues(base, init, m, now);
      assert q == init + [q[|q| - 1]];
    }
  }

  /** A sector is skipped, leaving indices, baseline and results unchanged, exactly when none of its symbols qualifies. */
  lemma StepSkipsExactlyWithoutConstituents(st: PassState, s: SectorDirectory.Sector, m: Snapshot, now: int)
    ensures SectorStep(st, s, m, now) == st <==> RealtimeQualifying(s.symbols, m, st.baseline) == []
    ensures |SectorStep(st, s, m, now).results| == |st.results| + (if RealtimeQualifying(s.symbols, m, st.baseline) == [] then 0 else 1)
  {
    var q := RealtimeQualifying(s.symbols, m, st.baseline);
    if |q| > 0 {
      Constituents(s.symbols, m, st.baseline);
      PositiveTotal(q, m);
    }
  }

  /**
   * A sector with constituents moves its index by their free-float-weighted mean return,
   * `current = previous * (1 + return)`, starting from 100.0 when it has no index yet; the
   * result is appended and no other sector's index changes.
   */
  lemma StepChains(st: PassState, s: SectorDirectory.Sector, m: Snapshot, now: int)
    requires RealtimeQualifying(s.symbols, m, st.baseline) != []
    ensures PositiveFfTotal(RealtimeQualifying(s.symbols, m, st.baseline), m) > 0.0
    ensures AllPositive(RealtimeQualifying(s.symbols, m, st.baseline), st.baseline)
    ensures var q := RealtimeQualifying(s.symbols, m, st.baseline);
      var total := PositiveFfTotal(q, m);
      var ret := WeightedMeanReturn(q, m, st.baseline, total);
      var prev := IndexOr(st.indices, s.code);
      && SectorStep(st, s, m, now).results == st.results + [SectorResult(s.code, s.name, now, prev, prev * (1.0 + ret), ret, |q|)]
      && SectorStep(st, s, m, now).indices == st.indices[s.code := prev * (1.0 + ret)]
  {
    var q := RealtimeQualifying(s.symbols, m, st.baseline);
    Constituents(s.symbols, m, st.baseline);
    PositiveTotal(q, m);
    RealtimeReturnIsWeightedMean(q, m, st.baseline, PositiveFfTotal(q, m));
  }

  /** The baseline keeps its key set; constituents take their merged entries, everything else stays. */
  lemma StepRefreshesConstituents(st: PassState, s: SectorDirectory.Sector, m: Snapshot, now: int)
    ensures forall c :: c in RealtimeQualifying(s.symbols, m, st.baseline) ==> c in m && c in st.baseline
    ensures SectorStep(st, s, m, now).baseline.Keys == st.baseline.Keys
    ensures forall c :: c in RealtimeQualifying(s.symbols, m, st.baseline) ==> SectorStep(st, s, m, now).baseline[c] == m[c].(timestamp := now)
    ensures forall c :: c in st.baseline && c !in RealtimeQualifying(s.symbols, m, st.baseline) ==> SectorStep(st, s, m, now).baseline[c] == st.baseline[c]
  {
    var q := RealtimeQualifying(s.symbols, m, st.baseline);
    RealtimeQualifyingMembers(s.symbols, m, st.baseline);
    if |q| > 0 {
      Constituents(s.symbols, m, st.baseline);
      PositiveTotal(q, m);
      RefreshValues(st.baseline, q, m, now);
    }
  }

  /**
   * Because the refresh happens inside the sector loop, a later sector all of whose
   * constituents were an earlier sector's constituents sees them unchanged: its return is
   * zero and its index repeats.
   */
  lemma LaterSectorSeesRefreshedBaseline(st: PassState, s1: SectorDirectory.Sector, s2: SectorDirectory.Sector, m: Snapshot, now: int)
    requires forall c :: c in RealtimeQualifying(s2.symbols, m, SectorStep(st, s1, m, now).baseline) ==> c in RealtimeQualifying(s1.symbols, m, st.baseline)
    requires RealtimeQualifying(s2.symbols, m, SectorStep(st, s1, m, now).baseline) != []
    ensures |SectorStep(SectorStep(st, s1, m, now), s2, m, now).results| > 0
    ensures var st2 := SectorStep(SectorStep(st, s1, m, now), s2, m, now);
      st2.results[|st2.results| - 1].totalReturn == 0.0
      && st2.results[|st2.results| - 1].currentIndex == st2.results[|st2.results| - 1].previousIndex
  {
    var st1 := SectorStep(st, s1, m, now);
    var q1 := RealtimeQualifying(s1.symbols, m, st.baseline);
    var q2 := RealtimeQualifying(s2.symbols, m, st1.baseline);
    StepRefreshesConstituents(st, s1, m, now);
    Constituents(s2.symbols, m, st1.baseline);
    forall k | 0 <= k < |q2| ensures FfOf(m, q2[k]) == FfOf(st1.baseline, q2[k]) {
      assert q2[k] in q2;
    }
    RealtimeUnchangedGivesZero(q2, m, st1.baseline);
    StepChains(st1, s2, m, now);
    RealtimeReturnIsWeightedMean(q2, m, st1.baseline, PositiveFfTotal(q2, m));
  }

  /** The sector loop keeps the baseline's key set and its prices. */
  lemma {:induction false} PassKeepsPriced(st: PassState, sectors: seq<SectorDirectory.Sector>, m: Snapshot, now: int)
    requires Priced(st.baseline) && forall c :: c in st.baseline ==> c in m && m[c].ltp.Some?
    ensures SectorPass(st, sectors, m, now).baseline.Keys == st.baseline.Keys
    ensures Priced(SectorPass(st, sectors, m, now).baseline)
  {
    if |sectors| > 0 {
      var init := sectors[..|sectors| - 1];
      var s := sectors[|sectors| - 1];
      PassKeepsPriced(st, init, m, now);
      StepRefreshesConstituents(SectorPass(st, init, m, now), s, m, now);
    }
  }

  /** One sector appends at most one result, and that result is chain-linked. */
  lemma StepAppendsChained(st: PassState, s: SectorDirectory.Sector, m: Snapshot, now: int)
    ensures var r := SectorStep(st, s, m, now).results;
      |st.results| <= |r| <= |st.results| + 1 && r[..|st.results|] == st.results
      && forall k :: |st.results| <= k < |r| ==> Chained(r[k], now)
  {
    StepSkipsExactlyWithoutConstituents(st, s, m, now);
    if RealtimeQualifying(s.symbols, m, st.baseline) != [] {
      StepChains(st, s, m, now);
    }
  }

  /** The sector loop only appends, at most one result per sector, and every result it adds is chain-linked. */
  lemma {:induction false} PassAppendsChained(st: PassState, sectors: seq<SectorDirectory.Sector>, m: Snapshot, now: int)
    ensures var r := SectorPass(st, sectors, m, now).results;
      |st.results| <= |r| <= |st.results| + |sectors| && r[..|st.results|] == st.results
      && forall k :: |st.results| <= k < |r| ==> Chained(r[k], now)
  {
    if |sectors| > 0 {
      var init := sectors[..|sectors| - 1];
      PassAppendsChained(st, init, m, now);
      var mid := SectorPass(st, init, m, now);
      StepAppendsChained(mid, sectors[|sectors| - 1], m, now);
      var r := SectorPass(st, sectors, m, now).results;
      assert r[..|st.results|] == mid.results[..|st.results|] by {
        assert r[..|st.results|] == r[..|mid.results|][..|st.results|];
      }
      forall k | |st.results| <= k < |r| ensures Chained(r[k], now) {
        if k < |mid.results| {
          assert r[k] == r[..|mid.results|][k];
        }
      }
    }
  }

  /**
   * A tick that reaches the sector loop leaves a baseline with the same companies as the
   * one it merged against, and every stored result is chain-linked at the tick's minute.
   */
  lemma TickInvariants(indices: map<string, real>, initialized: bool, baseline: Option<Snapshot>,
                       directory: seq<SectorDirectory.Sector>, now: int, dbConnected: bool,
                       latest: IndexData.LatestFetch, fetched: Snapshot, loaded: Snapshot)
    requires baseline.Some? ==> Priced(baseline.value)
    requires Priced(loaded)
    ensures var t := Tick(indices, initialized, baseline, directory, now, dbConnected, latest, fetched, loaded);
      && |t.results| <= |directory|
      && (forall k :: 0 <= k < |t.results| ==> Chained(t.results[k], now))
      && (dbConnected ==> t.baseline.Some? && t.baseline.value.Keys == baseline.GetOr(loaded).Keys)
      && (!dbConnected || |baseline.GetOr(loaded)| == 0 ==> t.results == [])
  {
    if dbConnected {
      var base := baseline.GetOr(loaded);
      if |base| > 0 {
        var mg := MergedState(fetched, base, now);
        PassKeepsPriced(PassState(mg.baseline, Seeded(indices, initialized, latest, directory), []), directory, mg.current, now);
        PassAppendsChained(PassState(mg.baseline, Seeded(indices, initialized, latest, directory), []), directory, mg.current, now);
      }
    }
  }

  /** An empty fetch re-prices the baseline from its own prices: each company's return against it is zero (a corollary of `MergedState`). */
  lemma FallbackTickIsFlat(base: Snapshot, now: int, c: string)
    requires Priced(base) && c in base
    ensures var mg := MergedState(map[], base, now);
      FfOf(mg.current, c) == FfOf(mg.baseline, c)
  {
  }

  /** Two companies priced 5% above and 2% below their baseline caps move a fresh sector from 100.0 to about 101.30. */
  lemma TwoCompanyTick(base: Snapshot, cur: Snapshot, now: int)
    requires base == map["A" := McapEntry(Some(50.0), 0, 1000.0, 50000.0, 100.0, 50000.0),
                         "B" := McapEntry(Some(60.0), 0, 1000.0, 60000.0, 100.0, 60000.0)]
    requires cur == map["A" := McapEntry(Some(52.5), now, 0.0, 0.0, 0.0, 0.0),
                        "B" := McapEntry(Some(58.8), now, 0.0, 0.0, 0.0, 0.0)]
    ensures var mg := MergedState(cur, base, now);
      var st := SectorStep(PassState(mg.baseline, map[], []), SectorDirectory.Sector("S", "Sector", ["A", "B"], None), mg.current, now);
      st.results == [SectorResult("S", "Sector", now, 100.0, 100.0 * (1.0 + 1449.0 / 111300.0), 1449.0 / 111300.0, 2)]
  {
    var mg := MergedState(cur, base, now);
    var m := mg.current;
    assert m["A"].freeFloatMcap == 52500.0;
    assert m["B"].freeFloatMcap == 58800.0;
    assert RealtimeQualifies("A", m, base) && RealtimeQualifies("B", m, base);
    assert RealtimeQualifying(["A"], m, base) == ["A"] by {
      assert ["A"][..0] == [];
    }
    assert RealtimeQualifying(["A", "B"], m, base) == ["A", "B"] by {
      assert ["A", "B"][..1] == ["A"];
    }
    TwoCompanyExample(m, base);
  }
}
