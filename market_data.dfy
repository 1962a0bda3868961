/**
 * Market-cap snapshots and the snapshot builder (utils/mcap_data_processors.py).
 *
 * A snapshot maps a company symbol to its record: last traded price, share count,
 * free-float percentage and the two derived capitalisations. Price rows, share
 * information and stored-procedure results are inputs; the retry sleeps are left out.
 */
module MarketData {
  import opened Wrappers

  /** One company's record. `ltp` is `None` when the price is missing or NaN. */
  datatype McapEntry = McapEntry(
    ltp: Option<real>,
    timestamp: int,
    totalShares: real,
    marketCap: real,
    freeFloatPct: real,
    freeFloatMcap: real)

  type Snapshot = map<string, McapEntry>

  /** A record of the list ("hist") form, which keeps the company beside its entry. */
  datatype McapRecord = McapRecord(company: string, entry: McapEntry)

  /** A raw price row of the market-data procedures (`company`, `LTP`). */
  datatype PriceRow = PriceRow(company: string, ltp: Option<real>)

  /** Share structure of one company: `total_share` and the derived `free_float_pct`. */
  datatype ShareInfo = ShareInfo(totalShare: Option<real>, freeFloatPct: Option<real>)

  const MaxQueryRetries: nat := 3

  /** A price that passes the "numeric and positive" test. */
  predicate ValidPrice(ltp: Option<real>) {
    ltp.Some? && ltp.value > 0.0
  }

  /** Every entry carries a price; the baselines the calculators keep have this shape. */
  ghost predicate Priced(s: Snapshot) {
    forall c :: c in s ==> s[c].ltp.Some?
  }

  /** `share_dict.get(company, {})`: an unknown company has neither field. */
  function ShareOf(shares: map<string, ShareInfo>, company: string): ShareInfo {
    if company in shares then shares[company] else ShareInfo(None, None)
  }

  /** The entry built from a price and a share structure, with both derived values. */
  function EntryOf(ltp: real, shares: real, pct: real, ts: int): (e: McapEntry)
    ensures e.ltp == Some(ltp) && e.totalShares == shares && e.freeFloatPct == pct
    ensures e.marketCap == ltp * shares
    ensures e.freeFloatMcap == e.marketCap * pct / 100.0
    ensures e.timestamp == ts
  {
    var mcap := ltp * shares;
    McapEntry(Some(ltp), ts, shares, mcap, pct, mcap * (pct / 100.0))
  }

  // ---------------------------------------------------------------------------
  // _process_market_cap_rows
  // ---------------------------------------------------------------------------

  /** A row survives the price and share-count filters. */
  predicate KeepsRow(row: PriceRow, shares: map<string, ShareInfo>) {
    ValidPrice(row.ltp) && ValidPrice(ShareOf(shares, row.company).totalShare)
  }

  /** A kept row whose share structure has no free-float percentage: the division raises. */
  predicate RaisesOn(row: PriceRow, shares: map<string, ShareInfo>) {
    KeepsRow(row, shares) && ShareOf(shares, row.company).freeFloatPct.None?
  }

  ghost predicate Raises(rows: seq<PriceRow>, shares: map<string, ShareInfo>) {
    exists k :: 0 <= k < |rows| && RaisesOn(rows[k], shares)
  }

  function RecordOf(row: PriceRow, shares: map<string, ShareInfo>, ts: int): McapRecord
    requires KeepsRow(row, shares) && !RaisesOn(row, shares)
  {
    var info := ShareOf(shares, row.company);
    McapRecord(row.company, EntryOf(row.ltp.value, info.totalShare.value, info.freeFloatPct.value, ts))
  }

  /** The records of the kept rows, in row order (the list form). */
  function Kept(rows: seq<PriceRow>, shares: map<string, ShareInfo>, ts: int): seq<McapRecord>
    requires !Raises(rows, shares)
  {
    if |rows| == 0 then []
    else
      var last := rows[|rows| - 1];
      assert !RaisesOn(last, shares) by { assert rows[|rows| - 1] == last; }
      var init := rows[..|rows| - 1];
      assert !Raises(init, shares) by {
        forall k | 0 <= k < |init| ensures !RaisesOn(init[k], shares) { assert init[k] == rows[k]; }
      }
      Kept(init, shares, ts) + (if KeepsRow(last, shares) then [RecordOf(last, shares, ts)] else [])
  }

  /** A list of records folded into a dict keyed by company: a later record overwrites. */
  function DictOf(records: seq<McapRecord>): Snapshot {
    if |records| == 0 then map[]
    else
      var last := records[|records| - 1];
      DictOf(records[..|records| - 1])[last.company := last.entry]
  }

  datatype Processed = AsDict(dict: Snapshot) | AsList(list: seq<McapRecord>)

  /**
   * `_process_market_cap_rows`: drops rows whose price or share count is non-numeric or
   * non-positive, derives both capitalisations, and accumulates a dict or a list.
   * `None` stands for the exception raised when a kept row has no free-float percentage.
   */
  method ProcessMarketCapRows(rows: seq<PriceRow>, shares: map<string, ShareInfo>, ts: int, returnDict: bool)
    returns (r: Option<Processed>)
    ensures r.None? <==> Raises(rows, shares)
    ensures r.Some? && returnDict ==> r.value == AsDict(DictOf(Kept(rows, shares, ts)))
    ensures r.Some? && !returnDict ==> r.value == AsList(Kept(rows, shares, ts))
  {
    var dict: Snapshot := map[];
    var list: seq<McapRecord> := [];
    var i := 0;
    while i < |rows|
      invariant 0 <= i <= |rows|
      invariant !Raises(rows[..i], shares)
      invariant list == Kept(rows[..i], shares, ts)
      invariant dict == DictOf(list)
    {
      var row := rows[i];
      assert rows[..i + 1][..i] == rows[..i];
      assert rows[..i + 1][i] == row;
      if !KeepsRow(row, shares) {
        i := i + 1;
        continue;
      }
      var info := ShareOf(shares, row.company);
      if info.freeFloatPct.None? {
        assert RaisesOn(rows[i], shares);
        return None;
      }
      var entry := EntryOf(row.ltp.value, info.totalShare.value, info.freeFloatPct.value, ts);
      dict := dict[row.company := entry];
      list := list + [McapRecord(row.company, entry)];
      i := i + 1;
    }
    assert rows[..|rows|] == rows;
    r := if returnDict then Some(AsDict(dict)) else Some(AsList(list));
  }

  /** Every kept record passed both filters and carries the derived values and the timestamp. */
  lemma {:induction false} KeptRecordsAreDerived(rows: seq<PriceRow>, shares: map<string, ShareInfo>, ts: int)
    requires !Raises(rows, shares)
    ensures forall r :: r in Kept(rows, shares, ts) ==>
      && (exists k :: 0 <= k < |rows| && rows[k].company == r.company && KeepsRow(rows[k], shares) && r == RecordOf(rows[k], shares, ts))
      && r.entry.timestamp == ts
      && r.entry.ltp.Some? && r.entry.ltp.value > 0.0 && r.entry.totalShares > 0.0
      && r.entry.marketCap == r.entry.ltp.value * r.entry.totalShares
      && r.entry.freeFloatMcap == r.entry.marketCap * r.entry.freeFloatPct / 100.0
  {
    if |rows| > 0 {
      var init := rows[..|rows| - 1];
      assert !Raises(init, shares) by {
        forall k | 0 <= k < |init| ensures !RaisesOn(init[k], shares) { assert init[k] == rows[k]; }
      }
      KeptRecordsAreDerived(init, shares, ts);
      forall r | r in Kept(rows, shares, ts)
        ensures exists k :: 0 <= k < |rows| && rows[k].company == r.company && KeepsRow(rows[k], shares) && r == RecordOf(rows[k], shares, ts)
      {
        if r in Kept(init, shares, ts) {
          var k :| 0 <= k < |init| && init[k].company == r.company && KeepsRow(init[k], shares) && r == RecordOf(init[k], shares, ts);
          assert rows[k] == init[k];
        } else {
          assert rows[|rows| - 1].company == r.company;
        }
      }
    }
  }

  /** Every kept row yields a record: nothing that passes the filters is lost. */
  lemma {:induction false} KeptRowsAppear(rows: seq<PriceRow>, shares: map<string, ShareInfo>, ts: int, k: nat)
    requires !Raises(rows, shares)
    requires k < |rows| && KeepsRow(rows[k], shares)
    ensures RecordOf(rows[k], shares, ts) in Kept(rows, shares, ts)
  {
    var init := rows[..|rows| - 1];
    assert !Raises(init, shares) by {
      forall j | 0 <= j < |init| ensures !RaisesOn(init[j], shares) { assert init[j] == rows[j]; }
    }
    if k < |rows| - 1 {
      assert init[k] == rows[k];
      KeptRowsAppear(init, shares, ts, k);
    }
  }

  /** The dict holds exactly the companies of the list. */
  lemma {:induction false} DictOfKeys(records: seq<McapRecord>)
    ensures forall c :: c in DictOf(records) <==> exists k :: 0 <= k < |records| && records[k].company == c
  {
    if |records| > 0 {
      var init := records[..|records| - 1];
      DictOfKeys(init);
      forall c | c in DictOf(records) ensures exists k :: 0 <= k < |records| && records[k].company == c {
        if c != records[|records| - 1].company {
          assert c in DictOf(init);
          var k :| 0 <= k < |init| && init[k].company == c;
          assert records[k] == init[k];
        }
      }
      forall c | exists k :: 0 <= k < |records| && records[k].company == c ensures c in DictOf(records) {
        var k :| 0 <= k < |records| && records[k].company == c;
        if k < |records| - 1 { assert init[k] == records[k]; }
      }
    }
  }

  /** Later records overwrite earlier ones: a company's value is its LAST record's entry. */
  lemma {:induction false} DictOfLastWins(records: seq<McapRecord>, k: nat)
    requires k < |records|
    requires forall j :: k < j < |records| ==> records[j].company != records[k].company
    ensures records[k].company in DictOf(records) && DictOf(records)[records[k].company] == records[k].entry
  {
    if k < |records| - 1 {
      var init := records[..|records| - 1];
      assert init[k] == records[k];
      forall j | k < j < |init| ensures init[j].company != init[k].company { assert init[j] == records[j]; }
      DictOfLastWins(init, k);
    }
  }

  // ---------------------------------------------------------------------------
  // get_market_cap_data, mode 'real': at most three attempts
  // ---------------------------------------------------------------------------

  /** What one attempt of the real-time fetch saw: a store error, an empty result, or rows. */
  datatype Attempt = QueryFailed | Rows(rows: seq<PriceRow>, shares: map<string, ShareInfo>)

  /** Attempts beyond the given ones are failures. */
  function AttemptAt(attempts: seq<Attempt>, k: nat): Attempt {
    if k < |attempts| then attempts[k] else QueryFailed
  }

  /** The data an attempt produces, or `None` when it is empty or raises. */
  ghost function AttemptData(a: Attempt, ts: int): Option<Snapshot> {
    if a.QueryFailed? || |a.rows| == 0 || Raises(a.rows, a.shares) then None
    else Some(DictOf(Kept(a.rows, a.shares, ts)))
  }

  /** The first of the attempts `k .. MaxQueryRetries-1` that produces data, else `{}`. */
  ghost function FirstSuccess(attempts: seq<Attempt>, ts: int, k: nat): Snapshot
    decreases MaxQueryRetries - k
  {
    if k >= MaxQueryRetries then map[]
    else match AttemptData(AttemptAt(attempts, k), ts)
      case Some(d) => d
      case None => FirstSuccess(attempts, ts, k + 1)
  }

  /** `get_market_cap_data(ts, mode='real')`. */
  method GetMarketCapDataReal(ts: int, attempts: seq<Attempt>) returns (data: Snapshot)
    ensures data == FirstSuccess(attempts, ts, 0)
  {
    var attempt := 0;
    while attempt < MaxQueryRetries
      invariant 0 <= attempt <= MaxQueryRetries
      invariant FirstSuccess(attempts, ts, 0) == FirstSuccess(attempts, ts, attempt)
    {
      var a := AttemptAt(attempts, attempt);
      if a.QueryFailed? || |a.rows| == 0 {
        if attempt == MaxQueryRetries - 1 { return map[]; }
        attempt := attempt + 1;
        continue;
      }
      var processed := ProcessMarketCapRows(a.rows, a.shares, ts, true);
      if processed.None? {
        if attempt == MaxQueryRetries - 1 { return map[]; }
        attempt := attempt + 1;
        continue;
      }
      return processed.value.dict;
    }
    data := map[];
  }

  /** When no attempt among the first three produces data, the result is `{}`; later attempts are never consulted. */
  lemma RealFetchGivesUpAfterThree(attempts: seq<Attempt>, ts: int)
    requires forall k :: 0 <= k < MaxQueryRetries ==> AttemptData(AttemptAt(attempts, k), ts).None?
    ensures FirstSuccess(attempts, ts, 0) == map[]
  {
    assert AttemptData(AttemptAt(attempts, 0), ts).None?;
    assert AttemptData(AttemptAt(attempts, 1), ts).None?;
    assert AttemptData(AttemptAt(attempts, 2), ts).None?;
  }

  /** The result is the data of the first attempt that produced any. */
  lemma RealFetchTakesFirstSuccess(attempts: seq<Attempt>, ts: int, k: nat)
    requires k < MaxQueryRetries && AttemptData(AttemptAt(attempts, k), ts).Some?
    requires forall j :: 0 <= j < k ==> AttemptData(AttemptAt(attempts, j), ts).None?
    ensures FirstSuccess(attempts, ts, 0) == AttemptData(AttemptAt(attempts, k), ts).value
  {
    if k >= 1 { assert AttemptData(AttemptAt(attempts, 0), ts).None?; }
    if k >= 2 { assert AttemptData(AttemptAt(attempts, 1), ts).None?; }
  }

  // ---------------------------------------------------------------------------
  // get_market_cap_data, mode 'hist': one fetch per consecutive timestamp pair
  // ---------------------------------------------------------------------------

  /** Rows fetched for interval `i`; an interval beyond the given ones fetched nothing. */
  function IntervalRows(fetched: seq<seq<PriceRow>>, i: nat): seq<PriceRow> {
    if i < |fetched| then fetched[i] else []
  }

  /** Some interval among `1 .. n-1` has a row whose processing raises. */
  ghost predicate AnyIntervalRaises(fetched: seq<seq<PriceRow>>, shares: map<string, ShareInfo>, n: nat) {
    exists i :: 1 <= i < n && Raises(IntervalRows(fetched, i), shares)
  }

  lemma NoRaiseExtends(fetched: seq<seq<PriceRow>>, shares: map<string, ShareInfo>, n: nat)
    requires !AnyIntervalRaises(fetched, shares, n)
    requires !Raises(IntervalRows(fetched, n), shares)
    ensures !AnyIntervalRaises(fetched, shares, n + 1)
  {
  }

  /** The records of intervals `1 .. n-1`, each tagged with its interval's current timestamp. */
  ghost function HistRecords(timestamps: seq<int>, fetched: seq<seq<PriceRow>>, shares: map<string, ShareInfo>, n: nat): seq<McapRecord>
    requires n <= |timestamps|
    requires !AnyIntervalRaises(fetched, shares, n)
  {
    if n <= 1 then []
    else
      assert !Raises(IntervalRows(fetched, n - 1), shares);
      HistRecords(timestamps, fetched, shares, n - 1) + Kept(IntervalRows(fetched, n - 1), shares, timestamps[n - 1])
  }

  /** `get_market_cap_data(timestamps, mode='hist')`; an exception anywhere gives the empty frame. */
  method GetMarketCapDataHist(timestamps: seq<int>, shares: map<string, ShareInfo>, fetched: seq<seq<PriceRow>>)
    returns (records: seq<McapRecord>)
    ensures |timestamps| < 2 || |shares| == 0 ==> records == []
    ensures |timestamps| >= 2 && |shares| > 0 && AnyIntervalRaises(fetched, shares, |timestamps|) ==> records == []
    ensures |timestamps| >= 2 && |shares| > 0 && !AnyIntervalRaises(fetched, shares, |timestamps|)
      ==> records == HistRecords(timestamps, fetched, shares, |timestamps|)
  {
    if |timestamps| < 2 { return []; }
    if |shares| == 0 { return []; }
    records := [];
    var i := 1;
    while i < |timestamps|
      invariant 1 <= i <= |timestamps|
      invariant !AnyIntervalRaises(fetched, shares, i)
      invariant records == HistRecords(timestamps, fetched, shares, i)
    {
      var rows := IntervalRows(fetched, i);
      if |rows| == 0 {
        assert !Raises(rows, shares);
        NoRaiseExtends(fetched, shares, i);
        i := i + 1;
        continue;
      }
      var processed := ProcessMarketCapRows(rows, shares, timestamps[i], false);
      if processed.None? {
        assert AnyIntervalRaises(fetched, shares, |timestamps|) by { assert Raises(IntervalRows(fetched, i), shares); }
        return [];
      }
      NoRaiseExtends(fetched, shares, i);
      records := records + processed.value.list;
      i := i + 1;
    }
  }

  /** Every record of the historical fetch carries the current timestamp of some interval. */
  lemma {:induction false} HistRecordsAreTagged(timestamps: seq<int>, fetched: seq<seq<PriceRow>>, shares: map<string, ShareInfo>, n: nat)
    requires n <= |timestamps|
    requires !AnyIntervalRaises(fetched, shares, n)
    ensures forall r :: r in HistRecords(timestamps, fetched, shares, n) ==>
      exists i :: 1 <= i < n && r.entry.timestamp == timestamps[i]
  {
    if n > 1 {
      assert !AnyIntervalRaises(fetched, shares, n - 1);
      HistRecordsAreTagged(timestamps, fetched, shares, n - 1);
      assert !Raises(IntervalRows(fetched, n - 1), shares);
      KeptRecordsAreDerived(IntervalRows(fetched, n - 1), shares, timestamps[n - 1]);
    }
  }

  // ---------------------------------------------------------------------------
  // get_previous_market_cap_data
  // ---------------------------------------------------------------------------

  /** A row of the previous-data procedures: columns `ltp` and `LTP`, and the row's timestamp. */
  datatype PrevRow = PrevRow(company: string, ltp: Option<real>, ltpUpper: Option<real>, timestamp: int)

  /** `row.get('ltp') or row.get('LTP')`: a missing or zero `ltp` falls through to `LTP`. */
  function EffectiveLtp(row: PrevRow): (r: Option<real>)
    ensures row.ltp.Some? && row.ltp.value != 0.0 ==> r == row.ltp
    ensures !(row.ltp.Some? && row.ltp.value != 0.0) ==> r == row.ltpUpper
  {
    if row.ltp.Some? && row.ltp.value != 0.0 then row.ltp else row.ltpUpper
  }

  /** `_is_valid_data`: a price, and a share structure with both fields present. */
  predicate IsValidData(ltp: Option<real>, info: Option<ShareInfo>) {
    ltp.Some? && info.Some? && info.value.totalShare.Some? && info.value.freeFloatPct.Some?
  }

  function LookupShare(shares: map<string, ShareInfo>, company: string): Option<ShareInfo> {
    if company in shares then Some(shares[company]) else None
  }

  /** The baseline built from previous-data rows: invalid rows are skipped, a later row overwrites. */
  ghost function PrevSnapshot(rows: seq<PrevRow>, shares: map<string, ShareInfo>): Snapshot {
    if |rows| == 0 then map[]
    else
      var row := rows[|rows| - 1];
      var ltp := EffectiveLtp(row);
      var info := LookupShare(shares, row.company);
      var init := PrevSnapshot(rows[..|rows| - 1], shares);
      if IsValidData(ltp, info)
      then init[row.company := EntryOf(ltp.value, info.value.totalShare.value, info.value.freeFloatPct.value, row.timestamp)]
      else init
  }

  /** The baseline holds exactly the companies of some valid previous-data row. */
  lemma {:induction false} PrevSnapshotKeys(rows: seq<PrevRow>, shares: map<string, ShareInfo>)
    ensures forall c :: c in PrevSnapshot(rows, shares) <==>
      exists k :: 0 <= k < |rows| && rows[k].company == c && IsValidData(EffectiveLtp(rows[k]), LookupShare(shares, c))
  {
    if |rows| > 0 {
      var init := rows[..|rows| - 1];
      var row := rows[|rows| - 1];
      PrevSnapshotKeys(init, shares);
      forall c | c in PrevSnapshot(rows, shares)
        ensures exists k :: 0 <= k < |rows| && rows[k].company == c && IsValidData(EffectiveLtp(rows[k]), LookupShare(shares, c))
      {
        if !(row.company == c && IsValidData(EffectiveLtp(row), LookupShare(shares, c))) {
          assert c in PrevSnapshot(init, shares);
          var k :| 0 <= k < |init| && init[k].company == c && IsValidData(EffectiveLtp(init[k]), LookupShare(shares, c));
          assert rows[k] == init[k];
        }
      }
      forall c | exists k :: 0 <= k < |rows| && rows[k].company == c && IsValidData(EffectiveLtp(rows[k]), LookupShare(shares, c))
        ensures c in PrevSnapshot(rows, shares)
      {
        var k :| 0 <= k < |rows| && rows[k].company == c && IsValidData(EffectiveLtp(rows[k]), LookupShare(shares, c));
        if k < |rows| - 1 { assert init[k] == rows[k]; }
      }
    }
  }

  /** `e` is the entry `_is_valid_data` lets through for share structure `info`, with both caps derived. */
  predicate DerivedFrom(e: McapEntry, info: ShareInfo) {
    && info.totalShare.Some? && info.freeFloatPct.Some? && e.ltp.Some?
    && e.totalShares == info.totalShare.value && e.freeFloatPct == info.freeFloatPct.value
    && e.marketCap == e.ltp.value * e.totalShares
    && e.freeFloatMcap == e.marketCap * e.freeFloatPct / 100.0
  }

  /**
   * Every baseline entry has a price and the company's share structure, with
   * `market_cap = ltp × total_shares` and `free_float_mcap = market_cap × pct / 100`.
   */
  lemma {:induction false} PrevSnapshotEntries(rows: seq<PrevRow>, shares: map<string, ShareInfo>)
    ensures Priced(PrevSnapshot(rows, shares))
    ensures forall c :: c in PrevSnapshot(rows, shares) ==> c in shares && DerivedFrom(PrevSnapshot(rows, shares)[c], shares[c])
  {
    if |rows| > 0 {
      var row := rows[|rows| - 1];
      var ltp := EffectiveLtp(row);
      var info := LookupShare(shares, row.company);
      PrevSnapshotEntries(rows[..|rows| - 1], shares);
      if IsValidData(ltp, info) {
        var e := EntryOf(ltp.value, info.value.totalShare.value, info.value.freeFloatPct.value, row.timestamp);
        assert DerivedFrom(e, shares[row.company]);
      }
    }
  }

  /** One attempt of the real-time previous-data procedure: an error, or the rows (maybe none). */
  datatype PrevAttempt = PrevQueryFailed | PrevRows(rows: seq<PrevRow>)

  function PrevAttemptAt(attempts: seq<PrevAttempt>, k: nat): PrevAttempt {
    if k < |attempts| then attempts[k] else PrevQueryFailed
  }

  /** The rows of the first non-empty attempt among `k .. MaxQueryRetries-1`, if any. */
  function FirstPrevRows(attempts: seq<PrevAttempt>, k: nat): Option<seq<PrevRow>>
    decreases MaxQueryRetries - k
  {
    if k >= MaxQueryRetries then None
    else
      var a := PrevAttemptAt(attempts, k);
      if a.PrevRows? && |a.rows| > 0 then Some(a.rows) else FirstPrevRows(attempts, k + 1)
  }

  /**
   * The processor object, with the previous-data cache `prev_market_cap_data` that
   * the real-time source type fills and reuses.
   */
  class MarketCapDataProcessor {
    var prevMarketCapData: Option<Snapshot>

    constructor ()
      ensures prevMarketCapData == None
    {
      prevMarketCapData := None;
    }

    /**
     * `get_previous_market_cap_data(source_type, start_date)`. `histRows` is the result of
     * the historical previous-data procedure; `attempts` are the real-time procedure's calls.
     */
    method GetPreviousMarketCapData(sourceType: int, startDate: Option<int>, shares: map<string, ShareInfo>,
                                    histRows: seq<PrevRow>, attempts: seq<PrevAttempt>)
      returns (r: Snapshot)
      modifies this
      ensures |shares| == 0 ==> r == map[] && prevMarketCapData == old(prevMarketCapData)
      ensures |shares| > 0 && sourceType == 0 ==> prevMarketCapData == old(prevMarketCapData)
      ensures |shares| > 0 && sourceType == 0 && (startDate.None? || |histRows| == 0) ==> r == map[]
      ensures |shares| > 0 && sourceType == 0 && startDate.Some? && |histRows| > 0 ==> r == PrevSnapshot(histRows, shares)
      ensures |shares| > 0 && sourceType == 1 && old(prevMarketCapData).Some?
        ==> r == old(prevMarketCapData).value && prevMarketCapData == old(prevMarketCapData)
      ensures |shares| > 0 && sourceType == 1 && old(prevMarketCapData).None? && FirstPrevRows(attempts, 0).None?
        ==> r == map[] && prevMarketCapData == None
      ensures |shares| > 0 && sourceType == 1 && old(prevMarketCapData).None? && FirstPrevRows(attempts, 0).Some?
        ==> r == PrevSnapshot(FirstPrevRows(attempts, 0).value, shares) && prevMarketCapData == Some(r)
      ensures |shares| > 0 && sourceType != 0 && sourceType != 1 ==> r == map[] && prevMarketCapData == old(prevMarketCapData)
    {
      if |shares| == 0 { return map[]; }
      var prevRows: seq<PrevRow>;
      if sourceType == 0 {
        if startDate.None? { return map[]; }
        prevRows := histRows;
        if |prevRows| == 0 { return map[]; }
      } else if sourceType == 1 {
        if prevMarketCapData.Some? { return prevMarketCapData.value; }
        var attempt := 0;
        var found := false;
        prevRows := [];
        while attempt < MaxQueryRetries
          invariant 0 <= attempt <= MaxQueryRetries
          invariant !found ==> FirstPrevRows(attempts, 0) == FirstPrevRows(attempts, attempt)
          invariant found ==> FirstPrevRows(attempts, 0) == Some(prevRows)
        {
          var a := PrevAttemptAt(attempts, attempt);
          if a.PrevRows? && |a.rows| > 0 {
            prevRows := a.rows;
            found := true;
            break;
          }
          attempt := attempt + 1;
        }
        if !found { return map[]; }
      } else {
        return map[];
      }
      var result: Snapshot := map[];
      var i := 0;
      while i < |prevRows|
        invariant 0 <= i <= |prevRows|
        invariant result == PrevSnapshot(prevRows[..i], shares)
      {
        var row := prevRows[i];
        assert prevRows[..i + 1][..i] == prevRows[..i];
        var ltp := EffectiveLtp(row);
        var info := LookupShare(shares, row.company);
        if IsValidData(ltp, info) {
          result := result[row.company := EntryOf(ltp.value, info.value.totalShare.value, info.value.freeFloatPct.value, row.timestamp)];
        }
        i := i + 1;
      }
      assert prevRows[..|prevRows|] == prevRows;
      if sourceType == 1 {
        prevMarketCapData := Some(result);
      }
      r := result;
    }
  }
}
