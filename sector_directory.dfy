/**
 * The sector directory and its time-to-live cache (utils/cache_processors.py, and the
 * copy inside calculators/realtime_sector_calculator.py).
 *
 * The directory maps each active sector code to its name and constituent symbols. It is
 * kept as a sequence in the order the codes first appear, because the calculators iterate
 * over it and that order is observable. The store's two result sets are inputs.
 */
module SectorDirectory {
  import opened Wrappers
  import opened Lists

  /** One directory entry; `lastIndexValue` is present only in the cache processor's copy. */
  datatype Sector = Sector(code: string, name: string, symbols: seq<string>, lastIndexValue: Option<real>)

  /** A row of the active-sector query (`sector_code`, `sector_name`). */
  datatype SectorRow = SectorRow(code: string, name: string)

  /** A row of the sector-symbol mapping (`sector_code`, `company`). */
  datatype SymbolRow = SymbolRow(code: string, company: string)

  /** What a reload saw: both result sets, or an exception. */
  datatype DirectoryFetch = Fetched(sectors: seq<SectorRow>, links: seq<SymbolRow>) | FetchFailed

  const SectorCacheTtl: real := 3600.0
  const BaseIndex: real := 100.0

  function Codes(directory: seq<Sector>): seq<string> {
    seq(|directory|, k requires 0 <= k < |directory| => directory[k].code)
  }

  /** pandas `unique()`: each value once, in order of first appearance. */
  function Unique(values: seq<string>): (r: seq<string>)
    ensures forall v :: v in r <==> v in values
    ensures NoDuplicates(r)
  {
    if |values| == 0 then []
    else
      var init := Unique(values[..|values| - 1]);
      var last := values[|values| - 1];
      assert forall v :: v in values <==> v in values[..|values| - 1] || v == last by {
        assert values == values[..|values| - 1] + [last];
      }
      if last in init then init else init + [last]
  }

  /** `unique()` lists the values in the order of their first appearance. */
  lemma {:induction false} UniqueKeepsFirstOrder(values: seq<string>)
    ensures forall i, j :: 0 <= i < j < |Unique(values)| ==>
      FirstIndex(values, Unique(values)[i]) < FirstIndex(values, Unique(values)[j])
  {
    if |values| > 0 {
      var init := values[..|values| - 1];
      var last := values[|values| - 1];
      assert values == init + [last];
      UniqueKeepsFirstOrder(init);
      var u := Unique(init);
      forall v | v in u ensures FirstIndex(values, v) == FirstIndex(init, v) {
        FirstIndexOfPrefix(init, [last], v);
      }
      if last !in init {
        FirstIndexOfAppended(init, last);
        assert Unique(values) == u + [last];
        forall i | 0 <= i < |u| ensures FirstIndex(values, u[i]) < FirstIndex(values, last) {
          assert u[i] in u;
        }
      }
    }
  }

  function RowCodes(rows: seq<SectorRow>): seq<string> {
    seq(|rows|, k requires 0 <= k < |rows| => rows[k].code)
  }

  /** `sectors_df[sectors_df['sector_code'] == code]['sector_name'].iloc[0]`. */
  function FirstName(rows: seq<SectorRow>, code: string): string
    requires code in RowCodes(rows)
  {
    if rows[0].code == code then rows[0].name
    else
      assert RowCodes(rows) == [rows[0].code] + RowCodes(rows[1..]);
      FirstName(rows[1..], code)
  }

  /** The companies mapped to `code`, in row order (`.tolist()`). */
  function SymbolsOf(links: seq<SymbolRow>, code: string): seq<string> {
    if |links| == 0 then []
    else
      var last := links[|links| - 1];
      SymbolsOf(links[..|links| - 1], code) + (if last.code == code then [last.company] else [])
  }

  function SectorOf(rows: seq<SectorRow>, links: seq<SymbolRow>, code: string, seedsBaseIndex: bool): Sector
    requires code in RowCodes(rows)
  {
    Sector(code, FirstName(rows, code), SymbolsOf(links, code), if seedsBaseIndex then Some(BaseIndex) else None)
  }

  /** The directory a successful reload builds. */
  function DirectoryOf(rows: seq<SectorRow>, links: seq<SymbolRow>, seedsBaseIndex: bool): seq<Sector> {
    var codes := Unique(RowCodes(rows));
    seq(|codes|, k requires 0 <= k < |codes| => SectorOf(rows, links, codes[k], seedsBaseIndex))
  }

  /** The reload loop: one entry per distinct active code. */
  method BuildDirectory(rows: seq<SectorRow>, links: seq<SymbolRow>, seedsBaseIndex: bool) returns (data: seq<Sector>)
    ensures data == DirectoryOf(rows, links, seedsBaseIndex)
  {
    var codes := Unique(RowCodes(rows));
    data := [];
    var i := 0;
    while i < |codes|
      invariant 0 <= i <= |codes|
      invariant data == seq(i, k requires 0 <= k < i => SectorOf(rows, links, codes[k], seedsBaseIndex))
    {
      var code := codes[i];
      var name := FirstName(rows, code);
      var symbols := SymbolsOf(links, code);
      data := data + [Sector(code, name, symbols, if seedsBaseIndex then Some(BaseIndex) else None)];
      i := i + 1;
    }
  }

  /** The first row carrying `code` gives the name. */
  lemma {:induction false} FirstNameIsFirst(rows: seq<SectorRow>, code: string)
    requires code in RowCodes(rows)
    ensures exists k :: (0 <= k < |rows| && rows[k].code == code && rows[k].name == FirstName(rows, code)
      && forall j :: 0 <= j < k ==> rows[j].code != code)
  {
    if rows[0].code != code {
      assert RowCodes(rows) == [rows[0].code] + RowCodes(rows[1..]);
      FirstNameIsFirst(rows[1..], code);
      var k :| 0 <= k < |rows[1..]| && rows[1..][k].code == code && rows[1..][k].name == FirstName(rows[1..], code)
        && forall j :: 0 <= j < k ==> rows[1..][j].code != code;
      assert rows[k + 1] == rows[1..][k];
      forall j | 0 <= j < k + 1 ensures rows[j].code != code {
        if j > 0 { assert rows[j] == rows[1..][j - 1]; }
      }
    }
  }

  /** Symbols are exactly the companies of the mapping rows for the code. */
  lemma {:induction false} SymbolsOfIsFilter(links: seq<SymbolRow>, code: string)
    ensures forall s :: s in SymbolsOf(links, code) <==> SymbolRow(code, s) in links
  {
    if |links| > 0 {
      var init := links[..|links| - 1];
      SymbolsOfIsFilter(init, code);
      assert links == init + [links[|links| - 1]];
    }
  }

  /** A reload yields each distinct active code once, named by its first row, with its symbols. */
  lemma DirectoryOfIsCorrect(rows: seq<SectorRow>, links: seq<SymbolRow>, seedsBaseIndex: bool)
    ensures NoDuplicates(Codes(DirectoryOf(rows, links, seedsBaseIndex)))
    ensures forall c :: c in Codes(DirectoryOf(rows, links, seedsBaseIndex)) <==> exists k :: 0 <= k < |rows| && rows[k].code == c
    // Codes come in the order of their first row, which fixes the order the calculators visit sectors in.
    ensures forall i, j :: 0 <= i < j < |DirectoryOf(rows, links, seedsBaseIndex)| ==>
      FirstIndex(RowCodes(rows), DirectoryOf(rows, links, seedsBaseIndex)[i].code)
        < FirstIndex(RowCodes(rows), DirectoryOf(rows, links, seedsBaseIndex)[j].code)
    ensures forall s :: s in DirectoryOf(rows, links, seedsBaseIndex) ==>
      && s.symbols == SymbolsOf(links, s.code)
      && (exists k :: 0 <= k < |rows| && rows[k] == SectorRow(s.code, s.name) && forall j :: 0 <= j < k ==> rows[j].code != s.code)
      && s.lastIndexValue == (if seedsBaseIndex then Some(BaseIndex) else None)
  {
    var d := DirectoryOf(rows, links, seedsBaseIndex);
    var codes := Unique(RowCodes(rows));
    assert Codes(d) == codes;
    UniqueKeepsFirstOrder(RowCodes(rows));
    forall c | exists k :: 0 <= k < |rows| && rows[k].code == c ensures c in codes {
      var k :| 0 <= k < |rows| && rows[k].code == c;
      assert RowCodes(rows)[k] == c;
    }
    forall c | c in codes ensures exists k :: 0 <= k < |rows| && rows[k].code == c {
      assert c in RowCodes(rows);
      var k :| 0 <= k < |rows| && RowCodes(rows)[k] == c;
    }
    forall s | s in d
      ensures exists k :: 0 <= k < |rows| && rows[k] == SectorRow(s.code, s.name) && forall j :: 0 <= j < k ==> rows[j].code != s.code
    {
      var i :| 0 <= i < |d| && d[i] == s;
      FirstNameIsFirst(rows, codes[i]);
    }
  }

  /** A cache hit: the directory and its load time are set and younger than the time-to-live. */
  predicate FreshAt(cache: Option<seq<Sector>>, cachedAt: Option<real>, now: real) {
    cache.Some? && cachedAt.Some? && now - cachedAt.value < SectorCacheTtl
  }

  /** What a call to `sector_cache()` at `now` returns, given the cache it finds and the store's answer. */
  function Served(cache: Option<seq<Sector>>, cachedAt: Option<real>, now: real, fetch: DirectoryFetch, seedsBaseIndex: bool): seq<Sector> {
    if FreshAt(cache, cachedAt, now) then cache.value
    else if fetch.Fetched? then DirectoryOf(fetch.sectors, fetch.links, seedsBaseIndex)
    else cache.GetOr([])
  }

  /**
   * `sector_cache()`: the cached directory, its load time and the time-to-live of 3600 s.
   * `seedsBaseIndex` tells the cache processor's copy (which adds `last_index_value`)
   * from the real-time calculator's copy (which does not).
   */
  class SectorCache {
    var cache: Option<seq<Sector>>
    var cachedAt: Option<real>
    const seedsBaseIndex: bool

    constructor (seedsBaseIndex: bool)
      ensures cache == None && cachedAt == None && this.seedsBaseIndex == seedsBaseIndex
    {
      cache := None;
      cachedAt := None;
      this.seedsBaseIndex := seedsBaseIndex;
    }

    /** The cache is set, has a load time, and is younger than the time-to-live. */
    predicate IsFresh(now: real)
      reads this
    {
      FreshAt(cache, cachedAt, now)
    }

    method Get(now: real, fetch: DirectoryFetch) returns (r: seq<Sector>)
      modifies this
      ensures old(IsFresh(now)) ==> r == old(cache).value && cache == old(cache) && cachedAt == old(cachedAt)
      ensures !old(IsFresh(now)) && fetch.Fetched?
        ==> r == DirectoryOf(fetch.sectors, fetch.links, seedsBaseIndex) && cache == Some(r) && cachedAt == Some(now)
      ensures !old(IsFresh(now)) && fetch.FetchFailed?
        ==> r == old(cache).GetOr([]) && cache == old(cache) && cachedAt == old(cachedAt)
      ensures r == Served(old(cache), old(cachedAt), now, fetch, seedsBaseIndex)
      // What was returned is what the cache now holds, and a second call at the same instant returns it again.
      ensures r == cache.GetOr([])
      ensures Served(cache, cachedAt, now, fetch, seedsBaseIndex) == r
    {
      if IsFresh(now) {
        return cache.value;
      }
      if fetch.FetchFailed? {
        return if cache.Some? then cache.value else [];
      }
      var data := BuildDirectory(fetch.sectors, fetch.links, seedsBaseIndex);
      cache := Some(data);
      cachedAt := Some(now);
      r := data;
    }
  }

  /** A client: a reload followed, within the time-to-live, by a call that hits the cache and sees the same directory. */
  method ReloadThenHit(c: SectorCache, now: real, later: real, first: DirectoryFetch, second: DirectoryFetch)
    returns (r1: seq<Sector>, r2: seq<Sector>)
    requires !c.IsFresh(now) && first.Fetched?
    requires now <= later < now + SectorCacheTtl
    modifies c
    ensures r1 == r2 == DirectoryOf(first.sectors, first.links, c.seedsBaseIndex)
  {
    r1 := c.Get(now, first);
    r2 := c.Get(later, second);
  }
}
