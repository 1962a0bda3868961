/**
 * The record types of database/models.py: `SectorInfo`, `MarketCapData` and `IndexResult`,
 * their validation, derived values and helpers, their dict round trips, and
 * `validate_model_data`.
 *
 * A dict read back by `from_dict` is a datatype with one field per key; `None` in a field
 * means the key is missing (for keys read with `data[key]` that raises `KeyError`).
 * Times are ints, numbers are reals; the messages keep their text but not the numbers
 * the source formats into them.
 */
module Models {
  import opened Wrappers
  import opened Lists

  const DefaultIndexValue: real := 100.0
  const DefaultCalculationMethod: string := "free_float_weighted"

  function Max0(x: real): (r: real)
    ensures r >= 0.0 && r >= x && (r == x || r == 0.0)
  {
    if x < 0.0 then 0.0 else x
  }

  // ---------------------------------------------------------------------------
  // SectorInfo
  // ---------------------------------------------------------------------------

  /** `SectorInfo.__post_init__`: the message of the first check that fails. */
  function SectorInfoError(code: string, name: string, lastIndexValue: real): (r: Option<string>)
    ensures r.None? <==> code != "" && name != "" && lastIndexValue >= 0.0
  {
    if code == "" then Some("Sector code cannot be empty")
    else if name == "" then Some("Sector name cannot be empty")
    else if lastIndexValue < 0.0 then Some("Index value cannot be negative")
    else None
  }

  /** A sector dict; a `None` field is a missing key. */
  datatype SectorDict = SectorDict(
    sectorCode: Option<string>, sectorName: Option<string>, isActive: Option<bool>, symbols: Option<seq<string>>,
    lastIndexValue: Option<real>, createdAt: Option<int>, updatedAt: Option<int>)

  class SectorInfo {
    var sectorCode: string
    var sectorName: string
    var isActive: bool
    var symbols: seq<string>
    var lastIndexValue: real
    var createdAt: Option<int>
    var updatedAt: Option<int>

    /** What `__post_init__` guarantees of every instance. */
    ghost predicate Valid()
      reads this
    {
      SectorInfoError(sectorCode, sectorName, lastIndexValue).None?
    }

    constructor (sectorCode: string, sectorName: string, isActive: bool, symbols: seq<string>,
                 lastIndexValue: real, createdAt: Option<int>, updatedAt: Option<int>)
      requires SectorInfoError(sectorCode, sectorName, lastIndexValue).None?
      ensures Valid()
      ensures this.sectorCode == sectorCode && this.sectorName == sectorName && this.isActive == isActive
      ensures this.symbols == symbols && this.lastIndexValue == lastIndexValue
      ensures this.createdAt == createdAt && this.updatedAt == updatedAt
    {
      this.sectorCode := sectorCode;
      this.sectorName := sectorName;
      this.isActive := isActive;
      this.symbols := symbols;
      this.lastIndexValue := lastIndexValue;
      this.createdAt := createdAt;
      this.updatedAt := updatedAt;
    }

    /** `add_symbol`: append a non-empty symbol that is not there yet. */
    method AddSymbol(symbol: string)
      modifies this
      ensures symbol != "" && symbol !in old(symbols) ==> symbols == old(symbols) + [symbol]
      ensures symbol == "" || symbol in old(symbols) ==> symbols == old(symbols)
      ensures symbol != "" ==> symbol in symbols
      ensures NoDuplicates(old(symbols)) ==> NoDuplicates(symbols)
      ensures SymbolCount() == old(SymbolCount()) + (if symbol != "" && symbol !in old(symbols) then 1 else 0)
      ensures sectorCode == old(sectorCode) && sectorName == old(sectorName) && isActive == old(isActive)
      ensures lastIndexValue == old(lastIndexValue) && createdAt == old(createdAt) && updatedAt == old(updatedAt)
    {
      if symbol != "" && symbol !in symbols {
        symbols := symbols + [symbol];
      }
    }

    /** `remove_symbol`: remove the first occurrence, if any. */
    method RemoveSymbol(symbol: string)
      modifies this
      ensures symbol in old(symbols) ==> symbols == RemoveFirst(old(symbols), symbol)
      ensures symbol !in old(symbols) ==> symbols == old(symbols)
      ensures NoDuplicates(old(symbols)) ==> symbol !in symbols && NoDuplicates(symbols)
      ensures SymbolCount() == old(SymbolCount()) - (if symbol in old(symbols) then 1 else 0)
      ensures sectorCode == old(sectorCode) && sectorName == old(sectorName) && isActive == old(isActive)
      ensures lastIndexValue == old(lastIndexValue) && createdAt == old(createdAt) && updatedAt == old(updatedAt)
    {
      if symbol in symbols {
        if NoDuplicates(symbols) {
          RemoveFirstKeepsUnique(symbols, symbol);
        }
        symbols := RemoveFirst(symbols, symbol);
      }
    }

    /** `get_symbol_count`. */
    function SymbolCount(): nat
      reads this
    {
      |symbols|
    }

    /** `to_dict`: every key present. */
    function ToDict(): (d: SectorDict)
      reads this
      // Every key that `from_dict` would otherwise default is written out.
      ensures d.sectorCode.Some? && d.sectorName.Some? && d.isActive.Some? && d.symbols.Some? && d.lastIndexValue.Some?
    {
      SectorDict(Some(sectorCode), Some(sectorName), Some(isActive), Some(symbols), Some(lastIndexValue), createdAt, updatedAt)
    }
  }

  /** `SectorInfo.from_dict`: missing keys take their defaults, then `__post_init__` validates. */
  method SectorInfoFromDict(d: SectorDict) returns (r: Result<SectorInfo>)
    ensures var err := SectorInfoError(d.sectorCode.GetOr(""), d.sectorName.GetOr(""), d.lastIndexValue.GetOr(DefaultIndexValue));
      && (r.Ok? <==> err.None?)
      && (r.Failure? ==> r.error == err.value)
    ensures r.Ok? ==>
      && fresh(r.value) && r.value.Valid()
      && r.value.sectorCode == d.sectorCode.GetOr("") && r.value.sectorName == d.sectorName.GetOr("")
      && r.value.isActive == d.isActive.GetOr(true) && r.value.symbols == d.symbols.GetOr([])
      && r.value.lastIndexValue == d.lastIndexValue.GetOr(DefaultIndexValue)
      && r.value.createdAt == d.createdAt && r.value.updatedAt == d.updatedAt
  {
    var code := d.sectorCode.GetOr("");
    var name := d.sectorName.GetOr("");
    var last := d.lastIndexValue.GetOr(DefaultIndexValue);
    var err := SectorInfoError(code, name, last);
    if err.Some? {
      return Failure(err.value);
    }
    var s := new SectorInfo(code, name, d.isActive.GetOr(true), d.symbols.GetOr([]), last, d.createdAt, d.updatedAt);
    r := Ok(s);
  }

  /** `SectorInfo.from_dict(s.to_dict())` rebuilds `s` field by field. */
  method SectorInfoRoundTrip(s: SectorInfo) returns (t: Result<SectorInfo>)
    requires s.Valid()
    ensures t.Ok? && fresh(t.value)
    ensures t.value.sectorCode == s.sectorCode && t.value.sectorName == s.sectorName && t.value.isActive == s.isActive
    ensures t.value.symbols == s.symbols && t.value.lastIndexValue == s.lastIndexValue
    ensures t.value.createdAt == s.createdAt && t.value.updatedAt == s.updatedAt
  {
    t := SectorInfoFromDict(s.ToDict());
  }

  // ---------------------------------------------------------------------------
  // MarketCapData
  // ---------------------------------------------------------------------------

  /** `MarketCapData._validate_data`: the message of the first check that fails. */
  function MarketCapError(company: string, ltp: real, totalShares: int, marketCap: real): (r: Option<string>)
    ensures r.None? <==> company != "" && ltp > 0.0 && totalShares > 0 && marketCap > 0.0
  {
    if company == "" then Some("Company name cannot be empty")
    else if ltp <= 0.0 then Some("Invalid LTP for " + company)
    else if totalShares <= 0 then Some("Invalid total shares for " + company)
    else if marketCap <= 0.0 then Some("Invalid market cap for " + company)
    else None
  }

  /** `_calculate_derived_values`, percentage part: a zero percentage becomes `max(0, 100 - (sponsor + govt))`. */
  function DerivedPct(pct: real, sponsor: real, govt: real): real {
    if pct == 0.0 then Max0(100.0 - (sponsor + govt)) else pct
  }

  /** `_calculate_derived_values`, market-cap part: a zero free-float cap becomes `market_cap * pct / 100`. */
  function DerivedFfm(ffm: real, marketCap: real, pct: real): real {
    if ffm == 0.0 then marketCap * (pct / 100.0) else ffm
  }

  /**
   * Deriving twice changes nothing: once derived, the percentage and the free-float cap are
   * a fixed point. With a positive market cap, a derived cap is positive iff the percentage is.
   */
  lemma DerivationIsIdempotent(pct: real, ffm: real, marketCap: real, sponsor: real, govt: real)
    requires marketCap > 0.0
    ensures var p := DerivedPct(pct, sponsor, govt);
      var f := DerivedFfm(ffm, marketCap, p);
      && DerivedPct(p, sponsor, govt) == p
      && DerivedFfm(f, marketCap, DerivedPct(p, sponsor, govt)) == f
      && (ffm == 0.0 ==> (f > 0.0 <==> p > 0.0))
      && (pct == 0.0 && sponsor + govt >= 0.0 ==> 0.0 <= p <= 100.0)
  {
    var p := DerivedPct(pct, sponsor, govt);
    if pct == 0.0 && p == 0.0 {
      assert 100.0 - (sponsor + govt) <= 0.0;
    }
    if ffm == 0.0 {
      assert DerivedFfm(ffm, marketCap, p) == marketCap * (p / 100.0);
    }
  }

  /** A market-cap dict; a `None` field is a missing key (the first five are read with `data[key]`). */
  datatype MarketCapDict = MarketCapDict(
    company: Option<string>, timestamp: Option<int>, ltp: Option<real>, totalShares: Option<int>, marketCap: Option<real>,
    sponsorShares: Option<real>, govtShares: Option<real>, instituteShares: Option<real>, foreignShares: Option<real>,
    publicShares: Option<real>, freeFloatPct: Option<real>, freeFloatMcap: Option<real>,
    priceReturn: Option<real>, weight: Option<real>, weightedReturn: Option<real>)

  class MarketCapData {
    var company: string
    var timestamp: int
    var ltp: real
    var totalShares: int
    var marketCap: real
    var sponsorShares: real
    var govtShares: real
    var instituteShares: real
    var foreignShares: real
    var publicShares: real
    var freeFloatPct: real
    var freeFloatMcap: real
    var priceReturn: Option<real>
    var weight: Option<real>
    var weightedReturn: Option<real>

    /** What `__post_init__` guarantees: the record validates and its derived values are settled. */
    ghost predicate Valid()
      reads this
    {
      && MarketCapError(company, ltp, totalShares, marketCap).None?
      && DerivedPct(freeFloatPct, sponsorShares, govtShares) == freeFloatPct
      && DerivedFfm(freeFloatMcap, marketCap, freeFloatPct) == freeFloatMcap
    }

    constructor (company: string, timestamp: int, ltp: real, totalShares: int, marketCap: real,
                 sponsorShares: real, govtShares: real, instituteShares: real, foreignShares: real, publicShares: real,
                 freeFloatPct: real, freeFloatMcap: real,
                 priceReturn: Option<real>, weight: Option<real>, weightedReturn: Option<real>)
      requires MarketCapError(company, ltp, totalShares, marketCap).None?
      ensures Valid()
      ensures this.company == company && this.timestamp == timestamp && this.ltp == ltp
      ensures this.totalShares == totalShares && this.marketCap == marketCap
      ensures this.sponsorShares == sponsorShares && this.govtShares == govtShares && this.instituteShares == instituteShares
      ensures this.foreignShares == foreignShares && this.publicShares == publicShares
      ensures this.freeFloatPct == DerivedPct(freeFloatPct, sponsorShares, govtShares)
      ensures this.freeFloatMcap == DerivedFfm(freeFloatMcap, marketCap, this.freeFloatPct)
      ensures this.priceReturn == priceReturn && this.weight == weight && this.weightedReturn == weightedReturn
    {
      this.company := company;
      this.timestamp := timestamp;
      this.ltp := ltp;
      this.totalShares := totalShares;
      this.marketCap := marketCap;
      this.sponsorShares := sponsorShares;
      this.govtShares := govtShares;
      this.instituteShares := instituteShares;
      this.foreignShares := foreignShares;
      this.publicShares := publicShares;
      var pct := if freeFloatPct == 0.0 then Max0(100.0 - (sponsorShares + govtShares)) else freeFloatPct;
      this.freeFloatPct := pct;
      this.freeFloatMcap := if freeFloatMcap == 0.0 then marketCap * (pct / 100.0) else freeFloatMcap;
      this.priceReturn := priceReturn;
      this.weight := weight;
      this.weightedReturn := weightedReturn;
      DerivationIsIdempotent(freeFloatPct, freeFloatMcap, marketCap, sponsorShares, govtShares);
    }

    /** `calculate_return(previous)`: raises unless the previous free-float cap is positive. */
    method CalculateReturn(previous: MarketCapData) returns (r: Result<real>)
      modifies this
      ensures old(previous.freeFloatMcap) <= 0.0 ==> r.Failure? && priceReturn == old(priceReturn)
      ensures old(previous.freeFloatMcap) > 0.0 ==>
        r == Ok(old(freeFloatMcap) / old(previous.freeFloatMcap) - 1.0) && priceReturn == Some(r.value)
      ensures weight == old(weight) && weightedReturn == old(weightedReturn)
      ensures Valid() <==> old(Valid())
      ensures company == old(company) && ltp == old(ltp) && freeFloatMcap == old(freeFloatMcap) && freeFloatPct == old(freeFloatPct)
      ensures totalShares == old(totalShares) && marketCap == old(marketCap) && timestamp == old(timestamp)
    {
      if previous.freeFloatMcap <= 0.0 {
        return Failure("Invalid previous free float market cap for " + company);
      }
      var ret := (freeFloatMcap / previous.freeFloatMcap) - 1.0;
      priceReturn := Some(ret);
      r := Ok(ret);
    }

    /** `calculate_weight(total)`: raises unless the total is positive. */
    method CalculateWeight(totalSectorMcap: real) returns (r: Result<real>)
      modifies this
      ensures totalSectorMcap <= 0.0 ==> r.Failure? && weight == old(weight)
      ensures totalSectorMcap > 0.0 ==> r == Ok(freeFloatMcap / totalSectorMcap) && weight == Some(r.value)
      ensures priceReturn == old(priceReturn) && weightedReturn == old(weightedReturn)
      ensures Valid() <==> old(Valid())
      ensures company == old(company) && ltp == old(ltp) && freeFloatMcap == old(freeFloatMcap) && freeFloatPct == old(freeFloatPct)
      ensures totalShares == old(totalShares) && marketCap == old(marketCap) && timestamp == old(timestamp)
    {
      if totalSectorMcap <= 0.0 {
        return Failure("Total sector market cap must be positive");
      }
      weight := Some(freeFloatMcap / totalSectorMcap);
      r := Ok(weight.value);
    }

    /** `calculate_weighted_return`: raises until both the return and the weight are set. */
    method CalculateWeightedReturn() returns (r: Result<real>)
      modifies this
      ensures priceReturn.None? || weight.None? ==> r.Failure? && weightedReturn == old(weightedReturn)
      ensures priceReturn.Some? && weight.Some? ==>
        r.Ok? && r.value == priceReturn.value * weight.value && weightedReturn == Some(r.value)
      ensures priceReturn == old(priceReturn) && weight == old(weight)
      ensures Valid() <==> old(Valid())
      ensures company == old(company) && ltp == old(ltp) && freeFloatMcap == old(freeFloatMcap) && freeFloatPct == old(freeFloatPct)
      ensures totalShares == old(totalShares) && marketCap == old(marketCap) && timestamp == old(timestamp)
    {
      if priceReturn.None? || weight.None? {
        return Failure("Price return and weight must be calculated first");
      }
      weightedReturn := Some(priceReturn.value * weight.value);
      r := Ok(weightedReturn.value);
    }

    /** `is_valid_for_calculation`. */
    predicate IsValidForCalculation()
      reads this
    {
      ltp > 0.0 && totalShares > 0 && marketCap > 0.0 && freeFloatMcap > 0.0
    }

    /** `to_dict`: every key present. */
    function ToDict(): (d: MarketCapDict)
      reads this
      // The five keys `from_dict` reads with `data[key]` are all written out.
      ensures d.company.Some? && d.timestamp.Some? && d.ltp.Some? && d.totalShares.Some? && d.marketCap.Some?
    {
      MarketCapDict(Some(company), Some(timestamp), Some(ltp), Some(totalShares), Some(marketCap),
                    Some(sponsorShares), Some(govtShares), Some(instituteShares), Some(foreignShares), Some(publicShares),
                    Some(freeFloatPct), Some(freeFloatMcap), priceReturn, weight, weightedReturn)
    }
  }

  /** A record that passed validation is usable for index calculation iff its free-float cap is positive. */
  lemma ValidForCalculationIff(m: MarketCapData)
    requires m.Valid()
    ensures m.IsValidForCalculation() <==> m.freeFloatMcap > 0.0
  {
  }

  /** The three helpers in their order give the historical company row: `(ffc / ffp - 1) * (ffc / total)`. */
  method CompanyRow(current: MarketCapData, previous: MarketCapData, totalSectorMcap: real)
    returns (r: Result<real>)
    requires current != previous
    requires previous.freeFloatMcap > 0.0 && totalSectorMcap > 0.0
    modifies current
    ensures r.Ok? && r.value == (current.freeFloatMcap / previous.freeFloatMcap - 1.0) * (current.freeFloatMcap / totalSectorMcap)
    ensures current.weightedReturn == Some(r.value)
  {
    var pr := current.CalculateReturn(previous);
    assert current.priceReturn == Some(current.freeFloatMcap / previous.freeFloatMcap - 1.0);
    var w := current.CalculateWeight(totalSectorMcap);
    assert current.weight == Some(current.freeFloatMcap / totalSectorMcap);
    r := current.CalculateWeightedReturn();
  }

  /** `MarketCapData.from_dict`: required keys must be present, the rest default to 0 or `None`, then `__post_init__` runs. */
  method MarketCapDataFromDict(d: MarketCapDict) returns (r: Result<MarketCapData>)
    ensures (d.company.None? || d.timestamp.None? || d.ltp.None? || d.totalShares.None? || d.marketCap.None?) ==> r.Failure?
    ensures d.company.Some? && d.timestamp.Some? && d.ltp.Some? && d.totalShares.Some? && d.marketCap.Some? ==>
      var err := MarketCapError(d.company.value, d.ltp.value, d.totalShares.value, d.marketCap.value);
      && (r.Ok? <==> err.None?)
      && (r.Failure? ==> r.error == err.value)
    ensures r.Ok? ==>
      && fresh(r.value) && r.value.Valid()
      && r.value.company == d.company.value && r.value.timestamp == d.timestamp.value && r.value.ltp == d.ltp.value
      && r.value.totalShares == d.totalShares.value && r.value.marketCap == d.marketCap.value
      && r.value.sponsorShares == d.sponsorShares.GetOr(0.0) && r.value.govtShares == d.govtShares.GetOr(0.0)
      && r.value.instituteShares == d.instituteShares.GetOr(0.0) && r.value.foreignShares == d.foreignShares.GetOr(0.0)
      && r.value.publicShares == d.publicShares.GetOr(0.0)
      && r.value.freeFloatPct == DerivedPct(d.freeFloatPct.GetOr(0.0), d.sponsorShares.GetOr(0.0), d.govtShares.GetOr(0.0))
      && r.value.freeFloatMcap == DerivedFfm(d.freeFloatMcap.GetOr(0.0), d.marketCap.value, r.value.freeFloatPct)
      && r.value.priceReturn == d.priceReturn && r.value.weight == d.weight && r.value.weightedReturn == d.weightedReturn
  {
    if d.company.None? || d.timestamp.None? || d.ltp.None? || d.totalShares.None? || d.marketCap.None? {
      return Failure("KeyError");
    }
    var err := MarketCapError(d.company.value, d.ltp.value, d.totalShares.value, d.marketCap.value);
    if err.Some? {
      return Failure(err.value);
    }
    var m := new MarketCapData(d.company.value, d.timestamp.value, d.ltp.value, d.totalShares.value, d.marketCap.value,
                               d.sponsorShares.GetOr(0.0), d.govtShares.GetOr(0.0), d.instituteShares.GetOr(0.0),
                               d.foreignShares.GetOr(0.0), d.publicShares.GetOr(0.0),
                               d.freeFloatPct.GetOr(0.0), d.freeFloatMcap.GetOr(0.0),
                               d.priceReturn, d.weight, d.weightedReturn);
    r := Ok(m);
  }

  /** `MarketCapData.from_dict(m.to_dict())` rebuilds `m`: re-deriving settled values changes nothing. */
  method MarketCapRoundTrip(m: MarketCapData) returns (t: Result<MarketCapData>)
    requires m.Valid()
    ensures t.Ok? && fresh(t.value)
    ensures t.value.company == m.company && t.value.timestamp == m.timestamp && t.value.ltp == m.ltp
    ensures t.value.totalShares == m.totalShares && t.value.marketCap == m.marketCap
    ensures t.value.sponsorShares == m.sponsorShares && t.value.govtShares == m.govtShares
    ensures t.value.instituteShares == m.instituteShares && t.value.foreignShares == m.foreignShares
    ensures t.value.publicShares == m.publicShares
    ensures t.value.freeFloatPct == m.freeFloatPct && t.value.freeFloatMcap == m.freeFloatMcap
    ensures t.value.priceReturn == m.priceReturn && t.value.weight == m.weight && t.value.weightedReturn == m.weightedReturn
  {
    t := MarketCapDataFromDict(m.ToDict());
  }

  // ---------------------------------------------------------------------------
  // IndexResult
  // ---------------------------------------------------------------------------

  datatype IndexResult = IndexResult(
    sectorCode: string, sectorName: string, timestamp: int,
    previousIndex: real, currentIndex: real, totalReturn: real, numCompanies: int,
    calculationMethod: string, baseIndex: real, periodReturnPct: Option<real>,
    volatility: Option<real>, maxWeight: Option<real>, minWeight: Option<real>, createdAt: Option<int>)
  {
    /** `get_index_change`. */
    function IndexChange(): (change: real)
      ensures change > 0.0 <==> currentIndex > previousIndex
      ensures change == 0.0 <==> currentIndex == previousIndex
    {
      currentIndex - previousIndex
    }

    /** `get_return_percentage`. */
    function ReturnPercentage(): (pct: real)
      ensures pct > 0.0 <==> IsPositiveReturn()
      ensures pct / 100.0 == totalReturn
    {
      totalReturn * 100.0
    }

    /** `is_positive_return`. */
    predicate IsPositiveReturn() {
      totalReturn > 0.0
    }

    /** `get_performance_category`. */
    function PerformanceCategory(): string {
      Category(totalReturn)
    }

    /** `compare_to_base`: (current vs base, previous vs base) in percent; a zero base raises. */
    function CompareToBase(): (r: Result<(real, real)>)
      ensures r.Ok? <==> baseIndex != 0.0
      ensures r.Ok? ==> (r.value.0 * baseIndex == (currentIndex - baseIndex) * 100.0
                         && r.value.1 * baseIndex == (previousIndex - baseIndex) * 100.0)
    {
      if baseIndex == 0.0 then Failure("ZeroDivisionError")
      else Ok(((currentIndex / baseIndex - 1.0) * 100.0, (previousIndex / baseIndex - 1.0) * 100.0))
    }
  }

  /** `IndexResult._validate_data`: the message of the first check that fails. */
  function IndexResultError(r: IndexResult): (e: Option<string>)
    ensures e.None? <==> r.sectorCode != "" && r.sectorName != "" && r.previousIndex > 0.0 && r.currentIndex > 0.0 && r.numCompanies > 0
  {
    if r.sectorCode == "" then Some("Sector code cannot be empty")
    else if r.sectorName == "" then Some("Sector name cannot be empty")
    else if r.previousIndex <= 0.0 then Some("Invalid previous index for " + r.sectorCode)
    else if r.currentIndex <= 0.0 then Some("Invalid current index for " + r.sectorCode)
    else if r.numCompanies <= 0 then Some("Invalid number of companies for " + r.sectorCode)
    else None
  }

  /** `IndexResult.__post_init__` at clock reading `now`: validate, fill in the period return and the creation time. */
  function PostInit(raw: IndexResult, now: int): (r: Result<IndexResult>)
    ensures r.Ok? <==> IndexResultError(raw).None?
    ensures r.Ok? ==>
      && r.value.periodReturnPct.Some? && r.value.createdAt.Some?
      && (raw.periodReturnPct.Some? ==> r.value.periodReturnPct == raw.periodReturnPct)
      && (raw.periodReturnPct.None? ==> r.value.periodReturnPct.value * raw.previousIndex == (raw.currentIndex - raw.previousIndex) * 100.0)
      && (raw.createdAt.Some? ==> r.value.createdAt == raw.createdAt)
      && (raw.createdAt.None? ==> r.value.createdAt == Some(now))
      && r.value.(periodReturnPct := raw.periodReturnPct, createdAt := raw.createdAt) == raw
  {
    var e := IndexResultError(raw);
    if e.Some? then Failure(e.value)
    else
      var pct := if raw.periodReturnPct.None? then Some(((raw.currentIndex / raw.previousIndex) - 1.0) * 100.0) else raw.periodReturnPct;
      var created := if raw.createdAt.None? then Some(now) else raw.createdAt;
      Ok(raw.(periodReturnPct := pct, createdAt := created))
  }

  /** The period return of a chain-linked result is its total return in percent. */
  lemma PeriodReturnOfChainedResult(raw: IndexResult, now: int)
    requires raw.periodReturnPct.None? && IndexResultError(raw).None?
    requires raw.currentIndex == raw.previousIndex * (1.0 + raw.totalReturn)
    ensures PostInit(raw, now).Ok?
    ensures PostInit(raw, now).value.periodReturnPct == Some(raw.totalReturn * 100.0)
    ensures PostInit(raw, now).value.IndexChange() == raw.previousIndex * raw.totalReturn
  {
    var r := PostInit(raw, now).value;
    assert r.periodReturnPct.value * raw.previousIndex == (raw.totalReturn * 100.0) * raw.previousIndex;
  }

  /** `get_performance_category` on a return. */
  function Category(totalReturn: real): string {
    if totalReturn > 0.02 then "Strong Positive"
    else if totalReturn > 0.0 then "Positive"
    else if totalReturn > -0.02 then "Negative"
    else "Strong Negative"
  }

  function CategoryRank(c: string): int {
    if c == "Strong Positive" then 3 else if c == "Positive" then 2 else if c == "Negative" then 1 else 0
  }

  /** The four categories split the returns at 2 %, 0 and -2 %, and a higher return never gets a lower category. */
  lemma CategoriesPartitionReturns(a: real, b: real)
    ensures Category(a) in {"Strong Positive", "Positive", "Negative", "Strong Negative"}
    ensures Category(a) == "Strong Positive" <==> a > 0.02
    ensures Category(a) == "Positive" <==> 0.0 < a <= 0.02
    ensures Category(a) == "Negative" <==> -0.02 < a <= 0.0
    ensures Category(a) == "Strong Negative" <==> a <= -0.02
    ensures a <= b ==> CategoryRank(Category(a)) <= CategoryRank(Category(b))
  {
  }

  /** An index-result dict; a `None` field is a missing key (the first seven are read with `data[key]`). */
  datatype IndexResultDict = IndexResultDict(
    sectorCode: Option<string>, sectorName: Option<string>, timestamp: Option<int>,
    previousIndex: Option<real>, currentIndex: Option<real>, totalReturn: Option<real>, numCompanies: Option<int>,
    calculationMethod: Option<string>, baseIndex: Option<real>, periodReturnPct: Option<real>,
    volatility: Option<real>, maxWeight: Option<real>, minWeight: Option<real>, createdAt: Option<int>)

  /** `IndexResult.to_dict`. */
  function IndexResultToDict(r: IndexResult): (d: IndexResultDict)
    // The seven keys `from_dict` reads with `data[key]` are all written out.
    ensures d.sectorCode.Some? && d.sectorName.Some? && d.timestamp.Some? && d.previousIndex.Some?
    ensures d.currentIndex.Some? && d.totalReturn.Some? && d.numCompanies.Some?
  {
    IndexResultDict(Some(r.sectorCode), Some(r.sectorName), Some(r.timestamp), Some(r.previousIndex), Some(r.currentIndex),
                    Some(r.totalReturn), Some(r.numCompanies), Some(r.calculationMethod), Some(r.baseIndex),
                    r.periodReturnPct, r.volatility, r.maxWeight, r.minWeight, r.createdAt)
  }

  /** `IndexResult.from_dict` at clock reading `now`. */
  function IndexResultFromDict(d: IndexResultDict, now: int): (r: Result<IndexResult>)
    ensures (d.sectorCode.None? || d.sectorName.None? || d.timestamp.None? || d.previousIndex.None?
             || d.currentIndex.None? || d.totalReturn.None? || d.numCompanies.None?) ==> r.Failure?
  {
    if d.sectorCode.None? || d.sectorName.None? || d.timestamp.None? || d.previousIndex.None?
       || d.currentIndex.None? || d.totalReturn.None? || d.numCompanies.None? then Failure("KeyError")
    else
      PostInit(IndexResult(d.sectorCode.value, d.sectorName.value, d.timestamp.value, d.previousIndex.value,
                           d.currentIndex.value, d.totalReturn.value, d.numCompanies.value,
                           d.calculationMethod.GetOr(DefaultCalculationMethod), d.baseIndex.GetOr(DefaultIndexValue),
                           d.periodReturnPct, d.volatility, d.maxWeight, d.minWeight, d.createdAt), now)
  }

  /** Any constructed result survives `from_dict(to_dict(r))` unchanged, whenever it is read back. */
  lemma IndexResultRoundTrip(raw: IndexResult, now: int, later: int)
    requires PostInit(raw, now).Ok?
    ensures IndexResultFromDict(IndexResultToDict(PostInit(raw, now).value), later) == PostInit(raw, now)
  {
    var r := PostInit(raw, now).value;
    assert IndexResultError(r) == IndexResultError(raw);
  }

  // ---------------------------------------------------------------------------
  // validate_model_data
  // ---------------------------------------------------------------------------

  /** An element of the list given to `validate_model_data`. */
  datatype Model = MarketCapModel(m: MarketCapData) | IndexModel(r: IndexResult) | SectorModel(s: SectorInfo) | OtherModel

  /** One entry of the returned list: "Model {index}: {message}". */
  datatype ValidationError = ValidationError(index: nat, message: string)

  ghost function Footprint(models: seq<Model>): set<object> {
    set i | 0 <= i < |models| && models[i].MarketCapModel? :: models[i].m
  }

  /**
   * What `_validate_data` raises for one element now. `SectorInfo` has no `_validate_data`
   * (it validates only in `__post_init__`), so it and objects of other types never fail.
   */
  function ModelError(model: Model): Option<string>
    reads if model.MarketCapModel? then {model.m} else {}
  {
    match model
    case MarketCapModel(m) => MarketCapError(m.company, m.ltp, m.totalShares, m.marketCap)
    case IndexModel(r) => IndexResultError(r)
    case SectorModel(_) => None
    case OtherModel => None
  }

  /** The errors of the first `n` elements, in order. */
  function ErrorsUpTo(models: seq<Model>, n: nat): seq<ValidationError>
    requires n <= |models|
    reads Footprint(models)
  {
    if n == 0 then []
    else
      var e := ModelError(models[n - 1]);
      ErrorsUpTo(models, n - 1) + (if e.Some? then [ValidationError(n - 1, e.value)] else [])
  }

  /** `validate_model_data`. */
  method ValidateModelData(models: seq<Model>) returns (errors: seq<ValidationError>)
    ensures errors == ErrorsUpTo(models, |models|)
  {
    errors := [];
    var i := 0;
    while i < |models|
      invariant 0 <= i <= |models|
      invariant errors == ErrorsUpTo(models, i)
    {
      var e := ModelError(models[i]);
      if e.Some? {
        errors := errors + [ValidationError(i, e.value)];
      }
      i := i + 1;
    }
  }

  /** Every entry names a failing element by its index and carries that element's message. */
  lemma {:induction false} ErrorsUpToSound(models: seq<Model>, n: nat)
    requires n <= |models|
    ensures forall k :: 0 <= k < |ErrorsUpTo(models, n)| ==>
      ErrorsUpTo(models, n)[k].index < n && ModelError(models[ErrorsUpTo(models, n)[k].index]) == Some(ErrorsUpTo(models, n)[k].message)
  {
    if n > 0 {
      ErrorsUpToSound(models, n - 1);
      var e := ModelError(models[n - 1]);
      assert ErrorsUpTo(models, n) == ErrorsUpTo(models, n - 1) + (if e.Some? then [ValidationError(n - 1, e.value)] else []);
    }
  }

  /** Some entry of `es` names element `i`. */
  predicate Reported(es: seq<ValidationError>, i: int) {
    exists k :: 0 <= k < |es| && es[k].index == i
  }

  /** Every failing element has an entry. */
  lemma {:induction false} ErrorsUpToComplete(models: seq<Model>, n: nat)
    requires n <= |models|
    ensures forall i :: 0 <= i < n && ModelError(models[i]).Some? ==> Reported(ErrorsUpTo(models, n), i)
  {
    if n > 0 {
      ErrorsUpToComplete(models, n - 1);
      var p := ErrorsUpTo(models, n - 1);
      var es := ErrorsUpTo(models, n);
      var e := ModelError(models[n - 1]);
      assert es == p + (if e.Some? then [ValidationError(n - 1, e.value)] else []);
      forall i | 0 <= i < n && ModelError(models[i]).Some? ensures Reported(es, i) {
        if i < n - 1 {
          var k :| 0 <= k < |p| && p[k].index == i;
          assert es[k] == p[k];
        } else {
          assert e.Some?;
          assert es[|p|] == ValidationError(n - 1, e.value);
        }
      }
    }
  }

  /** The entries come in increasing index order, so no element has two. */
  lemma {:induction false} ErrorsUpToOrdered(models: seq<Model>, n: nat)
    requires n <= |models|
    ensures forall k, l :: 0 <= k < l < |ErrorsUpTo(models, n)| ==> ErrorsUpTo(models, n)[k].index < ErrorsUpTo(models, n)[l].index
  {
    if n > 0 {
      ErrorsUpToOrdered(models, n - 1);
      ErrorsUpToSound(models, n - 1);
      var p := ErrorsUpTo(models, n - 1);
      var es := ErrorsUpTo(models, n);
      var e := ModelError(models[n - 1]);
      assert es == p + (if e.Some? then [ValidationError(n - 1, e.value)] else []);
      forall k, l | 0 <= k < l < |es| ensures es[k].index < es[l].index {
        assert es[k] == p[k];
        if l < |p| {
          assert es[l] == p[l];
        } else {
          assert p[k].index < n - 1;
        }
      }
    }
  }
}
