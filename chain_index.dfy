/**
 * The chain-linking arithmetic shared by both calculators
 * (calculators/realtime_sector_calculator.py and calculators/historical_sector_calculator.py).
 *
 * A sector's index moves by the free-float-weighted average of its constituents'
 * free-float market-cap returns: `current = previous * (1 + return)`. The real-time copy
 * expresses weights as percentages, the historical copy as fractions.
 */
module ChainIndex {
  import opened Wrappers
  import opened MarketData

  const BaseIndex: real := 100.0

  /** One row of `company_returns`. */
  datatype CompanyReturn = CompanyReturn(company: string, priceReturn: real, weight: real, weightedReturn: real)

  /** One row of `sector_results`. */
  datatype SectorResult = SectorResult(
    sectorCode: string,
    sectorName: string,
    timestamp: int,
    previousIndex: real,
    currentIndex: real,
    totalReturn: real,
    numCompanies: nat)

  /** `current_indices.get(code, 100.0)`. */
  function IndexOr(indices: map<string, real>, code: string): (r: real)
    ensures code in indices ==> r == indices[code]
    ensures code !in indices ==> r == BaseIndex
  {
    if code in indices then indices[code] else BaseIndex
  }

  /** The free-float market cap of `c` in `s`; only used where `c` is a key. */
  function FfOf(s: Snapshot, c: string): real {
    if c in s then s[c].freeFloatMcap else 0.0
  }

  // ---------------------------------------------------------------------------
  // Qualifying constituents
  // ---------------------------------------------------------------------------

  /** Real-time rule: in both maps, with a positive free-float cap in both. */
  predicate RealtimeQualifies(c: string, cur: Snapshot, base: Snapshot) {
    c in cur && c in base && cur[c].freeFloatMcap > 0.0 && base[c].freeFloatMcap > 0.0
  }

  /** `sector_symbols_with_data` of the real-time copy: the symbols, in order, that qualify. */
  function RealtimeQualifying(symbols: seq<string>, cur: Snapshot, base: Snapshot): seq<string> {
    if |symbols| == 0 then []
    else
      var last := symbols[|symbols| - 1];
      RealtimeQualifying(symbols[..|symbols| - 1], cur, base) + (if RealtimeQualifies(last, cur, base) then [last] else [])
  }

  /** Historical rule: in both maps. */
  predicate HistoricalQualifies(c: string, cur: Snapshot, base: Snapshot) {
    c in cur && c in base
  }

  /** `sector_symbols_with_data` of the historical copy. */
  function HistoricalQualifying(symbols: seq<string>, cur: Snapshot, base: Snapshot): seq<string> {
    if |symbols| == 0 then []
    else
      var last := symbols[|symbols| - 1];
      HistoricalQualifying(symbols[..|symbols| - 1], cur, base) + (if HistoricalQualifies(last, cur, base) then [last] else [])
  }

  /** A symbol is a real-time constituent exactly when it is listed and qualifies. */
  lemma {:induction false} RealtimeQualifyingMembers(symbols: seq<string>, cur: Snapshot, base: Snapshot)
    ensures forall c :: c in RealtimeQualifying(symbols, cur, base) <==> c in symbols && RealtimeQualifies(c, cur, base)
  {
    if |symbols| > 0 {
      RealtimeQualifyingMembers(symbols[..|symbols| - 1], cur, base);
      assert symbols == symbols[..|symbols| - 1] + [symbols[|symbols| - 1]];
    }
  }

  /** A symbol is a historical constituent exactly when it is listed and in both maps. */
  lemma {:induction false} HistoricalQualifyingMembers(symbols: seq<string>, cur: Snapshot, base: Snapshot)
    ensures forall c :: c in HistoricalQualifying(symbols, cur, base) <==> c in symbols && HistoricalQualifies(c, cur, base)
  {
    if |symbols| > 0 {
      HistoricalQualifyingMembers(symbols[..|symbols| - 1], cur, base);
      assert symbols == symbols[..|symbols| - 1] + [symbols[|symbols| - 1]];
    }
  }

  // ---------------------------------------------------------------------------
  // Sector totals and returns
  // ---------------------------------------------------------------------------

  /** The sector total: the sum of the positive current free-float caps of `q`. */
  function PositiveFfTotal(q: seq<string>, cur: Snapshot): real {
    if |q| == 0 then 0.0
    else
      var ff := FfOf(cur, q[|q| - 1]);
      PositiveFfTotal(q[..|q| - 1], cur) + (if ff > 0.0 then ff else 0.0)
  }

  /** Every constituent has a positive current free-float cap. */
  predicate AllPositive(q: seq<string>, s: Snapshot) {
    forall k :: 0 <= k < |q| ==> FfOf(s, q[k]) > 0.0
  }

  /** A nonempty sector whose caps are all positive has a positive total. */
  lemma {:induction false} PositiveTotal(q: seq<string>, cur: Snapshot)
    requires |q| > 0 && AllPositive(q, cur)
    ensures PositiveFfTotal(q, cur) > 0.0
  {
    if |q| > 1 {
      PositiveTotal(q[..|q| - 1], cur);
    } else {
      assert PositiveFfTotal(q[..0], cur) == 0.0;
    }
  }

  /** The total never goes below zero; with no positive cap it is exactly zero. */
  lemma {:induction false} TotalNonNegative(q: seq<string>, cur: Snapshot)
    ensures PositiveFfTotal(q, cur) >= 0.0
    ensures (forall k :: 0 <= k < |q| ==> FfOf(cur, q[k]) <= 0.0) ==> PositiveFfTotal(q, cur) == 0.0
  {
    if |q| > 0 {
      TotalNonNegative(q[..|q| - 1], cur);
    }
  }

  /** The real-time company row: weight in percent, return, and `return * weight / 100`. */
  function RealtimeReturnOf(c: string, cur: Snapshot, base: Snapshot, total: real): CompanyReturn {
    var ffc := FfOf(cur, c);
    var ffp := FfOf(base, c);
    var weight := if total > 0.0 then (ffc / total) * 100.0 else 0.0;
    var priceReturn := if ffp > 0.0 then (ffc / ffp) - 1.0 else 0.0;
    CompanyReturn(c, priceReturn, weight, priceReturn * (weight / 100.0))
  }

  function RealtimeReturns(q: seq<string>, cur: Snapshot, base: Snapshot, total: real): seq<CompanyReturn> {
    seq(|q|, k requires 0 <= k < |q| => RealtimeReturnOf(q[k], cur, base, total))
  }

  /** The historical company row: fractional weight, return, and their product. */
  function HistoricalReturnOf(c: string, cur: Snapshot, base: Snapshot, total: real): CompanyReturn
    requires total != 0.0 && FfOf(base, c) != 0.0
  {
    var ffc := FfOf(cur, c);
    var weight := ffc / total;
    var priceReturn := (ffc / FfOf(base, c)) - 1.0;
    CompanyReturn(c, priceReturn, weight, priceReturn * weight)
  }

  function HistoricalReturns(q: seq<string>, cur: Snapshot, base: Snapshot, total: real): seq<CompanyReturn>
    requires total != 0.0 && AllPositive(q, base)
  {
    seq(|q|, k requires 0 <= k < |q| => HistoricalReturnOf(q[k], cur, base, total))
  }

  /** `company_returns_df['weight'].sum()`. */
  function SumWeights(rs: seq<CompanyReturn>): real {
    if |rs| == 0 then 0.0 else SumWeights(rs[..|rs| - 1]) + rs[|rs| - 1].weight
  }

  /** `company_returns_df['weighted_return'].sum()`: the sector return. */
  function SumWeighted(rs: seq<CompanyReturn>): real {
    if |rs| == 0 then 0.0 else SumWeighted(rs[..|rs| - 1]) + rs[|rs| - 1].weightedReturn
  }

  /**
   * Reference definition of a sector return: the free-float-weighted mean of the price
   * returns, sum over constituents of (ffc / total) * (ffc / ffp - 1).
   */
  function WeightedMeanReturn(q: seq<string>, cur: Snapshot, base: Snapshot, total: real): real
    requires total != 0.0 && AllPositive(q, base)
  {
    if |q| == 0 then 0.0
    else
      var c := q[|q| - 1];
      var init := q[..|q| - 1];
      assert FfOf(base, c) > 0.0;
      assert AllPositive(init, base) by {
        forall k | 0 <= k < |init| ensures FfOf(base, init[k]) > 0.0 { assert init[k] == q[k]; }
      }
      WeightedMeanReturn(init, cur, base, total) + (FfOf(cur, c) / total) * (FfOf(cur, c) / FfOf(base, c) - 1.0)
  }

  // Field identities on the reals, used one row at a time below.

  lemma AddPercent(a: real, b: real, t: real)
    requires t != 0.0
    ensures a / t * 100.0 + b / t * 100.0 == (a + b) / t * 100.0
  {
  }

  lemma AddFraction(a: real, b: real, t: real)
    requires t != 0.0
    ensures a / t + b / t == (a + b) / t
  {
  }

  lemma PercentRow(ffc: real, ffp: real, t: real)
    requires t > 0.0 && ffp > 0.0
    ensures (ffc / ffp - 1.0) * ((ffc / t * 100.0) / 100.0) == (ffc / t) * (ffc / ffp - 1.0)
  {
    assert (ffc / t * 100.0) / 100.0 == ffc / t;
  }

  /** Dropping the last constituent keeps the remaining caps positive. */
  lemma AllPositiveInit(q: seq<string>, s: Snapshot)
    requires |q| > 0 && AllPositive(q, s)
    ensures AllPositive(q[..|q| - 1], s) && FfOf(s, q[|q| - 1]) > 0.0
  {
    assert forall k :: 0 <= k < |q| - 1 ==> q[..|q| - 1][k] == q[k];
  }

  // ---------------------------------------------------------------------------
  // Real-time weights and returns
  // ---------------------------------------------------------------------------

  /** One real-time row: percent weight, and a weighted return equal to the reference term. */
  lemma RealtimeRow(c: string, cur: Snapshot, base: Snapshot, total: real)
    requires total > 0.0 && FfOf(base, c) > 0.0
    ensures RealtimeReturnOf(c, cur, base, total).weight == FfOf(cur, c) / total * 100.0
    ensures RealtimeReturnOf(c, cur, base, total).weightedReturn
      == (FfOf(cur, c) / total) * (FfOf(cur, c) / FfOf(base, c) - 1.0)
  {
    PercentRow(FfOf(cur, c), FfOf(base, c), total);
  }

  /** Prefix sums of the real-time weights: the constituents' share of `total`, in percent. */
  lemma {:induction false} RealtimeWeightSum(q: seq<string>, cur: Snapshot, base: Snapshot, total: real)
    requires total > 0.0 && AllPositive(q, cur) && AllPositive(q, base)
    ensures SumWeights(RealtimeReturns(q, cur, base, total)) == PositiveFfTotal(q, cur) / total * 100.0
  {
    if |q| > 0 {
      var init := q[..|q| - 1];
      var c := q[|q| - 1];
      AllPositiveInit(q, cur);
      AllPositiveInit(q, base);
      RealtimeWeightSum(init, cur, base, total);
      var rs := RealtimeReturns(q, cur, base, total);
      assert rs[..|rs| - 1] == RealtimeReturns(init, cur, base, total);
      assert rs[|rs| - 1] == RealtimeReturnOf(c, cur, base, total);
      RealtimeRow(c, cur, base, total);
      assert PositiveFfTotal(q, cur) == PositiveFfTotal(init, cur) + FfOf(cur, c);
      assert SumWeights(rs) == SumWeights(rs[..|rs| - 1]) + rs[|rs| - 1].weight;
      AddPercent(PositiveFfTotal(init, cur), FfOf(cur, c), total);
    }
  }

  /** The real-time rows add up to the weighted mean of the price returns. */
  lemma {:induction false} RealtimeReturnIsWeightedMean(q: seq<string>, cur: Snapshot, base: Snapshot, total: real)
    requires total > 0.0 && AllPositive(q, base)
    ensures SumWeighted(RealtimeReturns(q, cur, base, total)) == WeightedMeanReturn(q, cur, base, total)
  {
    if |q| > 0 {
      var init := q[..|q| - 1];
      var c := q[|q| - 1];
      AllPositiveInit(q, base);
      RealtimeReturnIsWeightedMean(init, cur, base, total);
      var rs := RealtimeReturns(q, cur, base, total);
      assert rs[..|rs| - 1] == RealtimeReturns(init, cur, base, total);
      assert rs[|rs| - 1] == RealtimeReturnOf(c, cur, base, total);
      RealtimeRow(c, cur, base, total);
    }
  }

  /** Real-time weights are percentages that add up to 100. */
  lemma RealtimeWeightsSumToHundred(q: seq<string>, cur: Snapshot, base: Snapshot)
    requires |q| > 0 && AllPositive(q, cur) && AllPositive(q, base)
    ensures SumWeights(RealtimeReturns(q, cur, base, PositiveFfTotal(q, cur))) == 100.0
  {
    PositiveTotal(q, cur);
    RealtimeWeightSum(q, cur, base, PositiveFfTotal(q, cur));
    assert PositiveFfTotal(q, cur) / PositiveFfTotal(q, cur) == 1.0;
  }

  /** Every real-time row carries the weight, price return and weighted return of its company. */
  lemma RealtimeRowsAreConsistent(q: seq<string>, cur: Snapshot, base: Snapshot)
    requires |q| > 0 && AllPositive(q, cur) && AllPositive(q, base)
    ensures PositiveFfTotal(q, cur) > 0.0
    ensures forall r :: r in RealtimeReturns(q, cur, base, PositiveFfTotal(q, cur)) ==>
      && r.company in q
      && r.weight == FfOf(cur, r.company) / PositiveFfTotal(q, cur) * 100.0
      && r.priceReturn == FfOf(cur, r.company) / FfOf(base, r.company) - 1.0
      && r.weightedReturn == r.priceReturn * (r.weight / 100.0)
  {
    PositiveTotal(q, cur);
    var rs := RealtimeReturns(q, cur, base, PositiveFfTotal(q, cur));
    forall r | r in rs
      ensures r.company in q && r.priceReturn == FfOf(cur, r.company) / FfOf(base, r.company) - 1.0
    {
      var k :| 0 <= k < |rs| && rs[k] == r;
      assert FfOf(base, q[k]) > 0.0;
    }
  }

  /** The reference return is zero when no constituent's cap moved. */
  lemma {:induction false} WeightedMeanUnchanged(q: seq<string>, cur: Snapshot, base: Snapshot, total: real)
    requires total != 0.0 && AllPositive(q, base)
    requires forall k :: 0 <= k < |q| ==> FfOf(cur, q[k]) == FfOf(base, q[k])
    ensures WeightedMeanReturn(q, cur, base, total) == 0.0
  {
    if |q| > 0 {
      var init := q[..|q| - 1];
      AllPositiveInit(q, base);
      forall k | 0 <= k < |init| ensures FfOf(cur, init[k]) == FfOf(base, init[k]) { assert init[k] == q[k]; }
      WeightedMeanUnchanged(init, cur, base, total);
      var c := q[|q| - 1];
      assert FfOf(cur, c) / FfOf(base, c) == 1.0;
    }
  }

  /** A real-time sector whose constituents' caps are all unchanged has a zero return. */
  lemma RealtimeUnchangedGivesZero(q: seq<string>, cur: Snapshot, base: Snapshot)
    requires |q| > 0 && AllPositive(q, base)
    requires forall k :: 0 <= k < |q| ==> FfOf(cur, q[k]) == FfOf(base, q[k])
    ensures SumWeighted(RealtimeReturns(q, cur, base, PositiveFfTotal(q, cur))) == 0.0
  {
    assert AllPositive(q, cur) by {
      forall k | 0 <= k < |q| ensures FfOf(cur, q[k]) > 0.0 { assert FfOf(cur, q[k]) == FfOf(base, q[k]); }
    }
    PositiveTotal(q, cur);
    RealtimeReturnIsWeightedMean(q, cur, base, PositiveFfTotal(q, cur));
    WeightedMeanUnchanged(q, cur, base, PositiveFfTotal(q, cur));
  }

  // ---------------------------------------------------------------------------
  // Historical weights and returns
  // ---------------------------------------------------------------------------

  /** Prefix sums of the historical weights: the constituents' share of `total`. */
  lemma {:induction false} HistoricalWeightSum(q: seq<string>, cur: Snapshot, base: Snapshot, total: real)
    requires total > 0.0 && AllPositive(q, cur) && AllPositive(q, base)
    ensures SumWeights(HistoricalReturns(q, cur, base, total)) == PositiveFfTotal(q, cur) / total
  {
    if |q| > 0 {
      var init := q[..|q| - 1];
      var c := q[|q| - 1];
      AllPositiveInit(q, cur);
      AllPositiveInit(q, base);
      HistoricalWeightSum(init, cur, base, total);
      var rs := HistoricalReturns(q, cur, base, total);
      assert rs[..|rs| - 1] == HistoricalReturns(init, cur, base, total);
      assert rs[|rs| - 1] == HistoricalReturnOf(c, cur, base, total);
      assert PositiveFfTotal(q, cur) == PositiveFfTotal(init, cur) + FfOf(cur, c);
      assert SumWeights(rs) == SumWeights(rs[..|rs| - 1]) + rs[|rs| - 1].weight;
      AddFraction(PositiveFfTotal(init, cur), FfOf(cur, c), total);
    }
  }

  /** The historical rows add up to the same weighted mean. */
  lemma {:induction false} HistoricalReturnIsWeightedMean(q: seq<string>, cur: Snapshot, base: Snapshot, total: real)
    requires total > 0.0 && AllPositive(q, base)
    ensures SumWeighted(HistoricalReturns(q, cur, base, total)) == WeightedMeanReturn(q, cur, base, total)
  {
    if |q| > 0 {
      var init := q[..|q| - 1];
      var c := q[|q| - 1];
      AllPositiveInit(q, base);
      HistoricalReturnIsWeightedMean(init, cur, base, total);
      var rs := HistoricalReturns(q, cur, base, total);
      assert rs[..|rs| - 1] == HistoricalReturns(init, cur, base, total);
      assert rs[|rs| - 1] == HistoricalReturnOf(c, cur, base, total);
    }
  }

  /** Historical weights are fractions that add up to 1. */
  lemma HistoricalWeightsSumToOne(q: seq<string>, cur: Snapshot, base: Snapshot)
    requires |q| > 0 && AllPositive(q, cur) && AllPositive(q, base)
    ensures PositiveFfTotal(q, cur) > 0.0
    ensures SumWeights(HistoricalReturns(q, cur, base, PositiveFfTotal(q, cur))) == 1.0
  {
    PositiveTotal(q, cur);
    var total := PositiveFfTotal(q, cur);
    HistoricalWeightSum(q, cur, base, total);
    assert SumWeights(HistoricalReturns(q, cur, base, total)) == total / total;
    DivSelf(total);
  }

  lemma DivSelf(x: real)
    requires x > 0.0
    ensures x / x == 1.0
  {
  }

  /** On the same constituents and maps, the two copies compute the same sector return. */
  lemma CopiesAgree(q: seq<string>, cur: Snapshot, base: Snapshot)
    requires |q| > 0 && AllPositive(q, cur) && AllPositive(q, base)
    ensures PositiveFfTotal(q, cur) > 0.0
    ensures SumWeighted(HistoricalReturns(q, cur, base, PositiveFfTotal(q, cur)))
      == SumWeighted(RealtimeReturns(q, cur, base, PositiveFfTotal(q, cur)))
  {
    PositiveTotal(q, cur);
    HistoricalReturnIsWeightedMean(q, cur, base, PositiveFfTotal(q, cur));
    RealtimeReturnIsWeightedMean(q, cur, base, PositiveFfTotal(q, cur));
  }

  /** A concrete two-company sector: caps 52500 and 58800 against 50000 and 60000. */
  lemma TwoCompanyExample(cur: Snapshot, base: Snapshot)
    requires "A" in cur && "B" in cur && "A" in base && "B" in base
    requires cur["A"].freeFloatMcap == 52500.0 && cur["B"].freeFloatMcap == 58800.0
    requires base["A"].freeFloatMcap == 50000.0 && base["B"].freeFloatMcap == 60000.0
    ensures PositiveFfTotal(["A", "B"], cur) == 111300.0
    ensures SumWeighted(RealtimeReturns(["A", "B"], cur, base, 111300.0)) == 1449.0 / 111300.0
  {
    var q := ["A", "B"];
    assert q[..1] == ["A"] && q[..1][..0] == [];
    assert PositiveFfTotal(q[..1], cur) == 52500.0;
    assert AllPositive(q, base);
    RealtimeReturnIsWeightedMean(q, cur, base, 111300.0);
    assert WeightedMeanReturn(q[..1], cur, base, 111300.0) == (52500.0 / 111300.0) * (52500.0 / 50000.0 - 1.0);
    assert (52500.0 / 111300.0) * (52500.0 / 50000.0 - 1.0) == 2625.0 / 111300.0;
    assert (58800.0 / 111300.0) * (58800.0 / 60000.0 - 1.0) == -1176.0 / 111300.0;
  }
}
