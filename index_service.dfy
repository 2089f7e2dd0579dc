/**
 * The index service over its four tables: `build_index` computes and
 * stores the compositions and levels of a date range, and the three readers
 * query what was stored. Each method is proved to agree with the function
 * of the tables that specifies it.
 */
module IndexService {
  import opened Wrappers
  import opened TextOrder
  import opened Upsert
  import opened Dates
  import opened IndexSpec
  import opened IndexRun
  import opened IndexBuild
  import opened IndexQueries
  import opened CompositionChanges

  /** Taking one more symbol into the overlap adds its return, when it has one, to the total and the count. */
  lemma ReturnsAdd(prices: PriceTable, seen: set<Symbol>, sym: Symbol, prevDate: string, currDate: string)
    requires sym !in seen
    ensures var before, after := Returns(prices, seen, prevDate, currDate), Returns(prices, seen + {sym}, prevDate, currDate);
      var ret := SymbolReturn(prices, sym, prevDate, currDate);
      && (ret.None? ==> after == before)
      && (ret.Some? ==> Total(after) == Total(before) + ret.value && |after| == |before| + 1)
  {
    var before, after := Returns(prices, seen, prevDate, currDate), Returns(prices, seen + {sym}, prevDate, currDate);
    var ret := SymbolReturn(prices, sym, prevDate, currDate);
    if ret.Some? {
      assert after == before[sym := ret.value];
      TotalPick(after, sym);
      assert after - {sym} == before;
    } else {
      assert after == before;
    }
  }

  /** The mean as the loop computes it: no returns give 0. */
  lemma MeanOfCount(rets: map<Symbol, real>)
    ensures Mean(rets) == if |rets| > 0 then Total(rets) / (|rets| as real) else 0.0
  {
    if |rets| == 0 {
      assert rets == map[];
    }
  }

  /** `Build` for bounds that normalise: the three outcomes over the trading dates of the range. */
  lemma BuildOnRange(caps: CapTable, prices: PriceTable, base: real, t: Tables, startArg: DateArg, endArg: DateArg,
                     lo: Option<string>, hi: Option<string>, ds: seq<string>)
    requires base != 0.0
    requires RangeBounds(startArg, endArg) == Ok((lo, hi)) && ds == TradingDates(caps, lo, hi)
    ensures !AllParse(ds) ==> Build(caps, prices, base, t, startArg, endArg) == (Err(InvalidIsoFormat), t)
    ensures AllParse(ds) && ds == [] ==> Build(caps, prices, base, t, startArg, endArg) == (Ok(NoTradingDays), t)
    ensures AllParse(ds) && ds != [] ==>
      lo.Some? && hi.Some? &&
      Build(caps, prices, base, t, startArg, endArg) == (Ok(Built(lo.value, hi.value, |ds|)), Store(t, Run(caps, prices, base, ds)))
  {
  }

  /** The change list over one more date: the entry of that date against the one before it, from the second date on. */
  lemma ChangesOverStep(table: CompositionTable, ds: seq<string>, i: nat)
    requires i < |ds|
    ensures ChangesOver(table, ds[..i + 1]) == ChangesOver(table, ds[..i])
      + if i == 0 then [] else Diff(ds[i], SymbolsAt(table, ds[i - 1]), SymbolsAt(table, ds[i]))
  {
    assert ds[..i + 1][..i] == ds[..i];
  }

  /** An entry of `get_composition_changes`: the sorted symbols that entered and exited, when there are any. */
  method DiffOf(date: string, before: set<Symbol>, after: set<Symbol>) returns (r: seq<Change>)
    ensures r == Diff(date, before, after)
  {
    var entered := SortText(after - before);
    var exited := SortText(before - after);
    r := if entered != [] || exited != [] then [Change(date, entered, exited)] else [];
  }

  /** The database tables the service reads and writes, and the configured base level. */
  class IndexStore {
    /** `daily_market_caps`, each date's rows ranked by market cap. */
    const marketCaps: CapTable
    /** `daily_prices.adj_close`. */
    const prices: PriceTable
    /** `index_compositions`. */
    var compositions: CompositionTable
    /** `index_performance`. */
    var performance: PerformanceTable
    /** `settings.index_base_level`, the level of the index before its first day. */
    const baseLevel: real

    /** A database holding market data and no index yet. */
    constructor (marketCaps: CapTable, prices: PriceTable, baseLevel: real)
      ensures this.marketCaps == marketCaps && this.prices == prices && this.baseLevel == baseLevel
      ensures compositions == map[] && performance == map[]
    {
      this.marketCaps := marketCaps;
      this.prices := prices;
      this.baseLevel := baseLevel;
      compositions := map[];
      performance := map[];
    }

    /** One pass of the overlap loop: the return of `sym`, when it has both prices, joins the sum and the count. */
    method AddReturn(ghost seen: set<Symbol>, sym: Symbol, sum: real, count: nat, prevDate: string, currDate: string)
      returns (sum': real, count': nat)
      requires sym !in seen
      requires sum == Total(Returns(prices, seen, prevDate, currDate))
      requires count == |Returns(prices, seen, prevDate, currDate)|
      ensures sum' == Total(Returns(prices, seen + {sym}, prevDate, currDate))
      ensures count' == |Returns(prices, seen + {sym}, prevDate, currDate)|
    {
      var ret := SymbolReturn(prices, sym, prevDate, currDate);
      ReturnsAdd(prices, seen, sym, prevDate, currDate);
      sum', count' := sum, count;
      if ret.Some? {
        sum', count' := sum + ret.value, count + 1;
      }
    }

    /**
     * The overlap loop of `build_index`: the sum and the number of the
     * returns, between the two dates, of the symbols of `common` that have
     * both prices.
     */
    method CollectReturns(common: set<Symbol>, prevDate: string, currDate: string) returns (sum: real, count: nat)
      ensures sum == Total(Returns(prices, common, prevDate, currDate))
      ensures count == |Returns(prices, common, prevDate, currDate)|
    {
      sum, count := 0.0, 0;
      var rest := common;
      while rest != {}
        invariant rest <= common
        invariant sum == Total(Returns(prices, common - rest, prevDate, currDate))
        invariant count == |Returns(prices, common - rest, prevDate, currDate)|
        decreases rest
      {
        var sym :| sym in rest;
        sum, count := AddReturn(common - rest, sym, sum, count, prevDate, currDate);
        assert common - (rest - {sym}) == (common - rest) + {sym};
        rest := rest - {sym};
      }
      assert common - rest == common;
    }

    /** `sum(returns) / len(returns) if returns else 0.0` over the symbols of `common`. */
    method CommonReturn(common: set<Symbol>, prevDate: string, currDate: string) returns (r: real)
      ensures r == Mean(Returns(prices, common, prevDate, currDate))
    {
      var sum, count := CollectReturns(common, prevDate, currDate);
      MeanOfCount(Returns(prices, common, prevDate, currDate));
      r := if count > 0 then sum / (count as real) else 0.0;
    }

    /** The return of `date` against the last performance row, as the loop body of `build_index` computes it. */
    method DayReturn(comps: seq<CompRow>, perf: seq<PerfRow>, date: string, top: seq<CapRow>) returns (r: real)
      ensures r == StepReturn(prices, perf, comps, date, top)
    {
      r := 0.0;
      if perf != [] {
        var prevDate := perf[|perf| - 1].date;
        var common := SymbolsOn(comps, prevDate) * SymbolsOf(top);
        if common != {} {
          r := CommonReturn(common, prevDate, date);
        }
      }
    }

    /** The comprehension over the trading dates: every date parsed by `safe_parse_date`, or its error. */
    method ParseDates(ds: seq<string>) returns (r: Result<seq<Date>, DateError>)
      ensures r.Ok? <==> AllParse(ds)
      ensures r.Err? ==> r.error == InvalidIsoFormat
      ensures r.Ok? ==> |r.value| == |ds| && forall j :: 0 <= j < |ds| ==> Iso(r.value[j]) == ds[j]
    {
      var trading: seq<Date> := [];
      var i := 0;
      while i < |ds|
        invariant 0 <= i <= |ds| && |trading| == i
        invariant forall j :: 0 <= j < i ==> SafeParseDate(Text(ds[j])) == Ok(trading[j])
      {
        var parsed := SafeParseDate(Text(ds[i]));
        if parsed.Err? {
          return Err(parsed.error);
        }
        trading := trading + [parsed.value];
        i := i + 1;
      }
      forall j | 0 <= j < |ds| ensures Iso(trading[j]) == ds[j] {
        IsoParseRoundTrip(ds[j]);
      }
      return Ok(trading);
    }

    /** `for r in top_rows: compositions.append((date, r["symbol"], weight))`. */
    method AppendWeights(comps: seq<CompRow>, date: string, top: seq<CapRow>, weight: real) returns (r: seq<CompRow>)
      ensures r == comps + WeightRows(date, top, weight)
    {
      r := comps;
      var j := 0;
      while j < |top|
        invariant 0 <= j <= |top|
        invariant r == comps + WeightRows(date, top[..j], weight)
      {
        assert WeightRows(date, top[..j + 1], weight) == WeightRows(date, top[..j], weight) + [CompRow(date, top[j].symbol, weight)];
        r := r + [CompRow(date, top[j].symbol, weight)];
        j := j + 1;
      }
      assert top[..j] == top;
    }

    /** The body of the loop of `build_index` for one trading date. */
    method ProcessDate(comps: seq<CompRow>, perf: seq<PerfRow>, level: real, date: string)
      returns (comps': seq<CompRow>, perf': seq<PerfRow>, level': real)
      requires baseLevel != 0.0 && date in marketCaps
      ensures Batch(comps', perf', level') == Step(prices, baseLevel, Batch(comps, perf, level), date, marketCaps[date])
    {
      var top := TopRows(marketCaps[date]);
      if top == [] {
        StepSkips(prices, baseLevel, Batch(comps, perf, level), date, marketCaps[date]);
        return comps, perf, level;
      }
      comps' := AppendWeights(comps, date, top, 1.0 / (|top| as real));
      var dailyReturn := DayReturn(comps', perf, date, top);
      level' := Compound(level, dailyReturn);
      perf' := perf + [PerfRow(date, dailyReturn, Cumulative(level', baseLevel), level')];
      StepAppends(prices, baseLevel, Batch(comps, perf, level), date, marketCaps[date]);
    }

    /** The loop of `build_index` over the parsed trading dates, from empty batches and the base level. */
    method RunDates(ds: seq<string>, trading: seq<Date>) returns (b: Batch)
      requires baseLevel != 0.0 && DatesKnown(marketCaps, ds)
      requires |trading| == |ds| && forall j :: 0 <= j < |ds| ==> Iso(trading[j]) == ds[j]
      ensures b == Run(marketCaps, prices, baseLevel, ds)
    {
      var comps: seq<CompRow>, perf: seq<PerfRow>, level := [], [], baseLevel;
      var i := 0;
      while i < |trading|
        invariant 0 <= i <= |ds|
        invariant DatesKnown(marketCaps, ds[..i])
        invariant Batch(comps, perf, level) == Run(marketCaps, prices, baseLevel, ds[..i])
      {
        var date := Iso(trading[i]);
        RunLast(marketCaps, prices, baseLevel, ds[..i + 1]);
        assert ds[..i + 1][..i] == ds[..i];
        comps, perf, level := ProcessDate(comps, perf, level, date);
        i := i + 1;
      }
      assert ds[..i] == ds;
      b := Batch(comps, perf, level);
    }

    /**
     * The computation of `build_index(startArg, endArg)` up to its two
     * writes: the outcome and the tables `Build` specifies.
     */
    method EvaluateBuild(startArg: DateArg, endArg: DateArg) returns (r: Result<BuildOutcome, DateError>, after: Tables)
      requires baseLevel != 0.0
      ensures (r, after) == Build(marketCaps, prices, baseLevel, Tables(compositions, performance), startArg, endArg)
    {
      var before := Tables(compositions, performance);
      var bounds := RangeBounds(startArg, endArg);
      if bounds.Err? {
        return Err(bounds.error), before;
      }
      var (lo, hi) := bounds.value;
      var ds := SortText(InRange(marketCaps.Keys, lo, hi));
      BuildOnRange(marketCaps, prices, baseLevel, before, startArg, endArg, lo, hi, ds);
      var parsed := ParseDates(ds);
      if parsed.Err? {
        return Err(parsed.error), before;
      }
      var trading := parsed.value;
      if trading == [] {
        return Ok(NoTradingDays), before;
      }
      var b := RunDates(ds, trading);
      r, after := Ok(Built(lo.value, hi.value, |ds|)), Store(before, b);
    }

    /**
     * `build_index(startArg, endArg)`: the outcome and the new tables are
     * those `Build` specifies; market data and the base level do not change.
     */
    method BuildIndex(startArg: DateArg, endArg: DateArg) returns (r: Result<BuildOutcome, DateError>)
      requires baseLevel != 0.0
      modifies this`compositions, this`performance
      ensures (r, Tables(compositions, performance))
           == Build(marketCaps, prices, baseLevel, old(Tables(compositions, performance)), startArg, endArg)
    {
      var after;
      r, after := EvaluateBuild(startArg, endArg);
      compositions, performance := after.compositions, after.performance;
    }

    /**
     * `get_index_performance(startArg, endArg)`: the stored rows between the
     * bounds, the end falling back to the start as in `build_index`.
     */
    method GetIndexPerformance(startArg: DateArg, endArg: DateArg) returns (r: Result<seq<PerfRow>, DateError>)
      ensures r.Err? <==> RangeBounds(startArg, endArg).Err?
      ensures r.Err? ==> r.error == UnsupportedDateType
      ensures r.Ok? ==> r.value == PerformanceBetween(performance, RangeBounds(startArg, endArg).value.0,
                                                      RangeBounds(startArg, endArg).value.1)
    {
      var bounds := RangeBounds(startArg, endArg);
      if bounds.Err? {
        return Err(bounds.error);
      }
      var (lo, hi) := bounds.value;
      var ds := SortText(InRange(performance.Keys, lo, hi));
      r := Ok(RowsOf(performance, ds));
    }

    /** `get_index_composition(dateArg)`: the holdings stored for the date, by symbol. */
    method GetIndexComposition(dateArg: DateArg) returns (r: Result<seq<Holding>, DateError>)
      ensures r.Err? <==> dateArg.OtherType?
      ensures r.Err? ==> r.error == UnsupportedDateType
      ensures r.Ok? ==> r.value == CompositionOn(compositions, NormalizeDate(dateArg).value)
    {
      var date := NormalizeDate(dateArg);
      if date.Err? {
        return Err(date.error);
      }
      if date.value.None? {
        return Ok([]);
      }
      var d := date.value.value;
      var syms := SortText(SymbolsAt(compositions, d));
      r := Ok(HoldingsOf(compositions, d, syms));
    }

    /** The loop of `get_composition_changes` over the composition dates `ds`. */
    method ChangesAlong(ds: seq<string>) returns (changes: seq<Change>)
      ensures changes == ChangesOver(compositions, ds)
    {
      var table := compositions;
      changes := [];
      var prevSymbols: Option<set<Symbol>> := None;
      var i := 0;
      while i < |ds|
        invariant 0 <= i <= |ds|
        invariant changes == ChangesOver(table, ds[..i])
        invariant prevSymbols == if i == 0 then None else Some(SymbolsAt(table, ds[i - 1]))
      {
        var symbols := SymbolsAt(table, ds[i]);
        ChangesOverStep(table, ds, i);
        if prevSymbols.Some? {
          var step := DiffOf(ds[i], prevSymbols.value, symbols);
          changes := changes + step;
        }
        prevSymbols := Some(symbols);
        i := i + 1;
      }
      assert ds[..i] == ds;
    }

    /**
     * `get_composition_changes(startArg, endArg)`: for each composition date
     * of the range after the first, the symbols that entered and exited
     * against the date before it, when there are any.
     */
    method GetCompositionChanges(startArg: DateArg, endArg: DateArg) returns (r: Result<seq<Change>, DateError>)
      ensures r.Err? <==> startArg.OtherType? || endArg.OtherType?
      ensures r.Err? ==> r.error == UnsupportedDateType
      ensures r.Ok? ==> r.value == Changes(compositions, NormalizeDate(startArg).value, NormalizeDate(endArg).value)
    {
      var lo := NormalizeDate(startArg);
      if lo.Err? {
        return Err(lo.error);
      }
      var hi := NormalizeDate(endArg);
      if hi.Err? {
        return Err(hi.error);
      }
      var ds := SortText(InRange(DatesOf(compositions), lo.value, hi.value));
      var changes := ChangesAlong(ds);
      r := Ok(changes);
    }
  }
}
