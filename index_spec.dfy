/**
 * The tables of the index service and the per-date values `build_index`
 * computes from them: the top-100 selection, its equal weights and the
 * overlap return between two dates.
 */
module IndexSpec {
  import opened Wrappers
  import opened TextOrder
  import opened Upsert
  import opened Dates

  type Symbol = string

  /** `LIMIT 100` in the ranking query. */
  const TopN: nat := 100

  /** A `daily_market_caps` row of one date, as the ranking query returns it. */
  datatype CapRow = CapRow(symbol: Symbol, marketCap: real)

  /** An `index_compositions` row `(date, symbol, weight)`. */
  datatype CompRow = CompRow(date: string, symbol: Symbol, weight: real)

  /** An `index_performance` row. */
  datatype PerfRow = PerfRow(date: string, dailyReturn: real, cumulativeReturn: real, indexLevel: real)

  /** The non-key columns of an `index_performance` row. */
  datatype PerfValues = PerfValues(dailyReturn: real, cumulativeReturn: real, indexLevel: real)

  /** `daily_market_caps`: each date's rows in the order `ORDER BY market_cap DESC` returns them. */
  type CapTable = map<string, seq<CapRow>>

  /** `daily_prices.adj_close` by `(symbol, date)`; `None` is a `NULL` column. */
  type PriceTable = map<(Symbol, string), Option<real>>

  /** `index_compositions`, keyed by `(date, symbol)`. */
  type CompositionTable = map<(string, Symbol), real>

  /** `index_performance`, keyed by `date`. */
  type PerformanceTable = map<string, PerfValues>

  /** A date's rows as the ranking query returns them: one row per symbol, market caps descending. */
  ghost predicate Ranked(rows: seq<CapRow>)
  {
    forall i, j :: 0 <= i < j < |rows| ==> rows[i].symbol != rows[j].symbol && rows[i].marketCap >= rows[j].marketCap
  }

  /** The ranking query with `LIMIT 100`: the first `min(100, n)` rows of the ranking. */
  function TopRows(rows: seq<CapRow>): (top: seq<CapRow>)
    ensures |top| <= TopN && |top| <= |rows| && top == rows[..|top|]
    ensures |rows| <= TopN ==> top == rows
    ensures |rows| >= TopN ==> |top| == TopN
  {
    if |rows| <= TopN then rows else rows[..TopN]
  }

  function SymbolsOf(rows: seq<CapRow>): set<Symbol>
  {
    set r | r in rows :: r.symbol
  }

  /** The composition rows appended for one date, one per selected symbol. */
  function WeightRows(date: string, top: seq<CapRow>, weight: real): (rows: seq<CompRow>)
  {
    seq(|top|, i requires 0 <= i < |top| => CompRow(date, top[i].symbol, weight))
  }

  /** `{sym for d, sym, _ in compositions if d == date}`. */
  function SymbolsOn(comps: seq<CompRow>, date: string): set<Symbol>
  {
    set r | r in comps && r.date == date :: r.symbol
  }

  /** The `adj_close` of a price row when Python finds it truthy: present, not `NULL`, not zero. */
  function Close(prices: PriceTable, sym: Symbol, date: string): (c: Option<real>)
    ensures c.Some? <==> (sym, date) in prices && prices[(sym, date)].Some? && prices[(sym, date)].value != 0.0
    ensures c.Some? ==> c.value == prices[(sym, date)].value
  {
    if (sym, date) in prices && prices[(sym, date)].Some? && prices[(sym, date)].value != 0.0
    then prices[(sym, date)] else None
  }

  /**
   * One symbol's simple return from `prevDate` to `currDate`: both price rows
   * exist and both closes are truthy, and then it is `close1 / close0 - 1`.
   */
  function SymbolReturn(prices: PriceTable, sym: Symbol, prevDate: string, currDate: string): (r: Option<real>)
    ensures r.Some? <==> Close(prices, sym, prevDate).Some? && Close(prices, sym, currDate).Some?
  {
    var c0, c1 := Close(prices, sym, prevDate), Close(prices, sym, currDate);
    if c0.Some? && c1.Some? then Some(c1.value / c0.value - 1.0) else None
  }

  /** The list `returns` of the overlap loop, keyed by symbol: one entry per symbol of `syms` with a return. */
  function Returns(prices: PriceTable, syms: set<Symbol>, prevDate: string, currDate: string): (rets: map<Symbol, real>)
    ensures forall s :: s in rets <==> s in syms && SymbolReturn(prices, s, prevDate, currDate).Some?
    ensures forall s :: s in rets ==> Some(rets[s]) == SymbolReturn(prices, s, prevDate, currDate)
  {
    map s | s in syms && SymbolReturn(prices, s, prevDate, currDate).Some? :: SymbolReturn(prices, s, prevDate, currDate).value
  }

  /** The sum of the values of `rets`, taken in no particular order. */
  ghost function Total(rets: map<Symbol, real>): real
    decreases rets.Keys
  {
    if rets == map[] then 0.0
    else
      var s :| s in rets;
      rets[s] + Total(rets - {s})
  }

  /** `sum(returns) / len(returns) if returns else 0.0`. */
  ghost function Mean(rets: map<Symbol, real>): real
  {
    if rets == map[] then 0.0 else Total(rets) / (|rets| as real)
  }

  /** The day's return: 0 when no symbol is held on both dates, otherwise the mean return over the common symbols. */
  ghost function DailyReturn(prices: PriceTable, prevSymbols: set<Symbol>, currSymbols: set<Symbol>,
                             prevDate: string, currDate: string): real
  {
    var common := prevSymbols * currSymbols;
    if common == {} then 0.0 else Mean(Returns(prices, common, prevDate, currDate))
  }

  /** The total does not depend on which entry is taken first. */
  lemma {:induction false} TotalPick(rets: map<Symbol, real>, y: Symbol)
    requires y in rets
    ensures Total(rets) == rets[y] + Total(rets - {y})
    decreases rets.Keys
  {
    var x :| x in rets && Total(rets) == rets[x] + Total(rets - {x});
    if x != y {
      TotalPick(rets - {x}, y);
      TotalPick(rets - {y}, x);
      assert rets - {x} - {y} == rets - {y} - {x};
    }
  }

  /** `x` added up `n` times. */
  function Repeat(x: real, n: nat): real
  {
    if n == 0 then 0.0 else x + Repeat(x, n - 1)
  }

  lemma {:induction false} RepeatIsProduct(x: real, n: nat)
    ensures Repeat(x, n) == x * (n as real)
  {
    if n > 0 {
      RepeatIsProduct(x, n - 1);
      assert x * (n as real) == x * ((n - 1) as real) + x;
    }
  }

  lemma MeanWithin(sum: real, n: real, lo: real, hi: real)
    requires n > 0.0 && lo * n <= sum <= hi * n
    ensures lo <= sum / n <= hi
  {
    var q := sum / n;
    assert q * n == sum;
    assert (q - lo) * n == sum - lo * n;
    assert (hi - q) * n == hi * n - sum;
  }

  lemma MeanAbove(sum: real, n: real, lo: real)
    requires n > 0.0 && lo * n < sum
    ensures lo < sum / n
  {
    var q := sum / n;
    assert q * n == sum;
    assert (q - lo) * n == sum - lo * n;
  }

  /** When no entry exceeds `hi`, the total is at most `hi` added up once per entry. */
  lemma {:induction false} TotalAtMost(rets: map<Symbol, real>, hi: real)
    requires forall s :: s in rets ==> rets[s] <= hi
    ensures Total(rets) <= Repeat(hi, |rets|)
    decreases rets.Keys
  {
    if rets != map[] {
      var x :| x in rets;
      TotalPick(rets, x);
      TotalAtMost(rets - {x}, hi);
      assert |rets - {x}| == |rets| - 1;
    }
  }

  /** When no entry is below `lo`, the total is at least `lo` added up once per entry. */
  lemma {:induction false} TotalAtLeast(rets: map<Symbol, real>, lo: real)
    requires forall s :: s in rets ==> lo <= rets[s]
    ensures Repeat(lo, |rets|) <= Total(rets)
    decreases rets.Keys
  {
    if rets != map[] {
      var x :| x in rets;
      TotalPick(rets, x);
      TotalAtLeast(rets - {x}, lo);
      assert |rets - {x}| == |rets| - 1;
    }
  }

  /** When every entry exceeds `lo`, the total of a nonempty map exceeds `lo` added up once per entry. */
  lemma TotalAbove(rets: map<Symbol, real>, lo: real)
    requires rets != map[]
    requires forall s :: s in rets ==> lo < rets[s]
    ensures Repeat(lo, |rets|) < Total(rets)
  {
    var x :| x in rets;
    TotalPick(rets, x);
    TotalAtLeast(rets - {x}, lo);
    assert |rets - {x}| == |rets| - 1;
  }

  /**
   * The day's return is the mean of the returns of the symbols held on both
   * dates: the `else: daily_return = 0.0` branch for no common symbol agrees
   * with the mean of no returns.
   */
  lemma DailyReturnIsMean(prices: PriceTable, prevSymbols: set<Symbol>, currSymbols: set<Symbol>,
                          prevDate: string, currDate: string)
    ensures DailyReturn(prices, prevSymbols, currSymbols, prevDate, currDate)
         == Mean(Returns(prices, prevSymbols * currSymbols, prevDate, currDate))
  {
    if prevSymbols * currSymbols == {} {
      assert Returns(prices, prevSymbols * currSymbols, prevDate, currDate) == map[];
    }
  }

  /**
   * The day's return is 0 when no symbol is held on both dates, and also
   * when none of the common symbols has two usable closes.
   */
  lemma DailyReturnZero(prices: PriceTable, prevSymbols: set<Symbol>, currSymbols: set<Symbol>,
                        prevDate: string, currDate: string)
    requires forall s :: s in prevSymbols && s in currSymbols ==> SymbolReturn(prices, s, prevDate, currDate).None?
    ensures DailyReturn(prices, prevSymbols, currSymbols, prevDate, currDate) == 0.0
  {
    var rets := Returns(prices, prevSymbols * currSymbols, prevDate, currDate);
    assert rets == map[] by {
      assert forall s :: s !in rets;
    }
  }

  /** The mean of some returns times their number is their sum. */
  lemma MeanTimesCount(rets: map<Symbol, real>)
    requires rets != map[]
    ensures Mean(rets) * (|rets| as real) == Total(rets)
  {
    DivTimes(Mean(rets), Total(rets), |rets| as real);
  }

  lemma DivTimes(q: real, sum: real, n: real)
    requires n > 0.0 && q == sum / n
    ensures q * n == sum
  {
  }

  /** The mean of nonempty returns lies between their least and greatest value. */
  lemma MeanBetween(rets: map<Symbol, real>, lo: real, hi: real)
    requires rets != map[]
    requires forall s :: s in rets ==> lo <= rets[s] <= hi
    ensures lo <= Mean(rets) <= hi
  {
    TotalAtLeast(rets, lo);
    TotalAtMost(rets, hi);
    RepeatIsProduct(lo, |rets|);
    RepeatIsProduct(hi, |rets|);
    MeanWithin(Total(rets), |rets| as real, lo, hi);
  }

  /** Every stored close is positive. */
  ghost predicate PositivePrices(prices: PriceTable)
  {
    forall k :: k in prices && prices[k].Some? ==> prices[k].value > 0.0
  }

  lemma PositiveRatio(c0: real, c1: real)
    requires c0 > 0.0 && c1 > 0.0
    ensures c1 / c0 - 1.0 > -1.0
  {
  }

  /** With positive closes no day can lose the whole index: the day's return exceeds -1. */
  lemma DailyReturnAboveMinusOne(prices: PriceTable, prevSymbols: set<Symbol>, currSymbols: set<Symbol>,
                                 prevDate: string, currDate: string)
    requires PositivePrices(prices)
    ensures DailyReturn(prices, prevSymbols, currSymbols, prevDate, currDate) > -1.0
  {
    DailyReturnIsMean(prices, prevSymbols, currSymbols, prevDate, currDate);
    var rets := Returns(prices, prevSymbols * currSymbols, prevDate, currDate);
    if rets != map[] {
      forall s | s in rets ensures -1.0 < rets[s] {
        PositiveRatio(Close(prices, s, prevDate).value, Close(prices, s, currDate).value);
      }
      TotalAbove(rets, -1.0);
      RepeatIsProduct(-1.0, |rets|);
      MeanAbove(Total(rets), |rets| as real, -1.0);
    }
  }
}
