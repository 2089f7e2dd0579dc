/**
 * The two read queries of the index service, `get_index_performance` and
 * `get_index_composition`, as functions of the stored tables, and what a
 * build guarantees a rebuilt composition looks like.
 */
module IndexQueries {
  import opened Wrappers
  import opened TextOrder
  import opened IndexSpec
  import opened IndexRun
  import opened IndexBuild
  import opened Dates

  /** A row `{symbol, weight}` of `get_index_composition`. */
  datatype Holding = Holding(symbol: Symbol, weight: real)

  /** The stored row of `date`. */
  function RowOf(table: PerformanceTable, date: string): PerfRow
    requires date in table
  {
    PerfRow(date, table[date].dailyReturn, table[date].cumulativeReturn, table[date].indexLevel)
  }

  /** The stored rows of some dates, in their order. */
  function RowsOf(table: PerformanceTable, ds: seq<string>): (rows: seq<PerfRow>)
    requires forall i :: 0 <= i < |ds| ==> ds[i] in table
    ensures |rows| == |ds| && forall i :: 0 <= i < |ds| ==> rows[i] == RowOf(table, ds[i])
  {
    seq(|ds|, i requires 0 <= i < |ds| => RowOf(table, ds[i]))
  }

  /**
   * `SELECT * FROM index_performance WHERE date BETWEEN ? AND ? ORDER BY
   * date`: every stored row between the bounds, each once, in date order.
   */
  ghost function PerformanceBetween(table: PerformanceTable, lo: Option<string>, hi: Option<string>): (rows: seq<PerfRow>)
    ensures forall i, j :: 0 <= i < j < |rows| ==> LexLt(rows[i].date, rows[j].date)
    ensures forall i :: 0 <= i < |rows| ==>
      rows[i].date in table && InDateRange(lo, hi, rows[i].date) && rows[i] == RowOf(table, rows[i].date)
    ensures forall d :: d in table && InDateRange(lo, hi, d) ==> exists i :: 0 <= i < |rows| && rows[i].date == d
    ensures lo.None? || hi.None? ==> rows == []
  {
    var ds := Sorted(InRange(table.Keys, lo, hi));
    SortedRows(table, ds, lo, hi);
    RowsOf(table, ds)
  }

  /** The rows of strictly ascending dates, each in the table and in range, listing every such date. */
  lemma SortedRows(table: PerformanceTable, ds: seq<string>, lo: Option<string>, hi: Option<string>)
    requires StrictlySorted(ds)
    requires forall d :: d in ds <==> d in table && InDateRange(lo, hi, d)
    ensures var rows := RowsOf(table, ds);
      && (forall i, j :: 0 <= i < j < |rows| ==> LexLt(rows[i].date, rows[j].date))
      && (forall i :: 0 <= i < |rows| ==>
            rows[i].date in table && InDateRange(lo, hi, rows[i].date) && rows[i] == RowOf(table, rows[i].date))
      && (forall d :: d in table && InDateRange(lo, hi, d) ==> exists i :: 0 <= i < |rows| && rows[i].date == d)
  {
    var rows := RowsOf(table, ds);
    forall d | d in table && InDateRange(lo, hi, d) ensures exists i :: 0 <= i < |rows| && rows[i].date == d {
      var i :| 0 <= i < |ds| && ds[i] == d;
      assert rows[i].date == d;
    }
  }

  /** The holdings of some symbols stored on `date`, in their order. */
  function HoldingsOf(table: CompositionTable, date: string, syms: seq<Symbol>): (rows: seq<Holding>)
    requires forall i :: 0 <= i < |syms| ==> (date, syms[i]) in table
    ensures |rows| == |syms| && forall i :: 0 <= i < |syms| ==> rows[i] == Holding(syms[i], table[(date, syms[i])])
  {
    seq(|syms|, i requires 0 <= i < |syms| => Holding(syms[i], table[(date, syms[i])]))
  }

  /**
   * `SELECT symbol, weight FROM index_compositions WHERE date = ? ORDER BY
   * symbol`: the symbols held on the date, each once, by symbol, with their
   * weights; a `NULL` date matches no row.
   */
  ghost function CompositionOn(table: CompositionTable, date: Option<string>): (rows: seq<Holding>)
    ensures date.None? ==> rows == []
    ensures date.Some? ==> |rows| == |SymbolsAt(table, date.value)|
    ensures forall i, j :: 0 <= i < j < |rows| ==> LexLt(rows[i].symbol, rows[j].symbol)
    ensures forall i :: 0 <= i < |rows| ==>
      date.Some? && (date.value, rows[i].symbol) in table && rows[i].weight == table[(date.value, rows[i].symbol)]
    ensures forall s :: date.Some? && (date.value, s) in table ==> exists i :: 0 <= i < |rows| && rows[i].symbol == s
  {
    if date.None? then []
    else
      var syms := Sorted(SymbolsAt(table, date.value));
      var rows := HoldingsOf(table, date.value, syms);
      assert forall s :: (date.value, s) in table ==> exists i :: 0 <= i < |syms| && syms[i] == s && rows[i].symbol == s;
      rows
  }

  /** The sum of the weights of some holdings. */
  function WeightSum(rows: seq<Holding>): real
    decreases |rows|
  {
    if rows == [] then 0.0 else WeightSum(rows[..|rows| - 1]) + rows[|rows| - 1].weight
  }

  /** Holdings that all weigh `w` sum to `w` added up once per holding. */
  lemma {:induction false} WeightSumEqual(rows: seq<Holding>, w: real)
    requires forall i :: 0 <= i < |rows| ==> rows[i].weight == w
    ensures WeightSum(rows) == Repeat(w, |rows|)
    decreases |rows|
  {
    if rows != [] {
      WeightSumEqual(rows[..|rows| - 1], w);
    }
  }

  /** `1/n` added up `n` times is 1. */
  lemma RepeatReciprocal(n: nat)
    requires n > 0
    ensures Repeat(1.0 / (n as real), n) == 1.0
  {
    RepeatIsProduct(1.0 / (n as real), n);
  }

  /** Rows with distinct symbols have as many symbols as rows. */
  lemma {:induction false} DistinctSymbolsCount(rows: seq<CapRow>)
    requires forall i, j :: 0 <= i < j < |rows| ==> rows[i].symbol != rows[j].symbol
    ensures |SymbolsOf(rows)| == |rows|
    decreases |rows|
  {
    if rows != [] {
      var front, last := rows[..|rows| - 1], rows[|rows| - 1];
      DistinctSymbolsCount(front);
      assert rows == front + [last];
      assert SymbolsOf(rows) == SymbolsOf(front) + {last.symbol};
      assert last.symbol !in SymbolsOf(front);
    }
  }

  /**
   * A date whose stored symbols are exactly those of some distinct rows,
   * each at `1/n` for `n` rows, reads back as `n` holdings summing to 1.
   */
  lemma EqualWeightsSumToOne(table: CompositionTable, d: string, top: seq<CapRow>)
    requires top != []
    requires forall i, j :: 0 <= i < j < |top| ==> top[i].symbol != top[j].symbol
    requires SymbolsAt(table, d) == SymbolsOf(top)
    requires forall s :: s in SymbolsOf(top) ==> table[(d, s)] == 1.0 / (|top| as real)
    ensures var rows := CompositionOn(table, Some(d));
      && |rows| == |top|
      && (forall i :: 0 <= i < |rows| ==> rows[i].weight == 1.0 / (|rows| as real))
      && WeightSum(rows) == 1.0
  {
    var rows := CompositionOn(table, Some(d));
    DistinctSymbolsCount(top);
    var w := 1.0 / (|top| as real);
    forall i | 0 <= i < |rows| ensures rows[i].weight == w {
      assert rows[i].symbol in SymbolsAt(table, d);
    }
    WeightSumEqual(rows, w);
    RepeatReciprocal(|top|);
  }

  /**
   * The composition facts a build establishes, for one date processed by
   * the build that held none but its selected symbols before it: its
   * holdings sum to 1.
   */
  lemma SelectedDateSumsToOne(caps: CapTable, before: CompositionTable, table: CompositionTable, p: seq<string>, d: string)
    requires forall e :: e in p ==> e in caps && TopRows(caps[e]) != []
    requires d in p && Ranked(caps[d])
    requires SymbolsAt(before, d) <= SymbolsOf(TopRows(caps[d]))
    requires forall e :: e in caps ==>
      SymbolsAt(table, e) == SymbolsAt(before, e) + if e in p then SymbolsOf(TopRows(caps[e])) else {}
    requires forall e, s :: e in p && s in SymbolsOf(TopRows(caps[e])) ==>
      (e, s) in table && table[(e, s)] == 1.0 / (|TopRows(caps[e])| as real)
    ensures var rows := CompositionOn(table, Some(d));
      && |rows| == |TopRows(caps[d])|
      && (forall i :: 0 <= i < |rows| ==> rows[i].weight == 1.0 / (|rows| as real))
      && WeightSum(rows) == 1.0
  {
    var top := TopRows(caps[d]);
    assert forall i, j :: 0 <= i < j < |top| ==> top[i].symbol != top[j].symbol by {
      assert top == caps[d][..|top|];
    }
    assert SymbolsAt(table, d) == SymbolsOf(top);
    EqualWeightsSumToOne(table, d, top);
  }

  /**
   * A processed date with ranked market-cap rows whose earlier composition
   * holds only symbols it selects again (none at all, or the same
   * selection, as when unchanged data is rebuilt) ends up holding exactly
   * its top `min(100, n)` symbols, each at the same weight, and those
   * weights sum to 1.
   */
  lemma CompositionSumsToOne(caps: CapTable, prices: PriceTable, base: real, t: Tables,
                             lo: Option<string>, hi: Option<string>, d: string)
    requires base != 0.0
    requires d in Processed(caps, TradingDates(caps, lo, hi)) && Ranked(caps[d])
    requires SymbolsAt(t.compositions, d) <= SymbolsOf(TopRows(caps[d]))
    ensures var table := Store(t, Run(caps, prices, base, TradingDates(caps, lo, hi))).compositions;
      var rows := CompositionOn(table, Some(d));
      && |rows| == |TopRows(caps[d])|
      && (forall i :: 0 <= i < |rows| ==> rows[i].weight == 1.0 / (|rows| as real))
      && (forall i :: 0 <= i < |rows| ==> rows[i].symbol in SymbolsOf(TopRows(caps[d])))
      && WeightSum(rows) == 1.0
  {
    var ds := TradingDates(caps, lo, hi);
    BuildCompositions(caps, prices, base, t, lo, hi);
    SelectedDateSumsToOne(caps, t.compositions, Store(t, Run(caps, prices, base, ds)).compositions, Processed(caps, ds), d);
  }
}
