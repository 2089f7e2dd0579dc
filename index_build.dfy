/**
 * What one call of `build_index` returns and writes, as a function of the
 * stored tables and its two arguments, and what that says about the
 * `index_compositions` and `index_performance` tables afterwards.
 */
module IndexBuild {
  import opened Wrappers
  import opened TextOrder
  import opened Upsert
  import opened Dates
  import opened IndexSpec
  import opened IndexRun

  /**
   * The dictionary `build_index` returns: `{"status": "error", "message":
   * "No trading days in range"}`, or the success dictionary with the bounds
   * used and the number of trading dates.
   */
  datatype BuildOutcome = NoTradingDays | Built(start: string, end: string, daysProcessed: nat)
  {
    function Status(): string
    {
      if NoTradingDays? then "error" else "success"
    }

    function Message(): string
    {
      if NoTradingDays? then "No trading days in range" else "Index built and stored"
    }
  }

  /** The two tables `build_index` writes. */
  datatype Tables = Tables(compositions: CompositionTable, performance: PerformanceTable)

  /** The bounds of the date range: `_normalize_date(start)` and `_normalize_date(end) or start`. */
  function RangeBounds(startArg: DateArg, endArg: DateArg): (r: Result<(Option<string>, Option<string>), DateError>)
    ensures r.Err? <==> startArg.OtherType? || endArg.OtherType?
    ensures r.Err? ==> r.error == UnsupportedDateType
    ensures r.Ok? ==> Ok(r.value.0) == NormalizeDate(startArg)
    ensures r.Ok? ==> r.value.1 == EndOrStart(r.value.0, NormalizeDate(endArg).value)
  {
    match NormalizeDate(startArg)
    case Err(e) => Err(e)
    case Ok(lo) =>
      match NormalizeDate(endArg)
      case Err(e) => Err(e)
      case Ok(hi) => Ok((lo, EndOrStart(lo, hi)))
  }

  /** The dates of `keys` the range query selects. */
  function InRange(keys: set<string>, lo: Option<string>, hi: Option<string>): (r: set<string>)
    ensures forall d :: d in r <==> d in keys && InDateRange(lo, hi, d)
  {
    set d | d in keys && InDateRange(lo, hi, d)
  }

  /** `SELECT DISTINCT date FROM daily_market_caps WHERE date BETWEEN ? AND ? ORDER BY date`. */
  ghost function TradingDates(caps: CapTable, lo: Option<string>, hi: Option<string>): (ds: seq<string>)
    ensures StrictlySorted(ds) && DatesKnown(caps, ds)
    ensures forall d :: d in ds <==> d in caps && InDateRange(lo, hi, d)
    ensures ds != [] ==> lo.Some? && hi.Some?
  {
    var ds := Sorted(InRange(caps.Keys, lo, hi));
    assert ds != [] ==> ds[0] in ds;
    ds
  }

  /** Every trading date passes `safe_parse_date`. */
  predicate AllParse(ds: seq<string>)
  {
    forall i :: 0 <= i < |ds| ==> ParseIso(ds[i]).Ok?
  }

  /** The `compositions` batch as the rows of `index_compositions`, keyed by `(date, symbol)`. */
  function CompEntries(comps: seq<CompRow>): (rows: seq<((string, Symbol), real)>)
    ensures |rows| == |comps|
    ensures forall i :: 0 <= i < |comps| ==> rows[i] == ((comps[i].date, comps[i].symbol), comps[i].weight)
  {
    seq(|comps|, i requires 0 <= i < |comps| => ((comps[i].date, comps[i].symbol), comps[i].weight))
  }

  /** The `perf_rows` batch as the rows of `index_performance`, keyed by `date`. */
  function PerfEntries(perf: seq<PerfRow>): (rows: seq<(string, PerfValues)>)
    ensures |rows| == |perf|
    ensures forall i :: 0 <= i < |perf| ==>
      rows[i] == (perf[i].date, PerfValues(perf[i].dailyReturn, perf[i].cumulativeReturn, perf[i].indexLevel))
  {
    seq(|perf|, i requires 0 <= i < |perf| =>
      (perf[i].date, PerfValues(perf[i].dailyReturn, perf[i].cumulativeReturn, perf[i].indexLevel)))
  }

  /** The two `INSERT OR REPLACE` batches applied to the tables. */
  function Store(t: Tables, b: Batch): Tables
  {
    Tables(UpsertMany(t.compositions, CompEntries(b.comps)), UpsertMany(t.performance, PerfEntries(b.perf)))
  }

  /**
   * `build_index(start, end)`: what it returns and the tables it leaves.
   * A bad argument type or a trading date that is not an ISO date raises
   * before anything is written; an empty range writes nothing.
   */
  ghost function Build(caps: CapTable, prices: PriceTable, base: real, t: Tables, startArg: DateArg, endArg: DateArg)
    : (Result<BuildOutcome, DateError>, Tables)
    requires base != 0.0
  {
    match RangeBounds(startArg, endArg)
    case Err(e) => (Err(e), t)
    case Ok((lo, hi)) =>
      var ds := TradingDates(caps, lo, hi);
      if !AllParse(ds) then (Err(InvalidIsoFormat), t)
      else if ds == [] then (Ok(NoTradingDays), t)
      else (Ok(Built(lo.value, hi.value, |ds|)), Store(t, Run(caps, prices, base, ds)))
  }

  /** A call that fails or finds no trading date leaves both tables as they were. */
  lemma BuildWritesOnlyOnSuccess(caps: CapTable, prices: PriceTable, base: real, t: Tables, startArg: DateArg, endArg: DateArg)
    requires base != 0.0
    ensures var (r, t') := Build(caps, prices, base, t, startArg, endArg);
      (r.Err? || r == Ok(NoTradingDays)) ==> t' == t
    ensures var (r, _) := Build(caps, prices, base, t, startArg, endArg);
      r.Err? <==> startArg.OtherType? || endArg.OtherType? ||
                  (RangeBounds(startArg, endArg).Ok? &&
                   !AllParse(TradingDates(caps, RangeBounds(startArg, endArg).value.0, RangeBounds(startArg, endArg).value.1)))
  {
  }

  /** On success the result reports the bounds used and the number of trading dates in the range. */
  lemma BuildReportsRange(caps: CapTable, prices: PriceTable, base: real, t: Tables, startArg: DateArg, endArg: DateArg)
    requires base != 0.0
    requires Build(caps, prices, base, t, startArg, endArg).0.Ok?
    ensures var r := Build(caps, prices, base, t, startArg, endArg).0.value;
      var (lo, hi) := RangeBounds(startArg, endArg).value;
      && (r.Built? ==> Some(r.start) == lo && Some(r.end) == hi && r.daysProcessed == |TradingDates(caps, lo, hi)| > 0)
      && (r.NoTradingDays? <==> TradingDates(caps, lo, hi) == [])
      && (r.Built? ==> r.Status() == "success" && r.Message() == "Index built and stored")
      && (r.NoTradingDays? ==> r.Status() == "error" && r.Message() == "No trading days in range")
  {
  }

  /** Rows of a batch that name `key` all carry the same value: the performance rows have distinct dates. */
  lemma PerfEntriesDistinct(perf: seq<PerfRow>, p: seq<string>, k: nat)
    requires |perf| == |p| && StrictlySorted(p) && k < |p|
    requires forall j :: 0 <= j < |p| ==> perf[j].date == p[j]
    ensures p[k] in KeysOf(PerfEntries(perf))
    ensures var rows := PerfEntries(perf);
      forall i :: 0 <= i < |rows| && rows[i].0 == p[k] ==> rows[i].1 == rows[k].1
  {
    var rows := PerfEntries(perf);
    assert rows[k].0 == p[k];
    forall i | 0 <= i < |rows| && rows[i].0 == p[k] ensures rows[i].1 == rows[k].1 {
      if i < k {
        assert LexLt(p[i], p[k]);
        LexLtIrreflexive(p[k]);
      } else if k < i {
        assert LexLt(p[k], p[i]);
        LexLtIrreflexive(p[k]);
      }
    }
  }

  /** Writing performance rows with distinct dates `p` stores each row under its date and keeps the rest. */
  lemma StorePerformance(table: PerformanceTable, perf: seq<PerfRow>, p: seq<string>)
    requires |perf| == |p| && StrictlySorted(p)
    requires forall k :: 0 <= k < |p| ==> perf[k].date == p[k]
    ensures var table' := UpsertMany(table, PerfEntries(perf));
      && table'.Keys == table.Keys + (set d | d in p)
      && (forall k :: 0 <= k < |p| ==>
            p[k] in table' && table'[p[k]] == PerfValues(perf[k].dailyReturn, perf[k].cumulativeReturn, perf[k].indexLevel))
      && (forall d :: d in table && d !in p ==> table'[d] == table[d])
  {
    var rows := PerfEntries(perf);
    assert KeysOf(rows) == set d | d in p by {
      forall d | d in p ensures d in KeysOf(rows) {
        var k :| 0 <= k < |p| && p[k] == d;
        assert rows[k].0 == d;
      }
    }
    forall k | 0 <= k < |p|
      ensures UpsertMany(table, rows)[p[k]] == PerfValues(perf[k].dailyReturn, perf[k].cumulativeReturn, perf[k].indexLevel)
    {
      PerfEntriesDistinct(perf, p, k);
      UpsertWrites(table, rows, p[k], rows[k].1);
    }
    forall d | d in table && d !in p ensures UpsertMany(table, rows)[d] == table[d] {
      UpsertKeepsOthers(table, rows, d);
    }
  }

  /**
   * After a build over the trading dates `ds` there is one performance row
   * per date with market-cap rows, holding what the run computed for it; the
   * rows of other dates are untouched.
   */
  lemma BuildPerformance(caps: CapTable, prices: PriceTable, base: real, t: Tables, lo: Option<string>, hi: Option<string>)
    requires base != 0.0
    ensures var ds := TradingDates(caps, lo, hi);
      var perf, p := Run(caps, prices, base, ds).perf, Processed(caps, ds);
      var table := Store(t, Run(caps, prices, base, ds)).performance;
      && |perf| == |p|
      && table.Keys == t.performance.Keys + (set d | d in p)
      && (forall k :: 0 <= k < |p| ==>
            p[k] in table && table[p[k]] == PerfValues(perf[k].dailyReturn, perf[k].cumulativeReturn, perf[k].indexLevel))
      && (forall d :: d in t.performance && d !in p ==> table[d] == t.performance[d])
  {
    var ds := TradingDates(caps, lo, hi);
    RunPerfDates(caps, prices, base, ds);
    ProcessedFromDates(caps, ds);
    StorePerformance(t.performance, Run(caps, prices, base, ds).perf, Processed(caps, ds));
  }

  /** The `(date, symbol)` keys of a composition table on `date`, by symbol. */
  function SymbolsAt(table: CompositionTable, date: string): (syms: set<Symbol>)
    ensures forall s :: s in syms <==> (date, s) in table
  {
    set k | k in table && k.0 == date :: k.1
  }

  /** A batch of weight rows as a run produces them: per processed date, its top-ranked symbols at `1/len(top_rows)`. */
  ghost predicate WellWeighted(caps: CapTable, comps: seq<CompRow>, p: seq<string>)
  {
    && (forall d :: d in p ==> d in caps && TopRows(caps[d]) != [])
    && (forall r :: r in comps ==> r.date in p && r.weight == 1.0 / (|TopRows(caps[r.date])| as real))
    && (forall d :: d in caps ==> SymbolsOn(comps, d) == if d in p then SymbolsOf(TopRows(caps[d])) else {})
  }

  /** Every row of such a batch is keyed by a processed date. */
  lemma EntriesOnProcessed(caps: CapTable, comps: seq<CompRow>, p: seq<string>)
    requires WellWeighted(caps, comps, p)
    ensures forall k: (string, Symbol) :: k in KeysOf(CompEntries(comps)) ==> k.0 in p && k.1 in SymbolsOn(comps, k.0)
  {
    var rows := CompEntries(comps);
    forall k: (string, Symbol) | k in KeysOf(rows) ensures k.0 in p && k.1 in SymbolsOn(comps, k.0) {
      var i :| 0 <= i < |rows| && rows[i].0 == k;
      assert comps[i] in comps;
    }
  }

  /** Writing such a batch adds each processed date's top-ranked symbols to what the date held. */
  lemma StoreCompositionSymbols(caps: CapTable, table: CompositionTable, comps: seq<CompRow>, p: seq<string>, d: string)
    requires WellWeighted(caps, comps, p) && d in caps
    ensures SymbolsAt(UpsertMany(table, CompEntries(comps)), d)
         == SymbolsAt(table, d) + if d in p then SymbolsOf(TopRows(caps[d])) else {}
  {
    var rows := CompEntries(comps);
    EntriesOnProcessed(caps, comps, p);
    forall s | d in p && s in SymbolsOf(TopRows(caps[d])) ensures (d, s) in KeysOf(rows) {
      assert s in SymbolsOn(comps, d);
      var r :| r in comps && r.date == d && r.symbol == s;
      var i :| 0 <= i < |comps| && comps[i] == r;
      assert rows[i].0 == (d, s);
    }
  }

  /** Writing such a batch leaves each top-ranked symbol of a processed date at weight `1/len(top_rows)`. */
  lemma StoreCompositionWeight(caps: CapTable, table: CompositionTable, comps: seq<CompRow>, p: seq<string>, d: string, s: Symbol)
    requires WellWeighted(caps, comps, p) && d in p && s in SymbolsOf(TopRows(caps[d]))
    ensures var table' := UpsertMany(table, CompEntries(comps));
      (d, s) in table' && table'[(d, s)] == 1.0 / (|TopRows(caps[d])| as real)
  {
    var rows := CompEntries(comps);
    var w := 1.0 / (|TopRows(caps[d])| as real);
    assert s in SymbolsOn(comps, d);
    var r :| r in comps && r.date == d && r.symbol == s;
    var i :| 0 <= i < |comps| && comps[i] == r;
    assert rows[i].0 == (d, s);
    forall j | 0 <= j < |rows| && rows[j].0 == (d, s) ensures rows[j].1 == w {
      assert comps[j] in comps;
    }
    UpsertWrites(table, rows, (d, s), w);
  }

  /**
   * Writing such a batch adds each processed date's symbols at their weight
   * and keeps every other row: the rows of other dates, and a processed
   * date's rows of symbols it does not select.
   */
  lemma StoreCompositions(caps: CapTable, table: CompositionTable, comps: seq<CompRow>, p: seq<string>)
    requires WellWeighted(caps, comps, p)
    ensures var table' := UpsertMany(table, CompEntries(comps));
      && (forall d :: d in caps ==>
            SymbolsAt(table', d) == SymbolsAt(table, d) + if d in p then SymbolsOf(TopRows(caps[d])) else {})
      && (forall d, s :: d in p && s in SymbolsOf(TopRows(caps[d])) ==>
            (d, s) in table' && table'[(d, s)] == 1.0 / (|TopRows(caps[d])| as real))
      && (forall k :: k in table && !(k.0 in p && k.1 in SymbolsOf(TopRows(caps[k.0]))) ==> table'[k] == table[k])
  {
    var rows := CompEntries(comps);
    forall d | d in caps
      ensures SymbolsAt(UpsertMany(table, rows), d) == SymbolsAt(table, d) + if d in p then SymbolsOf(TopRows(caps[d])) else {}
    {
      StoreCompositionSymbols(caps, table, comps, p, d);
    }
    forall d, s | d in p && s in SymbolsOf(TopRows(caps[d]))
      ensures (d, s) in UpsertMany(table, rows) && UpsertMany(table, rows)[(d, s)] == 1.0 / (|TopRows(caps[d])| as real)
    {
      StoreCompositionWeight(caps, table, comps, p, d, s);
    }
    EntriesOnProcessed(caps, comps, p);
    forall k | k in table && !(k.0 in p && k.1 in SymbolsOf(TopRows(caps[k.0])))
      ensures UpsertMany(table, rows)[k] == table[k]
    {
      assert k !in KeysOf(rows);
      UpsertKeepsOthers(table, rows, k);
    }
  }

  /**
   * After a build over the trading dates every processed date holds its
   * top-ranked symbols with weight `1/len(top_rows)`, on top of whatever
   * that date held before (the upsert replaces the row with the same key
   * and does not delete rows of other keys); every other row, of another
   * date or of a symbol the date does not select, is untouched.
   */
  lemma BuildCompositions(caps: CapTable, prices: PriceTable, base: real, t: Tables, lo: Option<string>, hi: Option<string>)
    requires base != 0.0
    ensures var ds := TradingDates(caps, lo, hi);
      var p := Processed(caps, ds);
      var table := Store(t, Run(caps, prices, base, ds)).compositions;
      && (forall d :: d in caps ==>
            SymbolsAt(table, d) == SymbolsAt(t.compositions, d) + if d in p then SymbolsOf(TopRows(caps[d])) else {})
      && (forall d, s :: d in p && s in SymbolsOf(TopRows(caps[d])) ==>
            (d, s) in table && table[(d, s)] == 1.0 / (|TopRows(caps[d])| as real))
      && (forall k :: k in t.compositions && !(k.0 in p && k.1 in SymbolsOf(TopRows(caps[k.0]))) ==>
            table[k] == t.compositions[k])
  {
    var ds := TradingDates(caps, lo, hi);
    RunCompositionRows(caps, prices, base, ds);
    RunCompositionSymbols(caps, prices, base, ds);
    StoreCompositions(caps, t.compositions, Run(caps, prices, base, ds).comps, Processed(caps, ds));
  }

  /** Building the same range again returns the same result and leaves the tables as the first build left them. */
  lemma RebuildIsIdempotent(caps: CapTable, prices: PriceTable, base: real, t: Tables, startArg: DateArg, endArg: DateArg)
    requires base != 0.0
    ensures var (r1, t1) := Build(caps, prices, base, t, startArg, endArg);
      Build(caps, prices, base, t1, startArg, endArg) == (r1, t1)
  {
    var (r1, t1) := Build(caps, prices, base, t, startArg, endArg);
    if RangeBounds(startArg, endArg).Ok? {
      var (lo, hi) := RangeBounds(startArg, endArg).value;
      var ds := TradingDates(caps, lo, hi);
      if AllParse(ds) && ds != [] {
        var b := Run(caps, prices, base, ds);
        UpsertIdempotent(t.compositions, CompEntries(b.comps));
        UpsertIdempotent(t.performance, PerfEntries(b.perf));
      }
    }
  }
}
