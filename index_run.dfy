/**
 * The loop of `build_index` over the trading dates, as a fold: what it
 * appends to the composition and performance batches for each date, and the
 * running index level.
 */
module IndexRun {
  import opened TextOrder
  import opened IndexSpec

  /** What the loop has gathered so far: the two batches and the running level. */
  datatype Batch = Batch(comps: seq<CompRow>, perf: seq<PerfRow>, level: real)

  ghost predicate DatesKnown(caps: CapTable, ds: seq<string>)
  {
    forall i :: 0 <= i < |ds| ==> ds[i] in caps
  }

  /** `index_level *= (1 + daily_return)`. */
  function Compound(level: real, dailyReturn: real): real
  {
    level * (1.0 + dailyReturn)
  }

  /** `cumulative_return = index_level / base - 1.0`. */
  function Cumulative(level: real, base: real): real
    requires base != 0.0
  {
    level / base - 1.0
  }

  /** The level before the next row: the last row's level, or the base level before the first row. */
  function LastLevel(perf: seq<PerfRow>, base: real): real
  {
    if perf == [] then base else perf[|perf| - 1].indexLevel
  }

  /**
   * The return `build_index` assigns to `date`: 0 on the first processed
   * date, otherwise the overlap return against the symbols recorded in
   * `comps` for the date of the last performance row.
   */
  ghost function StepReturn(prices: PriceTable, perf: seq<PerfRow>, comps: seq<CompRow>, date: string, top: seq<CapRow>): real
  {
    if perf == [] then 0.0
    else
      var prevDate := perf[|perf| - 1].date;
      DailyReturn(prices, SymbolsOn(comps, prevDate), SymbolsOf(top), prevDate, date)
  }

  /** One pass of the loop body for `date`, whose ranked market-cap rows are `rows`. */
  ghost function Step(prices: PriceTable, base: real, b: Batch, date: string, rows: seq<CapRow>): Batch
    requires base != 0.0
  {
    var top := TopRows(rows);
    if top == [] then b
    else
      var comps := b.comps + WeightRows(date, top, 1.0 / (|top| as real));
      var dailyReturn := StepReturn(prices, b.perf, comps, date, top);
      var level := Compound(b.level, dailyReturn);
      Batch(comps, b.perf + [PerfRow(date, dailyReturn, Cumulative(level, base), level)], level)
  }

  /** The loop over the trading dates `ds`, starting from empty batches and the base level. */
  ghost function Run(caps: CapTable, prices: PriceTable, base: real, ds: seq<string>): Batch
    requires base != 0.0 && DatesKnown(caps, ds)
    decreases |ds|
  {
    if ds == [] then Batch([], [], base)
    else
      var last := ds[|ds| - 1];
      Step(prices, base, Run(caps, prices, base, ds[..|ds| - 1]), last, caps[last])
  }

  /** The trading dates with at least one market-cap row, which get a composition and a level. */
  ghost function Processed(caps: CapTable, ds: seq<string>): (p: seq<string>)
    requires DatesKnown(caps, ds)
    ensures forall d :: d in p ==> d in caps && TopRows(caps[d]) != []
    decreases |ds|
  {
    if ds == [] then []
    else
      var last := ds[|ds| - 1];
      Processed(caps, ds[..|ds| - 1]) + (if TopRows(caps[last]) == [] then [] else [last])
  }

  /** A date without market-cap rows is skipped: the batches and the level stay as they are. */
  lemma StepSkips(prices: PriceTable, base: real, b: Batch, date: string, rows: seq<CapRow>)
    requires base != 0.0 && TopRows(rows) == []
    ensures Step(prices, base, b, date, rows) == b
  {
  }

  /**
   * A date with market-cap rows appends one weight row per selected symbol
   * and one performance row whose level compounds the previous level by the
   * day's return.
   */
  lemma StepAppends(prices: PriceTable, base: real, b: Batch, date: string, rows: seq<CapRow>)
    requires base != 0.0 && TopRows(rows) != []
    ensures var top, s := TopRows(rows), Step(prices, base, b, date, rows);
      var r := StepReturn(prices, b.perf, s.comps, date, top);
      && s.comps == b.comps + WeightRows(date, top, 1.0 / (|top| as real))
      && s.level == Compound(b.level, r)
      && s.perf == b.perf + [PerfRow(date, r, Cumulative(s.level, base), s.level)]
  {
  }

  lemma RunLast(caps: CapTable, prices: PriceTable, base: real, ds: seq<string>)
    requires base != 0.0 && DatesKnown(caps, ds) && ds != []
    ensures DatesKnown(caps, ds[..|ds| - 1]) && ds[|ds| - 1] in caps
    ensures Run(caps, prices, base, ds)
         == Step(prices, base, Run(caps, prices, base, ds[..|ds| - 1]), ds[|ds| - 1], caps[ds[|ds| - 1]])
  {
  }

  /** The processed dates are the dates of `ds` with rows, at most one per date. */
  lemma {:induction false} ProcessedMembers(caps: CapTable, ds: seq<string>)
    requires DatesKnown(caps, ds)
    ensures forall d :: d in Processed(caps, ds) <==> d in ds && TopRows(caps[d]) != []
    ensures |Processed(caps, ds)| <= |ds|
    decreases |ds|
  {
    if ds != [] {
      var front, last := ds[..|ds| - 1], ds[|ds| - 1];
      ProcessedMembers(caps, front);
      assert ds == front + [last];
    }
  }

  /** The processed dates of strictly ascending dates ascend strictly. */
  lemma {:induction false} ProcessedSorted(caps: CapTable, ds: seq<string>)
    requires DatesKnown(caps, ds) && StrictlySorted(ds)
    ensures StrictlySorted(Processed(caps, ds))
    decreases |ds|
  {
    if ds != [] {
      var front, last := ds[..|ds| - 1], ds[|ds| - 1];
      assert ds == front + [last];
      ProcessedSorted(caps, front);
      if TopRows(caps[last]) != [] {
        ProcessedMembers(caps, front);
        SortedAppend(Processed(caps, front), front, last);
      }
    }
  }

  /** The processed dates are the dates of `ds` with rows, in the order of `ds`. */
  lemma ProcessedFromDates(caps: CapTable, ds: seq<string>)
    requires DatesKnown(caps, ds)
    ensures forall d :: d in Processed(caps, ds) <==> d in ds && TopRows(caps[d]) != []
    ensures StrictlySorted(ds) ==> StrictlySorted(Processed(caps, ds))
    ensures |Processed(caps, ds)| <= |ds|
  {
    ProcessedMembers(caps, ds);
    if StrictlySorted(ds) {
      ProcessedSorted(caps, ds);
    }
  }

  /** Appending to a sorted subsequence of `front` an element above all of `front` keeps it sorted. */
  lemma SortedAppend(p: seq<string>, front: seq<string>, last: string)
    requires StrictlySorted(front + [last]) && StrictlySorted(p)
    requires forall d :: d in p ==> d in front
    ensures StrictlySorted(p + [last])
  {
    var ds := front + [last];
    forall i | 0 <= i < |p| ensures LexLt(p[i], last) {
      assert p[i] in p;
      var k :| 0 <= k < |front| && front[k] == p[i];
      assert ds[k] == p[i] && ds[|ds| - 1] == last;
    }
  }

  /** Each processed date contributes one performance row, in order, and the running level is the last row's. */
  lemma {:induction false} RunPerfDates(caps: CapTable, prices: PriceTable, base: real, ds: seq<string>)
    requires base != 0.0 && DatesKnown(caps, ds)
    ensures var b, p := Run(caps, prices, base, ds), Processed(caps, ds);
      && |b.perf| == |p|
      && (forall k :: 0 <= k < |p| ==> b.perf[k].date == p[k])
      && b.level == LastLevel(b.perf, base)
    decreases |ds|
  {
    if ds != [] {
      var front, last := ds[..|ds| - 1], ds[|ds| - 1];
      RunLast(caps, prices, base, ds);
      RunPerfDates(caps, prices, base, front);
      var b := Run(caps, prices, base, front);
      if TopRows(caps[last]) == [] {
        StepSkips(prices, base, b, last, caps[last]);
      } else {
        StepAppends(prices, base, b, last, caps[last]);
      }
    }
  }

  /** Each row's level is the level before it compounded by the row's return. */
  ghost predicate Compounds(perf: seq<PerfRow>, base: real)
  {
    forall k :: 0 <= k < |perf| ==> perf[k].indexLevel == Compound(LastLevel(perf[..k], base), perf[k].dailyReturn)
  }

  lemma CompoundsAppend(perf: seq<PerfRow>, base: real, row: PerfRow)
    requires Compounds(perf, base)
    requires row.indexLevel == Compound(LastLevel(perf, base), row.dailyReturn)
    ensures Compounds(perf + [row], base)
  {
    var q := perf + [row];
    forall k | 0 <= k < |q| ensures q[k].indexLevel == Compound(LastLevel(q[..k], base), q[k].dailyReturn) {
      assert q[..k] == if k == |perf| then perf else perf[..k];
    }
  }

  /**
   * The first processed date has return 0, each level compounds the one
   * before it (the base level for the first), and each cumulative return is
   * measured against the base level.
   */
  lemma {:induction false} RunCompounds(caps: CapTable, prices: PriceTable, base: real, ds: seq<string>)
    requires base != 0.0 && DatesKnown(caps, ds)
    ensures var perf := Run(caps, prices, base, ds).perf;
      && (|perf| > 0 ==> perf[0].dailyReturn == 0.0)
      && Compounds(perf, base)
      && (forall k :: 0 <= k < |perf| ==> perf[k].cumulativeReturn == Cumulative(perf[k].indexLevel, base))
    decreases |ds|
  {
    if ds != [] {
      var front, last := ds[..|ds| - 1], ds[|ds| - 1];
      RunLast(caps, prices, base, ds);
      RunCompounds(caps, prices, base, front);
      RunPerfDates(caps, prices, base, front);
      var b := Run(caps, prices, base, front);
      if TopRows(caps[last]) == [] {
        StepSkips(prices, base, b, last, caps[last]);
      } else {
        StepAppends(prices, base, b, last, caps[last]);
        var s := Step(prices, base, b, last, caps[last]);
        CompoundsAppend(b.perf, base, s.perf[|b.perf|]);
        assert s.perf == b.perf + [s.perf[|b.perf|]];
      }
    }
  }

  /** The base level compounded by each return of `rs` in turn. */
  function CompoundAll(base: real, rs: seq<real>): real
    decreases |rs|
  {
    if rs == [] then base else Compound(CompoundAll(base, rs[..|rs| - 1]), rs[|rs| - 1])
  }

  /** The `daily_return` column of a run of performance rows. */
  function DailyReturns(perf: seq<PerfRow>): (rs: seq<real>)
    ensures |rs| == |perf| && forall k :: 0 <= k < |perf| ==> rs[k] == perf[k].dailyReturn
  {
    seq(|perf|, k requires 0 <= k < |perf| => perf[k].dailyReturn)
  }

  /**
   * Where every level compounds the one before it, each level is the base
   * level compounded by the returns up to it: the levels depend on nothing
   * but the base level and the daily returns.
   */
  lemma {:induction false} LevelIsCompoundedReturns(perf: seq<PerfRow>, base: real)
    requires Compounds(perf, base)
    ensures forall k :: 0 <= k < |perf| ==> perf[k].indexLevel == CompoundAll(base, DailyReturns(perf)[..k + 1])
    decreases |perf|
  {
    if perf != [] {
      var n := |perf| - 1;
      var front := perf[..n];
      assert Compounds(front, base) by {
        forall k | 0 <= k < |front| ensures front[k].indexLevel == Compound(LastLevel(front[..k], base), front[k].dailyReturn) {
          assert front[..k] == perf[..k];
        }
      }
      LevelIsCompoundedReturns(front, base);
      var rs := DailyReturns(perf);
      assert DailyReturns(front) == rs[..n];
      forall k | 0 <= k < |perf| ensures perf[k].indexLevel == CompoundAll(base, rs[..k + 1]) {
        var ks := rs[..k + 1];
        assert ks[..k] == rs[..k];
        if k < n {
          assert rs[..n][..k + 1] == ks;
        } else if k > 0 {
          assert rs[..n][..k] == rs[..k];
          assert perf[..k][k - 1] == perf[k - 1];
        } else {
          assert rs[..0] == [];
        }
      }
    }
  }

  lemma PositiveCompound(level: real, dailyReturn: real)
    requires level > 0.0 && dailyReturn > -1.0
    ensures Compound(level, dailyReturn) > 0.0
  {
  }

  /** Compounding a positive base level by returns above -1 keeps every level positive. */
  lemma {:induction false} LevelsPositive(perf: seq<PerfRow>, base: real)
    requires base > 0.0 && Compounds(perf, base)
    requires forall k :: 0 <= k < |perf| ==> perf[k].dailyReturn > -1.0
    ensures forall k :: 0 <= k < |perf| ==> perf[k].indexLevel > 0.0
    decreases |perf|
  {
    if perf != [] {
      var front := perf[..|perf| - 1];
      assert Compounds(front, base) by {
        forall k | 0 <= k < |front| ensures front[k].indexLevel == Compound(LastLevel(front[..k], base), front[k].dailyReturn) {
          assert front[..k] == perf[..k];
        }
      }
      LevelsPositive(front, base);
      var k := |perf| - 1;
      assert perf[..k] == front;
      PositiveCompound(LastLevel(front, base), perf[k].dailyReturn);
    }
  }

  lemma WeightRowsShape(date: string, top: seq<CapRow>, weight: real)
    ensures forall r :: r in WeightRows(date, top, weight) ==> r.date == date && r.weight == weight && r.symbol in SymbolsOf(top)
    ensures forall s :: s in SymbolsOf(top) ==> CompRow(date, s, weight) in WeightRows(date, top, weight)
  {
    var rows := WeightRows(date, top, weight);
    forall s | s in SymbolsOf(top) ensures CompRow(date, s, weight) in rows {
      var r :| r in top && r.symbol == s;
      var i :| 0 <= i < |top| && top[i] == r;
      assert rows[i] == CompRow(date, s, weight);
    }
  }

  lemma SymbolsOnAppend(comps: seq<CompRow>, date: string, top: seq<CapRow>, weight: real, d: string)
    ensures SymbolsOn(comps + WeightRows(date, top, weight), d)
         == SymbolsOn(comps, d) + (if d == date then SymbolsOf(top) else {})
  {
    WeightRowsShape(date, top, weight);
  }

  /**
   * Every composition row of a run belongs to a processed date, names one
   * of that date's top-ranked symbols and carries the weight `1/len(top_rows)`.
   */
  lemma {:induction false} RunCompositionRows(caps: CapTable, prices: PriceTable, base: real, ds: seq<string>)
    requires base != 0.0 && DatesKnown(caps, ds)
    ensures var comps, p := Run(caps, prices, base, ds).comps, Processed(caps, ds);
      forall r :: r in comps ==>
        && r.date in p
        && r.symbol in SymbolsOf(TopRows(caps[r.date]))
        && r.weight == 1.0 / (|TopRows(caps[r.date])| as real)
    decreases |ds|
  {
    if ds != [] {
      var front, last := ds[..|ds| - 1], ds[|ds| - 1];
      RunLast(caps, prices, base, ds);
      RunCompositionRows(caps, prices, base, front);
      var b := Run(caps, prices, base, front);
      var top := TopRows(caps[last]);
      if top == [] {
        StepSkips(prices, base, b, last, caps[last]);
      } else {
        StepAppends(prices, base, b, last, caps[last]);
        WeightRowsShape(last, top, 1.0 / (|top| as real));
      }
    }
  }

  /** The symbols a run records for a date are exactly that date's top-ranked symbols if it was processed, none otherwise. */
  lemma {:induction false} RunCompositionSymbols(caps: CapTable, prices: PriceTable, base: real, ds: seq<string>)
    requires base != 0.0 && DatesKnown(caps, ds)
    ensures var comps := Run(caps, prices, base, ds).comps;
      forall d :: d in caps ==>
        SymbolsOn(comps, d) == if d in Processed(caps, ds) then SymbolsOf(TopRows(caps[d])) else {}
    decreases |ds|
  {
    if ds != [] {
      var front, last := ds[..|ds| - 1], ds[|ds| - 1];
      RunLast(caps, prices, base, ds);
      RunCompositionSymbols(caps, prices, base, front);
      var b := Run(caps, prices, base, front);
      var top := TopRows(caps[last]);
      if top == [] {
        StepSkips(prices, base, b, last, caps[last]);
      } else {
        StepAppends(prices, base, b, last, caps[last]);
        var weight := 1.0 / (|top| as real);
        forall d | d in caps
          ensures SymbolsOn(b.comps + WeightRows(last, top, weight), d)
               == if d in Processed(caps, ds) then SymbolsOf(TopRows(caps[d])) else {}
        {
          SymbolsOnAppend(b.comps, last, top, weight, d);
        }
      }
    }
  }

  /** The return of the row appended for a date, given the symbols the run has recorded for the previous row's date. */
  lemma StepReturnIsOverlap(prices: PriceTable, base: real, b: Batch, date: string, rows: seq<CapRow>)
    requires base != 0.0 && TopRows(rows) != [] && b.perf != []
    requires var prevDate := b.perf[|b.perf| - 1].date; prevDate != date
    ensures var prevDate, top := b.perf[|b.perf| - 1].date, TopRows(rows);
      Step(prices, base, b, date, rows).perf[|b.perf|].dailyReturn
        == DailyReturn(prices, SymbolsOn(b.comps, prevDate), SymbolsOf(top), prevDate, date)
  {
    var prevDate, top := b.perf[|b.perf| - 1].date, TopRows(rows);
    StepAppends(prices, base, b, date, rows);
    var s := Step(prices, base, b, date, rows);
    SymbolsOnAppend(b.comps, date, top, 1.0 / (|top| as real), prevDate);
    assert SymbolsOn(s.comps, prevDate) == SymbolsOn(b.comps, prevDate);
    assert s.perf[|b.perf|].dailyReturn == StepReturn(prices, b.perf, s.comps, date, top);
  }

  /** The overlap return between two processed dates, from their top-ranked symbols and their closes. */
  ghost function OverlapReturn(caps: CapTable, prices: PriceTable, prevDate: string, currDate: string): real
    requires prevDate in caps && currDate in caps
  {
    DailyReturn(prices, SymbolsOf(TopRows(caps[prevDate])), SymbolsOf(TopRows(caps[currDate])), prevDate, currDate)
  }

  /** The return of the row a date appends after an earlier processed date is the overlap return between the two. */
  lemma RunReturnOfLast(caps: CapTable, prices: PriceTable, base: real, ds: seq<string>)
    requires base != 0.0 && DatesKnown(caps, ds) && StrictlySorted(ds) && ds != []
    requires TopRows(caps[ds[|ds| - 1]]) != [] && Processed(caps, ds[..|ds| - 1]) != []
    ensures var pf, last := Processed(caps, ds[..|ds| - 1]), ds[|ds| - 1];
      && |Run(caps, prices, base, ds).perf| == |pf| + 1
      && Run(caps, prices, base, ds).perf[|pf|].dailyReturn == OverlapReturn(caps, prices, pf[|pf| - 1], last)
  {
    var front, last := ds[..|ds| - 1], ds[|ds| - 1];
    RunLast(caps, prices, base, ds);
    RunPerfDates(caps, prices, base, front);
    RunCompositionSymbols(caps, prices, base, front);
    ProcessedFromDates(caps, front);
    var b := Run(caps, prices, base, front);
    var pf := Processed(caps, front);
    var prevDate := b.perf[|b.perf| - 1].date;
    assert prevDate == pf[|pf| - 1] && prevDate in pf;
    assert prevDate != last by {
      assert prevDate in front;
      var i :| 0 <= i < |front| && front[i] == prevDate;
      assert ds[i] == prevDate && ds[|ds| - 1] == last;
      LexLtIrreflexive(last);
    }
    StepAppends(prices, base, b, last, caps[last]);
    StepReturnIsOverlap(prices, base, b, last, caps[last]);
  }

  /**
   * After the first processed date, the day's return is the overlap return
   * between the symbols of the previous processed date and those of the
   * current one, with the prices of those two dates.
   */
  lemma {:induction false} RunReturns(caps: CapTable, prices: PriceTable, base: real, ds: seq<string>)
    requires base != 0.0 && DatesKnown(caps, ds) && StrictlySorted(ds)
    ensures var perf, p := Run(caps, prices, base, ds).perf, Processed(caps, ds);
      && |perf| == |p|
      && forall k :: 0 < k < |p| ==> perf[k].dailyReturn == OverlapReturn(caps, prices, p[k - 1], p[k])
    decreases |ds|
  {
    RunPerfDates(caps, prices, base, ds);
    if ds != [] {
      var front, last := ds[..|ds| - 1], ds[|ds| - 1];
      RunLast(caps, prices, base, ds);
      assert StrictlySorted(front);
      RunReturns(caps, prices, base, front);
      RunPerfDates(caps, prices, base, front);
      var b := Run(caps, prices, base, front);
      var pf := Processed(caps, front);
      if TopRows(caps[last]) == [] {
        StepSkips(prices, base, b, last, caps[last]);
      } else {
        StepAppends(prices, base, b, last, caps[last]);
        var perf, p := Run(caps, prices, base, ds).perf, Processed(caps, ds);
        assert p == pf + [last];
        assert perf[..|pf|] == b.perf;
        if pf != [] {
          RunReturnOfLast(caps, prices, base, ds);
        }
        ReturnsExtend(caps, prices, b.perf, pf, perf, last);
      }
    }
  }

  /** Rows whose returns are the overlap returns of `pf`, followed by the row of `last`, have the overlap returns of `pf + [last]`. */
  lemma ReturnsExtend(caps: CapTable, prices: PriceTable, front: seq<PerfRow>, pf: seq<string>, perf: seq<PerfRow>, last: string)
    requires (forall d :: d in pf ==> d in caps) && last in caps
    requires |front| == |pf| && |perf| == |pf| + 1 && perf[..|pf|] == front
    requires forall k :: 0 < k < |pf| ==> front[k].dailyReturn == OverlapReturn(caps, prices, pf[k - 1], pf[k])
    requires pf != [] ==> perf[|pf|].dailyReturn == OverlapReturn(caps, prices, pf[|pf| - 1], last)
    ensures var p := pf + [last];
      forall k :: 0 < k < |p| ==> perf[k].dailyReturn == OverlapReturn(caps, prices, p[k - 1], p[k])
  {
    var p := pf + [last];
    forall k | 0 < k < |p| ensures perf[k].dailyReturn == OverlapReturn(caps, prices, p[k - 1], p[k]) {
      if k < |pf| {
        assert perf[k] == front[k] && p[k] == pf[k] && p[k - 1] == pf[k - 1];
      }
    }
  }

  /** With a positive base level and positive closes, the index level stays positive. */
  lemma RunLevelsPositive(caps: CapTable, prices: PriceTable, base: real, ds: seq<string>)
    requires base > 0.0 && DatesKnown(caps, ds) && StrictlySorted(ds) && PositivePrices(prices)
    ensures var perf := Run(caps, prices, base, ds).perf;
      forall k :: 0 <= k < |perf| ==> perf[k].indexLevel > 0.0
  {
    RunCompounds(caps, prices, base, ds);
    RunReturns(caps, prices, base, ds);
    var perf, p := Run(caps, prices, base, ds).perf, Processed(caps, ds);
    forall k | 0 <= k < |perf| ensures perf[k].dailyReturn > -1.0 {
      if k > 0 {
        DailyReturnAboveMinusOne(prices, SymbolsOf(TopRows(caps[p[k - 1]])), SymbolsOf(TopRows(caps[p[k]])), p[k - 1], p[k]);
        assert perf[k].dailyReturn == OverlapReturn(caps, prices, p[k - 1], p[k]);
      }
    }
    LevelsPositive(perf, base);
  }
}
