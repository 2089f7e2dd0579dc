/**
 * `get_composition_changes`: between each two consecutive composition
 * dates of a range, the symbols that entered and exited the index.
 */
module CompositionChanges {
  import opened Wrappers
  import opened TextOrder
  import opened Dates
  import opened IndexSpec
  import opened IndexBuild

  /** An entry `{date, entered, exited}` of the change list. */
  datatype Change = Change(date: string, entered: seq<Symbol>, exited: seq<Symbol>)

  /** The dates `index_compositions` holds a row for. */
  function DatesOf(table: CompositionTable): (ds: set<string>)
    ensures forall k :: k in table ==> k.0 in ds
    ensures forall d :: d in ds ==> SymbolsAt(table, d) != {}
  {
    var ds := set k | k in table :: k.0;
    assert forall d :: d in ds ==> SymbolsAt(table, d) != {} by {
      forall d | d in ds ensures SymbolsAt(table, d) != {} {
        var k :| k in table && k.0 == d;
        assert k.1 in SymbolsAt(table, d);
      }
    }
    ds
  }

  /**
   * `SELECT DISTINCT date FROM index_compositions WHERE date BETWEEN ? AND ?
   * ORDER BY date`; unlike the other range queries, a missing end bound is
   * not replaced by the start, so it selects nothing.
   */
  ghost function CompositionDates(table: CompositionTable, lo: Option<string>, hi: Option<string>): (ds: seq<string>)
    ensures StrictlySorted(ds)
    ensures forall d :: d in ds <==> d in DatesOf(table) && InDateRange(lo, hi, d)
  {
    Sorted(InRange(DatesOf(table), lo, hi))
  }

  /** Two sets with no difference either way are equal. */
  lemma NoDifference(a: set<Symbol>, b: set<Symbol>)
    ensures b - a == {} && a - b == {} <==> a == b
  {
    if b - a == {} && a - b == {} {
      assert forall s :: s in a <==> s in b by {
        forall s ensures s in a <==> s in b {
          assert s !in b - a && s !in a - b;
        }
      }
    }
  }

  /**
   * The entry of `date` against the composition date before it: the
   * entered and exited symbols, each sorted, and no entry when the two
   * dates hold the same symbols.
   */
  ghost function DiffAt(table: CompositionTable, prevDate: string, date: string): (r: seq<Change>)
    ensures |r| <= 1
    ensures r == [] <==> SymbolsAt(table, prevDate) == SymbolsAt(table, date)
    ensures r != [] ==> r[0].date == date && (r[0].entered != [] || r[0].exited != [])
  {
    NoDifference(SymbolsAt(table, prevDate), SymbolsAt(table, date));
    Diff(date, SymbolsAt(table, prevDate), SymbolsAt(table, date))
  }

  /** The entry of `date`, holding `after`, against a date holding `before`. */
  ghost function Diff(date: string, before: set<Symbol>, after: set<Symbol>): seq<Change>
  {
    var entered, exited := Sorted(after - before), Sorted(before - after);
    if entered != [] || exited != [] then [Change(date, entered, exited)] else []
  }

  /**
   * An entry lists, each sorted and each once, exactly the symbols held on
   * its date and not the date before (entered), and the other way round
   * (exited).
   */
  lemma DiffAtContents(table: CompositionTable, prevDate: string, date: string)
    requires DiffAt(table, prevDate, date) != []
    ensures var c := DiffAt(table, prevDate, date)[0];
      && StrictlySorted(c.entered) && StrictlySorted(c.exited)
      && (forall s :: s in c.entered <==> s in SymbolsAt(table, date) && s !in SymbolsAt(table, prevDate))
      && (forall s :: s in c.exited <==> s in SymbolsAt(table, prevDate) && s !in SymbolsAt(table, date))
      && (forall s :: s in c.entered ==> s !in c.exited)
      && (forall s :: s in SymbolsAt(table, prevDate) || s in SymbolsAt(table, date) <==>
            s in c.entered || s in c.exited || (s in SymbolsAt(table, prevDate) && s in SymbolsAt(table, date)))
  {
  }

  /** The change list over some dates: each date from the second on against the one before it. */
  ghost function ChangesOver(table: CompositionTable, ds: seq<string>): seq<Change>
    decreases |ds|
  {
    if |ds| < 2 then []
    else ChangesOver(table, ds[..|ds| - 1]) + DiffAt(table, ds[|ds| - 2], ds[|ds| - 1])
  }

  /** The change list `get_composition_changes` returns for normalized bounds. */
  ghost function Changes(table: CompositionTable, lo: Option<string>, hi: Option<string>): seq<Change>
  {
    ChangesOver(table, CompositionDates(table, lo, hi))
  }

  /** Every entry compares one date of the list with the date just before it. */
  lemma {:induction false} ChangesSound(table: CompositionTable, ds: seq<string>)
    ensures forall c :: c in ChangesOver(table, ds) ==>
      exists i :: 0 < i < |ds| && [c] == DiffAt(table, ds[i - 1], ds[i])
    decreases |ds|
  {
    if |ds| >= 2 {
      var front := ds[..|ds| - 1];
      var rf := ChangesOver(table, front);
      var last := DiffAt(table, ds[|ds| - 2], ds[|ds| - 1]);
      ChangesSound(table, front);
      assert ChangesOver(table, ds) == rf + last;
      forall c | c in rf + last
        ensures exists i :: 0 < i < |ds| && [c] == DiffAt(table, ds[i - 1], ds[i])
      {
        if c in rf {
          var i :| 0 < i < |front| && [c] == DiffAt(table, front[i - 1], front[i]);
          assert ds[i - 1] == front[i - 1] && ds[i] == front[i];
        } else {
          var i := |ds| - 1;
          assert last == [last[0]] && c == last[0];
          assert [c] == DiffAt(table, ds[i - 1], ds[i]);
        }
      }
    }
  }

  /** Every date whose symbols differ from the date before it has its entry. */
  lemma {:induction false} ChangesComplete(table: CompositionTable, ds: seq<string>)
    ensures forall i :: 0 < i < |ds| && SymbolsAt(table, ds[i - 1]) != SymbolsAt(table, ds[i]) ==>
      DiffAt(table, ds[i - 1], ds[i])[0] in ChangesOver(table, ds)
    decreases |ds|
  {
    if |ds| >= 2 {
      var front := ds[..|ds| - 1];
      var rf := ChangesOver(table, front);
      var last := DiffAt(table, ds[|ds| - 2], ds[|ds| - 1]);
      ChangesComplete(table, front);
      assert ChangesOver(table, ds) == rf + last;
      forall i | 0 < i < |ds| && SymbolsAt(table, ds[i - 1]) != SymbolsAt(table, ds[i])
        ensures DiffAt(table, ds[i - 1], ds[i])[0] in rf + last
      {
        if i < |ds| - 1 {
          assert ds[i - 1] == front[i - 1] && ds[i] == front[i];
          assert DiffAt(table, ds[i - 1], ds[i])[0] in rf;
        } else {
          assert last[0] in last;
        }
      }
    }
  }

  /** Entries whose dates ascend. */
  ghost predicate DatesAscend(r: seq<Change>)
  {
    forall j, k :: 0 <= j < k < |r| ==> LexLt(r[j].date, r[k].date)
  }

  /** Appending at most one entry dated after all others keeps the dates ascending. */
  lemma AppendLater(r: seq<Change>, last: seq<Change>, x: string)
    requires DatesAscend(r) && (forall c :: c in r ==> LexLt(c.date, x))
    requires |last| <= 1 && (last != [] ==> last[0].date == x)
    ensures DatesAscend(r + last)
  {
    var q := r + last;
    forall j, k | 0 <= j < k < |q| ensures LexLt(q[j].date, q[k].date) {
      assert q[j] == r[j];
      if k < |r| {
        assert q[k] == r[k];
      } else {
        assert q[k] == last[0];
        assert r[j] in r;
      }
    }
  }

  /** Every entry is dated with a date of the list other than the first. */
  lemma ChangeDatesInList(table: CompositionTable, ds: seq<string>)
    ensures forall c :: c in ChangesOver(table, ds) ==> exists i :: 0 < i < |ds| && c.date == ds[i]
  {
    ChangesSound(table, ds);
    forall c | c in ChangesOver(table, ds) ensures exists i :: 0 < i < |ds| && c.date == ds[i] {
      var i :| 0 < i < |ds| && [c] == DiffAt(table, ds[i - 1], ds[i]);
    }
  }

  /** Entries come in date order, so at most one per date. */
  lemma {:induction false} ChangesAscending(table: CompositionTable, ds: seq<string>)
    requires StrictlySorted(ds)
    ensures DatesAscend(ChangesOver(table, ds))
    decreases |ds|
  {
    if |ds| >= 2 {
      var front := ds[..|ds| - 1];
      var rf := ChangesOver(table, front);
      var last := DiffAt(table, ds[|ds| - 2], ds[|ds| - 1]);
      ChangesAscending(table, front);
      ChangeDatesInList(table, front);
      forall c | c in rf ensures LexLt(c.date, ds[|ds| - 1]) {
        var i :| 0 < i < |front| && c.date == front[i];
        assert c.date == ds[i];
      }
      AppendLater(rf, last, ds[|ds| - 1]);
      assert ChangesOver(table, ds) == rf + last;
    }
  }

  /** The first composition date of the range only serves as the starting point: no entry carries it. */
  lemma FirstDateNoEntry(table: CompositionTable, lo: Option<string>, hi: Option<string>)
    ensures var ds := CompositionDates(table, lo, hi);
      forall c :: c in Changes(table, lo, hi) ==> ds != [] && c.date != ds[0]
  {
    var ds := CompositionDates(table, lo, hi);
    ChangeDatesInList(table, ds);
    forall c | c in Changes(table, lo, hi) ensures ds != [] && c.date != ds[0] {
      var i :| 0 < i < |ds| && c.date == ds[i];
      assert LexLt(ds[0], ds[i]);
      LexLtIrreflexive(ds[0]);
    }
  }
}
