/**
 * Text ordering as SQLite's BINARY collation and Python's `sorted` on `str`
 * apply it: lexicographic by code point, a proper prefix first. `ORDER BY
 * date`, `ORDER BY symbol`, `BETWEEN` on date text and `sorted(list(...))`
 * in the index service all use this order.
 */
module TextOrder {

  predicate LexLt(a: string, b: string)
  {
    if |a| == 0 then |b| > 0
    else |b| > 0 && (a[0] < b[0] || (a[0] == b[0] && LexLt(a[1..], b[1..])))
  }

  predicate LexLe(a: string, b: string)
  {
    a == b || LexLt(a, b)
  }

  lemma {:induction false} LexLtIrreflexive(a: string)
    ensures !LexLt(a, a)
  {
    if |a| > 0 {
      LexLtIrreflexive(a[1..]);
    }
  }

  lemma {:induction false} LexLtTransitive(a: string, b: string, c: string)
    requires LexLt(a, b) && LexLt(b, c)
    ensures LexLt(a, c)
  {
    if |a| > 0 && a[0] == b[0] && b[0] == c[0] {
      LexLtTransitive(a[1..], b[1..], c[1..]);
    }
  }

  lemma {:induction false} LexLtTotal(a: string, b: string)
    ensures a == b || LexLt(a, b) || LexLt(b, a)
  {
    if |a| > 0 && |b| > 0 && a[0] == b[0] {
      LexLtTotal(a[1..], b[1..]);
      if a[1..] == b[1..] {
        assert a == [a[0]] + a[1..];
        assert b == [b[0]] + b[1..];
      }
    }
  }

  lemma LexLtAsymmetric(a: string, b: string)
    requires LexLt(a, b)
    ensures !LexLt(b, a)
  {
    if LexLt(b, a) {
      LexLtTransitive(a, b, a);
      LexLtIrreflexive(a);
    }
  }

  /** Comparing two texts whose first parts have the same length decides on the first parts, then on the rest. */
  lemma {:induction false} LexLtConcat(p: string, q: string, x: string, y: string)
    requires |p| == |q|
    ensures LexLt(p + x, q + y) <==> LexLt(p, q) || (p == q && LexLt(x, y))
  {
    if |p| == 0 {
      assert p + x == x && q + y == y;
    } else {
      assert (p + x)[1..] == p[1..] + x;
      assert (q + y)[1..] == q[1..] + y;
      LexLtConcat(p[1..], q[1..], x, y);
      assert p == [p[0]] + p[1..];
      assert q == [q[0]] + q[1..];
    }
  }

  /** Ascending without repetitions: the shape of every ordered result of the service. */
  ghost predicate StrictlySorted(s: seq<string>)
  {
    forall i, j :: 0 <= i < j < |s| ==> LexLt(s[i], s[j])
  }

  lemma HeadBelowRest(s: seq<string>)
    requires StrictlySorted(s) && s != []
    ensures forall z :: z in s[1..] ==> LexLt(s[0], z)
  {
    forall z | z in s[1..] ensures LexLt(s[0], z) {
      var k :| 0 <= k < |s[1..]| && s[1..][k] == z;
      assert s[k + 1] == z;
    }
  }

  lemma PrependSorted(y: string, t: seq<string>)
    requires StrictlySorted(t)
    requires forall z :: z in t ==> LexLt(y, z)
    ensures StrictlySorted([y] + t)
  {
    var s := [y] + t;
    forall i, j | 0 <= i < j < |s| ensures LexLt(s[i], s[j]) {
      assert s[j] == t[j - 1];
      if i > 0 {
        assert s[i] == t[i - 1];
      }
    }
  }

  /** Places `x` into an ascending sequence that does not hold it yet. */
  function Insert(s: seq<string>, x: string): (r: seq<string>)
    requires StrictlySorted(s) && x !in s
    ensures StrictlySorted(r)
    ensures |r| == |s| + 1
    ensures forall y :: y in r <==> y in s || y == x
  {
    if s == [] then [x]
    else if LexLt(x, s[0]) then
      HeadBelowRest(s);
      assert forall z :: z in s ==> z == s[0] || z in s[1..];
      assert forall z :: z in s[1..] ==> LexLt(x, z) by {
        forall z | z in s[1..] ensures LexLt(x, z) { LexLtTransitive(x, s[0], z); }
      }
      PrependSorted(x, s);
      [x] + s
    else
      assert s == [s[0]] + s[1..];
      var t := Insert(s[1..], x);
      LexLtTotal(x, s[0]);
      HeadBelowRest(s);
      PrependSorted(s[0], t);
      [s[0]] + t
  }

  /** The ascending listing of a finite set of strings. */
  ghost function Sorted(s: set<string>): (r: seq<string>)
    ensures StrictlySorted(r)
    ensures |r| == |s|
    ensures forall y :: y in r <==> y in s
    decreases s
  {
    if s == {} then []
    else
      var x :| x in s;
      Insert(Sorted(s - {x}), x)
  }

  lemma TailMembers(s: seq<string>)
    requires StrictlySorted(s) && s != []
    ensures StrictlySorted(s[1..])
    ensures forall y :: y in s[1..] <==> y in s && y != s[0]
  {
    HeadBelowRest(s);
    LexLtIrreflexive(s[0]);
    assert s == [s[0]] + s[1..];
    forall i, j | 0 <= i < j < |s[1..]| ensures LexLt(s[1..][i], s[1..][j]) {
      assert s[1..][i] == s[i + 1] && s[1..][j] == s[j + 1];
    }
  }

  /** Two ascending sequences with the same elements are the same sequence. */
  lemma {:induction false} SortedUnique(a: seq<string>, b: seq<string>)
    requires StrictlySorted(a) && StrictlySorted(b)
    requires |a| == |b|
    requires forall y :: y in a <==> y in b
    ensures a == b
  {
    if a != [] {
      assert a[0] in b;
      TailMembers(a);
      TailMembers(b);
      HeadBelowRest(a);
      HeadBelowRest(b);
      if a[0] != b[0] {
        assert a[0] in b[1..];
        assert b[0] in a[1..];
        LexLtAsymmetric(a[0], b[0]);
        assert false;
      }
      SortedUnique(a[1..], b[1..]);
      assert a == [a[0]] + a[1..];
      assert b == [b[0]] + b[1..];
    }
  }

  /** Sorts a set of strings by insertion, in whatever order the set yields them. */
  method SortText(s: set<string>) returns (r: seq<string>)
    ensures r == Sorted(s)
  {
    r := [];
    var rest := s;
    while rest != {}
      invariant rest <= s
      invariant StrictlySorted(r)
      invariant |r| + |rest| == |s|
      invariant forall y :: y in r <==> y in s && y !in rest
      decreases |rest|
    {
      var x :| x in rest;
      r := Insert(r, x);
      rest := rest - {x};
    }
    SortedUnique(r, Sorted(s));
  }
}
