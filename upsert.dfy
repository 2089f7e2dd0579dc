/**
 * `executemany("INSERT OR REPLACE ...", rows)`: the rows are applied in
 * order to a table keyed by the table's primary key, each one replacing
 * the row held under its key.
 */
module Upsert {

  function KeysOf<K, V>(rows: seq<(K, V)>): set<K>
  {
    set i | 0 <= i < |rows| :: rows[i].0
  }

  lemma KeysOfSplit<K, V>(rows: seq<(K, V)>)
    requires rows != []
    ensures KeysOf(rows) == KeysOf(rows[..|rows| - 1]) + {rows[|rows| - 1].0}
  {
    var front := rows[..|rows| - 1];
    forall k | k in KeysOf(rows) ensures k in KeysOf(front) + {rows[|rows| - 1].0} {
      var i :| 0 <= i < |rows| && rows[i].0 == k;
      if i < |rows| - 1 { assert front[i] == rows[i]; }
    }
    forall k | k in KeysOf(front) ensures k in KeysOf(rows) {
      var i :| 0 <= i < |front| && front[i].0 == k;
      assert rows[i] == front[i];
    }
  }

  function UpsertMany<K, V>(table: map<K, V>, rows: seq<(K, V)>): (r: map<K, V>)
    ensures r.Keys == table.Keys + KeysOf(rows)
    decreases |rows|
  {
    if rows == [] then table
    else
      KeysOfSplit(rows);
      UpsertMany(table, rows[..|rows| - 1])[rows[|rows| - 1].0 := rows[|rows| - 1].1]
  }

  /** A key no row names keeps the value it had. */
  lemma {:induction false} UpsertKeepsOthers<K, V>(table: map<K, V>, rows: seq<(K, V)>, k: K)
    requires k in table && k !in KeysOf(rows)
    ensures UpsertMany(table, rows)[k] == table[k]
    decreases |rows|
  {
    if rows != [] {
      KeysOfSplit(rows);
      UpsertKeepsOthers(table, rows[..|rows| - 1], k);
    }
  }

  /** A key whose every row carries `v` ends up holding `v`, whatever it held before. */
  lemma {:induction false} UpsertWrites<K, V>(table: map<K, V>, rows: seq<(K, V)>, k: K, v: V)
    requires k in KeysOf(rows)
    requires forall i :: 0 <= i < |rows| && rows[i].0 == k ==> rows[i].1 == v
    ensures UpsertMany(table, rows)[k] == v
    decreases |rows|
  {
    var last := rows[|rows| - 1];
    if last.0 != k {
      var front := rows[..|rows| - 1];
      var i :| 0 <= i < |rows| && rows[i].0 == k;
      assert front[i] == rows[i];
      UpsertWrites(table, front, k, v);
    }
  }

  /** The value left under a key some row names does not depend on the table written to. */
  lemma {:induction false} UpsertValueIndependent<K, V>(t1: map<K, V>, t2: map<K, V>, rows: seq<(K, V)>, k: K)
    requires k in KeysOf(rows)
    ensures UpsertMany(t1, rows)[k] == UpsertMany(t2, rows)[k]
    decreases |rows|
  {
    var last := rows[|rows| - 1];
    if last.0 != k {
      var front := rows[..|rows| - 1];
      var i :| 0 <= i < |rows| && rows[i].0 == k;
      assert front[i] == rows[i];
      UpsertValueIndependent(t1, t2, front, k);
    }
  }

  /** Replaying the same batch leaves the table as the first replay left it. */
  lemma UpsertIdempotent<K, V>(table: map<K, V>, rows: seq<(K, V)>)
    ensures UpsertMany(UpsertMany(table, rows), rows) == UpsertMany(table, rows)
  {
    var once := UpsertMany(table, rows);
    var twice := UpsertMany(once, rows);
    forall k | k in twice.Keys ensures twice[k] == once[k] {
      if k in KeysOf(rows) {
        UpsertValueIndependent(once, table, rows, k);
      } else {
        UpsertKeepsOthers(once, rows, k);
      }
    }
  }
}
