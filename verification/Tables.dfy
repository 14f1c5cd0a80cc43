/** Rows, keyed target tables, and what one upserted row does to a table. */
module Tables {
  import opened Wrappers

  /** A driver value.  Bytes is what some drivers return for text columns. */
  datatype Value =
    | Null
    | Int(i: int)
    | Float(f: real)
    | Str(s: string)
    | Time(ns: nat)
    | Bytes(b: string)
    | Other(tag: int)

  type Column = string
  type Row = map<Column, Value>

  /** Indexing a row by a column it lacks yields NULL. */
  function Get(r: Row, c: Column): Value { if c in r then r[c] else Null }

  type Key = seq<Value>
  type Table = map<Key, Row>

  /** The configured keys, the synced columns, and what an insert puts in the other target columns. */
  datatype Schema = Schema(keys: seq<Column>, cols: set<Column>, defaults: Row)

  /** The engine refuses a run whose key columns are not all among the source columns. */
  ghost predicate ValidSchema(s: Schema) { forall k :: k in s.keys ==> k in s.cols }

  /** A row's values in these columns: its key, or its part of an argument list. */
  function ValuesOf(columns: seq<Column>, r: Row): (vs: seq<Value>)
    ensures |vs| == |columns|
    ensures forall i :: 0 <= i < |vs| ==> vs[i] == if columns[i] in r then r[columns[i]] else Null
  {
    seq(|columns|, i requires 0 <= i < |columns| => Get(r, columns[i]))
  }

  /** The values an insert lists. */
  function Synced(s: Schema, r: Row): Row { map c | c in s.cols :: Get(r, c) }

  /** The SET list: synced columns that are not keys. */
  function Assigned(s: Schema, r: Row): Row { map c | c in s.cols && c !in s.keys :: Get(r, c) }

  function UpsertRow(s: Schema, t: Table, r: Row): Table {
    var k := ValuesOf(s.keys, r);
    t[k := if k in t then t[k] + Assigned(s, r) else s.defaults + Synced(s, r)]
  }

  /** One row after the other, in stream order. */
  function UpsertAll(s: Schema, t: Table, rows: seq<Row>): Table {
    if rows == [] then t else UpsertRow(s, UpsertAll(s, t, rows[..|rows| - 1]), rows[|rows| - 1])
  }

  /** The key under which an insert puts a row: that of the values it lists. */
  function InsertKey(s: Schema, r: Row): Key { ValuesOf(s.keys, Synced(s, r)) }

  lemma InsertKeyIs(s: Schema, r: Row)
    requires ValidSchema(s)
    ensures InsertKey(s, r) == ValuesOf(s.keys, r)
  {
    forall i | 0 <= i < |s.keys|
      ensures InsertKey(s, r)[i] == ValuesOf(s.keys, r)[i]
    {
      assert s.keys[i] in s.keys;
    }
  }

  /** A plain insert: any key already present fails it. */
  function InsertAll(s: Schema, t: Table, rows: seq<Row>): Option<Table> {
    if rows == [] then Some(t)
    else
      var r := rows[|rows| - 1];
      var t' :- InsertAll(s, t, rows[..|rows| - 1]);
      if InsertKey(s, r) in t' then None else Some(t'[InsertKey(s, r) := s.defaults + Synced(s, r)])
  }

  /** Nothing that was there is changed or gone. */
  ghost predicate Extends(t: Table, t': Table) { forall k :: k in t ==> k in t' && t'[k] == t[k] }

  lemma {:induction false} InsertAllExtends(s: Schema, t: Table, rows: seq<Row>)
    ensures InsertAll(s, t, rows).Some? ==> Extends(t, InsertAll(s, t, rows).value)
  {
    if rows != [] { InsertAllExtends(s, t, rows[..|rows| - 1]); }
  }

  /** Each target row carries its own key values. */
  ghost predicate WellKeyed(s: Schema, t: Table) {
    forall k :: k in t ==>
      |k| == |s.keys| && forall i :: 0 <= i < |s.keys| ==> s.keys[i] in t[k] && t[k][s.keys[i]] == k[i]
  }

  predicate Touches(s: Schema, rows: seq<Row>, k: Key) { exists r :: r in rows && ValuesOf(s.keys, r) == k }

  function LastWith(s: Schema, rows: seq<Row>, k: Key): (r: Row)
    requires Touches(s, rows, k)
    ensures r in rows && ValuesOf(s.keys, r) == k
  {
    var last := rows[|rows| - 1];
    if ValuesOf(s.keys, last) == k then last
    else
      assert rows == rows[..|rows| - 1] + [last];
      LastWith(s, rows[..|rows| - 1], k)
  }

  lemma UpsertAllSnoc(s: Schema, t: Table, rows: seq<Row>, r: Row)
    ensures UpsertAll(s, t, rows + [r]) == UpsertRow(s, UpsertAll(s, t, rows), r)
  {
  }

  lemma {:induction false} UpsertAllConcat(s: Schema, t: Table, a: seq<Row>, b: seq<Row>)
    ensures UpsertAll(s, t, a + b) == UpsertAll(s, UpsertAll(s, t, a), b)
  {
    if b == [] {
      assert a + b == a;
    } else {
      var b' := b[..|b| - 1];
      UpsertAllConcat(s, t, a, b');
      assert a + b == (a + b') + [b[|b| - 1]];
      UpsertAllSnoc(s, t, a + b', b[|b| - 1]);
    }
  }

  /** A matched row already holds the key values, so the SET list may as well list every synced column. */
  lemma SetListSuffices(s: Schema, t: Table, r: Row)
    requires ValidSchema(s) && WellKeyed(s, t) && ValuesOf(s.keys, r) in t
    ensures t[ValuesOf(s.keys, r)] + Assigned(s, r) == t[ValuesOf(s.keys, r)] + Synced(s, r)
  {
  }

  lemma UpsertRowKeepsKeys(s: Schema, t: Table, r: Row)
    requires ValidSchema(s) && WellKeyed(s, t)
    ensures WellKeyed(s, UpsertRow(s, t, r))
  {
    var k := ValuesOf(s.keys, r);
    var t' := UpsertRow(s, t, r);
    if k in t { SetListSuffices(s, t, r); }
    forall i | 0 <= i < |s.keys|
      ensures s.keys[i] in t'[k] && t'[k][s.keys[i]] == k[i]
    {
      assert s.keys[i] in s.cols;
    }
  }

  lemma {:induction false} UpsertAllKeepsKeys(s: Schema, t: Table, rows: seq<Row>)
    requires ValidSchema(s) && WellKeyed(s, t)
    ensures WellKeyed(s, UpsertAll(s, t, rows))
  {
    if rows != [] {
      UpsertAllKeepsKeys(s, t, rows[..|rows| - 1]);
      UpsertRowKeepsKeys(s, UpsertAll(s, t, rows[..|rows| - 1]), rows[|rows| - 1]);
    }
  }

  /** `y` has the row's own value in every synced column, NULL in one the row lacks, and is as `x` otherwise. */
  ghost predicate Overlaid(s: Schema, x: Row, r: Row, y: Row) {
    y.Keys == x.Keys + s.cols
    && forall c :: c in y ==> y[c] == if c !in s.cols then x[c] else if c in r then r[c] else Null
  }

  lemma OverlaidIs(s: Schema, x: Row, r: Row, y: Row)
    ensures Overlaid(s, x, r, y) <==> y == x + Synced(s, r)
  {
  }

  /** The row a key ends up with, said without the fold: what was there (or the defaults), overlaid
      with the last streamed row of that key. */
  ghost predicate LastWins(s: Schema, t: Table, rows: seq<Row>, k: Key, t': Table) {
    if Touches(s, rows, k) then
      k in t' && Overlaid(s, if k in t then t[k] else s.defaults, LastWith(s, rows, k), t'[k])
    else
      (k in t' <==> k in t) && (k in t ==> t'[k] == t[k])
  }

  lemma OverlaidTwice(s: Schema, x: Row, r: Row, y: Row, r': Row, z: Row)
    requires Overlaid(s, x, r, y)
    ensures Overlaid(s, y, r', z) <==> Overlaid(s, x, r', z)
  {
  }

  /** No later row has the key. */
  lemma {:induction false} LastIsLast(s: Schema, rows: seq<Row>, k: Key) returns (i: nat)
    requires Touches(s, rows, k)
    ensures i < |rows| && LastWith(s, rows, k) == rows[i]
    ensures forall j :: i < j < |rows| ==> ValuesOf(s.keys, rows[j]) != k
  {
    var n := |rows| - 1;
    if ValuesOf(s.keys, rows[n]) == k {
      i := n;
    } else {
      assert rows == rows[..n] + [rows[n]];
      i := LastIsLast(s, rows[..n], k);
    }
  }

  lemma TouchesSnoc(s: Schema, rows: seq<Row>, r: Row, k: Key)
    ensures Touches(s, rows + [r], k) <==> ValuesOf(s.keys, r) == k || Touches(s, rows, k)
    ensures Touches(s, rows + [r], k) ==>
              LastWith(s, rows + [r], k) == if ValuesOf(s.keys, r) == k then r else LastWith(s, rows, k)
  {
  }

  lemma LastWinsStep(s: Schema, t: Table, rows: seq<Row>, k: Key, t': Table, r: Row)
    requires ValidSchema(s) && WellKeyed(s, t') && LastWins(s, t, rows, k, t')
    ensures LastWins(s, t, rows + [r], k, UpsertRow(s, t', r))
  {
    hide Touches, LastWith, ValuesOf, Overlaid;
    TouchesSnoc(s, rows, r, k);
    if ValuesOf(s.keys, r) == k {
      if k in t' { SetListSuffices(s, t', r); }
      hide WellKeyed;
      var x, y := if k in t then t[k] else s.defaults, UpsertRow(s, t', r)[k];
      OverlaidIs(s, if k in t' then t'[k] else s.defaults, r, y);
      if Touches(s, rows, k) { OverlaidTwice(s, x, LastWith(s, rows, k), t'[k], r, y); }
    }
  }

  lemma NothingWins(s: Schema, t: Table, k: Key)
    ensures LastWins(s, t, [], k, t)
  {
  }

  lemma {:induction false} UpsertAllLastWins(s: Schema, t: Table, rows: seq<Row>, k: Key)
    requires ValidSchema(s) && WellKeyed(s, t)
    ensures LastWins(s, t, rows, k, UpsertAll(s, t, rows))
  {
    hide LastWins, WellKeyed;
    if rows != [] {
      var rows', r := rows[..|rows| - 1], rows[|rows| - 1];
      UpsertAllLastWins(s, t, rows', k);
      UpsertAllKeepsKeys(s, t, rows');
      LastWinsStep(s, t, rows', k, UpsertAll(s, t, rows'), r);
      assert rows == rows' + [r];
    } else {
      NothingWins(s, t, k);
    }
  }

  lemma SameTable(t: Table, u: Table)
    requires forall k :: k in t <==> k in u
    requires forall k :: k in t && k in u ==> t[k] == u[k]
    ensures t == u
  {
  }

  /** Replay absorption: whatever rows of the sequence were already written, in any order and any
      number of times, writing the whole sequence ends in the same table. */
  lemma ReplayAbsorbed(s: Schema, t: Table, done: seq<Row>, rows: seq<Row>)
    requires ValidSchema(s) && WellKeyed(s, t)
    requires forall r :: r in done ==> r in rows
    ensures UpsertAll(s, UpsertAll(s, t, done), rows) == UpsertAll(s, t, rows)
  {
    hide WellKeyed, UpsertAll;
    var mid := UpsertAll(s, t, done);
    UpsertAllKeepsKeys(s, t, done);
    var a, b := UpsertAll(s, mid, rows), UpsertAll(s, t, rows);
    forall k
      ensures k in a <==> k in b
      ensures k in a && k in b ==> a[k] == b[k]
    {
      UpsertAllLastWins(s, t, done, k);
      UpsertAllLastWins(s, mid, rows, k);
      UpsertAllLastWins(s, t, rows, k);
      if Touches(s, done, k) {
        assert Touches(s, rows, k);
      }
    }
    SameTable(a, b);
  }

  ghost predicate DistinctKeys(s: Schema, rows: seq<Row>) {
    forall i, j :: 0 <= i < j < |rows| ==> ValuesOf(s.keys, rows[i]) != ValuesOf(s.keys, rows[j])
  }

  /** No two of the rows go in under one key. */
  ghost predicate DistinctInserts(s: Schema, rows: seq<Row>) {
    forall i, j :: 0 <= i < j < |rows| ==> InsertKey(s, rows[i]) != InsertKey(s, rows[j])
  }

  /** No row of the table has the key of one of these rows. */
  ghost predicate FreeKeys(s: Schema, t: Table, rows: seq<Row>) {
    forall i :: 0 <= i < |rows| ==> InsertKey(s, rows[i]) !in t
  }

  ghost predicate Inserts(s: Schema, rows: seq<Row>, k: Key) {
    exists i :: 0 <= i < |rows| && InsertKey(s, rows[i]) == k
  }

  lemma OneMoreKey(s: Schema, t: Table, rows: seq<Row>, r: Row, k: Key)
    ensures Inserts(s, rows + [r], k) <==> Inserts(s, rows, k) || InsertKey(s, r) == k
    ensures DistinctInserts(s, rows + [r]) <==> DistinctInserts(s, rows) && !Inserts(s, rows, InsertKey(s, r))
    ensures FreeKeys(s, t, rows + [r]) <==> FreeKeys(s, t, rows) && InsertKey(s, r) !in t
  {
    hide InsertKey;
    var all := rows + [r];
    assert all[|rows|] == r && forall i :: 0 <= i < |rows| ==> all[i] == rows[i];
    if i :| 0 <= i < |rows| && InsertKey(s, rows[i]) == k {
      assert InsertKey(s, all[i]) == k;
    }
  }

  lemma {:induction false} InsertedKeys(s: Schema, t: Table, rows: seq<Row>, k: Key)
    requires InsertAll(s, t, rows).Some?
    ensures k in InsertAll(s, t, rows).value <==> k in t || Inserts(s, rows, k)
  {
    if rows != [] {
      hide InsertKey, Inserts;
      var rows', r := rows[..|rows| - 1], rows[|rows| - 1];
      InsertedKeys(s, t, rows', k);
      OneMoreKey(s, t, rows', r, k);
      assert rows == rows' + [r];
    }
  }

  /** An insert goes through exactly if no key repeats and none is taken. */
  lemma {:induction false} InsertAllExactly(s: Schema, t: Table, rows: seq<Row>)
    ensures InsertAll(s, t, rows).Some? <==> DistinctInserts(s, rows) && FreeKeys(s, t, rows)
  {
    if rows != [] {
      hide InsertKey, DistinctInserts, FreeKeys, Inserts;
      var rows', r := rows[..|rows| - 1], rows[|rows| - 1];
      InsertAllExactly(s, t, rows');
      if InsertAll(s, t, rows').Some? { InsertedKeys(s, t, rows', InsertKey(s, r)); }
      OneMoreKey(s, t, rows', r, InsertKey(s, r));
      assert rows == rows' + [r];
    }
  }

  lemma {:induction false} OnlyRowWins(s: Schema, rows: seq<Row>, r: Row)
    requires DistinctKeys(s, rows) && r in rows
    ensures Touches(s, rows, ValuesOf(s.keys, r)) && LastWith(s, rows, ValuesOf(s.keys, r)) == r
  {
  }

  /** The order of rows with different keys does not matter. */
  lemma OrderIrrelevant(s: Schema, t: Table, a: seq<Row>, b: seq<Row>)
    requires ValidSchema(s) && WellKeyed(s, t)
    requires DistinctKeys(s, a) && DistinctKeys(s, b)
    requires forall r :: r in a <==> r in b
    ensures UpsertAll(s, t, a) == UpsertAll(s, t, b)
  {
    hide WellKeyed, UpsertAll;
    var x, y := UpsertAll(s, t, a), UpsertAll(s, t, b);
    forall k
      ensures k in x <==> k in y
      ensures k in x && k in y ==> x[k] == y[k]
    {
      UpsertAllLastWins(s, t, a, k);
      UpsertAllLastWins(s, t, b, k);
      assert Touches(s, a, k) <==> Touches(s, b, k);
      if Touches(s, a, k) {
        OnlyRowWins(s, a, LastWith(s, a, k));
        OnlyRowWins(s, b, LastWith(s, a, k));
      }
    }
    SameTable(x, y);
  }
}
