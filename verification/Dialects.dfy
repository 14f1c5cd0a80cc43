/** What the four dialects' multi-row upserts do to a table: one row after another, one row after
    another but never the same row twice, or all rows at once against the table as it was. */
module Dialects {
  import opened Wrappers
  import opened Tables
  import opened SqlText

  /** What a column of a matched row is set to: a value, or what some column of that row had. */
  datatype Term = Fixed(v: Value) | Own(column: Column)

  /** One source row of an upsert statement: the key it carries, what it assigns to a matched row and
      what it inserts otherwise. */
  datatype Change = Change(key: Key, assign: map<Column, Term>, insert: Row)

  function AllFixed(r: Row): map<Column, Term> { map c | c in r :: Fixed(r[c]) }

  function ChangeOf(s: Schema, r: Row): Change {
    Change(ValuesOf(s.keys, r), AllFixed(Assigned(s, r)), Synced(s, r))
  }

  function Changes(s: Schema, rows: seq<Row>): (cs: seq<Change>)
    ensures |cs| == |rows|
  {
    seq(|rows|, i requires 0 <= i < |rows| => ChangeOf(s, rows[i]))
  }

  /** A matched row after the assignments, all of which see it as it was. */
  function Assign(r: Row, a: map<Column, Term>): Row {
    r + map c | c in a :: match a[c] case Fixed(v) => v case Own(y) => Get(r, y)
  }

  lemma AssignFixed(r: Row, a: Row)
    ensures Assign(r, AllFixed(a)) == r + a
  {
  }

  /** Setting columns to their own old values changes nothing. */
  lemma AssignOwn(r: Row, cs: set<Column>)
    requires cs <= r.Keys
    ensures Assign(r, map c | c in cs :: Own(c)) == r
  {
  }

  function Apply(defaults: Row, t: Table, c: Change): Table {
    t[c.key := if c.key in t then Assign(t[c.key], c.assign) else defaults + c.insert]
  }

  /** SQLite's ON CONFLICT and MySQL's ON DUPLICATE KEY UPDATE. */
  function InSequence(defaults: Row, t: Table, cs: seq<Change>): Table
    decreases |cs|
  {
    if cs == [] then t else InSequence(defaults, Apply(defaults, t, cs[0]), cs[1..])
  }

  /** PostgreSQL's ON CONFLICT: a command that would affect a row a second time fails. */
  function AtMostOnce(defaults: Row, t: Table, cs: seq<Change>, touched: set<Key>): Option<Table>
    decreases |cs|
  {
    if cs == [] then Some(t)
    else if cs[0].key in touched then None
    else AtMostOnce(defaults, Apply(defaults, t, cs[0]), cs[1..], touched + {cs[0].key})
  }

  predicate Distinct(cs: seq<Change>) { forall i, j :: 0 <= i < j < |cs| ==> cs[i].key != cs[j].key }

  function With(cs: seq<Change>, k: Key): (c: Change)
    requires exists c :: c in cs && c.key == k
    ensures c in cs && c.key == k
  {
    if cs[0].key == k then cs[0]
    else
      assert cs == [cs[0]] + cs[1..];
      With(cs[1..], k)
  }

  /** MERGE joins all source rows with the table as it was.  Two source rows of one key fail it, either
      by matching one target row twice or by inserting one key twice. */
  function AtOnce(defaults: Row, t: Table, cs: seq<Change>): Option<Table> {
    if !Distinct(cs) then None
    else
      var source := set c | c in cs :: c.key;
      Some(map k | k in t.Keys + source ::
             if k !in source then t[k]
             else if k in t then Assign(t[k], With(cs, k).assign)
             else defaults + With(cs, k).insert)
  }

  function Execute(d: Dialect, defaults: Row, t: Table, cs: seq<Change>): Option<Table> {
    match d
    case Postgres => AtMostOnce(defaults, t, cs, {})
    case SqlServer => AtOnce(defaults, t, cs)
    case _ => Some(InSequence(defaults, t, cs))
  }

  predicate TakesRepeats(d: Dialect) { d == MySQL || d == SQLite }

  lemma ChangesHead(s: Schema, rows: seq<Row>)
    requires rows != []
    ensures Changes(s, rows) == [ChangeOf(s, rows[0])] + Changes(s, rows[1..])
  {
  }

  lemma ApplyIsUpsert(s: Schema, t: Table, r: Row)
    ensures Apply(s.defaults, t, ChangeOf(s, r)) == UpsertRow(s, t, r) == UpsertAll(s, t, [r])
  {
    hide Assigned, Synced, ValuesOf, Assign, AllFixed;
    var k := ValuesOf(s.keys, r);
    if k in t { AssignFixed(t[k], Assigned(s, r)); }
    UpsertAllSnoc(s, t, [], r);
    assert [] + [r] == [r];
  }

  lemma {:induction false} SequenceIsFold(s: Schema, t: Table, rows: seq<Row>)
    ensures InSequence(s.defaults, t, Changes(s, rows)) == UpsertAll(s, t, rows)
    decreases |rows|
  {
    if rows != [] {
      hide Apply, UpsertRow, ChangeOf, UpsertAll, Changes;
      ChangesHead(s, rows);
      ApplyIsUpsert(s, t, rows[0]);
      SequenceIsFold(s, UpsertRow(s, t, rows[0]), rows[1..]);
      UpsertAllConcat(s, t, [rows[0]], rows[1..]);
      assert [rows[0]] + rows[1..] == rows;
    }
  }

  ghost predicate Untouched(cs: seq<Change>, touched: set<Key>) { forall c :: c in cs ==> c.key !in touched }

  lemma DistinctHead(cs: seq<Change>, touched: set<Key>)
    requires cs != []
    ensures Distinct(cs) && Untouched(cs, touched)
            <==> cs[0].key !in touched && Distinct(cs[1..]) && Untouched(cs[1..], touched + {cs[0].key})
  {
  }

  lemma {:induction false} OnceIsSequence(defaults: Row, t: Table, cs: seq<Change>, touched: set<Key>)
    ensures AtMostOnce(defaults, t, cs, touched)
            == if Distinct(cs) && Untouched(cs, touched) then Some(InSequence(defaults, t, cs)) else None
    decreases |cs|
  {
    if cs != [] {
      hide Distinct, Untouched, Apply;
      DistinctHead(cs, touched);
      OnceIsSequence(defaults, Apply(defaults, t, cs[0]), cs[1..], touched + {cs[0].key});
    }
  }

  lemma DistinctChanges(s: Schema, rows: seq<Row>)
    ensures Distinct(Changes(s, rows)) <==> DistinctKeys(s, rows)
  {
    var cs := Changes(s, rows);
    assert forall i :: 0 <= i < |rows| ==> cs[i].key == ValuesOf(s.keys, rows[i]);
  }

  lemma AtOnceIsFold(s: Schema, t: Table, rows: seq<Row>)
    requires ValidSchema(s) && WellKeyed(s, t) && DistinctKeys(s, rows)
    ensures AtOnce(s.defaults, t, Changes(s, rows)) == Some(UpsertAll(s, t, rows))
  {
    hide UpsertAll, WellKeyed;
    var cs := Changes(s, rows);
    DistinctChanges(s, rows);
    var m, u := AtOnce(s.defaults, t, cs).value, UpsertAll(s, t, rows);
    forall k
      ensures k in m <==> k in u
      ensures k in m && k in u ==> m[k] == u[k]
    {
      UpsertAllLastWins(s, t, rows, k);
      MergedRow(s, t, rows, k);
    }
    SameTable(m, u);
  }

  ghost predicate Carried(cs: seq<Change>, k: Key) { exists c :: c in cs && c.key == k }

  lemma AtOnceRow(defaults: Row, t: Table, cs: seq<Change>, k: Key)
    requires Distinct(cs)
    ensures AtOnce(defaults, t, cs).Some?
    ensures var m := AtOnce(defaults, t, cs).value;
            if Carried(cs, k) then
              k in m && m[k] == if k in t then Assign(t[k], With(cs, k).assign) else defaults + With(cs, k).insert
            else (k in m <==> k in t) && (k in t ==> m[k] == t[k])
  {
    hide Distinct, With, Assign;
  }

  lemma ChangeWith(s: Schema, rows: seq<Row>, k: Key)
    requires DistinctKeys(s, rows)
    ensures Touches(s, rows, k) <==> Carried(Changes(s, rows), k)
    ensures Touches(s, rows, k) ==> With(Changes(s, rows), k) == ChangeOf(s, LastWith(s, rows, k))
  {
    var cs := Changes(s, rows);
    if Touches(s, rows, k) {
      var r := LastWith(s, rows, k);
      var i :| 0 <= i < |rows| && rows[i] == r;
      assert cs[i] in cs && cs[i].key == k;
      var c := With(cs, k);
      var j :| 0 <= j < |cs| && cs[j] == c;
      assert i == j;
    } else {
      forall c | c in cs
        ensures c.key != k
      {
        var j :| 0 <= j < |cs| && cs[j] == c;
        assert rows[j] in rows;
      }
    }
  }

  lemma MergedRow(s: Schema, t: Table, rows: seq<Row>, k: Key)
    requires ValidSchema(s) && WellKeyed(s, t) && DistinctKeys(s, rows) && Distinct(Changes(s, rows))
    ensures LastWins(s, t, rows, k, AtOnce(s.defaults, t, Changes(s, rows)).value)
  {
    hide UpsertAll, AtOnce, Changes, Touches, LastWith, Assigned, Synced, Assign, AllFixed, Overlaid, Carried;
    ChangeWith(s, rows, k);
    AtOnceRow(s.defaults, t, Changes(s, rows), k);
    if Touches(s, rows, k) {
      var r := LastWith(s, rows, k);
      OverlaidIs(s, if k in t then t[k] else s.defaults, r, AtOnce(s.defaults, t, Changes(s, rows)).value[k]);
      if k in t {
        AssignFixed(t[k], Assigned(s, r));
        SetListSuffices(s, t, r);
      }
    }
  }

  /** Every dialect that accepts a batch leaves the table that upserting its rows one after another
      leaves; PostgreSQL and SQL Server accept exactly the batches without a repeated key. */
  lemma DialectsAgree(d: Dialect, s: Schema, t: Table, rows: seq<Row>)
    requires ValidSchema(s) && WellKeyed(s, t)
    ensures Execute(d, s.defaults, t, Changes(s, rows))
            == if TakesRepeats(d) || DistinctKeys(s, rows) then Some(UpsertAll(s, t, rows)) else None
  {
    hide AtMostOnce, UpsertAll, WellKeyed;
    DistinctChanges(s, rows);
    SequenceIsFold(s, t, rows);
    OnceIsSequence(s.defaults, t, Changes(s, rows), {});
    if DistinctKeys(s, rows) { AtOnceIsFold(s, t, rows); }
  }

  /** A single row never repeats a key, so the row-by-row fallback succeeds in every dialect. */
  lemma SingleRowAgrees(d: Dialect, s: Schema, t: Table, r: Row)
    requires ValidSchema(s) && WellKeyed(s, t)
    ensures Execute(d, s.defaults, t, Changes(s, [r])) == Some(UpsertRow(s, t, r))
  {
    DialectsAgree(d, s, t, [r]);
    assert [r][..0] == [];
  }
}
