/** What a run of writes may leave behind: the vocabulary in which every step of the degrade ladder,
    from one row to a whole run, is specified. */
module Ladder {
  import opened Tables
  import opened Names

  /** Where rows go: the table path, its schema, and the rows its constraints let in. */
  datatype Sink = Sink(path: string, schema: Schema, accepts: Row -> bool) {
    /** A statement for this row can succeed: every name passes the allowlist, there is a column to set,
        and the table takes the row. */
    ghost predicate Admits(r: Row) {
      SplitTablePath(path).Some?
      && (forall c :: c in schema.cols ==> IsIdentifier(c))
      && (forall k :: k in schema.keys ==> IsIdentifier(k))
      && (exists c :: c in schema.cols && c !in schema.keys)
      && accepts(Synced(schema, r))
    }
  }

  ghost predicate AllAdmitted(sink: Sink, rows: seq<Row>) { forall r :: r in rows ==> sink.Admits(r) }

  ghost predicate Among(sink: Sink, done: seq<Row>, rows: seq<Row>) {
    forall r :: r in done ==> r in rows && sink.Admits(r)
  }

  /** A failed statement: some of its admissible rows may have been written, in any order. */
  ghost predicate Partly(sink: Sink, t: Table, t': Table, rows: seq<Row>) {
    exists done :: Among(sink, done, rows) && t' == UpsertAll(sink.schema, t, done)
  }

  ghost function Admitted(sink: Sink, rows: seq<Row>): seq<Row> {
    if rows == [] then []
    else Admitted(sink, rows[..|rows| - 1]) + if sink.Admits(rows[|rows| - 1]) then [rows[|rows| - 1]] else []
  }

  lemma {:induction false} AdmittedAll(sink: Sink, rows: seq<Row>)
    requires AllAdmitted(sink, rows)
    ensures Admitted(sink, rows) == rows
  {
    if rows != [] { AdmittedAll(sink, rows[..|rows| - 1]); }
  }

  lemma {:induction false} AdmittedExactly(sink: Sink, rows: seq<Row>, r: Row)
    ensures r in Admitted(sink, rows) <==> r in rows && sink.Admits(r)
  {
    if rows != [] {
      var rows', last := rows[..|rows| - 1], rows[|rows| - 1];
      assert rows == rows' + [last];
      AdmittedExactly(sink, rows', r);
    }
  }

  /** Writing `rows`, with `ok` counted written and `fail` counted failed, took the table from `t` to
      `t'`.  Always: every row is counted, only admissible rows were written, and if none failed the
      table is the fold of all of them.  On a steady database: the table is the fold of exactly the
      admissible rows, and those are the ones counted. */
  ghost predicate Wrote(sink: Sink, t: Table, t': Table, rows: seq<Row>, ok: nat, fail: nat, steady: bool) {
    && ok + fail == |rows|
    && Partly(sink, t, t', rows)
    && (fail == 0 ==> AllAdmitted(sink, rows) && t' == UpsertAll(sink.schema, t, rows))
    && (steady ==> t' == UpsertAll(sink.schema, t, Admitted(sink, rows)) && ok == |Admitted(sink, rows)|)
  }

  ghost predicate Sound(sink: Sink, t: Table) { ValidSchema(sink.schema) && WellKeyed(sink.schema, t) }

  ghost function Kept(sink: Sink, r: Row): seq<Row> { if sink.Admits(r) then [r] else [] }

  lemma AdmittedSnoc(sink: Sink, rows: seq<Row>, r: Row)
    ensures Admitted(sink, rows + [r]) == Admitted(sink, rows) + Kept(sink, r)
  {
  }

  lemma {:induction false} AdmittedConcat(sink: Sink, a: seq<Row>, b: seq<Row>)
    ensures Admitted(sink, a + b) == Admitted(sink, a) + Admitted(sink, b)
  {
    if b == [] {
      assert a + b == a;
    } else {
      hide Admitted, Kept;
      var b', r := b[..|b| - 1], b[|b| - 1];
      AdmittedConcat(sink, a, b');
      AdmittedSnoc(sink, a + b', r);
      AdmittedSnoc(sink, b', r);
      assert a + b == (a + b') + [r];
      assert b == b' + [r];
    }
  }

  lemma WroteNothing(sink: Sink, t: Table, steady: bool)
    ensures Wrote(sink, t, t, [], 0, 0, steady)
  {
    assert Among(sink, [], []);
  }

  lemma WroteAll(sink: Sink, t: Table, rows: seq<Row>, steady: bool)
    requires AllAdmitted(sink, rows)
    ensures Wrote(sink, t, UpsertAll(sink.schema, t, rows), rows, |rows|, 0, steady)
  {
    assert Among(sink, rows, rows);
    AdmittedAll(sink, rows);
  }

  lemma PartlyConcat(sink: Sink, t: Table, t1: Table, t2: Table, a: seq<Row>, b: seq<Row>)
    requires Partly(sink, t, t1, a) && Partly(sink, t1, t2, b)
    ensures Partly(sink, t, t2, a + b)
  {
    var x :| Among(sink, x, a) && t1 == UpsertAll(sink.schema, t, x);
    var y :| Among(sink, y, b) && t2 == UpsertAll(sink.schema, t1, y);
    UpsertAllConcat(sink.schema, t, x, y);
    assert Among(sink, x + y, a + b);
  }

  /** Writes compose. */
  lemma WroteConcat(sink: Sink, t: Table, t1: Table, t2: Table, a: seq<Row>, b: seq<Row>,
                    okA: nat, failA: nat, okB: nat, failB: nat, steady: bool)
    requires Wrote(sink, t, t1, a, okA, failA, steady) && Wrote(sink, t1, t2, b, okB, failB, steady)
    ensures Wrote(sink, t, t2, a + b, okA + okB, failA + failB, steady)
  {
    hide Partly, UpsertAll, Admitted;
    PartlyConcat(sink, t, t1, t2, a, b);
    UpsertAllConcat(sink.schema, t, a, b);
    AdmittedConcat(sink, a, b);
    UpsertAllConcat(sink.schema, t, Admitted(sink, a), Admitted(sink, b));
  }

  /** A failed attempt at the same rows beforehand is absorbed: the retry's account stands. */
  lemma RetryAbsorbs(sink: Sink, t: Table, t1: Table, t2: Table, rows: seq<Row>, ok: nat, fail: nat, steady: bool)
    requires Sound(sink, t)
    requires Partly(sink, t, t1, rows) && Wrote(sink, t1, t2, rows, ok, fail, steady)
    ensures Wrote(sink, t, t2, rows, ok, fail, steady)
  {
    var x :| Among(sink, x, rows) && t1 == UpsertAll(sink.schema, t, x);
    var y :| Among(sink, y, rows) && t2 == UpsertAll(sink.schema, t1, y);
    hide UpsertAll, WellKeyed;
    UpsertAllConcat(sink.schema, t, x, y);
    assert Among(sink, x + y, rows);
    ReplayAbsorbed(sink.schema, t, x, rows);
    AdmittedKeeps(sink, x, rows);
    ReplayAbsorbed(sink.schema, t, x, Admitted(sink, rows));
  }

  lemma AdmittedKeeps(sink: Sink, done: seq<Row>, rows: seq<Row>)
    requires Among(sink, done, rows)
    ensures forall r :: r in done ==> r in Admitted(sink, rows)
  {
    forall r | r in done
      ensures r in Admitted(sink, rows)
    {
      AdmittedExactly(sink, rows, r);
    }
  }

  lemma PartlySound(sink: Sink, t: Table, t': Table, rows: seq<Row>)
    requires Sound(sink, t) && Partly(sink, t, t', rows)
    ensures Sound(sink, t')
  {
    var done :| Among(sink, done, rows) && t' == UpsertAll(sink.schema, t, done);
    UpsertAllKeepsKeys(sink.schema, t, done);
  }

  // ---- plain inserts ----

  /** Nothing was changed or lost, and every row that was added is one of these. */
  ghost predicate OnlyAdded(s: Schema, t: Table, t': Table, rows: seq<Row>) {
    Extends(t, t') && forall k :: k in t' && k !in t ==> exists r :: r in rows && Stands(s, t', r, k)
  }

  /** The table has the row's own values under this key, with the defaults in the columns it does not sync. */
  ghost predicate Stands(s: Schema, t: Table, r: Row, k: Key) {
    k == InsertKey(s, r) && k in t && Overlaid(s, s.defaults, r, t[k])
  }

  /** Each of these rows is new, and no two of them share a key. */
  ghost predicate AllAdded(s: Schema, t: Table, t': Table, rows: seq<Row>) {
    (forall r :: r in rows ==> InsertKey(s, r) !in t && Stands(s, t', r, InsertKey(s, r)))
      && DistinctInserts(s, rows)
  }

  /** The account of a run in insert mode: only streamed rows were added, and all of them if none failed. */
  ghost predicate Grew(s: Schema, t: Table, t': Table, rows: seq<Row>, fail: nat) {
    OnlyAdded(s, t, t', rows) && (fail == 0 ==> AllAdded(s, t, t', rows))
  }

  lemma GrewNothing(s: Schema, t: Table)
    ensures Grew(s, t, t, [], 0)
  {
  }

  lemma InsertStep(s: Schema, t: Table, rows: seq<Row>, r: Row)
    requires InsertAll(s, t, rows + [r]).Some?
    ensures InsertAll(s, t, rows).Some? && InsertKey(s, r) !in InsertAll(s, t, rows).value
    ensures InsertAll(s, t, rows + [r]).value
            == InsertAll(s, t, rows).value[InsertKey(s, r) := s.defaults + Synced(s, r)]
  {
    hide InsertKey, Synced;
    assert (rows + [r])[..|rows|] == rows;
  }

  lemma {:induction false} InsertAllAdds(s: Schema, t: Table, rows: seq<Row>)
    requires InsertAll(s, t, rows).Some?
    ensures Grew(s, t, InsertAll(s, t, rows).value, rows, 0)
  {
    hide InsertKey, Synced, Grew;
    if rows == [] {
      GrewNothing(s, t);
    } else {
      var front, r := rows[..|rows| - 1], rows[|rows| - 1];
      assert rows == front + [r];
      InsertStep(s, t, front, r);
      InsertAllAdds(s, t, front);
      var t1, t2 := InsertAll(s, t, front).value, InsertAll(s, t, rows).value;
      OneAdds(s, t1, t2, r);
      GrewConcat(s, t, t1, t2, front, [r], 0, 0);
    }
  }

  lemma OneAdds(s: Schema, t: Table, t': Table, r: Row)
    requires InsertKey(s, r) !in t && t' == t[InsertKey(s, r) := s.defaults + Synced(s, r)]
    ensures Grew(s, t, t', [r], 0)
  {
    hide InsertKey, Synced, Overlaid;
    var k := InsertKey(s, r);
    OverlaidIs(s, s.defaults, r, t'[k]);
    assert r in [r] && Stands(s, t', r, k);
  }

  lemma StandsLater(s: Schema, t: Table, t': Table, r: Row, k: Key)
    requires Stands(s, t, r, k) && Extends(t, t')
    ensures Stands(s, t', r, k)
  {
  }

  lemma OnlyAddedConcat(s: Schema, t: Table, t1: Table, t2: Table, a: seq<Row>, b: seq<Row>)
    requires OnlyAdded(s, t, t1, a) && OnlyAdded(s, t1, t2, b)
    ensures OnlyAdded(s, t, t2, a + b)
  {
    hide Stands;
    forall k | k in t2 && k !in t
      ensures exists r :: r in a + b && Stands(s, t2, r, k)
    {
      if k in t1 {
        var r :| r in a && Stands(s, t1, r, k);
        StandsLater(s, t1, t2, r, k);
        assert r in a + b;
      } else {
        var r :| r in b && Stands(s, t2, r, k);
        assert r in a + b;
      }
    }
  }

  lemma AllAddedConcat(s: Schema, t: Table, t1: Table, t2: Table, a: seq<Row>, b: seq<Row>)
    requires Extends(t, t1) && Extends(t1, t2) && AllAdded(s, t, t1, a) && AllAdded(s, t1, t2, b)
    ensures AllAdded(s, t, t2, a + b)
  {
    hide InsertKey, Synced, Overlaid;
    forall i, j | 0 <= i < j < |a + b|
      ensures InsertKey(s, (a + b)[i]) != InsertKey(s, (a + b)[j])
    {
      if i < |a| <= j {
        assert a[i] in a && b[j - |a|] in b;
      }
    }
  }

  lemma GrewConcat(s: Schema, t: Table, t1: Table, t2: Table, a: seq<Row>, b: seq<Row>, failA: nat, failB: nat)
    requires Grew(s, t, t1, a, failA) && Grew(s, t1, t2, b, failB)
    ensures Grew(s, t, t2, a + b, failA + failB)
  {
    hide AllAdded;
    OnlyAddedConcat(s, t, t1, t2, a, b);
    if failA + failB == 0 { AllAddedConcat(s, t, t1, t2, a, b); }
  }

  /** Of a failed attempt no more is said. */
  lemma FailedGrows(s: Schema, t: Table, t': Table, rows: seq<Row>, fail: nat)
    requires OnlyAdded(s, t, t', rows) && fail > 0
    ensures Grew(s, t, t', rows, fail)
  {
  }

  /** A failed attempt that added some of the same rows beforehand is absorbed: those rows then fail. */
  lemma RetryGrows(s: Schema, t: Table, t1: Table, t2: Table, rows: seq<Row>, fail: nat)
    requires OnlyAdded(s, t, t1, rows) && Grew(s, t1, t2, rows, fail)
    ensures Grew(s, t, t2, rows, fail)
  {
    hide Stands, InsertKey;
    OnlyAddedConcat(s, t, t1, t2, rows, rows);
    forall k | k in t2 && k !in t
      ensures exists r :: r in rows && Stands(s, t2, r, k)
    {
      var r :| r in rows + rows && Stands(s, t2, r, k);
      assert r in rows;
    }
  }
}
