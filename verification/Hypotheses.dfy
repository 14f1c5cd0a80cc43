/** What happens when a hypothesis of the replication machine fails: which late changes lose rows, and
    which stale writes do. */
module Hypotheses {
  import opened Wrappers
  import opened Tables
  import opened Watermark
  import opened Ladder
  import opened Replication

  // ---- late changes ----

  /** Put without the hypothesis: any watermark value. */
  function AfterPut(p: Plan, s: State, r: Row): State {
    var v := Tracked(p, r);
    s.(source := s.source[Id(p, r) := r], ceiling := if v.Null? || Leq(v, s.ceiling) then s.ceiling else v)
  }

  /** No row is lost in any later state. */
  ghost predicate SafeForever(p: Plan, s: State) {
    forall ss :: Trace(p, ss) && ss[0] == s ==> NoLost(p, ss[|ss| - 1])
  }

  /** Comparable rows have a highest value. */
  lemma {:induction false} Highest(p: Plan, rows: seq<Row>, like: Value) returns (v: Value)
    requires rows != [] && forall r :: r in rows ==> Leq(Tracked(p, r), like)
    ensures Maximum(p, rows, v)
    decreases |rows|
  {
    hide Leq;
    var front, last := rows[..|rows| - 1], rows[|rows| - 1];
    assert rows == front + [last];
    v := Tracked(p, last);
    SelfLeq(v, like);
    if front != [] {
      var m := Highest(p, front, like);
      Compared(m, v, like);
      if Leq(v, m) {
        v := m;
      } else {
        forall r | r in front
          ensures Leq(Tracked(p, r), v)
        {
          LeqTransitive(Tracked(p, r), m, v);
        }
      }
    }
  }

  lemma SelfLeq(a: Value, like: Value)
    requires Leq(a, like)
    ensures Leq(a, a)
  {
    LeqReflexive(a);
  }

  lemma Compared(a: Value, b: Value, like: Value)
    requires Leq(a, like) && Leq(b, like)
    ensures Leq(a, b) || Leq(b, a)
  {
    LtOrLeq(a, b);
  }

  /** Writing all rows of a run leaves each of them in the target, and other keys alone. */
  lemma AllWritten(p: Plan, t: Table, rows: seq<Row>, y: Row)
    requires Sound(p.sink, t) && forall a, b :: a in rows && b in rows && Id(p, a) == Id(p, b) ==> a == b
    ensures y in rows ==> Holds(p, UpsertAll(p.sink.schema, t, rows), y)
    ensures !Rewrites(p, rows, y) ==> (Holds(p, UpsertAll(p.sink.schema, t, rows), y) <==> Holds(p, t, y))
  {
    hide UpsertAll, ValuesOf, WellKeyed;
    UpsertAllLastWins(p.sink.schema, t, rows, Id(p, y));
  }

  lemma DisagreeingIsNotHeld(p: Plan, t: Table, x: Row, y: Row)
    requires Holds(p, t, x) && Id(p, x) == Id(p, y) && !Agree(p, x, y)
    ensures !Holds(p, t, y)
  {
  }

  /** The run in progress ends clean. */
  lemma EndsClean(p: Plan, s: State) returns (ss: seq<State>, s': State)
    requires s.run.Some? && s.run.value.rows != [] && InStep(p, s, s.run.value)
    ensures Leads(p, ss, s, s') && s'.source == s.source && s'.mark.Some? && Maximum(p, s.run.value.rows, s'.mark.value)
    ensures s'.table == UpsertAll(p.sink.schema, s.table, s.run.value.rows)
  {
    hide Leads, UpsertAll, Maximum, Leq, Lt, Low;
    var rows := s.run.value.rows;
    var v := Highest(p, rows, s.ceiling);
    AtOnce(p, s);
    ss := WritesLead(p, [s], s, s, rows);
    var written := Written(p, s, rows);
    s' := written.(mark := Some(v), run := None);
    assert Advance(p, written, s', v);
    Further(p, ss, s, written, s');
    ss := ss + [s'];
  }

  lemma UnderMaximum(p: Plan, rows: seq<Row>, v: Value, m: Value)
    requires Under(p, rows, v) && Maximum(p, rows, m)
    ensures Leq(v, m) && rows != []
  {
    var x :| x in rows && Leq(v, Tracked(p, x));
    LeqTransitive(v, Tracked(p, x), m);
  }

  /** A row in the source that is not secure is lost: now, by the next write of the run in progress, or
      when that run ends clean. */
  lemma InsecureIsLost(p: Plan, s: State, y: Row) returns (ss: seq<State>)
    requires WellFormed(p, s) && (s.run.Some? ==> InStep(p, s, s.run.value))
    requires Id(p, y) in s.source && s.source[Id(p, y)] == y && !Secure(p, s, y)
    ensures Trace(p, ss) && ss[0] == s && !NoLost(p, ss[|ss| - 1])
  {
    hide Holds, Agree, Leq, Lt, Low, Maximum, Sound, UpsertAll;
    if Due(p, s.mark, y) && !Holds(p, s.table, y) {
      ss := [s];
    } else if Due(p, s.mark, y) {
      var x :| x in s.run.value.rows && Id(p, x) == Id(p, y) && !Agree(p, x, y);
      var s' := s.(table := UpsertRow(p.sink.schema, s.table, x),
                   run := Some(s.run.value.(written := s.run.value.written + {x})));
      assert Write(p, s, s', x);
      WrittenHolds(p, s.table, x);
      DisagreeingIsNotHeld(p, s'.table, x, y);
      ss := [s, s'];
    } else {
      var rows := s.run.value.rows;
      var s';
      ss, s' := EndsClean(p, s);
      UnderMaximum(p, rows, Tracked(p, y), s'.mark.value);
      AllWritten(p, s.table, rows, y);
      if Rewrites(p, rows, y) {
        var x :| x in rows && Id(p, x) == Id(p, y) && !Agree(p, x, y);
        AllWritten(p, s.table, rows, x);
        DisagreeingIsNotHeld(p, s'.table, x, y);
      }
    }
  }

  /** A change with any watermark value, at any moment, costs no row in any future if and only if it is
      secure.  Between runs that means above the stored watermark, or at or below the first literal, or
      bringing what the target already has.  During a run it means above all the run selected as well;
      or, if the run selected a version of the row, agreeing with that version and, as long as the
      watermark is past it already, being in the target. */
  lemma LatePutExactly(p: Plan, s: State, r: Row)
    requires Inv(p, s) && (Tracked(p, r).Null? || SameKind(s.ceiling, Tracked(p, r)))
    ensures Secure(p, s, r)
            <==> SafeForever(p, AfterPut(p, s, r))
  {
    hide Secure, NoLost, Next, Inv;
    var s' := AfterPut(p, s, r);
    var v := Tracked(p, r);
    var mid := s.(ceiling := s'.ceiling);
    Raised(p, s, r);
    SecureEither(p, s, mid, r);
    SecureEither(p, mid, s', r);
    if Secure(p, s, r) {
      SecurePutKeeps(p, mid, s', r);
      StaysSafe(p, s');
    } else {
      StructureAfterPut(p, mid, s', r);
      var ss := InsecureIsLost(p, s', r);
    }
  }

  /** The two cases a caller meets: between runs, and during a run that did not select the row's key. */
  lemma LatePutCases(p: Plan, s: State, r: Row)
    requires Inv(p, s) && (Tracked(p, r).Null? || SameKind(s.ceiling, Tracked(p, r)))
    ensures s.run.None? ==> (SafeForever(p, AfterPut(p, s, r)) <==> !Due(p, s.mark, r) || Holds(p, s.table, r))
    ensures s.run.Some? && !Rewrites(p, s.run.value.rows, r)
            ==> (SafeForever(p, AfterPut(p, s, r)) <==> !Exposed(p, s, r) || Holds(p, s.table, r))
  {
    hide SafeForever, Inv, Holds, Due, Agree;
    LatePutExactly(p, s, r);
  }

  lemma SecureEither(p: Plan, s: State, s': State, y: Row)
    requires s'.mark == s.mark && s'.run == s.run && s'.table == s.table
    ensures Secure(p, s, y) <==> Secure(p, s', y)
  {
    if Secure(p, s, y) { SecureAnyway(p, s, s', y); }
    if Secure(p, s', y) { SecureAnyway(p, s', s, y); }
  }

  lemma Raised(p: Plan, s: State, r: Row)
    requires Inv(p, s) && (Tracked(p, r).Null? || SameKind(s.ceiling, Tracked(p, r)))
    ensures var c := AfterPut(p, s, r).ceiling;
            Inv(p, s.(ceiling := c)) && (Tracked(p, r).Null? || Leq(Tracked(p, r), c))
  {
    hide Inv;
    var v := Tracked(p, r);
    if !v.Null? && !Leq(v, s.ceiling) {
      LtOrLeq(s.ceiling, v);
      LeqReflexive(v);
      CeilingRises(p, s, v);
    }
  }

  lemma StructureAfterPut(p: Plan, s: State, s': State, r: Row)
    requires Inv(p, s) && (Tracked(p, r).Null? || Leq(Tracked(p, r), s.ceiling))
    requires s' == s.(source := s.source[Id(p, r) := r])
    ensures WellFormed(p, s') && (s'.run.Some? ==> InStep(p, s', s'.run.value)) && s'.source[Id(p, r)] == r
  {
    hide Sound, Holds, AllSecure;
  }

  lemma StaysSafe(p: Plan, s: State)
    requires Inv(p, s)
    ensures SafeForever(p, s)
  {
    hide Inv, NoLost, Next;
    forall ss | Trace(p, ss) && ss[0] == s
      ensures NoLost(p, ss[|ss| - 1])
    {
      NoLostRow(p, ss, |ss| - 1);
    }
  }

  /** A row that comes in at or below the literal is not selected again, by any later query. */
  lemma LateRowNeverSelected(p: Plan, ss: seq<State>, i: nat, j: nat, r: Row, rows: seq<Row>)
    requires Trace(p, ss) && Inv(p, ss[0]) && i <= j < |ss| && ss[i].mark.Some?
    requires Leq(Tracked(p, r), Rendered(ss[i].mark.value)) && Snapshot(p, ss[j].source, Low(p, ss[j].mark), rows)
    ensures r !in rows
  {
    hide Inv, Next, Rendered;
    LiteralsNeverDecrease(p, ss, i, j);
    var low := Low(p, ss[j].mark);
    LeqTransitive(Tracked(p, r), Rendered(ss[i].mark.value), low);
    LtOrLeq(low, Tracked(p, r));
  }

  /** A change above everything in the source at the moment, as opposed to ever. */
  ghost predicate AboveAllPresent(p: Plan, s: State, r: Row) {
    SameKind(s.ceiling, Tracked(p, r))
    && forall k :: k in s.source ==> Tracked(p, s.source[k]).Null? || Lt(Tracked(p, s.source[k]), Tracked(p, r))
  }

  /** The ceiling is the value of some row present. */
  ghost predicate Tight(p: Plan, s: State) { exists k :: k in s.source && Tracked(p, s.source[k]) == s.ceiling }

  /** Without deletes the two are the same: the highest value ever present is still there. */
  lemma PresentSuffices(p: Plan, s: State, s': State, r: Row)
    requires WellFormed(p, s) && Tight(p, s) && AboveAllPresent(p, s, r)
    requires s' == AfterPut(p, s, r)
    ensures Put(p, s, s', r) && Tight(p, s')
  {
    assert s'.source[Id(p, r)] == r;
  }

  lemma TightStays(p: Plan, s: State, s': State)
    requires Tight(p, s) && QuietNext(p, s, s')
    ensures Tight(p, s')
  {
  }

  /** With a delete they differ: sync a row, delete it, insert another with a lower value, though above
      everything then present.  The new row is lost. */
  lemma DeleteThenInsertLoses(p: Plan, first: Row, late: Row) returns (ss: seq<State>)
    requires ValidSchema(p.sink.schema) && Leq(p.initial, p.initial) && Id(p, first) != Id(p, late)
    requires Lt(p.initial, Tracked(p, late)) && Leq(Tracked(p, late), Rendered(Tracked(p, first)))
    ensures Trace(p, ss) && WellFormed(p, ss[0]) && ss[0].mark.None? && ss[0].run.None?
    ensures var s := ss[|ss| - 1];
            s.run.None? && AboveAllPresent(p, s, late) && !NoLost(p, AfterPut(p, s, late))
  {
    hide Rendered, Before, UpsertRow, ValuesOf;
    var v := Tracked(p, first);
    KindOfRendered(Tracked(p, late), v);
    LeqTransitive(Tracked(p, late), Rendered(v), v);
    LtLeq(p.initial, Tracked(p, late), v);
    var source := map[Id(p, first) := first];
    var run := Run([first], {});
    var written := UpsertRow(p.sink.schema, map[], first);
    var s0 := State(source, v, map[], None, None);
    var s1 := s0.(run := Some(run));
    var s2 := s1.(table := written, run := Some(run.(written := {} + {first})));
    var s3 := s2.(mark := Some(v), run := None);
    var s4 := s3.(source := source - {Id(p, first)});
    assert first in run.rows;
    assert Start(p, s0, s1, run.rows);
    assert Write(p, s1, s2, first);
    assert Advance(p, s2, s3, v);
    assert Delete(p, s3, s4, Id(p, first));
    ss := [s0, s1, s2, s3, s4];
    var s5 := AfterPut(p, s4, late);
    assert s5.source[Id(p, late)] == late && Due(p, s5.mark, late);
    NotHeld(p, first, late);
  }

  lemma NotHeld(p: Plan, r: Row, x: Row)
    requires Id(p, r) != Id(p, x)
    ensures !Holds(p, UpsertRow(p.sink.schema, map[], r), x)
  {
  }

  /** A value comparable with a literal is comparable with what the literal was rendered from, which is
      not below it. */
  lemma KindOfRendered(x: Value, v: Value)
    requires SameKind(x, Rendered(v))
    ensures SameKind(x, v) && Leq(Rendered(v), v) && Leq(v, v)
  {
    LeqReflexive(v);
    RenderedNeverSkips(v, v);
  }

  lemma LtLeq(a: Value, b: Value, c: Value)
    requires Lt(a, b) && Leq(b, c)
    ensures Lt(a, c)
  {
    BeforeIsStrictOrder(a, b, c);
  }

  /** Why runs of one task must not overlap: a second run that still holds an older version of a row
      undoes the newer one, exactly if they differ in a synced column, and the watermark is already past it. */
  lemma StaleWriteExactly(p: Plan, s: State, o: Row)
    requires Inv(p, s) && Id(p, o) in s.source && Due(p, s.mark, s.source[Id(p, o)])
    ensures NoLost(p, s.(table := UpsertRow(p.sink.schema, s.table, o)))
            <==> Agree(p, o, s.source[Id(p, o)])
  {
    hide InStep, Lt, Leq, Due;
    var x := s.source[Id(p, o)];
    var s' := s.(table := UpsertRow(p.sink.schema, s.table, o));
    WrittenHolds(p, s.table, o);
    if NoLost(p, s') {
      NoLostAt(p, s', Id(p, o));
      assert Holds(p, s'.table, x) && Holds(p, s'.table, o);
    }
    if Agree(p, o, x) {
      forall k | k in s.source && Due(p, s.mark, s.source[k])
        ensures Holds(p, s'.table, s.source[k])
      {
        NoLostAt(p, s, k);
        if k != Id(p, o) { OthersKept(p, s.table, o, s.source[k]); }
      }
    }
  }
}
