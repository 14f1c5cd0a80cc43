/** Incremental replication over any sequence of runs, with the source changing underneath: no row at or
    below the stored watermark is ever missing from the target or stale there. */
module Replication {
  import opened Wrappers
  import opened Tables
  import opened Watermark
  import opened Ladder

  // ---- order of watermark values ----

  /** Of one kind, and in order. */
  predicate Lt(a: Value, b: Value) { SameKind(a, b) && Before(a, b) }

  predicate Leq(a: Value, b: Value) { SameKind(a, b) && !Before(b, a) }

  lemma LeqReflexive(a: Value)
    requires SameKind(a, a)
    ensures Leq(a, a)
  {
    BeforeIsStrictOrder(a, a, a);
  }

  lemma LeqTransitive(a: Value, b: Value, c: Value)
    requires Leq(a, b) && Leq(b, c)
    ensures Leq(a, c)
  {
    BeforeIsStrictOrder(c, a, b);
  }

  lemma LtOrLeq(a: Value, b: Value)
    requires SameKind(a, b)
    ensures Lt(a, b) <==> !Leq(b, a)
    ensures Lt(a, b) ==> Leq(a, b)
  {
    BeforeIsStrictOrder(a, b, a);
  }

  lemma LeqLt(a: Value, b: Value, c: Value)
    requires Leq(a, b) && Lt(b, c)
    ensures Lt(a, c) && !Leq(c, b)
  {
    BeforeIsStrictOrder(a, b, c);
    BeforeIsStrictOrder(b, a, c);
  }

  // ---- the machine ----

  /** Where the rows go, the tracked column, and the value the configured first literal denotes. */
  datatype Plan = Plan(sink: Sink, column: Column, initial: Value)

  /** A run in progress: the rows its query selected, and those written so far. */
  datatype Run = Run(rows: seq<Row>, written: set<Row>)

  /** `ceiling` is at or above every watermark value that was ever in the source. */
  datatype State = State(source: map<Key, Row>, ceiling: Value, table: Table, mark: Option<Value>, run: Option<Run>)

  function Tracked(p: Plan, r: Row): Value { if p.column in r then r[p.column] else Null }

  function Id(p: Plan, r: Row): Key { ValuesOf(p.sink.schema.keys, r) }

  /** The lower bound the next query gets. */
  function Low(p: Plan, mark: Option<Value>): Value { if mark.None? then p.initial else Rendered(mark.value) }

  /** What the query `column > low` returns: the rows above the bound, in any order. */
  ghost predicate Snapshot(p: Plan, source: map<Key, Row>, low: Value, rows: seq<Row>) {
    forall r :: r in rows <==> Id(p, r) in source && source[Id(p, r)] == r && Lt(low, Tracked(p, r))
  }

  /** An insert or update, with a watermark value above every earlier one. */
  ghost predicate Put(p: Plan, s: State, s': State, r: Row) {
    Lt(s.ceiling, Tracked(p, r)) && s' == s.(source := s.source[Id(p, r) := r], ceiling := Tracked(p, r))
  }

  ghost predicate Delete(p: Plan, s: State, s': State, k: Key) { s' == s.(source := s.source - {k}) }

  ghost predicate Start(p: Plan, s: State, s': State, rows: seq<Row>) {
    s.run.None? && Snapshot(p, s.source, Low(p, s.mark), rows) && s' == s.(run := Some(Run(rows, {})))
  }

  /** One row of the run is written, in whatever order and however often. */
  ghost predicate Write(p: Plan, s: State, s': State, r: Row) {
    s.run.Some? && r in s.run.value.rows
    && s' == s.(table := UpsertRow(p.sink.schema, s.table, r),
                run := Some(s.run.value.(written := s.run.value.written + {r})))
  }

  /** The run ends without moving the watermark: a crash, an abort, failed rows, a failed persist, no row. */
  ghost predicate End(s: State, s': State) { s.run.Some? && s' == s.(run := None) }

  ghost predicate Maximum(p: Plan, rows: seq<Row>, v: Value) {
    (exists r :: r in rows && Tracked(p, r) == v) && forall r :: r in rows ==> Leq(Tracked(p, r), v)
  }

  /** The run ends clean: every row written, the maximum stored. */
  ghost predicate Advance(p: Plan, s: State, s': State, v: Value) {
    s.run.Some? && (forall r :: r in s.run.value.rows ==> r in s.run.value.written)
    && Maximum(p, s.run.value.rows, v) && s' == s.(mark := Some(v), run := None)
  }

  ghost predicate Next(p: Plan, s: State, s': State) {
    || (exists r :: Put(p, s, s', r))
    || (exists k :: Delete(p, s, s', k))
    || (exists rows :: Start(p, s, s', rows))
    || (exists r :: Write(p, s, s', r))
    || End(s, s')
    || (exists v :: Advance(p, s, s', v))
  }

  ghost predicate Trace(p: Plan, ss: seq<State>) {
    ss != [] && forall i :: 0 <= i < |ss| - 1 ==> Next(p, ss[i], ss[i + 1])
  }

  // ---- the invariant ----

  /** The target has the row, with its current synced values: its own, and NULL in columns it lacks. */
  ghost predicate Holds(p: Plan, t: Table, r: Row) {
    Id(p, r) in t
    && forall c :: c in p.sink.schema.cols ==>
         c in t[Id(p, r)] && t[Id(p, r)][c] == if c in r then r[c] else Null
  }

  /** Above the first literal and at or below the stored watermark. */
  ghost predicate Due(p: Plan, mark: Option<Value>, r: Row) {
    mark.Some? && Lt(p.initial, Tracked(p, r)) && Leq(Tracked(p, r), mark.value)
  }

  /** No lost row. */
  ghost predicate NoLost(p: Plan, s: State) {
    forall k :: k in s.source && Due(p, s.mark, s.source[k]) ==> Holds(p, s.table, s.source[k])
  }

  ghost predicate WellFormed(p: Plan, s: State) {
    && Sound(p.sink, s.table)
    && Leq(p.initial, p.initial) && SameKind(p.initial, s.ceiling)
    && (forall k :: k in s.source ==>
          Id(p, s.source[k]) == k && (Tracked(p, s.source[k]).Null? || Leq(Tracked(p, s.source[k]), s.ceiling)))
    && (s.mark.Some? ==> Leq(s.mark.value, s.ceiling))
  }

  ghost predicate Agree(p: Plan, x: Row, y: Row) {
    forall c :: c in p.sink.schema.cols ==> (if c in x then x[c] else Null) == if c in y then y[c] else Null
  }

  /** At or below the value of one of these rows. */
  ghost predicate Under(p: Plan, rows: seq<Row>, v: Value) { exists x :: x in rows && Leq(v, Tracked(p, x)) }

  /** The rows have a version of `y`. */
  ghost predicate Rewrites(p: Plan, rows: seq<Row>, y: Row) { exists x :: x in rows && Id(p, x) == Id(p, y) }

  /** The watermark is past the row, or will be when the run in progress ends clean. */
  ghost predicate Exposed(p: Plan, s: State, y: Row) {
    Due(p, s.mark, y) || (s.run.Some? && Lt(p.initial, Tracked(p, y)) && Under(p, s.run.value.rows, Tracked(p, y)))
  }

  /** A row the watermark is or will be past is not undone by what the run in progress still writes, and
      the target has it, or gets it from that run before the watermark passes. */
  ghost predicate Secure(p: Plan, s: State, y: Row) {
    Exposed(p, s, y) ==>
      && (s.run.Some? ==> forall x :: x in s.run.value.rows && Id(p, x) == Id(p, y) ==> Agree(p, x, y))
      && (Holds(p, s.table, y) || (!Due(p, s.mark, y) && Rewrites(p, s.run.value.rows, y)))
  }

  /** What a run in progress keeps: its rows lie in its window, one per key, and the target has those written. */
  ghost predicate InStep(p: Plan, s: State, run: Run) {
    && (forall r :: r in run.rows ==> Leq(Tracked(p, r), s.ceiling) && Lt(Low(p, s.mark), Tracked(p, r)))
    && (forall x, y :: x in run.rows && y in run.rows && Id(p, x) == Id(p, y) ==> x == y)
    && (forall r :: r in run.written ==> r in run.rows && Holds(p, s.table, r))
  }

  ghost predicate AllSecure(p: Plan, s: State) { forall k :: k in s.source ==> Secure(p, s, s.source[k]) }

  ghost predicate Inv(p: Plan, s: State) {
    WellFormed(p, s) && AllSecure(p, s) && (s.run.Some? ==> InStep(p, s, s.run.value))
  }

  lemma SecureIsKept(p: Plan, s: State)
    requires AllSecure(p, s)
    ensures NoLost(p, s)
  {
    hide Holds, Rewrites, Under, Agree;
    forall k | k in s.source && Due(p, s.mark, s.source[k])
      ensures Holds(p, s.table, s.source[k])
    {
      assert Secure(p, s, s.source[k]);
    }
  }

  // ---- one written row ----

  lemma WrittenHolds(p: Plan, t: Table, r: Row)
    requires Sound(p.sink, t)
    ensures Sound(p.sink, UpsertRow(p.sink.schema, t, r)) && Holds(p, UpsertRow(p.sink.schema, t, r), r)
  {
    UpsertRowKeepsKeys(p.sink.schema, t, r);
    if Id(p, r) in t { SetListSuffices(p.sink.schema, t, r); }
  }

  lemma OthersKept(p: Plan, t: Table, r: Row, x: Row)
    requires Holds(p, t, x) && Id(p, x) != Id(p, r)
    ensures Holds(p, UpsertRow(p.sink.schema, t, r), x)
  {
  }

  lemma AgreeingHolds(p: Plan, t: Table, x: Row, y: Row)
    requires Holds(p, t, x) && Id(p, x) == Id(p, y) && Agree(p, x, y)
    ensures Holds(p, t, y)
  {
  }

  // ---- every step keeps the invariant ----

  /** A value above the ceiling is above the watermark and above everything a run has selected. */
  lemma FreshIsSecure(p: Plan, s: State, s': State, r: Row)
    requires Inv(p, s) && Lt(s.ceiling, Tracked(p, r)) && s'.mark == s.mark && s'.run == s.run
    ensures Secure(p, s', r)
  {
    hide Sound, Holds, Before, AllSecure;
    var v := Tracked(p, r);
    if s.mark.Some? { LeqLt(s.mark.value, s.ceiling, v); }
    if s.run.Some? {
      forall x | x in s.run.value.rows
        ensures !Leq(v, Tracked(p, x))
      {
        LeqLt(Tracked(p, x), s.ceiling, v);
      }
    }
  }

  /** A higher ceiling is a ceiling. */
  lemma CeilingRises(p: Plan, s: State, c: Value)
    requires Inv(p, s) && Leq(s.ceiling, c)
    ensures Inv(p, s.(ceiling := c))
  {
    hide Sound, Holds, Before, Secure;
    var s' := s.(ceiling := c);
    forall v | Leq(v, s.ceiling)
      ensures Leq(v, c)
    {
      LeqTransitive(v, s.ceiling, c);
    }
    forall k | k in s.source
      ensures Secure(p, s', s.source[k])
    {
      SecureAnyway(p, s, s', s.source[k]);
    }
  }

  lemma SecureAnyway(p: Plan, s: State, s': State, y: Row)
    requires Secure(p, s, y) && s'.mark == s.mark && s'.run == s.run && s'.table == s.table
    ensures Secure(p, s', y)
  {
  }

  /** A secure row may be put, whatever its value. */
  lemma SecurePutKeeps(p: Plan, s: State, s': State, r: Row)
    requires Inv(p, s) && Secure(p, s, r) && (Tracked(p, r).Null? || Leq(Tracked(p, r), s.ceiling))
    requires s' == s.(source := s.source[Id(p, r) := r])
    ensures Inv(p, s')
  {
    hide Sound, Holds, Secure;
    forall k | k in s'.source
      ensures Secure(p, s', s'.source[k])
    {
      SecureAnyway(p, s, s', s'.source[k]);
    }
  }

  lemma PutKeeps(p: Plan, s: State, s': State, r: Row)
    requires Inv(p, s) && Put(p, s, s', r)
    ensures Inv(p, s')
  {
    hide Inv, Secure;
    var v := Tracked(p, r);
    var mid := s.(ceiling := v);
    LtOrLeq(s.ceiling, v);
    LeqReflexive(v);
    FreshIsSecure(p, s, mid, r);
    CeilingRises(p, s, v);
    SecurePutKeeps(p, mid, s', r);
  }

  lemma DeleteKeeps(p: Plan, s: State, s': State, k: Key)
    requires Inv(p, s) && Delete(p, s, s', k)
    ensures Inv(p, s')
  {
    hide Sound, Holds, Secure;
    forall j | j in s'.source
      ensures Secure(p, s', s'.source[j])
    {
      SecureAnyway(p, s, s', s'.source[j]);
    }
  }

  lemma StartKeeps(p: Plan, s: State, s': State, rows: seq<Row>)
    requires Inv(p, s) && Start(p, s, s', rows)
    ensures Inv(p, s')
  {
    hide Sound, Holds, Before, Rendered, Low, Agree;
    forall k | k in s.source
      ensures Secure(p, s', s.source[k])
    {
      var y := s.source[k];
      var v := Tracked(p, y);
      assert Secure(p, s, y);
      SelfAgrees(p, y);
      if Exposed(p, s', y) && !Due(p, s.mark, y) {
        if s.mark.Some? { OneKindOfMark(p, s, v); }
        if !Lt(Low(p, s.mark), v) { WindowIsWide(p, s.mark, v); }
        assert y in rows;
      }
    }
    forall r | r in rows
      ensures Leq(Tracked(p, r), s.ceiling)
    {
      assert !Tracked(p, s.source[Id(p, r)]).Null?;
    }
  }

  lemma SelfAgrees(p: Plan, y: Row)
    ensures Agree(p, y, y)
  {
  }

  lemma WriteKeeps(p: Plan, s: State, s': State, r: Row)
    requires Inv(p, s) && Write(p, s, s', r)
    ensures Inv(p, s')
  {
    hide Sound, Holds, Agree, Lt, Leq, Low, Due;
    WrittenHolds(p, s.table, r);
    forall k | k in s.source
      ensures Secure(p, s', s.source[k])
    {
      var y := s.source[k];
      assert Secure(p, s, y);
      if Exposed(p, s, y) {
        if k == Id(p, r) {
          AgreeingHolds(p, s'.table, r, y);
        } else if Holds(p, s.table, y) {
          OthersKept(p, s.table, r, y);
        }
      }
    }
    forall x | x in s'.run.value.written
      ensures Holds(p, s'.table, x)
    {
      if Id(p, x) != Id(p, r) { OthersKept(p, s.table, r, x); }
    }
  }

  /** Nothing between two watermarks is skipped by the rounding of the first. */
  lemma WindowIsWide(p: Plan, mark: Option<Value>, x: Value)
    requires mark.Some? ==> SameKind(mark.value, x)
    requires Lt(p.initial, x) && !Lt(Low(p, mark), x)
    ensures mark.Some? && Leq(x, mark.value)
  {
  }

  lemma AdvanceKeeps(p: Plan, s: State, s': State, v: Value)
    requires Inv(p, s) && Advance(p, s, s', v)
    ensures Inv(p, s')
  {
    hide Sound, Holds, Lt, Leq, Low, Agree;
    var run := s.run.value;
    var r0 :| r0 in run.rows && Tracked(p, r0) == v;
    forall k | k in s.source
      ensures Secure(p, s', s.source[k])
    {
      var y := s.source[k];
      assert Secure(p, s, y);
      if Due(p, s'.mark, y) {
        assert Under(p, run.rows, Tracked(p, y));
        if !Holds(p, s.table, y) {
          var x :| x in run.rows && Id(p, x) == Id(p, y);
          AgreeingHolds(p, s.table, x, y);
        }
      }
    }
  }

  lemma OneKindOfMark(p: Plan, s: State, x: Value)
    requires SameKind(p.initial, s.ceiling) && s.mark.Some? && Leq(s.mark.value, s.ceiling) && Lt(p.initial, x)
    ensures SameKind(s.mark.value, x)
  {
  }

  lemma NextKeeps(p: Plan, s: State, s': State)
    requires Inv(p, s) && Next(p, s, s')
    ensures Inv(p, s')
  {
    hide Inv, Put, Delete, Start, Write, Advance;
    if r :| Put(p, s, s', r) {
      PutKeeps(p, s, s', r);
    } else if k :| Delete(p, s, s', k) {
      DeleteKeeps(p, s, s', k);
    } else if rows :| Start(p, s, s', rows) {
      StartKeeps(p, s, s', rows);
    } else if r :| Write(p, s, s', r) {
      WriteKeeps(p, s, s', r);
    } else if v :| Advance(p, s, s', v) {
      AdvanceKeeps(p, s, s', v);
    } else {
      EndKeeps(p, s, s');
    }
  }

  lemma EndKeeps(p: Plan, s: State, s': State)
    requires Inv(p, s) && End(s, s')
    ensures Inv(p, s')
  {
    hide Sound, Holds, Lt, Leq, Low, Agree;
    forall k | k in s.source
      ensures Secure(p, s', s.source[k])
    {
      assert Secure(p, s, s.source[k]);
    }
  }

  /** Over every trace from a state without a watermark: no lost row, at every point, also while a run
      is writing. */
  lemma {:induction false} NoLostRow(p: Plan, ss: seq<State>, i: nat)
    requires Trace(p, ss) && i < |ss|
             && (Inv(p, ss[0]) || (WellFormed(p, ss[0]) && ss[0].mark.None? && ss[0].run.None?))
    ensures Inv(p, ss[i]) && NoLost(p, ss[i])
  {
    if i > 0 {
      hide WellFormed, NoLost, AllSecure, InStep, Next;
      NoLostRow(p, ss, i - 1);
      NextKeeps(p, ss[i - 1], ss[i]);
    }
    SecureIsKept(p, ss[i]);
  }

  // ---- what a clean run achieves ----

  /** Every row above the first literal is in the target, and the watermark is the highest of them. */
  ghost predicate InSync(p: Plan, s: State) {
    && s.mark.Some?
    && (exists k :: k in s.source && Tracked(p, s.source[k]) == s.mark.value)
    && forall k :: k in s.source && Lt(p.initial, Tracked(p, s.source[k])) ==>
         Leq(Tracked(p, s.source[k]), s.mark.value) && Holds(p, s.table, s.source[k])
  }

  /** The source's window has not changed since the run started. */
  ghost predicate Quiet(p: Plan, s: State, run: Run) { Snapshot(p, s.source, Low(p, s.mark), run.rows) }

  lemma BelowLow(p: Plan, mark: Option<Value>, x: Value, v: Value)
    requires (mark.Some? ==> SameKind(mark.value, x)) && Lt(p.initial, x) && Lt(Low(p, mark), v) && !Lt(Low(p, mark), x)
    ensures Leq(x, v)
  {
    var low := Low(p, mark);
    if mark.Some? { RenderedNeverSkips(mark.value, x); }
    LtOrLeq(low, v);
    LtOrLeq(low, x);
    LeqTransitive(x, low, v);
  }

  /** A clean run over a source left alone brings the target in sync. */
  lemma CleanRunSyncs(p: Plan, s: State, s': State, v: Value)
    requires Inv(p, s) && s.run.Some? && Quiet(p, s, s.run.value) && Advance(p, s, s', v)
    ensures Inv(p, s') && InSync(p, s')
  {
    hide Sound, Holds, Before, Rendered, Low, NoLost, AllSecure, Agree, Rewrites;
    AdvanceKeeps(p, s, s', v);
    var run := s.run.value;
    var r0 :| r0 in run.rows && Tracked(p, r0) == v;
    assert s.source[Id(p, r0)] == r0;
    forall k | k in s.source && Lt(p.initial, Tracked(p, s.source[k]))
      ensures Leq(Tracked(p, s.source[k]), v) && Holds(p, s.table, s.source[k])
    {
      var x := Tracked(p, s.source[k]);
      if Lt(Low(p, s.mark), x) {
        assert s.source[k] in run.rows;
      } else {
        if s.mark.Some? { OneKindOfMark(p, s, x); }
        BelowLow(p, s.mark, x, v);
        SecureIsKept(p, s');
        NoLostAt(p, s', k);
      }
    }
  }

  lemma NoLostAt(p: Plan, s: State, k: Key)
    requires NoLost(p, s) && k in s.source && Due(p, s.mark, s.source[k])
    ensures Holds(p, s.table, s.source[k])
  {
  }

  /** Writing a row the target already holds changes nothing. */
  lemma HeldRowAbsorbed(p: Plan, t: Table, r: Row)
    requires Sound(p.sink, t) && Holds(p, t, r)
    ensures UpsertRow(p.sink.schema, t, r) == t
  {
    var k := Id(p, r);
    assert t[k] + Assigned(p.sink.schema, r) == t[k];
  }

  /** In sync with table `t` and watermark `m`, and any run in progress reads that same source. */
  ghost predicate Still(p: Plan, s: State, t: Table, m: Value) {
    && Inv(p, s) && InSync(p, s) && s.table == t && s.mark == Some(m) && Leq(p.initial, Rendered(m))
    && (s.run.Some? ==> Quiet(p, s, s.run.value))
  }

  lemma Antisymmetric(a: Value, b: Value)
    requires Leq(a, b) && Leq(b, a)
    ensures a == b
  {
    BeforeIsStrictOrder(a, b, a);
  }

  /** Steps that leave the source alone. */
  ghost predicate QuietNext(p: Plan, s: State, s': State) {
    || (exists rows :: Start(p, s, s', rows))
    || (exists r :: Write(p, s, s', r))
    || End(s, s')
    || (exists v :: Advance(p, s, s', v))
  }

  lemma StartStill(p: Plan, s: State, s': State, rows: seq<Row>, t: Table, m: Value)
    requires Still(p, s, t, m) && Start(p, s, s', rows)
    ensures Still(p, s', t, m)
  {
    hide Sound, Holds, Before, Rendered, NoLost, AllSecure;
    StartKeeps(p, s, s', rows);
  }

  lemma WriteStill(p: Plan, s: State, s': State, r: Row, t: Table, m: Value)
    requires Still(p, s, t, m) && Write(p, s, s', r)
    ensures Still(p, s', t, m)
  {
    hide Sound, Holds, Before, Rendered, NoLost, AllSecure;
    WriteKeeps(p, s, s', r);
    LeqLt(p.initial, Rendered(m), Tracked(p, r));
    assert s.source[Id(p, r)] == r;
    HeldRowAbsorbed(p, t, r);
  }

  lemma AdvanceStill(p: Plan, s: State, s': State, v: Value, t: Table, m: Value)
    requires Still(p, s, t, m) && Advance(p, s, s', v)
    ensures Still(p, s', t, m)
  {
    hide Sound, Holds, Before, Rendered, NoLost, AllSecure;
    AdvanceKeeps(p, s, s', v);
    var run := s.run.value;
    var r0 :| r0 in run.rows && Tracked(p, r0) == v;
    assert s.source[Id(p, r0)] == r0;
    LeqLt(p.initial, Rendered(m), v);
    var k :| k in s.source && Tracked(p, s.source[k]) == m;
    if Lt(Rendered(m), m) {
      assert s.source[k] in run.rows;
    } else {
      AboveItself(m, v);
    }
    Antisymmetric(v, m);
  }

  /** Nothing lies above a literal and at or below a watermark that is not above its own literal. */
  lemma AboveItself(m: Value, v: Value)
    requires Lt(Rendered(m), v) && !Lt(Rendered(m), m)
    ensures !Leq(v, m)
  {
  }

  /** Once in sync, and with the source left alone, any number of further runs, whether they end clean,
      with failures or in a crash, change neither the target nor the watermark. */
  lemma {:induction false} RerunChangesNothing(p: Plan, ss: seq<State>, t: Table, m: Value, i: nat)
    requires i < |ss| && Still(p, ss[0], t, m) && forall j :: 0 <= j < |ss| - 1 ==> QuietNext(p, ss[j], ss[j + 1])
    ensures Still(p, ss[i], t, m)
  {
    if i > 0 {
      hide Still, Start, Write, Advance, End;
      RerunChangesNothing(p, ss, t, m, i - 1);
      var s, s' := ss[i - 1], ss[i];
      if rows :| Start(p, s, s', rows) {
        StartStill(p, s, s', rows, t, m);
      } else if r :| Write(p, s, s', r) {
        WriteStill(p, s, s', r, t, m);
      } else if v :| Advance(p, s, s', v) {
        AdvanceStill(p, s, s', v, t, m);
      } else {
        EndStill(p, s, s', t, m);
      }
    }
  }

  lemma EndStill(p: Plan, s: State, s': State, t: Table, m: Value)
    requires Still(p, s, t, m) && End(s, s')
    ensures Still(p, s', t, m)
  {
  }

  /** A first literal written to the microsecond stays at or below every later one. */
  lemma FirstLiteralStaysLow(p: Plan, v: Value)
    requires Rendered(p.initial) == p.initial && Lt(p.initial, v)
    ensures Leq(p.initial, Rendered(v))
  {
    RenderedNeverFalls(p.initial, v);
  }

  /** A clean run over a source left alone leaves nothing for later runs to do, if the first literal is
      written to the microsecond. */
  lemma CleanRunIsStill(p: Plan, s: State, s': State, v: Value)
    requires Inv(p, s) && s.run.Some? && Quiet(p, s, s.run.value) && Advance(p, s, s', v)
    requires Rendered(p.initial) == p.initial && Leq(p.initial, Low(p, s.mark))
    ensures Still(p, s', s'.table, v) && Leq(p.initial, Low(p, s'.mark))
  {
    CleanRunSyncs(p, s, s', v);
    hide Inv, InSync, Rendered;
    var r0 :| r0 in s.run.value.rows && Tracked(p, r0) == v;
    AboveLow(p, s, r0);
    LeqLt(p.initial, Low(p, s.mark), v);
    FirstLiteralStaysLow(p, v);
  }

  lemma AboveLow(p: Plan, s: State, r: Row)
    requires Inv(p, s) && s.run.Some? && r in s.run.value.rows
    ensures Lt(Low(p, s.mark), Tracked(p, r))
  {
  }

  // ---- the watermark over a trace ----

  /** A clean run may store a time below the previous one, by less than a microsecond; its literal is never lower. */
  lemma MarkStep(p: Plan, s: State, s': State, v: Value)
    requires Inv(p, s) && Advance(p, s, s', v) && s.mark.Some?
    ensures Leq(Rendered(s.mark.value), Rendered(v))
    ensures Lt(v, s.mark.value) ==> v.Time? && s.mark.value.Time? && s.mark.value.ns - v.ns < 1000
  {
    hide Sound, Holds, NoLost;
    var m := s.mark.value;
    var r0 :| r0 in s.run.value.rows && Tracked(p, r0) == v;
    assert Lt(Low(p, s.mark), v);
    SameKindThrough(m, s.ceiling, v);
    RenderedNeverFalls(m, v);
    RenderedNeverSkips(m, v);
    BeforeIsStrictOrder(v, m, v);
  }

  lemma SameKindThrough(a: Value, top: Value, b: Value)
    requires Leq(a, top) && Leq(b, top)
    ensures SameKind(a, b)
  {
  }

  lemma LiteralStep(p: Plan, s: State, s': State)
    requires Inv(p, s) && Next(p, s, s') && s.mark.Some?
    ensures s'.mark.Some? && Leq(Rendered(s.mark.value), Rendered(s'.mark.value))
  {
    hide NoLost, InStep, Rendered, Snapshot, Maximum;
    if v :| Advance(p, s, s', v) {
      MarkStep(p, s, s', v);
    } else {
      RenderedReflexive(s.mark.value, s.ceiling);
    }
  }

  lemma RenderedReflexive(v: Value, like: Value)
    requires SameKind(v, like)
    ensures Leq(Rendered(v), Rendered(v))
  {
    LeqReflexive(Rendered(v));
  }

  lemma MarkKind(p: Plan, s: State)
    requires WellFormed(p, s) && s.mark.Some?
    ensures SameKind(s.mark.value, s.ceiling)
  {
  }

  /** What the next query's literal denotes never decreases, over any trace. */
  lemma {:induction false} LiteralsNeverDecrease(p: Plan, ss: seq<State>, i: nat, j: nat)
    requires Trace(p, ss) && Inv(p, ss[0]) && i <= j < |ss| && ss[i].mark.Some?
    ensures ss[j].mark.Some? && Leq(Rendered(ss[i].mark.value), Rendered(ss[j].mark.value))
  {
    hide NoLost, InStep, Next, Rendered, Leq;
    if i == j {
      NoLostRow(p, ss, i);
      MarkKind(p, ss[i]);
      RenderedReflexive(ss[i].mark.value, ss[i].ceiling);
    } else {
      LiteralsNeverDecrease(p, ss, i, j - 1);
      NoLostRow(p, ss, j - 1);
      LiteralStep(p, ss[j - 1], ss[j]);
      LeqTransitive(Rendered(ss[i].mark.value), Rendered(ss[j - 1].mark.value), Rendered(ss[j].mark.value));
    }
  }

  // ---- building traces ----

  /** The trace leads from one state to the other. */
  ghost predicate Leads(p: Plan, ss: seq<State>, s: State, s': State) {
    Trace(p, ss) && ss[0] == s && ss[|ss| - 1] == s'
  }

  lemma Further(p: Plan, ss: seq<State>, s: State, s': State, s'': State)
    requires Leads(p, ss, s, s') && Next(p, s', s'')
    ensures Leads(p, ss + [s''], s, s'')
  {
  }

  /** The state after writing `done` one by one. */
  ghost function Written(p: Plan, s: State, done: seq<Row>): State
    requires s.run.Some?
  {
    s.(table := UpsertAll(p.sink.schema, s.table, done),
       run := Some(s.run.value.(written := s.run.value.written + (set r | r in done))))
  }

  lemma {:induction false} WritesLead(p: Plan, ss: seq<State>, s0: State, s: State, done: seq<Row>)
    returns (ss': seq<State>)
    requires Leads(p, ss, s0, s) && s.run.Some? && forall r :: r in done ==> r in s.run.value.rows
    ensures Leads(p, ss', s0, Written(p, s, done))
    ensures QuietTrace(p, ss) ==> QuietTrace(p, ss')
    decreases |done|
  {
    hide Trace, UpsertRow, QuietTrace;
    if done == [] {
      ss' := ss;
      assert Written(p, s, done) == s by {
        assert (set r | r in done) == {} && s.run.value.written + {} == s.run.value.written;
      }
    } else {
      var front, r := done[..|done| - 1], done[|done| - 1];
      var mid := WritesLead(p, ss, s0, s, front);
      var before, after := Written(p, s, front), Written(p, s, done);
      assert (set x | x in done) == (set x | x in front) + {r} by { assert done == front + [r]; }
      assert after.run.value.written == before.run.value.written + {r};
      assert Write(p, before, after, r);
      Further(p, mid, s0, before, after);
      NotEmpty(p, mid, s0, before);
      if QuietTrace(p, mid) { QuietFurther(p, mid, after); }
      ss' := mid + [after];
    }
  }

  lemma NotEmpty(p: Plan, ss: seq<State>, s: State, s': State)
    requires Leads(p, ss, s, s')
    ensures ss != [] && ss[|ss| - 1] == s'
  {
  }

  lemma AtOnce(p: Plan, s: State)
    ensures Leads(p, [s], s, s)
  {
  }

  lemma LeadsKeeps(p: Plan, ss: seq<State>, s: State, s': State)
    requires Leads(p, ss, s, s') && Inv(p, s)
    ensures Inv(p, s')
  {
    hide Inv;
    NoLostRow(p, ss, |ss| - 1);
  }

  // ---- edits of the source ----

  datatype Edit = Changed(row: Row) | Removed(key: Key)

  function Edited(p: Plan, s: State, e: Edit): State {
    match e
    case Changed(r) => s.(source := s.source[Id(p, r) := r], ceiling := Tracked(p, r))
    case Removed(k) => s.(source := s.source - {k})
  }

  function EditedAll(p: Plan, s: State, es: seq<Edit>): State {
    if es == [] then s else Edited(p, EditedAll(p, s, es[..|es| - 1]), es[|es| - 1])
  }

  /** Every inserted or updated row comes in above everything before it. */
  ghost predicate AllFresh(p: Plan, s: State, es: seq<Edit>) {
    forall i :: 0 <= i < |es| && es[i].Changed? ==> Lt(EditedAll(p, s, es[..i]).ceiling, Tracked(p, es[i].row))
  }

  /** Edits and runs do not touch each other's part of the state. */
  lemma {:induction false} EditsFrame(p: Plan, s: State, s': State, es: seq<Edit>)
    requires s'.source == s.source && s'.ceiling == s.ceiling
    ensures EditedAll(p, s', es)
            == State(EditedAll(p, s, es).source, EditedAll(p, s, es).ceiling, s'.table, s'.mark, s'.run)
  {
    if es != [] { EditsFrame(p, s, s', es[..|es| - 1]); }
  }

  lemma {:induction false} EditsLead(p: Plan, ss: seq<State>, s0: State, s: State, es: seq<Edit>)
    returns (ss': seq<State>)
    requires Leads(p, ss, s0, s) && AllFresh(p, s, es)
    ensures Leads(p, ss', s0, EditedAll(p, s, es))
    ensures es == [] ==> ss' == ss
    decreases |es|
  {
    hide Leads, Lt;
    if es == [] {
      ss' := ss;
    } else {
      var front, e := es[..|es| - 1], es[|es| - 1];
      forall i | 0 <= i < |front|
        ensures front[..i] == es[..i]
      {
      }
      var mid := EditsLead(p, ss, s0, s, front);
      var before, after := EditedAll(p, s, front), EditedAll(p, s, es);
      EditSteps(p, before, e);
      Further(p, mid, s0, before, after);
      ss' := mid + [after];
    }
  }

  lemma EditSteps(p: Plan, s: State, e: Edit)
    requires e.Changed? ==> Lt(s.ceiling, Tracked(p, e.row))
    ensures Next(p, s, Edited(p, s, e))
  {
    match e {
      case Changed(r) => assert Put(p, s, Edited(p, s, e), r);
      case Removed(k) => assert Delete(p, s, Edited(p, s, e), k);
    }
  }

  /** The trace has only steps that leave the source alone. */
  ghost predicate QuietTrace(p: Plan, ss: seq<State>) {
    forall j :: 0 <= j < |ss| - 1 ==> QuietNext(p, ss[j], ss[j + 1])
  }

  lemma QuietFurther(p: Plan, ss: seq<State>, s': State)
    requires ss != [] && QuietTrace(p, ss) && QuietNext(p, ss[|ss| - 1], s')
    ensures QuietTrace(p, ss + [s'])
  {
    hide QuietNext;
  }
}
