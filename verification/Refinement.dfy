/** A run of the engine, with its pages, chunks, fallbacks and failures, is a trace of the replication
    machine: what holds over traces holds over runs. */
module Refinement {
  import opened Wrappers
  import opened Text
  import opened Tables
  import opened TimeText
  import opened Ladder
  import opened Connector
  import opened Watermark
  import opened Config
  import opened Streaming
  import opened Engine
  import opened Replication
  import R = Runlog

  /** The source's answer to the query `column > low`: rows of a snapshot, all of them unless it breaks. */
  ghost predicate Answer(p: Plan, source: map<Key, Row>, low: Value, rs: Option<ResultSet>) {
    rs.Some? ==>
      Rectangular(rs.value) && ColumnSet(rs.value) == p.sink.schema.cols
      && exists rows :: Answered(p, source, low, rs.value, rows)
  }

  ghost predicate Answered(p: Plan, source: map<Key, Row>, low: Value, rs: ResultSet, rows: seq<Row>)
    requires Rectangular(rs)
  {
    Snapshot(p, source, low, rows) && RowsOf(rs) <= rows && (!rs.broken ==> RowsOf(rs) == rows)
  }

  /** The hypothesis on the query: with any literal the source can read wherever ":watermark" stands, it selects
      the rows above the value that literal denotes. */
  ghost predicate Answers(p: Plan, read: string -> Option<real>, task: Task, source: map<Key, Row>,
                          src: string -> Option<ResultSet>) {
    forall lit, query ::
      ReadLiteral(read, p.initial, lit).Some? && Substituted(task.source.query, ":watermark", lit, query) ==>
        Answer(p, source, ReadLiteral(read, p.initial, lit).value, src(query))
  }

  /** The plan is the task's. */
  ghost predicate Planned(p: Plan, read: string -> Option<real>, task: Task, tgt: Target) {
    && task.incremental.Some? && Upserts(task)
    && p.column == task.incremental.value.column && p.sink == SinkOfRun(task, tgt, p.sink.schema.cols)
    && ReadLiteral(read, p.initial, task.incremental.value.initial) == Some(p.initial)
  }

  /** Floats print and parse exactly, and times lie in years 0000 to 9999. */
  ghost predicate Storable(fmt: real -> string, read: string -> Option<real>, p: Plan, s: State) {
    && (forall f :: read(fmt(f)) == Some(f))
    && (s.mark.Some? && s.mark.value.Time? ==> FourDigitYear(s.mark.value.ns))
    && (forall k :: k in s.source && Tracked(p, s.source[k]).Time? ==> FourDigitYear(Tracked(p, s.source[k]).ns))
  }

  lemma LiteralOfKind(read: string -> Option<real>, a: Value, b: Value, text: string)
    requires SameKind(a, b)
    ensures ReadLiteral(read, a, text) == ReadLiteral(read, b, text)
  {
  }

  /** The query the run sends is answered from the window above its literal. */
  lemma QueryIsAnswered(p: Plan, s: State, fmt: real -> string, read: string -> Option<real>, task: Task, tgt: Target,
                        src: string -> Option<ResultSet>, query: string)
    requires WellFormed(p, s) && Planned(p, read, task, tgt) && Storable(fmt, read, p, s)
    requires Answers(p, read, task, s.source, src) && Asks(fmt, task, s.mark, query)
    ensures Answer(p, s.source, Low(p, s.mark), src(query))
  {
    hide Answer, ReadLiteral, Literal, Sound, FourDigitYear, Substituted, Occurs;
    if s.mark.Some? {
      var m := s.mark.value;
      LiteralDenotes(fmt, read, m);
      var lit := Literal(fmt, m).value;
      LiteralOfKind(read, m, p.initial, lit);
      assert ReadLiteral(read, p.initial, lit) == Some(Rendered(m));
    }
  }

  /** The run has started, and the source has been edited since. */
  lemma Begun(p: Plan, s: State, rows: seq<Row>, es: seq<Edit>) returns (ss: seq<State>, s': State)
    requires s.run.None? && Snapshot(p, s.source, Low(p, s.mark), rows) && AllFresh(p, s, es)
    ensures Leads(p, ss, s, s') && s' == EditedAll(p, s, es).(run := Some(Run(rows, {}))) && s'.table == s.table
            && s'.mark == s.mark
    ensures es == [] ==> QuietTrace(p, ss)
  {
    hide Snapshot, Low, Lt;
    var started := s.(run := Some(Run(rows, {})));
    assert Start(p, s, started, rows);
    AtOnce(p, s);
    Further(p, [s], s, s, started);
    EditsFrame(p, s, s, es);
    EditsFrame(p, s, started, es);
    FreshAnyway(p, s, started, es);
    s' := EditedAll(p, started, es);
    ss := EditsLead(p, [s] + [started], s, started, es);
  }

  lemma FreshAnyway(p: Plan, s: State, s': State, es: seq<Edit>)
    requires s'.source == s.source && s'.ceiling == s.ceiling && AllFresh(p, s, es)
    ensures AllFresh(p, s', es)
  {
    hide Lt;
    forall i | 0 <= i < |es|
      ensures EditedAll(p, s', es[..i]).ceiling == EditedAll(p, s, es[..i]).ceiling
    {
      EditsFrame(p, s, s', es[..i]);
    }
  }

  /** A run that moves nothing but the table. */
  lemma HeldRun(p: Plan, s: State, rows: seq<Row>, es: seq<Edit>, done: seq<Row>) returns (ss: seq<State>)
    requires s.run.None? && Snapshot(p, s.source, Low(p, s.mark), rows) && AllFresh(p, s, es)
    requires forall r :: r in done ==> r in rows
    ensures Leads(p, ss, s, EditedAll(p, s, es).(table := UpsertAll(p.sink.schema, s.table, done)))
    ensures es == [] ==> QuietTrace(p, ss)
  {
    hide UpsertAll, Snapshot, Low, Leads, AllFresh, QuietTrace, EditedAll;
    var begun;
    ss, begun := Begun(p, s, rows, es);
    EditsFrame(p, s, s, es);
    ss := WritesLead(p, ss, s, begun, done);
    var written := Written(p, begun, done);
    var ended := written.(run := None);
    assert End(written, ended);
    Further(p, ss, s, written, ended);
    NotEmpty(p, ss, s, written);
    if es == [] { QuietFurther(p, ss, ended); }
    ss := ss + [ended];
  }

  /** A run that writes everything and stores the maximum. */
  lemma CleanRun(p: Plan, s: State, rows: seq<Row>, es: seq<Edit>, v: Value) returns (ss: seq<State>)
    requires Inv(p, s) && s.run.None? && Snapshot(p, s.source, Low(p, s.mark), rows) && Maximum(p, rows, v)
             && AllFresh(p, s, es)
    ensures var s' := EditedAll(p, s, es).(table := UpsertAll(p.sink.schema, s.table, rows), mark := Some(v));
            Leads(p, ss, s, s') && (es == [] ==> QuietTrace(p, ss) && InSync(p, s'))
  {
    hide UpsertAll, Low, Inv, InSync, Lt, Maximum, Leads, AllFresh, QuietTrace, Snapshot;
    var begun;
    ss, begun := Begun(p, s, rows, es);
    EditsFrame(p, s, s, es);
    ss := WritesLead(p, ss, s, begun, rows);
    var written := Written(p, begun, rows);
    var ended := written.(mark := Some(v), run := None);
    assert Advance(p, written, ended, v);
    LeadsKeeps(p, ss, s, written);
    if es == [] { CleanRunSyncs(p, written, ended, v); }
    Further(p, ss, s, written, ended);
    NotEmpty(p, ss, s, written);
    if es == [] { QuietFurther(p, ss, ended); }
    ss := ss + [ended];
  }

  // ---- runs are traces ----

  /** What a run that advanced the watermark stored is the maximum of the rows it wrote. */
  lemma StoredIsMaximum(p: Plan, s: State, f64: Rounding, rows: seq<Row>, v: Value)
    requires WellFormed(p, s) && Snapshot(p, s.source, Low(p, s.mark), rows)
    requires Fold(f64, None, ColumnOf(p.column, rows)) == Some(Some(v))
    ensures Maximum(p, rows, v)
    ensures exists k :: k in s.source && Tracked(p, s.source[k]) == v
  {
    hide Sound, Fold, Low, Before;
    var vs := ColumnOf(p.column, rows);
    forall x | x in vs && !x.Null?
      ensures SameKind(x, p.initial)
    {
      var i :| 0 <= i < |vs| && vs[i] == x;
      assert rows[i] in rows;
    }
    FoldIsMaximum(f64, vs, p.initial);
    var i :| 0 <= i < |vs| && vs[i] == v;
    assert rows[i] in rows && Tracked(p, rows[i]) == v;
    forall r | r in rows
      ensures Leq(Tracked(p, r), v)
    {
      var j :| 0 <= j < |rows| && rows[j] == r;
      assert vs[j] in vs;
      assert !vs[j].Null?;
    }
  }

  /** The state between runs that the engine's own data describe. */
  ghost predicate Describes(s: State, read: string -> Option<real>, state: map<string, (string, string)>, name: string,
                            t: Table) {
    s.run.None? && s.table == t && s.mark == R.MarkOf(read, state, name)
  }

  /** Everything RunTask promises about target and watermark makes its run a trace of the machine, whatever
      failed, wherever it stopped, and however the source was edited after the snapshot; a stored watermark
      over a source left alone means that the target is in sync. */
  lemma RunIsTrace(p: Plan, s: State, s': State, fmt: real -> string, read: string -> Option<real>, f64: Rounding,
                   task: Task, tgt: Target, src: string -> Option<ResultSet>,
                   state: map<string, (string, string)>, state': map<string, (string, string)>,
                   rs: Option<ResultSet>, res: R.Result, es: seq<Edit>)
    returns (ss: seq<State>)
    requires Inv(p, s) && Describes(s, read, state, task.name, s.table)
    requires Planned(p, read, task, tgt) && Storable(fmt, read, p, s) && Answers(p, read, task, s.source, src)
    requires AllFresh(p, s, es) && s' == EditedAll(p, s, es).(table := s'.table, mark := s'.mark)
    requires Describes(s', read, state', task.name, s'.table)
    requires Accounted(task, tgt, s.table, s'.table, rs, res)
             && MovesOnlyIfEarned(task, fmt, f64, state, state', rs, res)
    requires rs.Some? ==> exists query :: Asks(fmt, task, s.mark, query) && rs == src(query)
    ensures Leads(p, ss, s, s') && Inv(p, s')
    ensures es == [] ==> QuietTrace(p, ss) && (Persisted(task, fmt, f64, state, state', rs, res) ==> InSync(p, s'))
  {
    hide QuietTrace, AllFresh, EditedAll, Inv, Leads, InSync, UpsertAll, Fold, FourDigitYear, Encode, Decode, Low,
         Snapshot, AllAdmitted, Answers, Asks;
    WellFormedNow(p, s);
    EditsFrame(p, s, s, es);
    if rs.None? {
      AtOnce(p, s);
      Single(p, s);
      ss := EditsLead(p, [s], s, s, es);
    } else {
      var query :| Asks(fmt, task, s.mark, query) && rs == src(query);
      QueryIsAnswered(p, s, fmt, read, task, tgt, src, query);
      var rows :| Answered(p, s.source, Low(p, s.mark), rs.value, rows);
      var seen := RowsOf(rs.value)[..res.total];
      if !Persisted(task, fmt, f64, state, state', rs, res) {
        var done :| Among(p.sink, done, seen) && s'.table == UpsertAll(p.sink.schema, s.table, done);
        SeenIsSelected(rs.value, res.total, rows, done);
        ss := HeldRun(p, s, rows, es, done);
      } else {
        var v :| Earned(task, fmt, f64, rs, res, v) && state' == state[task.name := Encode(fmt, v).value];
        assert seen == rows;
        StoredIsMaximum(p, s, f64, rows, v);
        StoreRoundTrip(fmt, read, v);
        ss := CleanRun(p, s, rows, es, v);
      }
    }
    LeadsKeeps(p, ss, s, s');
  }

  lemma Single(p: Plan, s: State)
    ensures QuietTrace(p, [s])
  {
  }

  lemma WellFormedNow(p: Plan, s: State)
    requires Inv(p, s)
    ensures WellFormed(p, s)
  {
  }

  lemma SeenIsSelected(rs: ResultSet, total: nat, rows: seq<Row>, done: seq<Row>)
    requires Rectangular(rs) && total <= |rs.tuples| && RowsOf(rs) <= rows
    requires forall r :: r in done ==> r in RowsOf(rs)[..total]
    ensures forall r :: r in done ==> r in rows
  {
  }

  /** The machine's state, as the target, the store and the source present it between runs. */
  ghost function StateOf(source: map<Key, Row>, ceiling: Value, tgt: Target, store: R.Store, name: string): State
    reads tgt, store
  {
    State(source, ceiling, tgt.table, store.Mark(name), None)
  }

  /** A complete run without failed rows that saw any row has a maximum to store. */
  lemma CleanRunEarns(p: Plan, s: State, fmt: real -> string, read: string -> Option<real>, f64: Rounding,
                      task: Task, tgt: Target, rs: Option<ResultSet>, res: R.Result)
    requires WellFormed(p, s) && Planned(p, read, task, tgt) && Answer(p, s.source, Low(p, s.mark), rs)
    requires Complete(rs, res) && res.fail == 0 && res.ok == res.total > 0
    ensures exists v :: Earned(task, fmt, f64, rs, res, v)
  {
    hide Sound, Low, Fold, ReadLiteral, SinkOfRun;
    var rows :| Answered(p, s.source, Low(p, s.mark), rs.value, rows);
    var vs := ColumnOf(p.column, rows);
    forall i | 0 <= i < |vs|
      ensures SameKind(vs[i], p.initial)
    {
      assert rows[i] in rows && vs[i] == Tracked(p, rows[i]);
    }
    FoldIsMaximum(f64, vs, p.initial);
    assert vs[0] in vs;
    assert Earned(task, fmt, f64, rs, res, Fold(f64, None, vs).value.value);
  }

  /** The state after a run during which the source was edited. */
  ghost function StateAfter(p: Plan, before: State, es: seq<Edit>, tgt: Target, store: R.Store, name: string): State
    reads tgt, store
  {
    StateOf(EditedAll(p, before, es).source, EditedAll(p, before, es).ceiling, tgt, store, name)
  }

  lemma StillStays(p: Plan, ss: seq<State>, s: State, s': State, t: Table, m: Value)
    requires Leads(p, ss, s, s') && QuietTrace(p, ss) && Still(p, s, t, m)
    ensures Still(p, s', t, m)
  {
    hide Still, Next, QuietNext;
    RerunChangesNothing(p, ss, t, m, |ss| - 1);
  }

  /** One incremental run, end to end, with `es` the edits of the source since the snapshot: whatever
      happens in it, no row is lost.  If the source was left alone, no statement of the store failed and
      the stream was complete with some row and no failure, the target ends in sync; and a run over a
      source left alone after such a run changes neither target nor watermark, whatever fails. */
  method IncrementalRun(reg: Registry.Registry, store: R.Store, sourceUp: bool, targetUp: bool,
                        src: string -> Option<ResultSet>, tgt: Target, task: Task, trigger: string, f64: Rounding,
                        ghost p: Plan, ghost source: map<Key, Row>, ghost ceiling: Value, ghost es: seq<Edit>)
    returns (res: R.Result, ghost rs: Option<ResultSet>, ghost ss: seq<State>)
    requires reg.Valid() && Runnable(task) && Fitting(task, tgt) && reg.history == store.history == tgt.history
    requires forall q :: src(q).Some? ==> Rectangular(src(q).value)
    requires Planned(p, store.read, task, tgt) && Answers(p, store.read, task, source, src)
    requires Inv(p, StateOf(source, ceiling, tgt, store, task.name))
    requires Storable(store.fmt, store.read, p, StateOf(source, ceiling, tgt, store, task.name))
    requires AllFresh(p, StateOf(source, ceiling, tgt, store, task.name), es)
    modifies reg, tgt`table, tgt`stages, store`log, store`state, store`failures, reg.history
    ensures var before := old(StateOf(source, ceiling, tgt, store, task.name));
            var after := StateAfter(p, before, es, tgt, store, task.name);
            && Leads(p, ss, before, after) && Inv(p, after)
            && (es == [] && store.state != old(store.state) ==> InSync(p, after))
            && (es == [] && store.failures == old(store.failures) && Complete(rs, res) && res.fail == 0 && res.total > 0
                ==> InSync(p, after))
            && forall t, m :: es == [] && Still(p, before, t, m) ==> Still(p, after, t, m)
  {
    hide Inv, InSync, Leads, Answers, Answer, Storable, Asks, Lifecycle, StatusFits, Fitting, Runnable,
         Rectangular, Planned, Decode, Earned, Explained, Closed, Low, AllFresh, EditedAll, QuietTrace, Still,
         Conducted, TurnedAway, R.OpsOf;
    ghost var before := StateOf(source, ceiling, tgt, store, task.name);
    ghost var t, state := tgt.table, store.state;
    ghost var ops;
    res, rs, ops := RunTask(reg, store, sourceUp, targetUp, src, tgt, task, trigger, f64);
    EditsFrame(p, before, before, es);
    ghost var after := StateAfter(p, before, es, tgt, store, task.name);
    assert rs.Some? ==> exists query :: Asks(store.fmt, task, before.mark, query) && rs == src(query) by {
      if rs.Some? {
        ghost var q :| AsksNow(store.fmt, store.read, state, task, q) && rs == src(q);
      }
    }
    ss := RunIsTrace(p, before, after, store.fmt, store.read, f64, task, tgt, src, state, store.state, rs, res, es);
    if store.failures == old(store.failures) && Complete(rs, res) && res.fail == 0 && res.total > 0 {
      WellFormedNow(p, before);
      ghost var query :| Asks(store.fmt, task, before.mark, query) && rs == src(query);
      QueryIsAnswered(p, before, store.fmt, store.read, task, tgt, src, query);
      CleanRunEarns(p, before, store.fmt, store.read, f64, task, tgt, rs, res);
    }
    if es == [] {
      forall t, m | Still(p, before, t, m)
        ensures Still(p, after, t, m)
      {
        StillStays(p, ss, before, after, t, m);
      }
    }
  }
}
