/** One run of one task: take the registry's token, open the log record, stream and write, settle the
    status and the watermark, close the record, give the token back. */
module Engine {
  import opened Wrappers
  import opened Text
  import opened Tables
  import opened Ladder
  import opened Connector
  import opened Watermark
  import opened Config
  import opened Pages
  import opened Streaming
  import Registry

  const TOKEN := ":watermark"

  /** The query for a watermark: the configured one; for an incremental task with the watermark's literal, or the
      configured first one, wherever ":watermark" stands in it, which must be somewhere. */
  ghost predicate Asks(fmt: real -> string, task: Task, mark: Option<Value>, query: string) {
    if task.incremental.None? then query == task.source.query
    else
      var lit := if mark.None? then Some(task.incremental.value.initial) else Literal(fmt, mark.value);
      lit.Some? && Occurs(task.source.query, ":watermark")
      && Substituted(task.source.query, ":watermark", lit.value, query)
  }

  /** The query for a run that finds `state` in the store; there is none if the stored watermark is unreadable. */
  ghost predicate AsksNow(fmt: real -> string, read: string -> Option<real>, state: map<string, (string, string)>,
                          task: Task, query: string) {
    var mark := R.MarkOf(read, state, task.name);
    (task.incremental.Some? && task.name in state ==> mark.Some?) && Asks(fmt, task, mark, query)
  }

  /** There is at most one. */
  lemma OneQuery(fmt: real -> string, read: string -> Option<real>, state: map<string, (string, string)>, task: Task,
                 q: string, q': string)
    requires AsksNow(fmt, read, state, task, q) && AsksNow(fmt, read, state, task, q')
    ensures q == q'
  {
    hide Substituted, Occurs, Literal, R.MarkOf;
    var mark := R.MarkOf(read, state, task.name);
    if task.incremental.Some? {
      var lit := if mark.None? then Some(task.incremental.value.initial) else Literal(fmt, mark.value);
      SubstitutedExactly(task.source.query, ":watermark", lit.value, q);
      SubstitutedExactly(task.source.query, ":watermark", lit.value, q');
    }
  }

  predicate Upserts(task: Task) { task.target.mode != Config.Insert }

  /** The sink a run writes to, given the columns its source returns. */
  function SinkOfRun(task: Task, tgt: Target, columns: set<Column>): Sink {
    Sink(task.target.table, Schema(tgt.index, columns, tgt.defaults), tgt.accepts)
  }

  /** The hypotheses about the target: an upsert task's keys are its only unique index and its rows carry
      them.  Insert mode with bulk and keys is not covered. */
  ghost predicate Fitting(task: Task, tgt: Target)
    reads tgt
  {
    && (Upserts(task) ==>
          tgt.index == task.target.keys && tgt.index != [] && WellKeyed(Schema(tgt.index, {}, map[]), tgt.table))
    && (!Upserts(task) && task.target.bulk ==> task.target.keys == [])
  }

  /** The whole result set was read and every page accepted. */
  predicate Complete(rs: Option<ResultSet>, res: R.Result) {
    rs.Some? && !rs.value.broken && res.total == |rs.value.tuples|
  }

  /** Conservation: every row seen is counted once, the samples are the first failures, and an upsert
      run's table is what Wrote says of the rows seen, an insert run's what Grew says. */
  ghost predicate Accounted(task: Task, tgt: Target, t: Table, t': Table, rs: Option<ResultSet>, res: R.Result) {
    && res.ok + res.fail == res.total && |res.samples| == Min(20, res.fail)
    && match rs
       case None => res.total == 0 && t' == t
       case Some(s) =>
         Rectangular(s) && res.total <= |s.tuples| &&
         var sink, seen := SinkOfRun(task, tgt, ColumnSet(s)), RowsOf(s)[..res.total];
         && (Upserts(task) ==> Wrote(sink, t, t', seen, res.ok, res.fail, tgt.steady))
         && (!Upserts(task) ==> Grew(sink.schema, t, t', seen, res.fail))
  }

  /** Succeeded exactly when the whole result set was read and some row was written unless there was none. */
  predicate StatusFits(rs: Option<ResultSet>, res: R.Result) {
    res.status == if Complete(rs, res) && (res.ok > 0 || res.total == 0) then R.Succeeded else R.Failed
  }

  /** The run is clean, and `v` is the maximum of the values it streamed, in a form that can be stored. */
  ghost predicate Earned(task: Task, fmt: real -> string, f64: Rounding, rs: Option<ResultSet>, res: R.Result,
                         v: Value) {
    && task.incremental.Some? && Complete(rs, res) && Rectangular(rs.value) && res.fail == 0 && res.ok == res.total
    && Fold(f64, None, ColumnOf(task.incremental.value.column, RowsOf(rs.value))) == Some(Some(v))
         && Encode(fmt, v).Some?
  }

  ghost predicate Persisted(task: Task, fmt: real -> string, f64: Rounding, state: map<string, (string, string)>,
                            state': map<string, (string, string)>, rs: Option<ResultSet>, res: R.Result) {
    exists v :: Earned(task, fmt, f64, rs, res, v) && state' == state[task.name := Encode(fmt, v).value]
  }

  /** The clean advance: the stored watermark changes only for an incremental task whose stream ended
      without error with every row written, and then to the maximum of the values streamed. */
  ghost predicate MovesOnlyIfEarned(task: Task, fmt: real -> string, f64: Rounding,
                                    state: map<string, (string, string)>,
                           state': map<string, (string, string)>, rs: Option<ResultSet>, res: R.Result) {
    state' == state || Persisted(task, fmt, f64, state, state', rs, res)
  }

  /** And then it does change. */
  ghost predicate MovesIfEarned(task: Task, fmt: real -> string, f64: Rounding, state: map<string, (string, string)>,
                           state': map<string, (string, string)>, rs: Option<ResultSet>, res: R.Result) {
    forall v :: Earned(task, fmt, f64, rs, res, v) ==> state' == state[task.name := Encode(fmt, v).value]
  }

  /** An incomplete stream has a reason: the source broke, or a page does not pass. */
  ghost predicate Explained(task: Task, f64: Rounding, rs: Option<ResultSet>, res: R.Result) {
    rs.Some? && Rectangular(rs.value) && res.total <= |rs.value.tuples| && !Complete(rs, res)
    ==> Stops(task, f64, rs.value, res.total, PageSize(task.pageSize))
  }

  /** The record was closed with the result. */
  predicate Closed(before: R.Log, ops: seq<R.Op>, res: R.Result) {
    ops != [] && ops[|ops| - 1] == R.FinishOp(before.last + 1, res)
  }

  /** What the run logged: its start, fair events, and at most one finish, last, with its result. */
  ghost predicate Lifecycle(before: R.Log, after: R.Log, ops: seq<R.Op>, task: string, trigger: string, res: R.Result) {
    && after == R.DoAll(before, ops)
    && (ops != [] ==> ops[0] == R.StartOp(task, trigger)
                      && forall i :: 1 <= i < |ops| ==>
                           (ops[i].EventOp? && Fair(ops[i].event, before.last + 1))
                           || (i == |ops| - 1 && ops[i] == R.FinishOp(before.last + 1, res)))
  }

  /** The record a run started, 0 if it started none. */
  function RunId(before: R.Log, ops: seq<R.Op>): nat { if ops == [] then 0 else before.last + 1 }

  lemma JournalCloses(before: R.Log, after: R.Log, ops: seq<R.Op>, id: nat, task: string, trigger: string,
                      res: R.Result)
    requires Journal(before, after, ops, id, task, trigger)
    ensures Lifecycle(before, after, ops, task, trigger, res) && RunId(before, ops) == id
    ensures id != 0 ==> Lifecycle(before, R.Finished(after, id, res), ops + [R.FinishOp(id, res)], task, trigger, res)
  {
  }

  /** The query for this run, or why there is none. */
  method ResolveQuery(store: R.Store, task: Task) returns (query: string, err: Option<string>)
    modifies store`failures
    ensures old(store.failures) <= store.failures
    ensures err.None? ==> AsksNow(store.fmt, store.read, store.state, task, query)
    ensures err.Some? && store.failures == old(store.failures)
            ==> forall q :: !AsksNow(store.fmt, store.read, store.state, task, q)
  {
    hide Substituted, Occurs, Literal, ReplaceAll, Contains;
    query := task.source.query;
    if task.incremental.None? { return query, None; }
    ContainsExactly(query, TOKEN);
    if !Contains(query, TOKEN) { return query, Some("incremental task query must reference :watermark"); }
    var prev, read := store.GetWatermark(task.name);
    if !read { return query, Some("read watermark"); }
    var lit := task.incremental.value.initial;
    if prev.Some? {
      var rendered := Literal(store.fmt, prev.value);
      if rendered.None? { return query, Some("render watermark"); }
      lit := rendered.value;
    }
    query := ReplaceAll(query, TOKEN, lit);
    SubstitutedExactly(task.source.query, TOKEN, lit, query);
    err := None;
  }

  /** An event of the run, best effort. */
  method Note(store: R.Store, kind: R.EventKind, runId: nat, task: string, trigger: string, ghost log0: R.Log,
              ghost ops: seq<R.Op>)
    returns (ghost ops': seq<R.Op>)
    requires Journal(log0, store.log, ops, runId, task, trigger) && !kind.Progress?
    modifies store`log, store`failures, store.history
    ensures Journal(log0, store.log, ops', runId, task, trigger) && old(store.failures) <= store.failures
    ensures Ran(old(store.history.deeds), store.history.deeds, task, runId, ops, ops')
    ensures runId > 0 && store.failures == old(store.failures) ==> ops' == ops + [R.EventOp(R.Event(runId, kind))]
  {
    hide R.OpsOf;
    ops' := ops;
    RanNothing(store.history.deeds, task, runId, ops);
    if runId > 0 {
      var e := R.Event(runId, kind);
      JournalSnoc(log0, store.log, ops, runId, task, trigger, e);
      var recorded := store.AppendEvent(e);
      RanDeed(old(store.history.deeds), R.Logged(R.EventOp(e), recorded), task, runId, ops);
      if recorded { ops' := ops + [R.EventOp(e)]; }
    }
  }

  /** finalizeWatermark: held back on failed rows, kept when no value was seen, else persisted; a failed
      persist changes nothing.  What was decided is reported. */
  method FinalizeWatermark(store: R.Store, task: Task, trigger: string, runId: nat, res: R.Result, wm: Tracker,
                           ghost log0: R.Log, ghost ops: seq<R.Op>)
    returns (ghost ops': seq<R.Op>)
    requires Journal(log0, store.log, ops, runId, task.name, trigger)
    modifies store`log, store`state, store`failures, store.history
    ensures Journal(log0, store.log, ops', runId, task.name, trigger) && old(store.failures) <= store.failures
    ensures Ran(old(store.history.deeds), store.history.deeds, task.name, runId, ops, ops')
    ensures store.failures == old(store.failures) && res.fail == 0 && wm.seen && Encode(store.fmt, wm.max).Some?
            ==> store.state == old(store.state)[task.name := Encode(store.fmt, wm.max).value]
                && (runId > 0 ==> ops' == ops + [R.EventOp(R.Event(runId, R.WatermarkAdvanced(wm.max)))])
    ensures store.state == old(store.state)
            || (res.fail == 0 && wm.seen && Encode(store.fmt, wm.max).Some?
                && store.state == old(store.state)[task.name := Encode(store.fmt, wm.max).value])
    ensures res.fail > 0 && runId > 0 && store.failures == old(store.failures)
            ==> ops' == ops + [R.EventOp(R.Event(runId, R.WatermarkHeld(res.fail)))]
    ensures store.state == old(store.state) && res.fail == 0 && store.failures == old(store.failures)
            && !(wm.seen && Encode(store.fmt, wm.max).Some?)
            ==> ops' == ops
  {
    hide Encode, Ran, R.OpsOf;
    ops' := ops;
    ghost var deeds := store.history.deeds;
    RanNothing(deeds, task.name, runId, ops);
    if res.fail > 0 {
      ops' := Note(store, R.WatermarkHeld(res.fail), runId, task.name, trigger, log0, ops);
    } else if wm.seen {
      var persisted := store.SetWatermark(task.name, wm.max);
      ghost var marked := store.history.deeds;
      if Encode(store.fmt, wm.max).Some? {
        RanDeed(deeds, R.Marked(task.name, persisted), task.name, runId, ops);
        assert ops + [] == ops;
      }
      assert deeds + [] == deeds;
      if !persisted { return; }
      ops' := Note(store, R.WatermarkAdvanced(wm.max), runId, task.name, trigger, log0, ops);
      RanConcat(deeds, marked, store.history.deeds, task.name, runId, ops, ops, ops');
    }
  }

  /** A handler's counters and table are the account of the rows it took. */
  lemma HandlerAccount(h: PageHandler, found: Option<ResultSet>, total: nat)
    requires h.Valid() && total == |Flat(h.pages)|
    requires found.None? ==> total == 0 && h.tgt.table == h.base
    requires found.Some? ==> Rectangular(found.value) && h.columns == ColumnSet(found.value)
                             && total <= |found.value.tuples| && Flat(h.pages) == RowsOf(found.value)[..total]
    ensures h.totalSeen == total == h.okRows + h.failRows && h.Keyed() && h.store.history == h.tgt.history
    ensures Journal(h.log0, h.store.log, h.ops, h.runId, h.task.name, h.trigger)
    ensures Ran(h.deeds0, h.store.history.deeds, h.task.name, h.runId, h.ops0, h.ops)
    ensures h.wm != null <==> h.task.incremental.Some?
    ensures h.wm != null ==> h.wm.column == h.task.incremental.value.column && h.wm.f64 == h.f64
    ensures forall res: R.Result :: res.total == h.totalSeen && res.ok == h.okRows && res.fail == h.failRows
                                    && res.samples == h.samples
                                    ==> Accounted(h.task, h.tgt, h.base, h.tgt.table, found, res)
  {
    hide Flat, RowsOf, Rectangular, ColumnSet, Wrote, Grew, WellKeyed, Ran, Journal, Runnable;
  }

  /** Stream the result set into the target, settle status and watermark. */
  method Transfer(store: R.Store, found: Option<ResultSet>, tgt: Target, task: Task, trigger: string, f64: Rounding,
                  runId: nat, ghost log0: R.Log, ghost ops0: seq<R.Op>)
    returns (res: R.Result, ghost ops: seq<R.Op>)
    requires Runnable(task) && Fitting(task, tgt) && (found.Some? ==> Rectangular(found.value))
    requires Journal(log0, store.log, ops0, runId, task.name, trigger) && store.history == tgt.history
    modifies tgt`table, tgt`stages, store`log, store`state, store`failures, store.history
    ensures Fitting(task, tgt) && old(store.failures) <= store.failures
    ensures Ran(old(store.history.deeds), store.history.deeds, task.name, runId, ops0, ops)
    ensures Journal(log0, store.log, ops, runId, task.name, trigger)
    ensures Accounted(task, tgt, old(tgt.table), tgt.table, found, res) && StatusFits(found, res)
            && Explained(task, f64, found, res)
    ensures MovesOnlyIfEarned(task, store.fmt, f64, old(store.state), store.state, found, res)
    ensures store.failures == old(store.failures)
            ==> MovesIfEarned(task, store.fmt, f64, old(store.state), store.state, found, res)
  {
    hide Stops, Wrote, Grew, WellKeyed, Flat, Fold, Journal, Runnable, RowsOf, ColumnOf, Rectangular, ColumnSet, Encode,
         Ran, PageHandler.Valid, Accounted;
    var wm: Tracker? := null;
    if task.incremental.Some? { wm := new Tracker(task.incremental.value.column, f64); }
    var h := new PageHandler(task, trigger, tgt, store, runId, wm, f64,
                             if found.Some? then ColumnSet(found.value) else {}, log0, ops0);
    SameKeys(Schema(tgt.index, {}, map[]), h.SinkHere().schema, tgt.table);
    Begins(h);
    var total, err := Stream(found, task.pageSize, h);
    SameKeys(Schema(tgt.index, {}, map[]), h.SinkHere().schema, tgt.table);
    HandlerAccount(h, found, total);
    ops := h.ops;
    res := R.Result(task.name, trigger, R.Failed, h.totalSeen, h.okRows, h.failRows, "", h.samples);
    if err.Some? { return res.(error := err.value), ops; }
    assert RowsOf(found.value)[..total] == RowsOf(found.value);
    res := res.(status := R.Succeeded);
    if res.total > 0 && res.ok == 0 && res.fail > 0 {
      res := res.(status := R.Failed, error := "all rows failed (see samples)");
    }
    if wm != null {
      ghost var streamed := store.history.deeds;
      ops := FinalizeWatermark(store, task, trigger, runId, res, wm, log0, ops);
      RanConcat(h.deeds0, streamed, store.history.deeds, task.name, runId, ops0, h.ops, ops);
    }
  }

  lemma SameKeys(s: Schema, s': Schema, t: Table)
    requires s.keys == s'.keys
    ensures WellKeyed(s, t) <==> WellKeyed(s', t)
  {
  }

  /** What was streamed: the source's answer to the query for the stored watermark; nothing at all only if
      an end is down, there is no query, or the store failed. */
  ghost predicate Streams(up: bool, fmt: real -> string, read: string -> Option<real>,
                          state: map<string, (string, string)>,
                          task: Task, src: string -> Option<ResultSet>, rs: Option<ResultSet>, healthy: bool) {
    && (rs.Some? ==> up && exists q :: AsksNow(fmt, read, state, task, q) && rs == src(q))
    && (up && healthy ==> forall q :: AsksNow(fmt, read, state, task, q) ==> rs == src(q))
  }

  lemma StreamsWeaker(up: bool, fmt: real -> string, read: string -> Option<real>,
                      state: map<string, (string, string)>, task: Task, src: string -> Option<ResultSet>,
                      rs: Option<ResultSet>, healthy: bool, healthier: bool)
    requires Streams(up, fmt, read, state, task, src, rs, healthy) && (healthier ==> healthy)
    ensures Streams(up, fmt, read, state, task, src, rs, healthier)
  {
    hide AsksNow;
  }

  lemma NothingStreamed(up: bool, fmt: real -> string, read: string -> Option<real>,
                        state: map<string, (string, string)>, task: Task, src: string -> Option<ResultSet>,
                        healthy: bool)
    requires up && healthy ==> forall q :: !AsksNow(fmt, read, state, task, q)
    ensures Streams(up, fmt, read, state, task, src, None, healthy)
  {
    hide AsksNow;
  }

  /** Everything between the deferred steps: open both ends, resolve the query, transfer. */
  method Body(store: R.Store, sourceUp: bool, targetUp: bool, src: string -> Option<ResultSet>, tgt: Target, task: Task,
              trigger: string, f64: Rounding, runId: nat, ghost log0: R.Log, ghost ops0: seq<R.Op>)
    returns (res: R.Result, ghost rs: Option<ResultSet>, ghost ops: seq<R.Op>)
    requires Runnable(task) && Fitting(task, tgt) && forall q :: src(q).Some? ==> Rectangular(src(q).value)
    requires Journal(log0, store.log, ops0, runId, task.name, trigger) && store.history == tgt.history
    modifies tgt`table, tgt`stages, store`log, store`state, store`failures, store.history
    ensures Fitting(task, tgt) && old(store.failures) <= store.failures
    ensures Journal(log0, store.log, ops, runId, task.name, trigger)
    ensures Ran(old(store.history.deeds), store.history.deeds, task.name, runId, ops0, ops)
    ensures Accounted(task, tgt, old(tgt.table), tgt.table, rs, res) && StatusFits(rs, res)
            && Explained(task, f64, rs, res)
    ensures Streams(sourceUp && targetUp, store.fmt, store.read, old(store.state), task, src, rs,
                    store.failures == old(store.failures))
    ensures MovesOnlyIfEarned(task, store.fmt, f64, old(store.state), store.state, rs, res)
    ensures store.failures == old(store.failures)
            ==> MovesIfEarned(task, store.fmt, f64, old(store.state), store.state, rs, res)
  {
    hide Wrote, Grew, Journal, Runnable, Rectangular, Fitting, Decode, Stops, RowsOf, ColumnOf, Fold, Encode, Ran, Asks;
    RanNothing(store.history.deeds, task.name, runId, ops0);
    res := R.Result(task.name, trigger, R.Failed, 0, 0, 0, "", []);
    rs, ops := None, ops0;
    if !sourceUp { return res.(error := "open source"), rs, ops; }
    if !targetUp { return res.(error := "open target"), rs, ops; }
    var query, err := ResolveQuery(store, task);
    if err.Some? {
      NothingStreamed(true, store.fmt, store.read, store.state, task, src, store.failures == old(store.failures));
      return res.(error := err.value), rs, ops;
    }
    var found := src(query);
    rs := found;
    forall q | AsksNow(store.fmt, store.read, store.state, task, q)
      ensures q == query
    {
      OneQuery(store.fmt, store.read, store.state, task, q, query);
    }
    res, ops := Transfer(store, found, tgt, task, trigger, f64, runId, log0, ops0);
  }

  /** A handler that has seen nothing yet. */
  lemma Begins(h: PageHandler)
    requires h.pages == [] && h.okRows == h.failRows == h.totalSeen == 0 && h.samples == h.messages == []
             && !h.keysChecked
    requires Runnable(h.task) && h.Keyed() && h.base == h.tgt.table && (h.wm != null ==> h.wm.Max() == None)
    requires (h.wm != null <==> h.task.incremental.Some?)
             && (h.wm != null ==> h.wm.column == h.task.incremental.value.column && h.wm.f64 == h.f64)
    requires Journal(h.log0, h.store.log, h.ops, h.runId, h.task.name, h.trigger)
    requires h.store.history == h.tgt.history && h.deeds0 == h.tgt.history.deeds && h.ops0 == h.ops
    ensures h.Valid() && h.Tracking()
  {
    hide Wrote, Grew, Runnable, Journal;
    RanNothing(h.deeds0, h.task.name, h.runId, h.ops);
    WroteNothing(h.SinkHere(), h.base, h.tgt.steady);
    GrewNothing(h.SinkHere().schema, h.base);
  }

  /** What a run that gets its task's token does: it takes the token, starts its record, then does what a run may do,
      finishes the record if there is one, and gives the token back. */
  ghost predicate Conducted(ds: seq<R.Deed>, name: string, trigger: string, id: nat, res: R.Result) {
    var n := |ds|;
    var last := if id > 0 then n - 2 else n - 1;
    && 2 <= last && ds[0] == R.Took(name) && ds[1] == R.Logged(R.StartOp(name, trigger), id > 0)
    && (forall i :: 2 <= i < last ==> Inside(ds[i], name, id))
    && (id > 0 ==> ds[last].Logged? && ds[last].op == R.FinishOp(id, res))
    && ds[n - 1] == R.Gave(name)
  }

  /** What a run that is refused the token does: it starts a record and finishes it. */
  ghost predicate TurnedAway(ds: seq<R.Deed>, name: string, trigger: string, id: nat, res: R.Result) {
    && |ds| == (if id > 0 then 3 else 2) && ds[0] == R.Refused(name)
    && ds[1] == R.Logged(R.StartOp(name, trigger), id > 0)
    && (id > 0 ==> ds[2].Logged? && ds[2].op == R.FinishOp(id, res))
  }

  /** The deeds of a run: first, start, what is inside, finish, last. */
  function Deeds(name: string, trigger: string, id: nat, inside: seq<R.Deed>, closed: bool,
                 res: R.Result): seq<R.Deed> {
    [R.Took(name)] + [R.Logged(R.StartOp(name, trigger), id > 0)] + inside
    + (if id > 0 then [R.Logged(R.FinishOp(id, res), closed)] else []) + [R.Gave(name)]
  }

  lemma DeedsConducted(name: string, trigger: string, id: nat, inside: seq<R.Deed>, closed: bool, res: R.Result)
    requires forall i :: 0 <= i < |inside| ==> Inside(inside[i], name, id)
    ensures Conducted(Deeds(name, trigger, id, inside, closed, res), name, trigger, id, res)
  {
    hide Inside;
  }

  lemma DeedsOps(name: string, trigger: string, id: nat, inside: seq<R.Deed>, closed: bool, res: R.Result)
    ensures R.OpsOf(Deeds(name, trigger, id, inside, closed, res))
            == (if id > 0 then [R.StartOp(name, trigger)] else []) + R.OpsOf(inside)
               + if id > 0 && closed then [R.FinishOp(id, res)] else []
  {
    hide R.OpsOf;
    var first, start := R.Took(name), R.Logged(R.StartOp(name, trigger), id > 0);
    var finish, give := R.Logged(R.FinishOp(id, res), closed), R.Gave(name);
    OneDeed(first);
    R.OpsOfSnoc([first], start);
    R.OpsOfConcat([first] + [start], inside);
    var ds := [first] + [start] + inside;
    R.OpsOfSnoc(ds, finish);
    R.OpsOfSnoc(if id > 0 then ds + [finish] else ds + [], give);
    assert ds + [] == ds;
  }

  /** All that was done, from the token to its return. */
  lemma WholeRun(d0: seq<R.Deed>, d1: seq<R.Deed>, d2: seq<R.Deed>, d3: seq<R.Deed>, d4: seq<R.Deed>, name: string,
                 trigger: string, id: nat, closed: bool, ops: seq<R.Op>, res: R.Result)
    requires d1 == d0 + [R.Took(name)] + [R.Logged(R.StartOp(name, trigger), id > 0)]
    requires Ran(d1, d2, name, id, if id > 0 then [R.StartOp(name, trigger)] else [], ops)
    requires d3 == if id > 0 then d2 + [R.Logged(R.FinishOp(id, res), closed)] else d2
    requires d4 == d3 + [R.Gave(name)]
    ensures d0 <= d4 && Conducted(d4[|d0|..], name, trigger, id, res)
    ensures R.OpsOf(d4[|d0|..]) == ops + if id > 0 && closed then [R.FinishOp(id, res)] else []
  {
    hide R.OpsOf, Inside, Conducted;
    var inside := d2[|d1|..];
    assert d2 == d1 + inside;
    var ds := Deeds(name, trigger, id, inside, closed, res);
    assert d4 == d0 + ds;
    assert d4[|d0|..] == ds;
    DeedsConducted(name, trigger, id, inside, closed, res);
    DeedsOps(name, trigger, id, inside, closed, res);
  }

  /** RunTask.  `sourceUp` and `targetUp` say whether the connections open, and `src` how the source answers
      a query, None being an error. */
  method RunTask(reg: Registry.Registry, store: R.Store, sourceUp: bool, targetUp: bool,
                 src: string -> Option<ResultSet>,
                 tgt: Target, task: Task, trigger: string, f64: Rounding)
    returns (res: R.Result, ghost rs: Option<ResultSet>, ghost ops: seq<R.Op>)
    requires reg.Valid() && Runnable(task) && Fitting(task, tgt) && reg.history == store.history == tgt.history
    requires forall q :: src(q).Some? ==> Rectangular(src(q).value)
    modifies reg, tgt`table, tgt`stages, store`log, store`state, store`failures, reg.history
    ensures reg.Valid() && reg.running == old(reg.running)
    ensures Fitting(task, tgt)
    ensures res.status == R.Skipped <==> task.name in old(reg.running)
    ensures old(reg.history.deeds) <= reg.history.deeds
    ensures var ds := reg.history.deeds[|old(reg.history.deeds)|..];
            && ops == R.OpsOf(ds)
            && (res.status != R.Skipped
                ==> Conducted(ds, task.name, trigger, RunId(old(store.log), ops), res))
            && (res.status == R.Skipped
                ==> TurnedAway(ds, task.name, trigger, RunId(old(store.log), ops), res))
    ensures Lifecycle(old(store.log), store.log, ops, task.name, trigger, res)
    ensures old(store.failures) <= store.failures
    ensures store.failures == old(store.failures) ==> Closed(old(store.log), ops, res)
    ensures Accounted(task, tgt, old(tgt.table), tgt.table, rs, res)
    ensures res.status == R.Skipped ==> rs.None? && store.state == old(store.state)
    ensures res.status != R.Skipped ==>
              StatusFits(rs, res) && Explained(task, f64, rs, res)
              && Streams(sourceUp && targetUp, store.fmt, store.read, old(store.state), task, src, rs,
                         store.failures == old(store.failures))
    ensures MovesOnlyIfEarned(task, store.fmt, f64, old(store.state), store.state, rs, res)
    ensures store.failures == old(store.failures)
            ==> MovesIfEarned(task, store.fmt, f64, old(store.state), store.state, rs, res)
  {
    hide Wrote, Grew, Fitting, Fold, Runnable, Rectangular, AsksNow, Stops, Journal, Lifecycle, RowsOf, ColumnOf,
         Encode, Decode, Ran, Conducted, TurnedAway, R.OpsOf, Accounted, Explained, Streams,
         MovesOnlyIfEarned, MovesIfEarned, R.Started, R.Finished, R.DoAll, Inside;
    rs := None;
    var tok, acquired := reg.Acquire(task.name);
    if !acquired {
      res := R.Result(task.name, trigger, R.Skipped, 0, 0, 0, "previous run still active", []);
      SkippedAccounted(task, tgt, tgt.table, store.fmt, f64, store.state, res);
      ops := LogSkipped(store, task.name, trigger, res);
      RefusedRun(old(reg.history.deeds), reg.history.deeds, task.name, trigger, RunId(old(store.log), ops), ops, res);
      return;
    }
    ghost var log0 := store.log;
    var runId := store.StartRun(task.name, trigger);
    ops := if runId > 0 then [R.StartOp(task.name, trigger)] else [];
    Opened(log0, store.log, runId, task.name, trigger);
    ghost var d1, failures := reg.history.deeds, store.failures;
    res, rs, ops := Body(store, sourceUp, targetUp, src, tgt, task, trigger, f64, runId, log0, ops);
    ghost var d2, ran, closed, healthy := reg.history.deeds, ops, false, store.failures == failures;
    JournalCloses(log0, store.log, ops, runId, task.name, trigger, res);
    if runId > 0 {
      var finished := store.FinishRun(runId, res);
      if finished { ops := ops + [R.FinishOp(runId, res)]; }
      closed := finished;
    }
    ghost var d3 := reg.history.deeds;
    GivenBack(old(reg.running), task.name, tok);
    reg.Release(tok);
    StreamsWeaker(sourceUp && targetUp, store.fmt, store.read, old(store.state), task, src, rs, healthy,
                  store.failures == old(store.failures));
    WholeRun(old(reg.history.deeds), d1, d2, d3, reg.history.deeds, task.name, trigger, runId, closed, ran, res);
  }

  lemma GivenBack(running: map<string, Registry.Token>, name: string, tok: Registry.Token)
    requires name !in running
    ensures running[name := tok] - {name} == running
  {
  }

  /** A skipped run has touched nothing. */
  lemma SkippedAccounted(task: Task, tgt: Target, t: Table, fmt: real -> string, f64: Rounding,
                         state: map<string, (string, string)>, res: R.Result)
    requires res.total == res.ok == res.fail == 0 && res.samples == []
    ensures Accounted(task, tgt, t, t, None, res)
    ensures MovesOnlyIfEarned(task, fmt, f64, state, state, None, res)
            && MovesIfEarned(task, fmt, f64, state, state, None, res)
  {
  }

  lemma Opened(before: R.Log, after: R.Log, id: nat, task: string, trigger: string)
    requires if id > 0 then after == R.Started(before, task, trigger) && id == after.last else after == before
    ensures Journal(before, after, if id > 0 then [R.StartOp(task, trigger)] else [], id, task, trigger)
  {
    var start := [R.StartOp(task, trigger)];
    assert start[..0] == [];
    assert R.DoAll(before, []) == before;
    assert R.DoAll(before, start) == R.Do(before, start[0]);
  }

  /** Page size, batch size and bulk do not matter: two complete upsert runs over the same result set into
      the same steady target count the same rows and leave the same table, the fold of exactly the rows
      the target admits. */
  lemma SettingsDoNotMatter(a: Task, b: Task, tgt: Target, t: Table, ta: Table, tb: Table, rs: Option<ResultSet>,
                            resA: R.Result, resB: R.Result)
    requires Upserts(a) && tgt.steady
    requires b == a.(pageSize := b.pageSize,
                     target := a.target.(batchSize := b.target.batchSize, bulk := b.target.bulk))
    requires Accounted(a, tgt, t, ta, rs, resA) && Accounted(b, tgt, t, tb, rs, resB)
    requires Complete(rs, resA) && Complete(rs, resB)
    ensures ta == tb && resA.ok == resB.ok && resA.fail == resB.fail && |resA.samples| == |resB.samples|
    ensures var sink := SinkOfRun(a, tgt, ColumnSet(rs.value));
            ta == UpsertAll(sink.schema, t, Admitted(sink, RowsOf(rs.value)))
              && resA.ok == |Admitted(sink, RowsOf(rs.value))|
  {
    hide Partly, UpsertAll, Admitted, AllAdmitted;
    assert RowsOf(rs.value)[..resA.total] == RowsOf(rs.value);
    assert RowsOf(rs.value)[..resB.total] == RowsOf(rs.value);
  }

  /** Running again over the same result set: if the first run wrote every row, a second complete run
      without failures leaves its table, repeated keys and unsynced columns included. */
  lemma RerunLeavesTable(a: Task, b: Task, tgt: Target, t: Table, t1: Table, t2: Table, rs: Option<ResultSet>,
                         resA: R.Result, resB: R.Result)
    requires Upserts(a)
    requires b == a.(pageSize := b.pageSize,
                     target := a.target.(batchSize := b.target.batchSize, bulk := b.target.bulk))
    requires Accounted(a, tgt, t, t1, rs, resA) && Accounted(b, tgt, t1, t2, rs, resB)
    requires Complete(rs, resA) && Complete(rs, resB) && resA.fail == 0 && resB.fail == 0
    requires Sound(SinkOfRun(a, tgt, ColumnSet(rs.value)), t)
    ensures t2 == t1
  {
    hide Partly, UpsertAll, Admitted, AllAdmitted, WellKeyed;
    var rows := RowsOf(rs.value);
    assert rows[..resA.total] == rows && rows[..resB.total] == rows;
    ReplayAbsorbed(SinkOfRun(a, tgt, ColumnSet(rs.value)).schema, t, rows, rows);
  }

  /** What LogSkipped does after the refusal. */
  ghost predicate Skips(before: seq<R.Deed>, after: seq<R.Deed>, name: string, trigger: string, id: nat,
                        ops: seq<R.Op>, res: R.Result) {
    && before <= after && ops == R.OpsOf(after[|before|..])
    && |after| == |before| + (if id > 0 then 2 else 1)
    && after[|before|] == R.Logged(R.StartOp(name, trigger), id > 0)
    && (id > 0 ==> after[|before| + 1].Logged? && after[|before| + 1].op == R.FinishOp(id, res))
  }

  lemma RefusedRun(d0: seq<R.Deed>, d2: seq<R.Deed>, name: string, trigger: string, id: nat, ops: seq<R.Op>,
                   res: R.Result)
    requires Skips(d0 + [R.Refused(name)], d2, name, trigger, id, ops, res)
    ensures d0 <= d2 && TurnedAway(d2[|d0|..], name, trigger, id, res) && ops == R.OpsOf(d2[|d0|..])
  {
    hide R.OpsOf;
    var d1 := d0 + [R.Refused(name)];
    assert d2[|d0|..] == [R.Refused(name)] + d2[|d1|..];
    OneDeed(R.Refused(name));
    R.OpsOfConcat([R.Refused(name)], d2[|d1|..]);
    assert d1 <= d2 && d2[|d0|] == d1[|d0|];
  }

  lemma TwoDeeds(d: seq<R.Deed>, x: R.Deed, y: R.Deed)
    ensures (d + [x])[|d|..] == [x] && (d + [x] + [y])[|d|..] == [x] + [y]
    ensures R.OpsOf([x]) == (if x.Logged? && x.ok then [x.op] else [])
    ensures R.OpsOf([x] + [y]) == R.OpsOf([x]) + if y.Logged? && y.ok then [y.op] else []
  {
    hide R.OpsOf;
    OneDeed(x);
    R.OpsOfSnoc([x], y);
  }

  /** A skipped trigger leaves a record of its own. */
  method LogSkipped(store: R.Store, task: string, trigger: string, res: R.Result) returns (ghost ops: seq<R.Op>)
    modifies store`log, store`failures, store.history
    ensures Lifecycle(old(store.log), store.log, ops, task, trigger, res) && old(store.failures) <= store.failures
    ensures store.failures == old(store.failures) ==> Closed(old(store.log), ops, res)
    ensures Skips(old(store.history.deeds), store.history.deeds, task, trigger, RunId(old(store.log), ops), ops, res)
  {
    hide R.OpsOf;
    ghost var log0, d := store.log, store.history.deeds;
    var id := store.StartRun(task, trigger);
    ops := if id > 0 then [R.StartOp(task, trigger)] else [];
    Opened(log0, store.log, id, task, trigger);
    JournalCloses(log0, store.log, ops, id, task, trigger, res);
    ghost var start := R.Logged(R.StartOp(task, trigger), id > 0);
    TwoDeeds(d, start, start);
    if id > 0 {
      var finished := store.FinishRun(id, res);
      TwoDeeds(d, start, R.Logged(R.FinishOp(id, res), finished));
      if finished { ops := ops + [R.FinishOp(id, res)]; }
    }
  }
}
