/** One page of the stream: the checks, the chunks, and for each chunk the ladder from bulk load to one
    multi-row statement to one statement per row. */
module Pages {
  import opened Wrappers
  import opened Text
  import opened Tables
  import opened Names
  import opened Ladder
  import opened Connector
  import opened Watermark
  import opened Config
  import R = Runlog

  const MAX_SAMPLES := 20
  const PARAM_LIMIT := 2000

  function Min(a: nat, b: nat): nat { if a <= b then a else b }

  // ---- pieces of a sequence ----

  function Flat<T>(pieces: seq<seq<T>>): seq<T> {
    if pieces == [] then [] else Flat(pieces[..|pieces| - 1]) + pieces[|pieces| - 1]
  }

  lemma FlatSnoc<T>(pieces: seq<seq<T>>, piece: seq<T>)
    ensures Flat(pieces + [piece]) == Flat(pieces) + piece
  {
  }

  /** All pieces are full, except that the last may be shorter; none is empty. */
  ghost predicate Cut<T>(pieces: seq<seq<T>>, size: nat) {
    forall i :: 0 <= i < |pieces| ==> 1 <= |pieces[i]| <= size && (i < |pieces| - 1 ==> |pieces[i]| == size)
  }

  ghost predicate AllFull<T>(pieces: seq<seq<T>>, size: nat) {
    size >= 1 && forall i :: 0 <= i < |pieces| ==> |pieces[i]| == size
  }

  lemma NoPieces<T>(size: nat)
    requires size >= 1
    ensures Flat<T>([]) == [] && AllFull<T>([], size) && Cut<T>([], size)
  {
  }

  lemma CutSnoc<T>(pieces: seq<seq<T>>, piece: seq<T>, size: nat)
    requires AllFull(pieces, size) && 1 <= |piece| <= size
    ensures Cut(pieces + [piece], size) && (|piece| == size ==> AllFull(pieces + [piece], size))
  {
  }

  /** clampBatch. */
  function ClampBatch(batch: int, cols: int): int {
    if cols <= 0 then 1
    else
      var m := PARAM_LIMIT / cols;
      if m < batch then (if m >= 1 then m else 1) else batch
  }

  /** What the parameter limit asks of a chunk. */
  predicate Fits(rows: nat, cols: nat) { if cols <= 2000 then rows * cols <= 2000 else rows == 1 }

  /** A clamped batch makes progress, respects the limit, and is the configured batch unless one row more
      would exceed the limit. */
  lemma ClampBatchFits(batch: int, cols: nat)
    requires batch >= 1
    ensures var n := ClampBatch(batch, cols);
            1 <= n <= batch && Fits(n, cols) && (n < batch && cols > 0 ==> !Fits(n + 1, cols))
  {
  }

  lemma CutFits<T>(chunks: seq<seq<T>>, batch: nat, configured: int, cols: nat)
    requires configured >= 1 && batch == ClampBatch(configured, cols) && Cut(chunks, batch)
    ensures forall i :: 0 <= i < |chunks| ==> Fits(|chunks[i]|, cols)
  {
  }

  // ---- columns of a page ----

  ghost predicate Ascending(s: seq<string>) { forall i, j :: 0 <= i < j < |s| ==> LexLess(s[i], s[j]) }

  function Insert(s: seq<string>, x: string): (r: seq<string>)
    ensures forall y :: y in r <==> y in s || y == x
  {
    if s == [] then [x]
    else if LexLess(s[|s| - 1], x) then s + [x]
    else
      assert s == s[..|s| - 1] + [s[|s| - 1]];
      Insert(s[..|s| - 1], x) + [s[|s| - 1]]
  }

  lemma {:induction false} InsertAscends(s: seq<string>, x: string)
    requires Ascending(s) && x !in s
    ensures Ascending(Insert(s, x))
  {
    if s != [] {
      var last, front := s[|s| - 1], s[..|s| - 1];
      LexTotal(last, x);
      if LexLess(last, x) {
        forall i | 0 <= i < |s|
          ensures LexLess(s[i], x)
        {
          if i < |s| - 1 { LexTransitive(s[i], last, x); }
        }
      } else {
        InsertAscends(front, x);
        var r := Insert(front, x);
        forall i | 0 <= i < |r|
          ensures LexLess(r[i], last)
        {
          assert r[i] in r;
        }
      }
    }
  }

  lemma {:induction false} InsertLength(s: seq<string>, x: string)
    ensures |Insert(s, x)| == |s| + 1
  {
    if s != [] { InsertLength(s[..|s| - 1], x); }
  }

  /** sort.Strings. */
  function Sort(s: seq<string>): (r: seq<string>)
    ensures forall y :: y in r <==> y in s
  {
    if s == [] then []
    else
      assert s == s[..|s| - 1] + [s[|s| - 1]];
      Insert(Sort(s[..|s| - 1]), s[|s| - 1])
  }

  ghost predicate NoRepeats(s: seq<string>) { forall i, j :: 0 <= i < j < |s| ==> s[i] != s[j] }

  lemma {:induction false} SortAscends(s: seq<string>)
    requires NoRepeats(s)
    ensures Ascending(Sort(s)) && |Sort(s)| == |s|
  {
    if s != [] {
      var front, last := s[..|s| - 1], s[|s| - 1];
      SortAscends(front);
      InsertAscends(Sort(front), last);
      InsertLength(Sort(front), last);
    }
  }

  lemma OneMoreName(s: seq<string>, c: string)
    requires NoRepeats(s) && c !in s
    ensures NoRepeats(s + [c])
  {
  }

  /** sortedCols: the row's column names, once each, in ascending order. */
  method SortedCols(r: Row) returns (cols: seq<Column>)
    ensures (set c | c in cols) == r.Keys && |cols| == |r| && Ascending(cols)
  {
    var names: seq<Column> := [];
    var left := r.Keys;
    while left != {}
      invariant left <= r.Keys && |names| + |left| == |r| && NoRepeats(names)
      invariant forall c :: c in names <==> c in r.Keys - left
      decreases |left|
    {
      var c :| c in left;
      OneMoreName(names, c);
      names := names + [c];
      left := left - {c};
    }
    SortAscends(names);
    cols := Sort(names);
  }

  // ---- one attempt ----

  /** One upsert call for `rows`: all of them and nothing else, or a part of those admissible; on a
      steady database a single row succeeds exactly if it is admissible and fails without a trace. */
  ghost predicate Attempted(sink: Sink, t: Table, t': Table, rows: seq<Row>, ok: bool, steady: bool) {
    && (ok ==> AllAdmitted(sink, rows) && t' == UpsertAll(sink.schema, t, rows))
    && (!ok ==> Partly(sink, t, t', rows))
    && (steady && |rows| == 1 ==> (ok <==> sink.Admits(rows[0])) && (!ok ==> t' == t))
  }

  lemma AttemptedRow(sink: Sink, t: Table, t': Table, r: Row, ok: bool, steady: bool)
    requires Attempted(sink, t, t', [r], ok, steady)
    ensures Wrote(sink, t, t', [r], if ok then 1 else 0, if ok then 0 else 1, steady)
  {
  }

  // ---- the handler ----

  /** A run's log entries: its start, then events about it alone, every progress event with ok and fail
      adding up to the rows seen.  With no record started there is nothing. */
  ghost predicate Journal(before: R.Log, after: R.Log, ops: seq<R.Op>, id: nat, task: string, trigger: string) {
    && after == R.DoAll(before, ops)
    && (id == 0 ==> ops == [])
    && (id != 0 ==> id == before.last + 1 && ops != [] && ops[0] == R.StartOp(task, trigger)
                    && forall i :: 1 <= i < |ops| ==> ops[i].EventOp? && Fair(ops[i].event, id))
  }

  ghost predicate Fair(e: R.Event, id: nat) {
    e.run == id && (e.kind.Progress? ==> e.kind.ok + e.kind.fail == e.kind.seen)
  }

  lemma JournalSnoc(before: R.Log, after: R.Log, ops: seq<R.Op>, id: nat, task: string, trigger: string, e: R.Event)
    requires id != 0 && Journal(before, after, ops, id, task, trigger) && Fair(e, id)
    ensures Journal(before, R.Recorded(after, e), ops + [R.EventOp(e)], id, task, trigger)
  {
  }

  // ---- the order of things ----

  /** What the run of a task may do while it holds the task's token and its record is open: send statements to
      the target, report to its own record, store its own watermark. */
  ghost predicate Inside(d: R.Deed, name: string, id: nat) {
    match d
    case Sent => true
    case Marked(task, _) => task == name
    case Logged(op, _) => id > 0 && op.EventOp? && op.event.run == id
    case _ => false
  }

  /** Only such things were done, and those logged have been added to `ops`. */
  ghost predicate Ran(before: seq<R.Deed>, after: seq<R.Deed>, name: string, id: nat, ops: seq<R.Op>,
                      ops': seq<R.Op>) {
    && before <= after && ops' == ops + R.OpsOf(after[|before|..])
    && forall i :: |before| <= i < |after| ==> Inside(after[i], name, id)
  }

  lemma RanNothing(a: seq<R.Deed>, name: string, id: nat, ops: seq<R.Op>)
    ensures Ran(a, a, name, id, ops, ops)
  {
  }

  lemma RanConcat(a: seq<R.Deed>, b: seq<R.Deed>, c: seq<R.Deed>, name: string, id: nat, ops: seq<R.Op>,
                  ops1: seq<R.Op>, ops2: seq<R.Op>)
    requires Ran(a, b, name, id, ops, ops1) && Ran(b, c, name, id, ops1, ops2)
    ensures Ran(a, c, name, id, ops, ops2)
  {
    hide R.OpsOf;
    R.OpsOfConcat(b[|a|..], c[|b|..]);
    assert c[|a|..] == b[|a|..] + c[|b|..];
  }

  lemma RanDeed(a: seq<R.Deed>, d: R.Deed, name: string, id: nat, ops: seq<R.Op>)
    requires Inside(d, name, id)
    ensures Ran(a, a + [d], name, id, ops, ops + if d.Logged? && d.ok then [d.op] else [])
  {
    hide R.OpsOf, Inside;
    OneDeed(d);
    assert (a + [d])[|a|..] == [d];
  }

  lemma OneDeed(d: R.Deed)
    ensures R.OpsOf([d]) == if d.Logged? && d.ok then [d.op] else []
  {
    assert [d][..0] == [];
  }

  lemma {:induction false} SentLogsNothing(ds: seq<R.Deed>)
    requires forall i :: 0 <= i < |ds| ==> ds[i] == R.Sent
    ensures R.OpsOf(ds) == []
  {
    if ds != [] { SentLogsNothing(ds[..|ds| - 1]); }
  }

  lemma RanSent(a: seq<R.Deed>, b: seq<R.Deed>, name: string, id: nat, ops: seq<R.Op>)
    requires OnlySent(a, b)
    ensures Ran(a, b, name, id, ops, ops)
  {
    SentLogsNothing(b[|a|..]);
  }

  /** A page passes after the rows `before`: allowed column names; the first time, the key columns and the
      incremental column among them; as many columns in every row; watermark values that all compare. */
  ghost predicate Passes(task: Task, f64: Rounding, columns: set<Column>, before: seq<Row>, page: seq<Row>) {
    && (forall c :: c in columns ==> IsIdentifier(c))
    && (before == [] ==> (forall k :: k in task.target.keys ==> k in columns)
                         && (task.incremental.Some? ==> task.incremental.value.column in columns))
    && (forall r :: r in page ==> |r| == |columns|)
    && (task.incremental.Some? ==> Fold(f64, None, ColumnOf(task.incremental.value.column, before + page)).Some?)
  }

  /** The page callback of one run, with the variables it closes over.  `columns` are the columns of the
      result set, `base` and `log0` the target table and run log when the run began, `pages` the pages
      accepted so far and `ops` what was logged since; with the first page, `deeds0` and `ops0` were what the
      process had done and the run had logged. */
  class PageHandler {
    const task: Task
    const trigger: string
    const tgt: Target
    const store: R.Store
    const runId: nat
    const wm: Tracker?
    const f64: Rounding
    ghost const columns: set<Column>
    ghost const base: Table
    ghost const log0: R.Log
    ghost const deeds0: seq<R.Deed>
    ghost const ops0: seq<R.Op>
    var okRows: nat
    var failRows: nat
    var samples: seq<string>
    var totalSeen: nat
    var keysChecked: bool
    ghost var messages: seq<string>
    ghost var pages: seq<seq<Row>>
    ghost var ops: seq<R.Op>

    predicate Upserting() { task.target.mode != Config.Insert }

    ghost function SinkHere(): Sink { Sink(task.target.table, Schema(tgt.index, columns, tgt.defaults), tgt.accepts) }

    /** The target carries its keys, and they are its only unique index. */
    ghost predicate Keyed()
      reads tgt
    {
      && (Upserting() ==> tgt.index == task.target.keys && tgt.index != [] && WellKeyed(SinkHere().schema, tgt.table))
      && (!Upserting() && task.target.bulk ==> task.target.keys == [])
    }

    /** The key columns are among the source's. */
    ghost predicate KeysPresent() { Upserting() ==> ValidSchema(SinkHere().schema) }

    /** The samples are the messages of the first failures. */
    ghost predicate Sampled()
      reads this
    {
      |messages| == failRows && samples == messages[..Min(MAX_SAMPLES, failRows)]
    }

    /** From table `t` and counters `ok0` and `fail0`, writing `rows` led to where things are now. */
    ghost predicate Tally(t: Table, rows: seq<Row>, ok0: nat, fail0: nat)
      reads this, tgt
    {
      && Sampled() && Keyed()
      && ok0 <= okRows && fail0 <= failRows && okRows - ok0 + failRows - fail0 == |rows|
      && (Upserting() ==> Wrote(SinkHere(), t, tgt.table, rows, okRows - ok0, failRows - fail0, tgt.steady))
      && (!Upserting() ==> Grew(SinkHere().schema, t, tgt.table, rows, failRows - fail0))
    }

    constructor (task: Task, trigger: string, tgt: Target, store: R.Store, runId: nat, wm: Tracker?, f64: Rounding,
                 ghost columns: set<Column>, ghost log0: R.Log, ghost ops: seq<R.Op>)
      ensures this.task == task && this.trigger == trigger && this.tgt == tgt && this.store == store
      ensures this.runId == runId && this.wm == wm && this.f64 == f64 && this.columns == columns && this.log0 == log0
              && this.ops == ops
      ensures base == tgt.table && okRows == failRows == totalSeen == 0 && samples == messages == [] && !keysChecked
              && pages == [] && deeds0 == tgt.history.deeds && ops0 == ops
    {
      this.task, this.trigger, this.tgt, this.store, this.runId, this.wm := task, trigger, tgt, store, runId, wm;
      this.f64, this.columns, this.base, this.log0, this.ops := f64, columns, tgt.table, log0, ops;
      deeds0, ops0 := tgt.history.deeds, ops;
      okRows, failRows, totalSeen, samples, messages, keysChecked, pages := 0, 0, 0, [], [], false, [];
    }

    /** writeChunk. */
    method WriteChunk(cols: seq<Column>, chunk: seq<Row>) returns (n: nat, ok: bool)
      requires Keyed() && KeysPresent() && (set c | c in cols) == columns
      modifies tgt`table, tgt.history
      ensures OnlySent(old(tgt.history.deeds), tgt.history.deeds)
      ensures Keyed()
      ensures n == if ok then |chunk| else 0
      ensures Upserting() ==> Attempted(SinkHere(), old(tgt.table), tgt.table, chunk, ok, tgt.steady)
      ensures !Upserting() ==> OnlyAdded(SinkHere().schema, old(tgt.table), tgt.table, chunk)
                               && (ok ==> Grew(SinkHere().schema, old(tgt.table), tgt.table, chunk, 0))
    {
      hide OnlyAdded, AllAdded, OnlySent;
      assert SinkHere() == tgt.SinkFor(task.target.table, cols);
      if task.target.mode == Config.Insert {
        ghost var t := tgt.table;
        n, ok := tgt.InsertRows(task.target.table, cols, chunk);
        if ok { InsertAllAdds(SinkHere().schema, t, chunk); }
        return;
      }
      n, ok := tgt.UpsertRows(task.target.table, task.target.keys, cols, chunk);
    }

    /** One statement per row, so that one bad row does not sink the batch. */
    method RowByRow(cols: seq<Column>, chunk: seq<Row>)
      requires Keyed() && KeysPresent() && Sampled() && (set c | c in cols) == columns
      modifies this`okRows, this`failRows, this`samples, this`messages, tgt`table, tgt.history
      ensures OnlySent(old(tgt.history.deeds), tgt.history.deeds)
      ensures Tally(old(tgt.table), chunk, old(okRows), old(failRows))
    {
      hide Wrote, Attempted, WellKeyed, ValidSchema, OnlyAdded, Grew, OnlySent;
      ghost var t, ok0, fail0 := tgt.table, okRows, failRows;
      SentNothing(tgt.history.deeds);
      WroteNothing(SinkHere(), t, tgt.steady);
      GrewNothing(SinkHere().schema, t);
      for i := 0 to |chunk|
        invariant Tally(t, chunk[..i], ok0, fail0)
        invariant OnlySent(old(tgt.history.deeds), tgt.history.deeds)
      {
        ghost var t1 := tgt.table;
        ghost var deeds1 := tgt.history.deeds;
        ghost var ok1, fail1 := okRows - ok0, failRows - fail0;
        var n, ok := WriteChunk(cols, [chunk[i]]);
        SentConcat(old(tgt.history.deeds), deeds1, tgt.history.deeds);
        if !ok {
          failRows := failRows + 1;
          var message := "";
          message := *;
          messages := messages + [message];
          if |samples| < MAX_SAMPLES { samples := samples + [message]; }
        } else {
          okRows := okRows + 1;
        }
        assert chunk[..i + 1] == chunk[..i] + [chunk[i]];
        if Upserting() {
          AttemptedRow(SinkHere(), t1, tgt.table, chunk[i], ok, tgt.steady);
          WroteConcat(SinkHere(), t, t1, tgt.table, chunk[..i], [chunk[i]], ok1, fail1,
                      if ok then 1 else 0, if ok then 0 else 1, tgt.steady);
        } else {
          if !ok { FailedGrows(SinkHere().schema, t1, tgt.table, [chunk[i]], 1); }
          GrewConcat(SinkHere().schema, t, t1, tgt.table, chunk[..i], [chunk[i]], fail1, if ok then 0 else 1);
        }
      }
      assert chunk[..|chunk|] == chunk;
    }

    /** The ladder for one chunk: bulk, then one statement, then row by row. */
    method WriteRung(cols: seq<Column>, chunk: seq<Row>)
      requires Keyed() && KeysPresent() && Sampled() && (set c | c in cols) == columns
      modifies this`okRows, this`failRows, this`samples, this`messages, tgt`table, tgt`stages, tgt.history
      ensures OnlySent(old(tgt.history.deeds), tgt.history.deeds)
      ensures Tally(old(tgt.table), chunk, old(okRows), old(failRows))
    {
      hide Wrote, Attempted, WellKeyed, ValidSchema, Partly, OnlyAdded, AllAdded, InsertAll, OnlySent;
      SentNothing(tgt.history.deeds);
      ghost var sink := SinkHere();
      ghost var t := tgt.table;
      assert sink == tgt.SinkFor(task.target.table, cols);
      if task.target.bulk {
        var out := tgt.BulkLoad(task.target.table, task.target.keys, cols, chunk);
        if out.Loaded? {
          okRows := okRows + out.n;
          if Upserting() { WroteAll(sink, t, chunk, tgt.steady); } else { InsertAllAdds(sink.schema, t, chunk); }
          return;
        }
      }
      ghost var t1, deeds1 := tgt.table, tgt.history.deeds;
      if Upserting() { NothingDone(sink, t, chunk); }
      NothingAdded(sink.schema, t, chunk);
      var n, ok := WriteChunk(cols, chunk);
      SentConcat(old(tgt.history.deeds), deeds1, tgt.history.deeds);
      ghost var t2, deeds2 := tgt.table, tgt.history.deeds;
      if !ok {
        RowByRow(cols, chunk);
        SentConcat(old(tgt.history.deeds), deeds2, tgt.history.deeds);
      } else {
        okRows := okRows + n;
      }
      if Upserting() {
        Climbed(sink, t, t1, t2, tgt.table, chunk, ok, okRows - old(okRows), failRows - old(failRows), tgt.steady);
      } else {
        if !ok { RetryGrows(sink.schema, t1, t2, tgt.table, chunk, failRows - old(failRows)); }
        RetryGrows(sink.schema, t, t1, tgt.table, chunk, failRows - old(failRows));
      }
    }

    /** The page in chunks no larger than the clamped batch size, each down the ladder. */
    method WritePage(cols: seq<Column>, page: seq<Row>) returns (ghost chunks: seq<seq<Row>>)
      requires Keyed() && KeysPresent() && Sampled() && (set c | c in cols) == columns && task.target.batchSize >= 1
      modifies this`okRows, this`failRows, this`samples, this`messages, tgt`table, tgt`stages, tgt.history
      ensures OnlySent(old(tgt.history.deeds), tgt.history.deeds)
      ensures Tally(old(tgt.table), page, old(okRows), old(failRows))
      ensures Flat(chunks) == page && Cut(chunks, ClampBatch(task.target.batchSize, |cols|))
      ensures forall i :: 0 <= i < |chunks| ==> Fits(|chunks[i]|, |cols|)
    {
      hide Wrote, WellKeyed, ValidSchema, Flat, ClampBatch, AllFull, Cut, Grew, OnlySent;
      SentNothing(tgt.history.deeds);
      ghost var t, ok0, fail0 := tgt.table, okRows, failRows;
      WroteNothing(SinkHere(), t, tgt.steady);
      GrewNothing(SinkHere().schema, t);
      var batch := ClampBatch(task.target.batchSize, |cols|);
      ClampBatchFits(task.target.batchSize, |cols|);
      chunks := [];
      NoPieces<Row>(batch);
      var off := 0;
      while off < |page|
        invariant 0 <= off <= |page|
        invariant Tally(t, page[..off], ok0, fail0)
        invariant OnlySent(old(tgt.history.deeds), tgt.history.deeds)
        invariant Flat(chunks) == page[..off]
        invariant if off < |page| then AllFull(chunks, batch) else Cut(chunks, batch)
      {
        var end := if off + batch < |page| then off + batch else |page|;
        var chunk := page[off..end];
        ghost var t1, ok1, fail1 := tgt.table, okRows, failRows;
        ghost var deeds1 := tgt.history.deeds;
        WriteRung(cols, chunk);
        SentConcat(old(tgt.history.deeds), deeds1, tgt.history.deeds);
        if Upserting() {
          WroteConcat(SinkHere(), t, t1, tgt.table, page[..off], chunk, ok1 - ok0, fail1 - fail0,
                      okRows - ok1, failRows - fail1, tgt.steady);
        } else {
          GrewConcat(SinkHere().schema, t, t1, tgt.table, page[..off], chunk, fail1 - fail0, failRows - fail1);
        }
        assert page[..end] == page[..off] + chunk;
        FlatSnoc(chunks, chunk);
        CutSnoc(chunks, chunk, batch);
        chunks := chunks + [chunk];
        off := end;
      }
      assert page[..off] == page;
      CutFits(chunks, batch, task.target.batchSize, |cols|);
    }

    /** The tracker's maximum so far. */
    ghost function Observed(): Option<Value>
      reads wm
    {
      if wm == null then None else wm.Max()
    }

    /** What the checks amount to, given the tracker's maximum. */
    ghost predicate PageFits(page: seq<Row>, checked: bool, max: Option<Value>) {
      && (forall c :: c in columns ==> IsIdentifier(c))
      && (checked || ((forall k :: k in task.target.keys ==> k in columns)
                      && (task.incremental.Some? ==> task.incremental.value.column in columns)))
      && (forall r :: r in page ==> |r| == |columns|)
      && (wm != null ==> Fold(wm.f64, max, ColumnOf(wm.column, page)).Some?)
    }

    /** The first page's check for the columns the run depends on. */
    method CheckKeys(first: Row) returns (err: Option<string>)
      requires first.Keys == columns
      ensures err.None? <==> (forall k :: k in task.target.keys ==> k in columns)
                             && (task.incremental.Some? ==> task.incremental.value.column in columns)
    {
      for i := 0 to |task.target.keys|
        invariant forall j :: 0 <= j < i ==> task.target.keys[j] in columns
      {
        if task.target.keys[i] !in first { return Some("upsert key missing from source columns"); }
      }
      if task.incremental.Some? {
        if task.incremental.value.column !in first { return Some("incremental.column missing from source columns"); }
      }
      err := None;
    }

    /** The checks a page goes through before anything is written. */
    method CheckPage(page: seq<Row>) returns (cols: seq<Column>, err: Option<string>)
      requires page != [] && page[0].Keys == columns
      requires keysChecked ==> KeysPresent()
      requires Upserting() ==> tgt.index == task.target.keys
      modifies this`keysChecked, wm
      ensures err.None? <==> PageFits(page, old(keysChecked), old(Observed()))
      ensures keysChecked ==> KeysPresent()
      ensures err.None? ==> (set c | c in cols) == columns && keysChecked
      ensures err.None? && wm != null ==> Fold(wm.f64, old(Observed()), ColumnOf(wm.column, page)) == Some(Observed())
    {
      hide Fold, ColumnOf, IsIdentifier, StopsAt;
      cols := SortedCols(page[0]);
      var named := ValidateColumns(cols);
      assert named <==> forall c :: c in columns ==> IsIdentifier(c);
      if !named { return cols, Some("source column names rejected"); }
      if !keysChecked {
        err := CheckKeys(page[0]);
        if err.Some? { return; }
        keysChecked := true;
      }
      for i := 0 to |page|
        invariant forall j :: 0 <= j < i ==> |page[j]| == |columns|
      {
        if |page[i]| != |cols| {
          assert page[i] in page;
          return cols, Some("heterogeneous result sets are unsupported");
        }
      }
      err := None;
      if wm != null {
        var ok := wm.Observe(page);
        if !ok {
          ghost var k :| StopsAt(wm.f64, old(Observed()), wm.column, page, k, Observed());
          FoldFails(wm.f64, old(Observed()), wm.column, page, k, Observed());
          err := Some("watermark column: incomparable values");
        }
      }
    }

    /** What every page keeps: each row of the accepted pages is counted, and written or failed; the
        samples are the first failures; the log is fair, and only what a run may do was done. */
    ghost predicate Valid()
      reads this, tgt, store, tgt.history
    {
      && Runnable(task) && Sampled() && Keyed()
      && (wm != null <==> task.incremental.Some?)
      && (wm != null ==> wm.column == task.incremental.value.column && wm.f64 == f64)
      && (keysChecked ==> KeysPresent())
      && totalSeen == |Flat(pages)| && Tally(base, Flat(pages), 0, 0)
      && Journal(log0, store.log, ops, runId, task.name, trigger)
      && store.history == tgt.history && Ran(deeds0, tgt.history.deeds, task.name, runId, ops0, ops)
    }

    /** The tracker holds the fold over every row of the accepted pages; the first of them was checked for
        the columns the run depends on. */
    ghost predicate Tracking()
      reads this, wm
    {
      && (keysChecked <==> Flat(pages) != [])
      && (wm != null ==> Fold(wm.f64, None, ColumnOf(wm.column, Flat(pages))) == Some(Observed()))
    }

    /** Checking a page against the tracker is checking it against the rows before it. */
    lemma FitsPasses(page: seq<Row>)
      requires Valid() && Tracking()
      ensures PageFits(page, keysChecked, Observed()) <==> Passes(task, f64, columns, Flat(pages), page)
    {
      hide Fold, ColumnOf, Flat, IsIdentifier, Tally, Journal, IncrementalPasses;
      if wm != null { FoldPage(f64, wm.column, Flat(pages), page); }
    }

    /** The progress event; its failure is ignored. */
    method LogProgress()
      requires okRows + failRows == totalSeen && Journal(log0, store.log, ops, runId, task.name, trigger)
      modifies this`ops, store`log, store`failures, store.history
      ensures Journal(log0, store.log, ops, runId, task.name, trigger)
      ensures Ran(old(store.history.deeds), store.history.deeds, task.name, runId, old(ops), ops)
      ensures old(store.failures) <= store.failures
      ensures runId > 0 && store.failures == old(store.failures)
              ==> ops == old(ops) + [R.EventOp(R.Event(runId, R.Progress(totalSeen, okRows, failRows)))]
    {
      hide R.OpsOf;
      RanNothing(store.history.deeds, task.name, runId, ops);
      if runId > 0 {
        var e := R.Event(runId, R.Progress(totalSeen, okRows, failRows));
        JournalSnoc(log0, store.log, ops, runId, task.name, trigger, e);
        var recorded := store.AppendEvent(e);
        RanDeed(old(store.history.deeds), R.Logged(R.EventOp(e), recorded), task.name, runId, ops);
        if recorded { ops := ops + [R.EventOp(e)]; }
      }
    }

    /** A checked page is written and counted as seen. */
    method TakePage(cols: seq<Column>, page: seq<Row>)
      requires Tally(base, Flat(pages), 0, 0) && totalSeen == |Flat(pages)|
      requires KeysPresent() && (set c | c in cols) == columns && task.target.batchSize >= 1
      modifies this`okRows, this`failRows, this`samples, this`messages, this`totalSeen, this`pages, tgt`table,
               tgt`stages, tgt.history
      ensures OnlySent(old(tgt.history.deeds), tgt.history.deeds)
      ensures pages == old(pages) + [page]
      ensures Tally(base, Flat(pages), 0, 0) && totalSeen == |Flat(pages)|
    {
      hide Wrote, WellKeyed, ValidSchema, Flat, Cut, Fits, KeysPresent, Grew, OnlySent;
      ghost var t1, ok1, fail1 := tgt.table, okRows, failRows;
      ghost var chunks := WritePage(cols, page);
      FlatSnoc(pages, page);
      if Upserting() {
        WroteConcat(SinkHere(), base, t1, tgt.table, Flat(pages), page, ok1, fail1, okRows - ok1, failRows - fail1,
                    tgt.steady);
      } else {
        GrewConcat(SinkHere().schema, base, t1, tgt.table, Flat(pages), page, fail1, failRows - fail1);
      }
      totalSeen := totalSeen + |page|;
      pages := pages + [page];
    }

    /** The callback.  An error leaves table, counters and log alone; a page taken is reported, with what was
        counted so far, unless the store fails. */
    method OnPage(page: seq<Row>) returns (err: Option<string>)
      requires Valid() && Tracking() && (page != [] ==> page[0].Keys == columns)
      modifies this, tgt`table, tgt`stages, store`log, store`failures, wm, tgt.history
      ensures Valid() && old(store.failures) <= store.failures
      ensures err.None? ==> Tracking() && pages == if page == [] then old(pages) else old(pages) + [page]
      ensures err.Some? ==> pages == old(pages) && okRows == old(okRows) && failRows == old(failRows)
                            && tgt.table == old(tgt.table) && store.log == old(store.log)
      ensures err.Some? <==> page != [] && !Passes(task, f64, columns, old(Flat(pages)), page)
      ensures err.None? && page != [] && runId > 0 && store.failures == old(store.failures)
              ==> ops == old(ops) + [R.EventOp(R.Event(runId, R.Progress(totalSeen, okRows, failRows)))]
    {
      hide Wrote, WellKeyed, ValidSchema, Grew, Flat, Fold, ColumnOf, IncrementalPasses, Journal, PageFits, Passes,
           KeysPresent, Ran, OnlySent;
      ghost var deeds, ops1 := tgt.history.deeds, ops;
      if |page| == 0 { return None; }
      FitsPasses(page);
      var cols;
      cols, err := CheckPage(page);
      if err.Some? { return; }
      if wm != null { FoldPage(f64, wm.column, Flat(pages), page); }
      FlatSnoc(pages, page);
      TakePage(cols, page);
      ghost var taken := tgt.history.deeds;
      RanSent(deeds, taken, task.name, runId, ops1);
      RanConcat(deeds0, deeds, taken, task.name, runId, ops0, ops1, ops1);
      LogProgress();
      RanConcat(deeds0, taken, tgt.history.deeds, task.name, runId, ops0, ops1, ops);
    }
  }

  /** A failed bulk load and a failed statement leave the account of what follows intact. */
  lemma Climbed(sink: Sink, t: Table, t1: Table, t2: Table, t3: Table, rows: seq<Row>, ok: bool, okRows: nat,
                failRows: nat,
                steady: bool)
    requires Sound(sink, t) && Sound(sink, t1) && Partly(sink, t, t1, rows) && Attempted(sink, t1, t2, rows, ok, steady)
    requires if ok then t3 == t2 && okRows == |rows| && failRows == 0
             else Wrote(sink, t2, t3, rows, okRows, failRows, steady)
    ensures Wrote(sink, t, t3, rows, okRows, failRows, steady)
  {
    hide Partly, Wrote, Sound;
    if ok {
      WroteAll(sink, t1, rows, steady);
    } else {
      RetryAbsorbs(sink, t1, t2, t3, rows, okRows, failRows, steady);
    }
    RetryAbsorbs(sink, t, t1, t3, rows, okRows, failRows, steady);
  }

  lemma ColumnConcat(column: Column, a: seq<Row>, b: seq<Row>)
    ensures ColumnOf(column, a + b) == ColumnOf(column, a) + ColumnOf(column, b)
  {
  }

  /** A failure inside the page is a failure of the page. */
  lemma FoldFails(f64: Rounding, max: Option<Value>, column: Column, page: seq<Row>, k: nat, m: Option<Value>)
    requires StopsAt(f64, max, column, page, k, m)
    ensures Fold(f64, max, ColumnOf(column, page)) == None
  {
    hide Fold;
    assert page == page[..k + 1] + page[k + 1..];
    ColumnConcat(column, page[..k + 1], page[k + 1..]);
    FoldConcat(f64, max, ColumnOf(column, page[..k + 1]), ColumnOf(column, page[k + 1..]));
  }

  lemma FoldPage(f64: Rounding, column: Column, before: seq<Row>, page: seq<Row>)
    ensures Fold(f64, None, ColumnOf(column, before + page))
            == match Fold(f64, None, ColumnOf(column, before)) {
                 case None => None
                 case Some(m) => Fold(f64, m, ColumnOf(column, page))
               }
  {
    hide Fold;
    ColumnConcat(column, before, page);
    FoldConcat(f64, None, ColumnOf(column, before), ColumnOf(column, page));
  }
}
