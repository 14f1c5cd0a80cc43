/** The run log: run records, their events, and the stored watermarks. */
module Runlog {
  import opened Wrappers
  import opened Tables
  import opened Watermark

  datatype Status = Running | Succeeded | Failed | Skipped | Interrupted

  /** What a finished run reports. */
  datatype Result = Result(
    task: string, trigger: string, status: Status,
    total: nat, ok: nat, fail: nat, error: string, samples: seq<string>)

  /** One row of the runs table; `finished` says that finished_at is set. */
  datatype Record = Record(result: Result, finished: bool)

  datatype EventKind =
    | Progress(seen: nat, ok: nat, fail: nat)
    | WatermarkHeld(count: nat)
    | WatermarkAdvanced(value: Value)

  datatype Event = Event(run: nat, kind: EventKind)

  /** `last` is the AUTOINCREMENT counter, which survives deletions. */
  datatype Log = Log(runs: map<nat, Record>, last: nat, events: seq<Event>)

  ghost predicate Valid(l: Log) {
    forall id :: id in l.runs ==> 1 <= id <= l.last && (l.runs[id].result.status == Running <==> !l.runs[id].finished)
  }

  // ---- the statements ----

  function Interrupt(r: Record): Record {
    if r.result.status == Running then
      Record(r.result.(status := Interrupted,
                       error := if r.result.error == "" then "run interrupted by process restart"
                                else r.result.error),
             true)
    else r
  }

  /** sweepInterrupted. */
  function Sweep(l: Log): Log { l.(runs := map id | id in l.runs :: Interrupt(l.runs[id])) }

  function Fresh(task: string, trigger: string): Record {
    Record(Result(task, trigger, Running, 0, 0, 0, "", []), false)
  }

  /** StartRun: the new id is one past every id ever given. */
  function Started(l: Log, task: string, trigger: string): Log {
    l.(runs := l.runs[l.last + 1 := Fresh(task, trigger)], last := l.last + 1)
  }

  /** FinishRun: task and trigger stay as started; a missing id is no error. */
  function Finished(l: Log, id: nat, r: Result): Log {
    if id in l.runs then
      l.(runs := l.runs[id := Record(r.(task := l.runs[id].result.task, trigger := l.runs[id].result.trigger), true)])
    else l
  }

  function Recorded(l: Log, e: Event): Log { l.(events := l.events + [e]) }

  function Above(ids: set<nat>, i: nat): set<nat> { set j | j in ids && j > i }

  /** ORDER BY id DESC LIMIT keep: the ids with fewer than `keep` ids above them. */
  function Newest(ids: set<nat>, keep: nat): set<nat> { set i | i in ids && |Above(ids, i)| < keep }

  function Filter(events: seq<Event>, drop: set<nat>): seq<Event> {
    if events == [] then []
    else Filter(events[..|events| - 1], drop)
         + if events[|events| - 1].run in drop then [] else [events[|events| - 1]]
  }

  function KeepOrDefault(keep: int): nat { if keep <= 0 then 10_000 else keep }

  /** Prune: first the events of the runs past the newest `keep`, then those runs. */
  function Pruned(l: Log, keep: int): Log {
    var newest := Newest(l.runs.Keys, KeepOrDefault(keep));
    Log(map id | id in l.runs && id in newest :: l.runs[id], l.last, Filter(l.events, l.runs.Keys - newest))
  }

  /** The watermark a task_state table holds for a task, as read back. */
  function MarkOf(read: string -> Option<real>, state: map<string, (string, string)>, task: string): Option<Value> {
    if task in state then Decode(read, state[task].0, state[task].1) else None
  }

  // ---- what a process does ----

  /** The operations on the log. */
  datatype Op =
    | OpenOp
    | StartOp(task: string, trigger: string)
    | FinishOp(id: nat, result: Result)
    | EventOp(event: Event)
    | PruneOp(keep: int)

  /** What a process does to the registry, the run log and the target: a task's token taken, refused or given
      back, a statement of the log, a watermark stored, a statement sent to the target. */
  datatype Deed =
    | Took(name: string)
    | Refused(name: string)
    | Gave(name: string)
    | Logged(op: Op, ok: bool)
    | Marked(task: string, ok: bool)
    | Sent

  /** The deeds in their order; the registry, the run log and the target of one process keep it together. */
  class History {
    ghost var deeds: seq<Deed>

    constructor ()
      ensures deeds == []
    {
      deeds := [];
    }

    ghost method Add(d: Deed)
      modifies this
      ensures deeds == old(deeds) + [d]
    {
      deeds := deeds + [d];
    }
  }

  /** What these deeds did to the log. */
  ghost function OpsOf(ds: seq<Deed>): seq<Op> {
    if ds == [] then []
    else
      var d := ds[|ds| - 1];
      OpsOf(ds[..|ds| - 1]) + if d.Logged? && d.ok then [d.op] else []
  }

  lemma OpsOfSnoc(ds: seq<Deed>, d: Deed)
    ensures OpsOf(ds + [d]) == OpsOf(ds) + if d.Logged? && d.ok then [d.op] else []
  {
    assert (ds + [d])[..|ds|] == ds;
  }

  lemma {:induction false} OpsOfConcat(a: seq<Deed>, b: seq<Deed>)
    ensures OpsOf(a + b) == OpsOf(a) + OpsOf(b)
  {
    if b == [] {
      assert a + b == a;
    } else {
      hide OpsOf;
      var front, d := b[..|b| - 1], b[|b| - 1];
      OpsOfConcat(a, front);
      OpsOfSnoc(a + front, d);
      OpsOfSnoc(front, d);
      assert a + b == (a + front) + [d] && b == front + [d];
    }
  }

  // ---- the store ----

  /** The SQLite store; any statement may fail, and `failures` counts those that did.  `fmt` and `read`
      print and parse floats. */
  class Store {
    const fmt: real -> string
    const read: string -> Option<real>
    var log: Log
    var state: map<string, (string, string)>
    ghost var failures: nat
    ghost const history: History

    /** Open: the interrupted-run sweep over what the file holds. */
    constructor Open(fmt: real -> string, read: string -> Option<real>, file: Log, state: map<string, (string, string)>,
                     ghost history: History)
      ensures this.fmt == fmt && this.read == read && log == Sweep(file) && this.state == state
              && this.history == history
      ensures log.runs.Keys == file.runs.Keys && log.last == file.last && log.events == file.events
      ensures forall id :: id in file.runs ==>
                if file.runs[id].result.status != Running then log.runs[id] == file.runs[id]
                else var e := log.runs[id].result.error;
                  log.runs[id] == Record(file.runs[id].result.(status := Interrupted, error := e), true)
                  && e != "" && (file.runs[id].result.error != "" ==> e == file.runs[id].result.error)
    {
      this.fmt, this.read, this.log, this.state, this.failures, this.history := fmt, read, Sweep(file), state, 0,
                                                                                history;
    }

    /** The new id, or 0 when the statement failed. */
    method StartRun(task: string, trigger: string) returns (id: nat)
      modifies this`log, this`failures, history
      ensures history.deeds == old(history.deeds) + [Logged(StartOp(task, trigger), id != 0)]
      ensures id == 0 ==> log == old(log) && failures == old(failures) + 1
      ensures id != 0 ==> failures == old(failures) && log == Started(old(log), task, trigger) && id == log.last
      ensures id != 0 ==> id == old(log).last + 1 && log.events == old(log).events
                          && log.runs == old(log).runs[id := Record(Result(task, trigger, Running, 0, 0, 0, "", []),
                                                                    false)]
    {
      var fault: bool := *;
      history.Add(Logged(StartOp(task, trigger), !fault));
      if fault {
        failures := failures + 1;
        return 0;
      }
      log := Started(log, task, trigger);
      id := log.last;
    }

    method FinishRun(id: nat, r: Result) returns (ok: bool)
      modifies this`log, this`failures, history
      ensures history.deeds == old(history.deeds) + [Logged(FinishOp(id, r), ok)]
      ensures log == if ok then Finished(old(log), id, r) else old(log)
      ensures ok && id in old(log).runs ==>
                var was := old(log).runs[id].result;
                log == old(log).(runs := old(log).runs[id := Record(
                  Result(was.task, was.trigger, r.status, r.total, r.ok, r.fail, r.error, r.samples), true)])
      ensures failures == old(failures) + if ok then 0 else 1
    {
      var fault: bool := *;
      history.Add(Logged(FinishOp(id, r), !fault));
      if fault {
        failures := failures + 1;
        return false;
      }
      log := Finished(log, id, r);
      ok := true;
    }

    method AppendEvent(e: Event) returns (ok: bool)
      modifies this`log, this`failures, history
      ensures history.deeds == old(history.deeds) + [Logged(EventOp(e), ok)]
      ensures log == if ok then Recorded(old(log), e) else old(log)
      ensures ok ==> log == Log(old(log).runs, old(log).last, old(log).events + [e])
      ensures failures == old(failures) + if ok then 0 else 1
    {
      var fault: bool := *;
      history.Add(Logged(EventOp(e), !fault));
      if fault {
        failures := failures + 1;
        return false;
      }
      log := Recorded(log, e);
      ok := true;
    }

    method Prune(keep: int) returns (ok: bool)
      modifies this`log, this`failures, history
      ensures history.deeds == old(history.deeds) + [Logged(PruneOp(keep), ok)]
      ensures failures == old(failures) + if ok then 0 else 1
      ensures ok ==> log == Pruned(old(log), keep)
      ensures !ok ==> log == old(log) || log == old(log).(events := Pruned(old(log), keep).events)
    {
      var n := KeepOrDefault(keep);
      var newest := Newest(log.runs.Keys, n);
      var fault: bool := *;
      if fault {
        history.Add(Logged(PruneOp(keep), false));
        failures := failures + 1;
        return false;
      }
      log := log.(events := Filter(log.events, log.runs.Keys - newest));
      fault := *;
      history.Add(Logged(PruneOp(keep), !fault));
      if fault {
        failures := failures + 1;
        return false;
      }
      log := log.(runs := map id | id in log.runs && id in newest :: log.runs[id]);
      ok := true;
    }

    /** The stored watermark of a task, as read back. */
    function Mark(task: string): Option<Value>
      reads this
    {
      MarkOf(read, state, task)
    }

    /** None of a task that never completed; an unreadable or unavailable one is an error. */
    method GetWatermark(task: string) returns (v: Option<Value>, ok: bool)
      modifies this`failures
      ensures ok ==> v == Mark(task) && (v.None? ==> task !in state) && failures == old(failures)
      ensures !ok ==> failures == old(failures) + 1 || (failures == old(failures) && task in state && Mark(task).None?)
    {
      var fault: bool := *;
      if fault {
        failures := failures + 1;
        return None, false;
      }
      if task !in state { return None, true; }
      v := Decode(read, state[task].0, state[task].1);
      ok := v.Some?;
    }

    method SetWatermark(task: string, v: Value) returns (ok: bool)
      modifies this`state, this`failures, history
      ensures history.deeds == old(history.deeds) + if Encode(fmt, v).Some? then [Marked(task, ok)] else []
      ensures ok
              ==> failures == old(failures) && Encode(fmt, v).Some? && state == old(state)[task := Encode(fmt, v).value]
      ensures !ok ==> state == old(state) && failures == old(failures) + if Encode(fmt, v).None? then 0 else 1
    {
      var enc := Encode(fmt, v);
      if enc.None? { return false; }
      var fault: bool := *;
      history.Add(Marked(task, !fault));
      if fault {
        failures := failures + 1;
        return false;
      }
      state := state[task := enc.value];
      ok := true;
    }
  }

  // ---- the log over sequences of operations ----

  function Do(l: Log, op: Op): Log {
    match op
    case OpenOp => Sweep(l)
    case StartOp(task, trigger) => Started(l, task, trigger)
    case FinishOp(id, r) => Finished(l, id, r)
    case EventOp(e) => Recorded(l, e)
    case PruneOp(keep) => Pruned(l, keep)
  }

  function DoAll(l: Log, ops: seq<Op>): Log {
    if ops == [] then l else Do(DoAll(l, ops[..|ops| - 1]), ops[|ops| - 1])
  }

  /** A run is finished with a terminal status. */
  ghost predicate Terminal(ops: seq<Op>) {
    forall i :: 0 <= i < |ops| ==> (ops[i].FinishOp? ==> ops[i].result.status != Running)
  }

  lemma {:induction false} LogStaysValid(l: Log, ops: seq<Op>)
    requires Valid(l) && Terminal(ops)
    ensures Valid(DoAll(l, ops)) && l.last <= DoAll(l, ops).last
  {
    if ops != [] {
      var before := ops[..|ops| - 1];
      assert Terminal(before) by {
        assert forall i :: 0 <= i < |before| ==> before[i] == ops[i];
      }
      LogStaysValid(l, before);
      OpKeepsValid(DoAll(l, before), ops[|ops| - 1]);
    }
  }

  lemma OpKeepsValid(l: Log, op: Op)
    requires Valid(l) && (op.FinishOp? ==> op.result.status != Running)
    ensures Valid(Do(l, op)) && l.last <= Do(l, op).last
  {
  }

  /** The id a start gets after the operations before it. */
  function IdOf(l: Log, ops: seq<Op>, i: nat): nat
    requires i < |ops|
  {
    DoAll(l, ops[..i]).last + 1
  }

  /** Ids strictly increase and are never given twice, whatever is pruned in between. */
  lemma IdsIncrease(l: Log, ops: seq<Op>, i: nat, j: nat)
    requires i < j < |ops| && ops[i].StartOp?
    ensures IdOf(l, ops, i) < IdOf(l, ops, j)
  {
    CounterGrows(l, ops, i + 1, j);
    assert ops[..i + 1][..i] == ops[..i];
  }

  lemma {:induction false} CounterGrows(l: Log, ops: seq<Op>, i: nat, j: nat)
    requires i <= j <= |ops|
    ensures DoAll(l, ops[..i]).last <= DoAll(l, ops[..j]).last
  {
    if i < j {
      CounterGrows(l, ops, i, j - 1);
      assert ops[..j][..j - 1] == ops[..j - 1];
    }
  }

  /** Right after an Open nothing is running. */
  lemma OpenLeavesNothingRunning(l: Log, ops: seq<Op>)
    requires ops != [] && ops[|ops| - 1].OpenOp?
    ensures forall id :: id in DoAll(l, ops).runs ==> DoAll(l, ops).runs[id].result.status != Running
  {
  }

  /** The record of a run is not final: a second Open interrupts a run in progress, and that run's own
      finish then overwrites the interruption. */
  lemma FinishOverridesInterruption(l: Log, task: string, trigger: string, r: Result)
    requires r.status != Running
    ensures var id := l.last + 1;
            var interrupted := Sweep(Started(l, task, trigger));
            var finished := Finished(interrupted, id, r);
            id in interrupted.runs && interrupted.runs[id].result.status == Interrupted && interrupted.runs[id].finished
            && id in finished.runs && finished.runs[id].result.status == r.status
  {
  }

  predicate Opens(ops: seq<Op>) { exists i :: 0 <= i < |ops| && ops[i].OpenOp? }

  /** The operations do not finish this run. */
  predicate Unfinished(ops: seq<Op>, id: nat) { forall i :: 0 <= i < |ops| ==> !(ops[i].FinishOp? && ops[i].id == id) }

  /** The record of a run in progress: as it was, or interrupted, according to whether the store was opened. */
  predicate Awaits(l: Log, id: nat, swept: bool) {
    id in l.runs ==>
      if swept then l.runs[id].result.status == Interrupted && l.runs[id].finished
      else l.runs[id].result.status == Running && !l.runs[id].finished
  }

  lemma AwaitsStep(l: Log, op: Op, id: nat, swept: bool)
    requires Valid(l) && id <= l.last && Awaits(l, id, swept) && !(op.FinishOp? && op.id == id)
    ensures Awaits(Do(l, op), id, swept || op.OpenOp?)
  {
  }

  lemma OpensSnoc(ops: seq<Op>)
    requires ops != []
    ensures Opens(ops) <==> Opens(ops[..|ops| - 1]) || ops[|ops| - 1].OpenOp?
  {
    var front := ops[..|ops| - 1];
    if Opens(front) {
      var i :| 0 <= i < |front| && front[i].OpenOp?;
      assert ops[i].OpenOp?;
    }
    if Opens(ops) && !ops[|ops| - 1].OpenOp? {
      var i :| 0 <= i < |ops| && ops[i].OpenOp?;
      assert front[i].OpenOp?;
    }
  }

  lemma {:induction false} RunAwaits(l: Log, ops: seq<Op>, id: nat)
    requires Valid(l) && Terminal(ops) && id <= l.last && Awaits(l, id, false) && Unfinished(ops, id)
    ensures Awaits(DoAll(l, ops), id, Opens(ops))
  {
    if ops != [] {
      hide Valid, Awaits, Opens, Do;
      var front, op := ops[..|ops| - 1], ops[|ops| - 1];
      assert forall i :: 0 <= i < |front| ==> front[i] == ops[i];
      RunAwaits(l, front, id);
      LogStaysValid(l, front);
      OpensSnoc(ops);
      AwaitsStep(DoAll(l, front), op, id, Opens(front));
    } else {
      assert !Opens(ops);
    }
  }

  /** When a status is finalized once: whatever else happens to the log between the start of a run and its
      own finish, that finish is the first finalization of its record if and only if the store was not
      opened in between.  If it was, the record was interrupted, and the finish overwrites that. */
  lemma FinalizedOnceExactly(l: Log, ops: seq<Op>, id: nat, r: Result)
    requires Valid(l) && Terminal(ops) && id in l.runs && l.runs[id].result.status == Running && Unfinished(ops, id)
    requires id in DoAll(l, ops).runs
    ensures var before, after := DoAll(l, ops).runs[id], Do(DoAll(l, ops), FinishOp(id, r)).runs[id];
            && (!before.finished <==> !Opens(ops)) && (before.result.status == Running <==> !Opens(ops))
            && (Opens(ops) ==> before.result.status == Interrupted)
            && after.finished && after.result.status == r.status
  {
    hide Opens, DoAll;
    RunAwaits(l, ops, id);
  }

  // ---- pruning ----

  /** Above the largest id that is not among the newest are exactly the newest. */
  lemma AboveIsNewest(ids: set<nat>, keep: nat, m: nat)
    requires m in ids && m !in Newest(ids, keep)
    requires forall i :: i in ids && i !in Newest(ids, keep) ==> i <= m
    ensures Above(ids, m) == Newest(ids, keep)
  {
    forall i | i in Newest(ids, keep)
      ensures i > m
    {
      NewestAreAbove(ids, keep, i, m);
    }
  }

  /** One id further: with exactly `keep` ids above `m`, the newest `keep + 1` are those and `m`. */
  lemma NewestWith(ids: set<nat>, keep: nat, m: nat)
    requires m in ids && |Above(ids, m)| == keep
    ensures Newest(ids, keep + 1) == Above(ids, m) + {m}
  {
    forall i | i in ids
      ensures i in Newest(ids, keep + 1) <==> i >= m
    {
      if i >= m {
        AboveShrinks(ids, m, i);
      } else {
        assert Above(ids, m) + {m} <= Above(ids, i);
        Smaller(Above(ids, m) + {m}, Above(ids, i));
      }
    }
  }

  lemma AboveShrinks(ids: set<nat>, i: nat, j: nat)
    requires i <= j
    ensures |Above(ids, j)| <= |Above(ids, i)|
  {
    assert Above(ids, j) <= Above(ids, i);
    Smaller(Above(ids, j), Above(ids, i));
  }

  lemma {:induction false} NewestStep(ids: set<nat>, keep: nat)
    requires keep < |ids|
    ensures |Newest(ids, keep + 1)| == keep + 1
    decreases keep, 1
  {
    hide Newest, Above;
    NewestSize(ids, keep);
    var newest := Newest(ids, keep);
    NewestOf(ids, keep);
    var rest := ids - newest;
    assert ids == newest + rest;
    var m := Largest(rest);
    AboveIsNewest(ids, keep, m);
    NewestWith(ids, keep, m);
  }

  lemma NewestOf(ids: set<nat>, keep: nat)
    ensures Newest(ids, keep) <= ids
  {
  }

  lemma Smaller(a: set<nat>, b: set<nat>)
    requires a <= b
    ensures |a| <= |b|
  {
    assert b == a + (b - a);
  }

  lemma {:induction false} Largest(s: set<nat>) returns (m: nat)
    requires s != {}
    ensures m in s && forall i :: i in s ==> i <= m
  {
    var x :| x in s;
    if s == {x} {
      m := x;
    } else {
      var y := Largest(s - {x});
      m := if x > y then x else y;
      assert s == (s - {x}) + {x};
    }
  }

  lemma {:induction false} NewestSize(ids: set<nat>, keep: nat)
    requires keep <= |ids|
    ensures |Newest(ids, keep)| == keep
    decreases keep, 0
  {
    if keep > 0 {
      NewestStep(ids, keep - 1);
    } else {
      assert Newest(ids, 0) == {};
    }
  }

  lemma NewestAreAbove(ids: set<nat>, keep: nat, i: nat, j: nat)
    requires i in Newest(ids, keep) && j in ids - Newest(ids, keep)
    ensures j < i
  {
    if j > i {
      assert Above(ids, j) <= Above(ids, i);
      Smaller(Above(ids, j), Above(ids, i));
    }
  }

  /** Pruning keeps the `keep` largest ids, ten thousand if `keep` is not positive, untouched, and nothing else. */
  lemma PruneKeepsNewest(l: Log, keep: int)
    ensures var n, l' := if keep <= 0 then 10_000 else keep, Pruned(l, keep);
            l'.runs.Keys <= l.runs.Keys && (forall id :: id in l'.runs ==> l'.runs[id] == l.runs[id])
            && |l'.runs| == (if n <= |l.runs| then n else |l.runs|)
            && (forall i, j :: i in l'.runs && j in l.runs && j !in l'.runs ==> j < i)
            && l'.last == l.last
  {
    var n, l' := KeepOrDefault(keep), Pruned(l, keep);
    var ids := l.runs.Keys;
    assert l'.runs.Keys == Newest(ids, n);
    if n <= |ids| {
      NewestSize(ids, n);
    } else {
      forall i | i in ids
        ensures i in Newest(ids, n)
      {
        Smaller(Above(ids, i), ids);
      }
      assert Newest(ids, n) == ids;
    }
    forall i, j | i in l'.runs && j in l.runs && j !in l'.runs
      ensures j < i
    {
      NewestAreAbove(ids, n, i, j);
    }
  }

  /** Every event belongs to a run still in the log. */
  ghost predicate NoOrphans(l: Log) { forall i :: 0 <= i < |l.events| ==> l.events[i].run in l.runs }

  lemma {:induction false} FilterExactly(events: seq<Event>, drop: set<nat>)
    ensures forall e :: e in Filter(events, drop) <==> e in events && e.run !in drop
  {
    if events != [] {
      FilterExactly(events[..|events| - 1], drop);
      assert events == events[..|events| - 1] + [events[|events| - 1]];
    }
  }

  lemma OrphansByEvent(l: Log)
    ensures NoOrphans(l) <==> forall e :: e in l.events ==> e.run in l.runs
  {
  }

  /** After pruning, what is left of the events is exactly the events of the runs kept, if and only if
      no event belonged to a run that was already gone. */
  lemma PruneKeepsEventsExactly(l: Log, keep: int)
    ensures NoOrphans(Pruned(l, keep)) <==> NoOrphans(l)
    ensures NoOrphans(l) ==> forall e :: e in Pruned(l, keep).events <==> e in l.events && e.run in Pruned(l, keep).runs
  {
    var l' := Pruned(l, keep);
    var drop := l.runs.Keys - Newest(l.runs.Keys, KeepOrDefault(keep));
    FilterExactly(l.events, drop);
    forall e | e in l.events
      ensures e.run in l'.runs <==> e.run in l.runs && e.run !in drop
    {
    }
    OrphansByEvent(l);
    OrphansByEvent(l');
  }

  /** Orphans come from a run that is pruned while it is still reporting. */
  lemma PrunedRunLeavesOrphan(task: string, trigger: string)
    ensures var l := Recorded(Pruned(Started(Started(Log(map[], 0, []), task, trigger), task, trigger), 1),
                              Event(1, Progress(0, 0, 0)));
            l.runs.Keys == {2} && !NoOrphans(l) && !NoOrphans(Pruned(l, 1))
  {
    var two := Started(Started(Log(map[], 0, []), task, trigger), task, trigger);
    assert two.runs.Keys == {1, 2};
    assert Above({1, 2}, 2) == {} && Above({1, 2}, 1) == {2};
    assert Newest({1, 2}, 1) == {2};
    var l := Recorded(Pruned(two, 1), Event(1, Progress(0, 0, 0)));
    assert l.runs.Keys == {2};
    assert l.events[|l.events| - 1].run == 1;
    PruneKeepsEventsExactly(l, 1);
  }

  /** Without pruning in between, an event recorded for a run in the log is never an orphan. */
  lemma {:induction false} NoOrphansWithoutLatePrune(l: Log, ops: seq<Op>)
    requires NoOrphans(l)
    requires forall i :: 0 <= i < |ops| ==> (ops[i].EventOp? ==> ops[i].event.run in DoAll(l, ops[..i]).runs)
    ensures NoOrphans(DoAll(l, ops))
  {
    if ops != [] {
      var before, op := ops[..|ops| - 1], ops[|ops| - 1];
      forall i | 0 <= i < |before|
        ensures before[i].EventOp? ==> before[i].event.run in DoAll(l, before[..i]).runs
      {
        assert before[..i] == ops[..i];
      }
      NoOrphansWithoutLatePrune(l, before);
      if op.PruneOp? { PruneKeepsEventsExactly(DoAll(l, before), op.keep); }
      assert ops[..|ops| - 1] == before;
    }
  }

  ghost predicate OrphanHere(l: Log, e: Event) { e in l.events && e.run !in l.runs && e.run <= l.last }

  /** An orphan stays: ids are not reused, and pruning drops only events of runs it finds. */
  lemma OrphanStays(l: Log, op: Op, e: Event)
    requires OrphanHere(l, e)
    ensures OrphanHere(Do(l, op), e)
  {
    if op.PruneOp? { FilterExactly(l.events, l.runs.Keys - Newest(l.runs.Keys, KeepOrDefault(op.keep))); }
  }

  /** When an event is recorded its run is in the log. */
  ghost predicate Timely(l: Log, ops: seq<Op>) {
    forall i :: 0 <= i < |ops| && ops[i].EventOp? ==> ops[i].event.run in DoAll(l, ops[..i]).runs
  }

  /** Events are recorded for runs that were started at some time. */
  ghost predicate EverStarted(l: Log, ops: seq<Op>) {
    forall i :: 0 <= i < |ops| && ops[i].EventOp? ==> ops[i].event.run <= DoAll(l, ops[..i]).last
  }

  lemma PrefixOf(l: Log, ops: seq<Op>)
    requires ops != []
    ensures var front, op := ops[..|ops| - 1], ops[|ops| - 1];
            && (Timely(l, ops) <==> (Timely(l, front) && (op.EventOp? ==> op.event.run in DoAll(l, front).runs)))
            && (EverStarted(l, ops) ==>
                  EverStarted(l, front) && (op.EventOp? ==> op.event.run <= DoAll(l, front).last))
  {
    hide DoAll;
    var front := ops[..|ops| - 1];
    forall i | 0 <= i < |front|
      ensures front[..i] == ops[..i] && front[i] == ops[i]
    {
    }
  }

  /** Over any operations, a log stays free of orphans if and only if no event is recorded for a run
      already pruned. */
  lemma {:induction false} NoOrphansExactly(l: Log, ops: seq<Op>)
    requires NoOrphans(l) && EverStarted(l, ops)
    ensures NoOrphans(DoAll(l, ops)) <==> Timely(l, ops)
    ensures !Timely(l, ops) ==> exists e :: OrphanHere(DoAll(l, ops), e)
  {
    if ops != [] {
      hide Timely, EverStarted, DoAll, Do;
      var front, op := ops[..|ops| - 1], ops[|ops| - 1];
      PrefixOf(l, ops);
      NoOrphansExactly(l, front);
      LastOp(l, ops);
      var before := DoAll(l, front);
      if Timely(l, front) {
        OrphanStep(before, op);
      } else {
        var e :| OrphanHere(before, e);
        OrphanStays(before, op, e);
        OrphansByEvent(DoAll(l, ops));
      }
    }
  }

  lemma LastOp(l: Log, ops: seq<Op>)
    requires ops != []
    ensures DoAll(l, ops) == Do(DoAll(l, ops[..|ops| - 1]), ops[|ops| - 1])
  {
  }

  lemma OrphanStep(l: Log, op: Op)
    requires NoOrphans(l) && (op.EventOp? ==> op.event.run <= l.last)
    ensures NoOrphans(Do(l, op)) <==> (op.EventOp? ==> op.event.run in l.runs)
    ensures op.EventOp? && op.event.run !in l.runs ==> OrphanHere(Do(l, op), op.event)
  {
    if op.PruneOp? { PruneKeepsEventsExactly(l, op.keep); }
    if op.EventOp? {
      var l' := Do(l, op);
      assert l'.events[|l.events|] == op.event;
      assert forall i :: 0 <= i < |l.events| ==> l'.events[i] == l.events[i];
    }
  }
}
