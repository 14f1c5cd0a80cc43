/** Any number of concurrent RunTask calls in one process, over one registry and one open store.  Every
    registry operation and every SQL statement is a step of its own; steps interleave freely. */
module Runs {
  import R = Runlog
  import Registry

  /** Where a call stands: it holds a token (the `serial`-th ever given); it has started its record (id 0 if
      that failed, and then it releases without a finish); it has finished it and must still release; or it was
      refused, and notes that. */
  datatype Call =
    | Idle
    | Holding(name: string, serial: nat)
    | Begun(name: string, serial: nat, id: nat)
    | Closed(name: string, serial: nat)
    | Refused(name: string)
    | Noted(name: string, id: nat)

  /** The record statements in the order they took effect. */
  datatype Entry =
    | Opened(task: string, serial: nat, id: nat)
    | Finalized(task: string, serial: nat, id: nat)
    | SkipOpened(task: string, id: nat)
    | SkipFinalized(task: string, id: nat)

  datatype State = State(running: map<string, nat>, count: nat, log: R.Log, calls: map<nat, Call>, history: seq<Entry>)

  datatype Step =
    | Acquire(pid: nat, name: string)
    | StartRecord(pid: nat, trigger: string, ok: bool)
    | Report(pid: nat, event: R.Event)
    | FinishRecord(pid: nat, result: R.Result, ok: bool)
    | Release(pid: nat)
    | ReleaseAgain(name: string, serial: nat)

  function At(s: State, pid: nat): Call { if pid in s.calls then s.calls[pid] else Idle }

  function Move(s: State, pid: nat, c: Call): State { s.(calls := s.calls[pid := c]) }

  predicate Active(c: Call) { c.Holding? || c.Begun? || c.Closed? }

  /** The registry's release: only the token that holds the name drops it. */
  function Dropped(running: map<string, nat>, name: string, serial: nat): map<string, nat> {
    if name in running && running[name] == serial then running - {name} else running
  }

  /** The generation a token shows: a 64-bit counter. */
  function Generation(serial: nat): nat { serial % Registry.GENERATIONS }

  /** The token a process carries. */
  predicate Carries(s: State, pid: nat, name: string, serial: nat) {
    pid in s.calls && Active(s.calls[pid]) && s.calls[pid].name == name && s.calls[pid].serial == serial
  }

  /** No call in progress carries the token. */
  predicate Spent(s: State, name: string, serial: nat) {
    forall pid :: pid in s.calls ==> !Carries(s, pid, name, serial)
  }

  function Start(s: State, pid: nat, trigger: string, ok: bool): State {
    var c := At(s, pid);
    var id := s.log.last + 1;
    if c.Holding? then
      if ok then
        Move(s, pid, Begun(c.name, c.serial, id)).(log := R.Started(s.log, c.name, trigger),
                                                   history := s.history + [Opened(c.name, c.serial, id)])
      else Move(s, pid, Begun(c.name, c.serial, 0))
    else if c.Refused? then
      if ok then
        Move(s, pid, Noted(c.name, id)).(log := R.Started(s.log, c.name, trigger),
                                         history := s.history + [SkipOpened(c.name, id)])
      else Move(s, pid, Idle)
    else s
  }

  function Finish(s: State, pid: nat, r: R.Result, ok: bool): State {
    var c := At(s, pid);
    if c.Begun? then
      if c.id > 0 && ok then
        Move(s, pid, Closed(c.name, c.serial)).(log := R.Finished(s.log, c.id, r),
                                                history := s.history + [Finalized(c.name, c.serial, c.id)])
      else Move(s, pid, Closed(c.name, c.serial))
    else if c.Noted? then
      if c.id > 0 && ok then
        Move(s, pid, Idle).(log := R.Finished(s.log, c.id, r), history := s.history + [SkipFinalized(c.name, c.id)])
      else Move(s, pid, Idle)
    else s
  }

  /** One step; a step that does not apply does nothing. */
  function Do(s: State, step: Step): State {
    match step
    case Acquire(pid, name) =>
      if !At(s, pid).Idle? then s
      else if name in s.running then Move(s, pid, Refused(name))
      else Move(s, pid, Holding(name, s.count + 1)).(running := s.running[name := s.count + 1], count := s.count + 1)
    case StartRecord(pid, trigger, ok) => Start(s, pid, trigger, ok)
    case Report(pid, e) =>
      if At(s, pid).Begun? && e.run == At(s, pid).id > 0 then s.(log := R.Recorded(s.log, e)) else s
    case FinishRecord(pid, r, ok) => Finish(s, pid, r, ok)
    case Release(pid) =>
      var c := At(s, pid);
      if c.Closed? || (c.Begun? && c.id == 0) then
        Move(s, pid, Idle).(running := Dropped(s.running, c.name, c.serial))
      else s
    case ReleaseAgain(name, serial) =>
      if Spent(s, name, serial) && serial <= s.count then s.(running := Dropped(s.running, name, serial)) else s
  }

  function After(s: State, steps: seq<Step>): State {
    if steps == [] then s else Do(After(s, steps[..|steps| - 1]), steps[|steps| - 1])
  }

  // ---- tokens ----

  /** A name is held exactly when one call in progress carries its current token. */
  ghost predicate TokensValid(s: State) {
    && (forall n :: n in s.running ==> 1 <= s.running[n] <= s.count && exists pid :: Carries(s, pid, n, s.running[n]))
    && (forall pid, n, serial :: Carries(s, pid, n, serial) ==> n in s.running && s.running[n] == serial)
    && (forall p, q, n, serial, serial' :: Carries(s, p, n, serial) && Carries(s, q, n, serial') ==> p == q)
  }

  /** Nothing about tokens has changed. */
  lemma SameTokens(s: State, s': State)
    requires TokensValid(s) && s'.running == s.running && s'.count == s.count
    requires forall pid, n, serial :: Carries(s', pid, n, serial) <==> Carries(s, pid, n, serial)
    ensures TokensValid(s')
  {
  }

  lemma TokenTaken(s: State, s': State, at: nat, name: string)
    requires TokensValid(s) && name !in s.running
    requires s'.count == s.count + 1 && s'.running == s.running[name := s'.count]
    requires forall pid, n, serial :: Carries(s', pid, n, serial)
                                      <==> Carries(s, pid, n, serial) || (pid == at && n == name && serial == s'.count)
    ensures TokensValid(s')
  {
    hide Carries;
    forall n | n in s'.running
      ensures exists pid :: Carries(s', pid, n, s'.running[n])
    {
      if n == name {
        assert Carries(s', at, n, s'.running[n]);
      } else {
        var pid :| Carries(s, pid, n, s.running[n]);
        assert Carries(s', pid, n, s'.running[n]);
      }
    }
  }

  lemma TokenGiven(s: State, s': State, at: nat, name: string, serial: nat)
    requires TokensValid(s) && Carries(s, at, name, serial)
    requires s'.count == s.count && s'.running == s.running - {name}
    requires forall pid, n, k :: Carries(s', pid, n, k) <==> Carries(s, pid, n, k) && pid != at
    ensures TokensValid(s')
  {
  }

  lemma ProgressKeepsTokens(s: State, s': State, at: nat, c: Call)
    requires TokensValid(s) && s'.running == s.running && s'.count == s.count && s'.calls == s.calls[at := c]
    requires if Active(At(s, at)) then Active(c) && c.name == At(s, at).name && c.serial == At(s, at).serial
             else !Active(c)
    ensures TokensValid(s')
  {
    hide TokensValid;
    SameTokens(s, s');
  }

  /** Every step keeps the tokens straight; a stale or repeated release is a no-op. */
  lemma StepKeepsTokens(s: State, step: Step)
    requires TokensValid(s)
    ensures TokensValid(Do(s, step)) && s.count <= Do(s, step).count
    ensures step.ReleaseAgain? ==> Do(s, step) == s
  {
    hide R.Started, R.Finished;
    var s' := Do(s, step);
    if step.ReleaseAgain? {
      if step.name in s.running {
        var pid :| Carries(s, pid, step.name, s.running[step.name]);
      }
    } else if s' != s {
      hide TokensValid;
      var pid := step.pid;
      if step.Acquire? && step.name !in s.running {
        TokenTaken(s, s', pid, step.name);
      } else if step.Release? {
        var c := At(s, pid);
        HolderKnown(s, pid, c.name, c.serial);
        TokenGiven(s, s', pid, c.name, c.serial);
      } else {
        ProgressKeepsTokens(s, s', pid, s'.calls[pid]);
      }
    }
  }

  lemma HolderKnown(s: State, pid: nat, name: string, serial: nat)
    requires TokensValid(s) && Carries(s, pid, name, serial)
    ensures name in s.running && s.running[name] == serial
  {
  }

  // ---- the order of the record statements ----

  predicate ByHolder(e: Entry) { e.Opened? || e.Finalized? }

  /** Of two holders' statements for one task the earlier is not of a later holder, and nothing of a
      holder comes after its finish: a finish precedes the next holder's start. */
  ghost predicate InOrder(h: seq<Entry>) {
    forall i, j :: 0 <= i < j < |h| && ByHolder(h[i]) && ByHolder(h[j]) && h[i].task == h[j].task
      ==> Follows(h[i], h[j])
  }

  predicate Follows(a: Entry, b: Entry)
    requires ByHolder(a) && ByHolder(b)
  {
    a.serial <= b.serial && (a.Finalized? ==> a.serial < b.serial)
  }

  predicate Unfinished(c: Call) { c.Holding? || c.Begun? }

  ghost predicate HistoryValid(s: State) {
    && InOrder(s.history)
    && (forall e :: e in s.history && ByHolder(e) ==>
          e.serial <= s.count && (e.task in s.running ==> e.serial <= s.running[e.task]))
    && (forall pid, e :: pid in s.calls && Unfinished(s.calls[pid]) && e in s.history && e.Finalized? ==>
          e.task != s.calls[pid].name || e.serial != s.calls[pid].serial)
  }

  lemma InOrderSnoc(h: seq<Entry>, e: Entry)
    requires InOrder(h)
    requires ByHolder(e) ==> forall a :: a in h && ByHolder(a) && a.task == e.task ==> Follows(a, e)
    ensures InOrder(h + [e])
  {
  }

  lemma OnlyHolder(s: State, pid: nat, name: string, serial: nat)
    requires TokensValid(s) && Carries(s, pid, name, serial)
    ensures name in s.running && s.running[name] == serial
    ensures forall q :: q in s.calls && Unfinished(s.calls[q]) && s.calls[q].name == name ==> q == pid
  {
    forall q | q in s.calls && Unfinished(s.calls[q]) && s.calls[q].name == name
      ensures q == pid
    {
      assert Carries(s, q, name, s.calls[q].serial);
    }
  }

  /** A statement of the process at `at` is appended. */
  lemma EntryKeepsHistory(s: State, s': State, at: nat, c: Call, e: Entry)
    requires TokensValid(s) && HistoryValid(s)
    requires s'.running == s.running && s'.count == s.count && s'.calls == s.calls[at := c]
             && s'.history == s.history + [e]
    requires ByHolder(e) ==> Carries(s, at, e.task, e.serial) && Unfinished(s.calls[at])
    requires Unfinished(c) ==> !e.Finalized? && at in s.calls && Unfinished(s.calls[at])
                               && c.name == s.calls[at].name && c.serial == s.calls[at].serial
    ensures HistoryValid(s')
  {
    if ByHolder(e) {
      OnlyHolder(s, at, e.task, e.serial);
      TokenInRange(s, e.task);
    }
    hide TokensValid, Carries;
    InOrderSnoc(s.history, e);
    hide InOrder;
  }

  lemma TokenInRange(s: State, name: string)
    requires TokensValid(s) && name in s.running
    ensures 1 <= s.running[name] <= s.count
  {
  }

  lemma StepKeepsHistory(s: State, step: Step)
    requires TokensValid(s) && HistoryValid(s)
    ensures HistoryValid(Do(s, step))
  {
    hide R.Started, R.Finished, TokensValid, InOrder;
    var s' := Do(s, step);
    if s'.history != s.history {
      hide HistoryValid;
      EntryKeepsHistory(s, s', step.pid, s'.calls[step.pid], s'.history[|s.history|]);
    }
  }

  // ---- record ids ----

  /** The record a call has open. */
  function Pending(c: Call): nat { if c.Begun? || c.Noted? then c.id else 0 }

  predicate Closes(e: Entry) { e.Finalized? || e.SkipFinalized? }

  function OpenAt(s: State, pid: nat): nat { Pending(At(s, pid)) }

  predicate RunningRecord(l: R.Log, id: nat) { id in l.runs && l.runs[id].result.status == R.Running }

  predicate ClosedRecord(l: R.Log, id: nat) { id in l.runs && l.runs[id].result.status != R.Running }

  /** Open records are different, running, and not closed by anyone yet; no record is closed twice. */
  ghost predicate IdsValid(s: State) {
    && R.Valid(s.log)
    && (forall p :: OpenAt(s, p) > 0 ==> RunningRecord(s.log, OpenAt(s, p)))
    && (forall p, q :: p != q && OpenAt(s, p) > 0 ==> OpenAt(s, p) != OpenAt(s, q))
    && (forall e :: e in s.history && Closes(e) ==> ClosedRecord(s.log, e.id))
    && ClosedOnce(s.history)
  }

  ghost predicate ClosedOnce(h: seq<Entry>) {
    forall i, j :: 0 <= i < j < |h| && Closes(h[i]) && Closes(h[j]) ==> h[i].id != h[j].id
  }

  lemma ClosedOnceSnoc(h: seq<Entry>, e: Entry)
    requires ClosedOnce(h) && (Closes(e) ==> forall a :: a in h && Closes(a) ==> a.id != e.id)
    ensures ClosedOnce(h + [e])
  {
  }

  lemma RecordStarts(l: R.Log, task: string, trigger: string, id: nat)
    requires R.Valid(l)
    ensures var l' := R.Started(l, task, trigger);
            R.Valid(l') && RunningRecord(l', l.last + 1) && !RunningRecord(l, l.last + 1)
              && !ClosedRecord(l, l.last + 1)
            && (RunningRecord(l, id) ==> RunningRecord(l', id)) && (ClosedRecord(l, id) ==> ClosedRecord(l', id))
  {
  }

  lemma RecordCloses(l: R.Log, closing: nat, r: R.Result, id: nat)
    requires R.Valid(l) && RunningRecord(l, closing) && r.status != R.Running
    ensures var l' := R.Finished(l, closing, r);
            R.Valid(l') && ClosedRecord(l', closing)
            && (id != closing && RunningRecord(l, id) ==> RunningRecord(l', id))
                 && (ClosedRecord(l, id) ==> ClosedRecord(l', id))
  {
  }

  lemma IdOpened(s: State, s': State, at: nat, e: Entry, task: string, trigger: string)
    requires IdsValid(s) && s'.log == R.Started(s.log, task, trigger) && s'.history == s.history + [e] && !Closes(e)
    requires forall p :: OpenAt(s', p) == if p == at then s.log.last + 1 else OpenAt(s, p)
    ensures IdsValid(s')
  {
    hide R.Started, R.Valid, RunningRecord, ClosedRecord, OpenAt;
    ClosedOnceSnoc(s.history, e);
    hide ClosedOnce;
    forall id
      ensures RunningRecord(s.log, id) ==> RunningRecord(s'.log, id)
      ensures ClosedRecord(s.log, id) ==> ClosedRecord(s'.log, id)
    {
      RecordStarts(s.log, task, trigger, id);
    }
    RecordStarts(s.log, task, trigger, 0);
  }

  lemma IdClosed(s: State, s': State, at: nat, e: Entry, r: R.Result)
    requires IdsValid(s) && Closes(e) && e.id == OpenAt(s, at) > 0 && r.status != R.Running
    requires s'.log == R.Finished(s.log, e.id, r) && s'.history == s.history + [e]
    requires forall p :: OpenAt(s', p) == if p == at then 0 else OpenAt(s, p)
    ensures IdsValid(s')
  {
    assert forall a :: a in s.history && Closes(a) ==> a.id != e.id;
    ClosedOnceSnoc(s.history, e);
    hide R.Finished, R.Valid, RunningRecord, ClosedRecord, OpenAt, ClosedOnce;
    forall id
      ensures id != e.id && RunningRecord(s.log, id) ==> RunningRecord(s'.log, id)
      ensures ClosedRecord(s.log, id) ==> ClosedRecord(s'.log, id)
    {
      RecordCloses(s.log, e.id, r, id);
    }
    RecordCloses(s.log, e.id, r, 0);
  }

  lemma IdDropped(s: State, s': State, at: nat)
    requires IdsValid(s) && s'.log == s.log && s'.history == s.history
    requires forall p :: OpenAt(s', p) == OpenAt(s, p) || (p == at && OpenAt(s', p) == 0)
    ensures IdsValid(s')
  {
  }

  lemma IdReported(s: State, s': State, e: R.Event)
    requires IdsValid(s) && s' == s.(log := R.Recorded(s.log, e))
    ensures IdsValid(s')
  {
    hide ClosedOnce;
    forall p
      ensures OpenAt(s', p) == OpenAt(s, p)
    {
    }
    forall id
      ensures RunningRecord(s'.log, id) == RunningRecord(s.log, id)
      ensures ClosedRecord(s'.log, id) == ClosedRecord(s.log, id)
    {
    }
    hide OpenAt, RunningRecord, ClosedRecord;
  }

  /** A run is finished with a terminal status. */
  predicate Terminal(step: Step) { step.FinishRecord? ==> step.result.status != R.Running }

  lemma StepKeepsIds(s: State, step: Step)
    requires IdsValid(s) && Terminal(step)
    ensures IdsValid(Do(s, step))
  {
    hide IdsValid, R.Started, R.Finished;
    var s' := Do(s, step);
    if s'.history != s.history {
      var e := s'.history[|s.history|];
      if step.StartRecord? {
        IdOpened(s, s', step.pid, e, At(s, step.pid).name, step.trigger);
      } else {
        IdClosed(s, s', step.pid, e, step.result);
      }
    } else if step.Report? {
      if s' != s { IdReported(s, s', step.event); }
    } else if s' != s {
      IdDropped(s, s', if step.ReleaseAgain? then 0 else step.pid);
    }
  }

  // ---- every interleaving ----

  ghost predicate Valid(s: State) { TokensValid(s) && HistoryValid(s) && IdsValid(s) }

  /** A process that has just opened its store. */
  predicate Fresh(s: State) { s.running == map[] && s.calls == map[] && s.history == [] }

  /** In every interleaving of concurrent runs and skipped triggers: a task's token is held by at most one
      call; every finish of a holder precedes the next holder's start; every record is closed at most once,
      and is running until its own call closes it. */
  lemma {:induction false} EveryInterleaving(s: State, steps: seq<Step>)
    requires (Valid(s) || (Fresh(s) && R.Valid(s.log))) && forall i :: 0 <= i < |steps| ==> Terminal(steps[i])
    ensures Valid(After(s, steps)) && s.count <= After(s, steps).count
  {
    if steps != [] {
      hide Do, TokensValid, HistoryValid, IdsValid, Fresh;
      var before, step := steps[..|steps| - 1], steps[|steps| - 1];
      EveryInterleaving(s, before);
      var mid := After(s, before);
      StepKeepsTokens(mid, step);
      StepKeepsHistory(mid, step);
      StepKeepsIds(mid, step);
    }
  }

  lemma AtMostOneHolder(s: State, steps: seq<Step>, p: nat, q: nat)
    requires Fresh(s) && R.Valid(s.log) && forall i :: 0 <= i < |steps| ==> Terminal(steps[i])
    requires Active(At(After(s, steps), p)) && Active(At(After(s, steps), q))
    ensures At(After(s, steps), p).name == At(After(s, steps), q).name ==> p == q
  {
    hide After, HistoryValid, IdsValid;
    EveryInterleaving(s, steps);
    var s' := After(s, steps);
    var a, b := At(s', p), At(s', q);
    assert Carries(s', p, a.name, a.serial) && Carries(s', q, b.name, b.serial);
  }

  /** The step takes a token. */
  predicate Takes(s: State, step: Step) { step.Acquire? && At(s, step.pid).Idle? && step.name !in s.running }

  /** Each token taken is later than every one before; its 64-bit generation is larger until the counter wraps. */
  lemma GenerationsIncrease(s: State, steps: seq<Step>, i: nat, j: nat)
    requires i < j < |steps| && Takes(After(s, steps[..i]), steps[i]) && Takes(After(s, steps[..j]), steps[j])
    ensures var a, b := After(s, steps[..i + 1]).count, After(s, steps[..j + 1]).count;
            a < b && (b < Registry.GENERATIONS ==> Generation(a) < Generation(b))
  {
    hide Do;
    CountGrows(s, steps, i + 1, j);
    assert steps[..j + 1][..j] == steps[..j];
    TakesNext(After(s, steps[..j]), steps[j]);
  }

  lemma TakesNext(s: State, step: Step)
    requires Takes(s, step)
    ensures Do(s, step).count == s.count + 1 && Do(s, step).running[step.name] == s.count + 1
  {
  }

  lemma CountStep(s: State, step: Step)
    ensures s.count <= Do(s, step).count
  {
  }

  lemma NextPrefix(s: State, steps: seq<Step>, j: nat)
    requires 0 < j <= |steps|
    ensures After(s, steps[..j]) == Do(After(s, steps[..j - 1]), steps[j - 1])
  {
    hide Do;
    assert steps[..j][..j - 1] == steps[..j - 1];
  }

  lemma {:induction false} CountGrows(s: State, steps: seq<Step>, i: nat, j: nat)
    requires i <= j <= |steps|
    ensures After(s, steps[..i]).count <= After(s, steps[..j]).count
  {
    hide Do, After;
    if i < j {
      CountGrows(s, steps, i, j - 1);
      NextPrefix(s, steps, j);
      CountStep(After(s, steps[..j - 1]), steps[j - 1]);
    }
  }

  /** A skipped trigger's record runs too: for a moment one task has two running records. */
  lemma SkippedAlsoRuns(s: State, p: nat, q: nat, name: string, trigger: string)
    requires p != q && At(s, p).Idle? && At(s, q).Idle? && name !in s.running
    ensures var s' := Do(Do(Do(Do(s, Acquire(p, name)), StartRecord(p, trigger, true)), Acquire(q, name)),
                         StartRecord(q, trigger, true));
            At(s', p).Begun? && At(s', q).Noted? && At(s', p).id != At(s', q).id
            && RunningRecord(s'.log, At(s', p).id) && RunningRecord(s'.log, At(s', q).id)
            && s'.log.runs[At(s', p).id].result.task == name && s'.log.runs[At(s', q).id].result.task == name
  {
  }
}
