/** What one RunTask does to registry and run log, deed by deed, is what one process does in the interleaving
    model: what holds in every interleaving of such processes holds of concurrent runs. */
module Conduct {
  import opened Pages
  import opened Engine
  import opened Runs
  import R = Runlog

  /** The step that a deed is; statements sent to the target, stored watermarks and lost events are none. */
  function StepsFor(pid: nat, d: R.Deed): seq<Step> {
    match d
    case Took(name) => [Acquire(pid, name)]
    case Refused(name) => [Acquire(pid, name)]
    case Gave(_) => [Release(pid)]
    case Logged(StartOp(_, trigger), ok) => [StartRecord(pid, trigger, ok)]
    case Logged(FinishOp(_, r), ok) => [FinishRecord(pid, r, ok)]
    case Logged(EventOp(e), true) => [Report(pid, e)]
    case _ => []
  }

  function StepsOf(pid: nat, ds: seq<R.Deed>): seq<Step> {
    if ds == [] then [] else StepsOf(pid, ds[..|ds| - 1]) + StepsFor(pid, ds[|ds| - 1])
  }

  /** The state after the first `k` deeds. */
  function Following(s: State, pid: nat, ds: seq<R.Deed>, k: nat): State
    requires k <= |ds|
  {
    After(s, StepsOf(pid, ds[..k]))
  }

  lemma {:induction false} AfterConcat(s: State, a: seq<Step>, b: seq<Step>)
    ensures After(s, a + b) == After(After(s, a), b)
  {
    if b == [] {
      assert a + b == a;
    } else {
      hide Do;
      AfterConcat(s, a, b[..|b| - 1]);
      assert (a + b)[..|a + b| - 1] == a + b[..|b| - 1];
    }
  }

  lemma AfterOne(s: State, x: Step)
    ensures After(s, []) == s && After(s, [x]) == Do(s, x)
  {
    hide Do;
    assert [x][..0] == [];
  }

  /** One deed more. */
  lemma DeedFollows(s: State, pid: nat, ds: seq<R.Deed>, k: nat)
    requires k < |ds|
    ensures Following(s, pid, ds, k + 1) == After(Following(s, pid, ds, k), StepsFor(pid, ds[k]))
  {
    hide After, StepsFor;
    assert ds[..k + 1][..k] == ds[..k];
    AfterConcat(s, StepsOf(pid, ds[..k]), StepsFor(pid, ds[k]));
  }

  lemma StepFollows(s: State, pid: nat, ds: seq<R.Deed>, k: nat, x: Step)
    requires k < |ds| && StepsFor(pid, ds[k]) == [x]
    ensures Following(s, pid, ds, k + 1) == Do(Following(s, pid, ds, k), x)
  {
    hide Following, Do, StepsFor, After;
    DeedFollows(s, pid, ds, k);
    AfterOne(Following(s, pid, ds, k), x);
  }

  lemma NoDeeds(s: State, pid: nat, ds: seq<R.Deed>)
    ensures Following(s, pid, ds, 0) == s && R.DoAll(s.log, R.OpsOf(ds[..0])) == s.log
  {
    assert ds[..0] == [];
  }

  lemma OpFollows(l: R.Log, ds: seq<R.Deed>, k: nat)
    requires k < |ds|
    ensures R.DoAll(l, R.OpsOf(ds[..k + 1]))
            == if ds[k].Logged? && ds[k].ok then R.Do(R.DoAll(l, R.OpsOf(ds[..k])), ds[k].op)
               else R.DoAll(l, R.OpsOf(ds[..k]))
  {
    hide R.OpsOf, R.Do;
    R.OpsOfSnoc(ds[..k], ds[k]);
    assert ds[..k + 1] == ds[..k] + [ds[k]];
    var ops := R.OpsOf(ds[..k]);
    if ds[k].Logged? && ds[k].ok {
      assert (ops + [ds[k].op])[..|ops|] == ops;
    } else {
      assert ops + [] == ops;
    }
  }

  ghost predicate OthersStay(s: State, s': State, pid: nat) { forall q :: q != pid ==> At(s', q) == At(s, q) }

  /** The call is under way: it has its token, the registry has it too, and nobody else has moved. */
  ghost predicate UnderWay(s: State, s': State, pid: nat, name: string) {
    && Active(At(s', pid)) && At(s', pid).name == name && At(s', pid).serial == s.count + 1
    && s'.running == s.running[name := s.count + 1] && s'.count == s.count + 1 && OthersStay(s, s', pid)
  }

  /** The call is over, with this log, and has left no trace in the registry. */
  ghost predicate Over(s: State, s': State, pid: nat, log: R.Log) {
    s'.log == log && s'.running == s.running && At(s', pid).Idle? && OthersStay(s, s', pid)
  }

  lemma Starts(s: State, pid: nat, ds: seq<R.Deed>, name: string, trigger: string, id: nat)
    requires At(s, pid).Idle? && name !in s.running && |ds| >= 2 && (id > 0 ==> id == s.log.last + 1)
    requires ds[0] == R.Took(name) && ds[1] == R.Logged(R.StartOp(name, trigger), id > 0)
    ensures UnderWay(s, Following(s, pid, ds, 1), pid, name)
    ensures var s2 := Following(s, pid, ds, 2);
            UnderWay(s, s2, pid, name) && At(s2, pid) == Begun(name, s.count + 1, id)
            && s2.log == R.DoAll(s.log, R.OpsOf(ds[..2]))
  {
    hide Following, R.OpsOf, R.Started;
    NoDeeds(s, pid, ds);
    StepFollows(s, pid, ds, 0, Acquire(pid, name));
    StepFollows(s, pid, ds, 1, StartRecord(pid, trigger, id > 0));
    OpFollows(s.log, ds, 0);
    OpFollows(s.log, ds, 1);
  }

  lemma InsideStep(s: State, pid: nat, d: R.Deed, name: string)
    requires At(s, pid).Begun? && Inside(d, name, At(s, pid).id)
    ensures After(s, StepsFor(pid, d)) == s.(log := if d.Logged? && d.ok then R.Do(s.log, d.op) else s.log)
  {
    if d.Logged? && d.ok {
      AfterOne(s, Report(pid, d.op.event));
    } else {
      AfterOne(s, Release(pid));
      assert StepsFor(pid, d) == [];
    }
  }

  /** What a run may do moves the log and nothing else. */
  lemma {:induction false} Continues(s: State, pid: nat, ds: seq<R.Deed>, name: string, id: nat, k: nat)
    requires 2 <= k <= |ds| && forall i :: 2 <= i < k ==> Inside(ds[i], name, id)
    requires At(Following(s, pid, ds, 2), pid).Begun? && At(Following(s, pid, ds, 2), pid).id == id
    requires Following(s, pid, ds, 2).log == R.DoAll(s.log, R.OpsOf(ds[..2]))
    ensures Following(s, pid, ds, k) == Following(s, pid, ds, 2).(log := R.DoAll(s.log, R.OpsOf(ds[..k])))
  {
    hide Following, After, R.OpsOf, R.DoAll, R.Do, Inside, StepsFor;
    if k > 2 {
      Continues(s, pid, ds, name, id, k - 1);
      DeedFollows(s, pid, ds, k - 1);
      InsideStep(Following(s, pid, ds, k - 1), pid, ds[k - 1], name);
      OpFollows(s.log, ds, k - 1);
    }
  }

  lemma FinishStep(s: State, pid: nat, r: R.Result, ok: bool)
    requires At(s, pid).Begun? && At(s, pid).id > 0
    ensures var s', c := Do(s, FinishRecord(pid, r, ok)), At(s, pid);
            && At(s', pid) == Closed(c.name, c.serial) && s'.running == s.running && s'.count == s.count
            && s'.log == (if ok then R.Do(s.log, R.FinishOp(c.id, r)) else s.log) && OthersStay(s, s', pid)
  {
    hide R.Finished;
  }

  lemma ReleaseStep(s: State, s': State, pid: nat, name: string)
    requires name !in s.running && UnderWay(s, s', pid, name)
    requires At(s', pid).Closed? || (At(s', pid).Begun? && At(s', pid).id == 0)
    ensures var done := Do(s', Release(pid));
            Over(s, done, pid, s'.log) && done.count == s.count + 1
  {
    assert s.running[name := s.count + 1] - {name} == s.running;
  }

  /** Just before its end the run has its record open, or none, and has logged what it did. */
  ghost predicate Open(s: State, s': State, pid: nat, name: string, id: nat, log: R.Log) {
    UnderWay(s, s', pid, name) && At(s', pid).Begun? && At(s', pid).id == id && s'.log == log
  }

  lemma Finishes(s: State, pid: nat, ds: seq<R.Deed>, name: string, id: nat, res: R.Result, last: nat)
    requires last + 2 == |ds| && id > 0 && ds[last].Logged? && ds[last].op == R.FinishOp(id, res)
    requires Open(s, Following(s, pid, ds, last), pid, name, id, R.DoAll(s.log, R.OpsOf(ds[..last])))
    ensures var s' := Following(s, pid, ds, last + 1);
            UnderWay(s, s', pid, name) && At(s', pid).Closed? && s'.log == R.DoAll(s.log, R.OpsOf(ds[..last + 1]))
  {
    hide Following, R.OpsOf, R.DoAll, R.Do, Do;
    StepFollows(s, pid, ds, last, FinishRecord(pid, res, ds[last].ok));
    FinishStep(Following(s, pid, ds, last), pid, res, ds[last].ok);
    OpFollows(s.log, ds, last);
  }

  lemma GivesBack(s: State, pid: nat, ds: seq<R.Deed>, name: string, k: nat)
    requires k + 1 == |ds| && ds[k] == R.Gave(name) && name !in s.running
    requires var s' := Following(s, pid, ds, k);
             && UnderWay(s, s', pid, name) && (At(s', pid).Closed? || (At(s', pid).Begun? && At(s', pid).id == 0))
             && s'.log == R.DoAll(s.log, R.OpsOf(ds[..k]))
    ensures var s' := Following(s, pid, ds, k + 1);
            Over(s, s', pid, R.DoAll(s.log, R.OpsOf(ds[..k + 1]))) && s'.count == s.count + 1
  {
    hide Following, R.OpsOf, R.DoAll, R.Do, Do;
    StepFollows(s, pid, ds, k, Release(pid));
    ReleaseStep(s, Following(s, pid, ds, k), pid, name);
    OpFollows(s.log, ds, k);
  }

  lemma StillUnderWay(s: State, s2: State, pid: nat, name: string, l: R.Log)
    requires UnderWay(s, s2, pid, name)
    ensures UnderWay(s, s2.(log := l), pid, name) && At(s2.(log := l), pid) == At(s2, pid)
  {
  }

  /** The run's parts, one by one. */
  lemma Middle(s: State, pid: nat, name: string, trigger: string, ds: seq<R.Deed>, res: R.Result, id: nat, k: nat)
    requires At(s, pid).Idle? && name !in s.running && (id > 0 ==> id == s.log.last + 1)
    requires Conducted(ds, name, trigger, id, res) && 2 <= k <= if id > 0 then |ds| - 2 else |ds| - 1
    ensures Open(s, Following(s, pid, ds, k), pid, name, id, R.DoAll(s.log, R.OpsOf(ds[..k])))
  {
    hide Following, R.OpsOf, R.DoAll, Inside, UnderWay, At;
    Starts(s, pid, ds, name, trigger, id);
    Continues(s, pid, ds, name, id, k);
    StillUnderWay(s, Following(s, pid, ds, 2), pid, name, R.DoAll(s.log, R.OpsOf(ds[..k])));
  }

  lemma ConductedParts(ds: seq<R.Deed>, name: string, trigger: string, id: nat, res: R.Result)
    requires Conducted(ds, name, trigger, id, res)
    ensures |ds| >= (if id > 0 then 4 else 3) && ds[0] == R.Took(name) && ds[|ds| - 1] == R.Gave(name)
    ensures ds[1] == R.Logged(R.StartOp(name, trigger), id > 0)
    ensures id > 0 ==> ds[|ds| - 2].Logged? && ds[|ds| - 2].op == R.FinishOp(id, res)
  {
  }

  lemma OpenIs(s: State, s': State, pid: nat, name: string, id: nat, log: R.Log)
    requires Open(s, s', pid, name, id, log)
    ensures UnderWay(s, s', pid, name) && At(s', pid).Begun? && At(s', pid).id == id && s'.log == log
  {
  }

  lemma HoldsThroughout(s: State, pid: nat, name: string, trigger: string, ds: seq<R.Deed>, res: R.Result, id: nat,
                        last: nat)
    requires At(s, pid).Idle? && name !in s.running && (id > 0 ==> id == s.log.last + 1)
    requires Conducted(ds, name, trigger, id, res) && last + (if id > 0 then 2 else 1) == |ds|
    ensures forall k :: 1 <= k < |ds| ==> UnderWay(s, Following(s, pid, ds, k), pid, name)
    ensures Over(s, Following(s, pid, ds, |ds|), pid, R.DoAll(s.log, R.OpsOf(ds[..|ds|])))
    ensures Following(s, pid, ds, |ds|).count == s.count + 1
  {
    hide *;
    ConductedParts(ds, name, trigger, id, res);
    Starts(s, pid, ds, name, trigger, id);
    forall k | 2 <= k <= last
      ensures UnderWay(s, Following(s, pid, ds, k), pid, name)
    {
      Middle(s, pid, name, trigger, ds, res, id, k);
      OpenIs(s, Following(s, pid, ds, k), pid, name, id, R.DoAll(s.log, R.OpsOf(ds[..k])));
    }
    Middle(s, pid, name, trigger, ds, res, id, last);
    if id > 0 {
      Finishes(s, pid, ds, name, id, res, last);
    } else {
      OpenIs(s, Following(s, pid, ds, last), pid, name, id, R.DoAll(s.log, R.OpsOf(ds[..last])));
    }
    GivesBack(s, pid, ds, name, |ds| - 1);
  }

  /** The run that got the token: its deeds are steps of one process; all along, from the first deed to the
      last, the process has the token. */
  lemma RunIsSegment(s: State, pid: nat, name: string, trigger: string, ds: seq<R.Deed>, res: R.Result, after: R.Log)
    requires At(s, pid).Idle? && name !in s.running
    requires Conducted(ds, name, trigger, RunId(s.log, R.OpsOf(ds)), res) && after == R.DoAll(s.log, R.OpsOf(ds))
    ensures var s' := After(s, StepsOf(pid, ds));
            Over(s, s', pid, after) && s'.count == s.count + 1
    ensures forall k :: 1 <= k < |ds| ==> UnderWay(s, Following(s, pid, ds, k), pid, name)
  {
    var id := RunId(s.log, R.OpsOf(ds));
    assert id > 0 ==> id == s.log.last + 1;
    hide *;
    ConductedParts(ds, name, trigger, id, res);
    HoldsThroughout(s, pid, name, trigger, ds, res, id, if id > 0 then |ds| - 2 else |ds| - 1);
    AllDeeds(s, pid, ds);
  }

  lemma AllDeeds(s: State, pid: nat, ds: seq<R.Deed>)
    ensures Following(s, pid, ds, |ds|) == After(s, StepsOf(pid, ds)) && ds[..|ds|] == ds
  {
    assert ds[..|ds|] == ds;
  }

  lemma NotedStep(s: State, pid: nat, r: R.Result, ok: bool)
    requires At(s, pid).Noted? && At(s, pid).id > 0
    ensures var s' := Do(s, FinishRecord(pid, r, ok));
            && At(s', pid).Idle? && s'.running == s.running && s'.count == s.count
            && s'.log == (if ok then R.Do(s.log, R.FinishOp(At(s, pid).id, r)) else s.log) && OthersStay(s, s', pid)
  {
    hide R.Finished;
  }

  lemma StartsRefused(s: State, pid: nat, ds: seq<R.Deed>, name: string, trigger: string, id: nat)
    requires At(s, pid).Idle? && name in s.running && |ds| >= 2 && (id > 0 ==> id == s.log.last + 1)
    requires ds[0] == R.Refused(name) && ds[1] == R.Logged(R.StartOp(name, trigger), id > 0)
    ensures var s2 := Following(s, pid, ds, 2);
            && At(s2, pid) == (if id > 0 then Noted(name, id) else Idle)
            && s2.log == R.DoAll(s.log, R.OpsOf(ds[..2])) && s2.running == s.running && s2.count == s.count
            && OthersStay(s, s2, pid)
  {
    hide Following, R.OpsOf, R.Started;
    NoDeeds(s, pid, ds);
    StepFollows(s, pid, ds, 0, Acquire(pid, name));
    StepFollows(s, pid, ds, 1, StartRecord(pid, trigger, id > 0));
    OpFollows(s.log, ds, 0);
    OpFollows(s.log, ds, 1);
  }

  /** The run that was refused it. */
  lemma SkippedIsSegment(s: State, pid: nat, name: string, trigger: string, ds: seq<R.Deed>, res: R.Result,
                         after: R.Log)
    requires At(s, pid).Idle? && name in s.running
    requires TurnedAway(ds, name, trigger, RunId(s.log, R.OpsOf(ds)), res) && after == R.DoAll(s.log, R.OpsOf(ds))
    ensures var s' := After(s, StepsOf(pid, ds));
            Over(s, s', pid, after) && s'.count == s.count
  {
    hide Following, R.OpsOf, R.DoAll, R.Do, Do;
    var id := RunId(s.log, R.OpsOf(ds));
    StartsRefused(s, pid, ds, name, trigger, id);
    if id > 0 {
      StepFollows(s, pid, ds, 2, FinishRecord(pid, res, ds[2].ok));
      NotedStep(Following(s, pid, ds, 2), pid, res, ds[2].ok);
      OpFollows(s.log, ds, 2);
    }
    AllDeeds(s, pid, ds);
  }
}
