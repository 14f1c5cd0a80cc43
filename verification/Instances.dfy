/** Any number of instances, each with any number of runs in flight, over one lease table and one clock.
    Every clock reading and every SQL statement is a step of its own; steps interleave freely. */
module Instances {
  import opened Lease
  import opened TimeText

  /** Who the processes are: the instance each belongs to, and that instance's TTL. */
  datatype World = World(owner: nat -> string, ttl: string -> nat)

  /** Where a process stands: nowhere, between Acquire's clock reading and its DELETE, between the DELETE and
      the INSERT, or between Renew's clock reading and its UPDATE. */
  datatype Proc = Idle | Reading(name: string, now: nat) | Evicted(name: string, now: nat)
      | Renewing(name: string, now: nat)

  datatype State = State(grants: Grants, clock: nat, procs: map<nat, Proc>)

  datatype Step =
    | Tick(to: nat)
    | ReadClock(pid: nat, name: string)
    | DeleteExpired(pid: nat)
    | InsertRow(pid: nat)
    | BeginRenew(pid: nat, name: string)
    | UpdateRow(pid: nat)
    | ReleaseRow(pid: nat, name: string)
    | Crash(pid: nat)

  function At(s: State, pid: nat): Proc { if pid in s.procs then s.procs[pid] else Idle }

  function Move(s: State, pid: nat, p: Proc): State { s.(procs := s.procs[pid := p]) }

  /** One step; a step that does not apply does nothing.  A release may come at any time: nothing ties it
      to the acquisition it belongs to. */
  function Do(w: World, s: State, step: Step): State {
    match step
    case Tick(to) => if to >= s.clock then s.(clock := to) else s
    case ReadClock(pid, name) => if At(s, pid).Idle? then Move(s, pid, Reading(name, s.clock)) else s
    case DeleteExpired(pid) =>
      if At(s, pid).Reading? then
        Move(s, pid, Evicted(At(s, pid).name, At(s, pid).now)).(grants := EvictAt(s.grants, At(s, pid).now))
      else s
    case InsertRow(pid) =>
      if At(s, pid).Evicted? then
        var p := At(s, pid);
        Move(s, pid, Idle).(grants := GrantTo(s.grants, p.name, Given(w, pid, p.now)))
      else s
    case BeginRenew(pid, name) => if At(s, pid).Idle? then Move(s, pid, Renewing(name, s.clock)) else s
    case UpdateRow(pid) =>
      if At(s, pid).Renewing? then
        var p := At(s, pid);
        Move(s, pid, Idle).(grants := Prolong(s.grants, p.name, w.owner(pid), Given(w, pid, p.now).expires))
      else s
    case ReleaseRow(pid, name) => s.(grants := Revoke(s.grants, name, w.owner(pid)))
    case Crash(pid) => Move(s, pid, Idle)
  }

  function Given(w: World, pid: nat, now: nat): Grant { Grant(w.owner(pid), now, now + w.ttl(w.owner(pid))) }

  function After(w: World, s: State, steps: seq<Step>): State {
    if steps == [] then s else Do(w, After(w, s, steps[..|steps| - 1]), steps[|steps| - 1])
  }

  /** The step is an Acquire of `name` getting its row in. */
  predicate Acquires(s: State, step: Step, name: string) {
    step.InsertRow? && At(s, step.pid).Evicted? && At(s, step.pid).name == name && name !in s.grants
  }

  predicate Releases(w: World, step: Step, name: string, owner: string) {
    step.ReleaseRow? && step.name == name && w.owner(step.pid) == owner
  }

  /** No clock reading is from the future, and no expiry is further away than a TTL. */
  ghost predicate Valid(w: World, s: State) {
    && (forall pid :: pid in s.procs ==> s.procs[pid].Idle? || s.procs[pid].now <= s.clock)
    && (forall n :: n in s.grants ==> s.grants[n].expires <= s.clock + w.ttl(s.grants[n].owner))
  }

  lemma StepKeepsValid(w: World, s: State, step: Step)
    requires Valid(w, s)
    ensures Valid(w, Do(w, s, step)) && s.clock <= Do(w, s, step).clock
  {
  }

  lemma {:induction false} StaysValid(w: World, s: State, steps: seq<Step>)
    requires Valid(w, s)
    ensures Valid(w, After(w, s, steps)) && s.clock <= After(w, s, steps).clock
  {
    if steps != [] {
      hide Do, Valid;
      StaysValid(w, s, steps[..|steps| - 1]);
      StepKeepsValid(w, After(w, s, steps[..|steps| - 1]), steps[|steps| - 1]);
    }
  }

  predicate Owned(s: State, name: string, owner: string) { name in s.grants && s.grants[name].owner == owner }

  /** The DELETE of this step finds the row expired. */
  predicate Expires(s: State, step: Step, name: string) {
    step.DeleteExpired? && At(s, step.pid).Reading? && name in s.grants && s.grants[name].expires < At(s, step.pid).now
  }

  /** The UPDATE of this step is the owner's. */
  predicate Renews(w: World, s: State, step: Step, name: string) {
    step.UpdateRow? && At(s, step.pid).Renewing? && At(s, step.pid).name == name && Owned(s, name, w.owner(step.pid))
  }

  /** Ownership: a row goes exactly by its owner's release or by a DELETE whose clock reading is past its
      expiry; short of that nothing but the owner's renewal touches it. */
  lemma RowGoesExactly(w: World, s: State, step: Step, name: string)
    requires name in s.grants
    ensures var owner := s.grants[name].owner;
            (name !in Do(w, s, step).grants <==> Releases(w, step, name, owner) || Expires(s, step, name))
            && (name in Do(w, s, step).grants ==>
                  Do(w, s, step).grants[name].owner == owner
                  && (!Renews(w, s, step, name) ==> Do(w, s, step).grants[name] == s.grants[name]))
  {
  }

  /** The clock has not passed the row's expiry. */
  predicate Current(s: State, name: string) { name in s.grants ==> s.clock <= s.grants[name].expires }

  /** The owner releases nowhere in the steps. */
  ghost predicate Unreleased(w: World, steps: seq<Step>, name: string, owner: string) {
    forall i :: 0 <= i < |steps| ==> !Releases(w, steps[i], name, owner)
  }

  lemma CurrentStays(w: World, s: State, step: Step, name: string, owner: string)
    requires Valid(w, s) && Owned(s, name, owner) && Current(s, name) && !Releases(w, step, name, owner)
    ensures Owned(Do(w, s, step), name, owner) && !Acquires(s, step, name)
  {
  }

  /** Before every step the clock is within the row's expiry. */
  ghost predicate AllCurrent(w: World, s: State, steps: seq<Step>, name: string) {
    forall i :: 0 <= i < |steps| ==> Current(After(w, s, steps[..i]), name)
  }

  /** No step is a successful Acquire of the name. */
  ghost predicate NobodyAcquires(w: World, s: State, steps: seq<Step>, name: string) {
    forall i :: 0 <= i < |steps| ==> !Acquires(After(w, s, steps[..i]), steps[i], name)
  }

  lemma AllCurrentFront(w: World, s: State, steps: seq<Step>, name: string)
    requires steps != [] && AllCurrent(w, s, steps, name)
    ensures AllCurrent(w, s, steps[..|steps| - 1], name) && Current(After(w, s, steps[..|steps| - 1]), name)
  {
    hide After, Current;
    var front := steps[..|steps| - 1];
    forall i | 0 <= i < |front|
      ensures Current(After(w, s, front[..i]), name)
    {
      assert front[..i] == steps[..i];
    }
  }

  lemma NobodyAcquiresSnoc(w: World, s: State, steps: seq<Step>, name: string)
    requires steps != [] && NobodyAcquires(w, s, steps[..|steps| - 1], name)
    requires !Acquires(After(w, s, steps[..|steps| - 1]), steps[|steps| - 1], name)
    ensures NobodyAcquires(w, s, steps, name)
  {
    hide After, Acquires;
    var front := steps[..|steps| - 1];
    forall i | 0 <= i < |steps|
      ensures !Acquires(After(w, s, steps[..i]), steps[i], name)
    {
      if i < |front| { assert front[..i] == steps[..i] && front[i] == steps[i]; }
    }
  }

  /** Mutual exclusion: as long as the clock has not passed the expiry of the row A holds, and A has not
      released it, the row stays A's and no Acquire of that name by anyone gets through, however stale
      the clock readings of the statements in between. */
  lemma {:induction false} MutualExclusion(w: World, s: State, steps: seq<Step>, name: string, owner: string)
    requires Valid(w, s) && Owned(s, name, owner) && Unreleased(w, steps, name, owner) && AllCurrent(w, s, steps, name)
    ensures Owned(After(w, s, steps), name, owner) && NobodyAcquires(w, s, steps, name)
  {
    if steps != [] {
      hide Do, Valid, Owned, Current, Releases, After, AllCurrent, NobodyAcquires;
      var before, last := steps[..|steps| - 1], steps[|steps| - 1];
      AllCurrentFront(w, s, steps, name);
      MutualExclusion(w, s, before, name, owner);
      StaysValid(w, s, before);
      CurrentStays(w, After(w, s, before), last, name, owner);
      NobodyAcquiresSnoc(w, s, steps, name);
    }
    AfterLast(w, s, steps);
  }

  lemma AfterLast(w: World, s: State, steps: seq<Step>)
    ensures steps == [] ==> After(w, s, steps) == s
    ensures steps != [] ==> After(w, s, steps) == Do(w, After(w, s, steps[..|steps| - 1]), steps[|steps| - 1])
  {
  }

  // ---- renewing in time ----

  /** A TTL past the clock reading of the latest renewal, or the expiry the lease came with. */
  function Deadline(w: World, s: State, steps: seq<Step>, name: string): nat
    requires name in s.grants
  {
    if steps == [] then s.grants[name].expires
    else
      var front, step := steps[..|steps| - 1], steps[|steps| - 1];
      if Renews(w, After(w, s, front), step, name) then
        Given(w, step.pid, At(After(w, s, front), step.pid).now).expires
      else Deadline(w, s, front, name)
  }

  /** Before every step the clock is within the deadline: no gap between renewals exceeds the TTL. */
  ghost predicate InTime(w: World, s: State, steps: seq<Step>, name: string)
    requires name in s.grants
  {
    forall i :: 0 <= i < |steps| ==> After(w, s, steps[..i]).clock <= Deadline(w, s, steps[..i], name)
  }

  lemma InTimeFront(w: World, s: State, steps: seq<Step>, name: string)
    requires name in s.grants && steps != [] && InTime(w, s, steps, name)
    ensures var front := steps[..|steps| - 1];
            InTime(w, s, front, name) && After(w, s, front).clock <= Deadline(w, s, front, name)
  {
    hide After, Deadline;
    var front := steps[..|steps| - 1];
    forall i | 0 <= i < |front|
      ensures front[..i] == steps[..i]
    {
    }
  }

  lemma ExpiryStep(w: World, s: State, step: Step, name: string)
    requires name in s.grants && name in Do(w, s, step).grants
    ensures Do(w, s, step).grants[name].expires
            == if Renews(w, s, step, name) then Given(w, step.pid, At(s, step.pid).now).expires
              else s.grants[name].expires
  {
  }

  /** While its holder renews in time and does not release, however long that takes and whatever the
      interleaving, the row stays the holder's and nobody else acquires the task. */
  lemma {:induction false} RenewedInTime(w: World, s: State, steps: seq<Step>, name: string, owner: string)
    requires Valid(w, s) && Owned(s, name, owner) && Unreleased(w, steps, name, owner) && InTime(w, s, steps, name)
    ensures Owned(After(w, s, steps), name, owner) && NobodyAcquires(w, s, steps, name)
    ensures After(w, s, steps).grants[name].expires == Deadline(w, s, steps, name)
  {
    if steps != [] {
      hide Do, Valid, Releases, After, Renews, InTime, NobodyAcquires;
      var before, last := steps[..|steps| - 1], steps[|steps| - 1];
      InTimeFront(w, s, steps, name);
      RenewedInTime(w, s, before, name, owner);
      StaysValid(w, s, before);
      AfterLast(w, s, steps);
      CurrentStays(w, After(w, s, before), last, name, owner);
      NobodyAcquiresSnoc(w, s, steps, name);
      ExpiryStep(w, After(w, s, before), last, name);
    }
    AfterLast(w, s, steps);
  }

  // ---- runs of one task ----

  /** The shared state, and the processes now running one task: those that acquired its lease and have
      neither released it nor crashed, whether or not they still have the row. */
  datatype Live = Live(s: State, writers: set<nat>)

  function DoLive(w: World, name: string, l: Live, step: Step): Live {
    Live(Do(w, l.s, step),
         if Acquires(l.s, step, name) then l.writers + {step.pid}
         else if (step.ReleaseRow? && step.name == name) || step.Crash? then l.writers - {step.pid}
         else l.writers)
  }

  function AfterLive(w: World, name: string, l: Live, steps: seq<Step>): Live {
    if steps == [] then l else DoLive(w, name, AfterLive(w, name, l, steps[..|steps| - 1]), steps[|steps| - 1])
  }

  /** A run releases the lease of its own task only, and only when it ends; and while a run is in progress
      the clock stays within the expiry of the row. */
  predicate Proper(w: World, name: string, l: Live, step: Step) {
    && (step.ReleaseRow? && step.name == name ==> step.pid in l.writers)
    && (l.writers != {} ==> Current(l.s, name))
  }

  ghost predicate AllProper(w: World, name: string, l: Live, steps: seq<Step>) {
    forall i :: 0 <= i < |steps| ==> Proper(w, name, AfterLive(w, name, l, steps[..i]), steps[i])
  }

  /** At most one run, and it has the row. */
  ghost predicate Exclusive(w: World, name: string, l: Live) {
    && (forall p, q :: p in l.writers && q in l.writers ==> p == q)
    && (forall p :: p in l.writers ==> Owned(l.s, name, w.owner(p)))
  }

  lemma LiveStep(w: World, name: string, l: Live, step: Step)
    requires Valid(w, l.s) && Exclusive(w, name, l) && Proper(w, name, l, step)
    ensures Exclusive(w, name, DoLive(w, name, l, step))
  {
    hide Do, Valid, Current;
    var l' := DoLive(w, name, l, step);
    forall p | p in l'.writers
      ensures Owned(l'.s, name, w.owner(p))
    {
      if Acquires(l.s, step, name) {
        AcquiredIsOwned(w, l.s, step, name);
      } else {
        CurrentStays(w, l.s, step, name, w.owner(p));
      }
    }
    if l.writers != {} {
      var p :| p in l.writers;
      if !Releases(w, step, name, w.owner(p)) { CurrentStays(w, l.s, step, name, w.owner(p)); }
    }
  }

  lemma AcquiredIsOwned(w: World, s: State, step: Step, name: string)
    requires Acquires(s, step, name)
    ensures Owned(Do(w, s, step), name, w.owner(step.pid))
  {
  }

  lemma {:induction false} LiveIsMachine(w: World, name: string, l: Live, steps: seq<Step>)
    ensures AfterLive(w, name, l, steps).s == After(w, l.s, steps)
  {
    if steps != [] { LiveIsMachine(w, name, l, steps[..|steps| - 1]); }
  }

  lemma AllProperFront(w: World, name: string, l: Live, steps: seq<Step>)
    requires steps != [] && AllProper(w, name, l, steps)
    ensures var front := steps[..|steps| - 1];
            AllProper(w, name, l, front) && Proper(w, name, AfterLive(w, name, l, front), steps[|steps| - 1])
  {
    hide AfterLive, Proper;
    var front := steps[..|steps| - 1];
    forall i | 0 <= i < |front|
      ensures front[..i] == steps[..i] && front[i] == steps[i]
    {
    }
  }

  /** What the lease is for: in every interleaving, as long as the runs of a task keep its row unexpired,
      by renewing in time, and release it only at their end, no two runs of it, in whatever instances,
      are in progress at the same time, and the one there is has the row. */
  lemma {:induction false} OneRunAtATime(w: World, name: string, l: Live, steps: seq<Step>)
    requires Valid(w, l.s) && Exclusive(w, name, l) && AllProper(w, name, l, steps)
    ensures Exclusive(w, name, AfterLive(w, name, l, steps))
  {
    if steps != [] {
      hide Valid, Exclusive, DoLive, Proper, AllProper;
      var front, step := steps[..|steps| - 1], steps[|steps| - 1];
      AllProperFront(w, name, l, steps);
      OneRunAtATime(w, name, l, front);
      LiveIsMachine(w, name, l, front);
      StaysValid(w, l.s, front);
      LiveStep(w, name, AfterLive(w, name, l, front), step);
    }
  }

  /** An Acquire nobody interferes with, in terms of runs. */
  function TakenLive(w: World, name: string, l: Live, pid: nat): Live {
    DoLive(w, name, DoLive(w, name, DoLive(w, name, l, ReadClock(pid, name)), DeleteExpired(pid)), InsertRow(pid))
  }

  /** Renewing in time is necessary: the moment the clock is past the expiry of a run in progress, and not
      before, an undisturbed Acquire starts a second run beside it, which nothing tells the first to stop. */
  lemma LapsedLeaseOverlaps(w: World, name: string, l: Live, p: nat, q: nat)
    requires Exclusive(w, name, l) && p in l.writers && q != p && At(l.s, q).Idle?
    ensures TakenLive(w, name, l, q).writers == {p, q} <==> !Current(l.s, name)
    ensures Current(l.s, name) ==> TakenLive(w, name, l, q).writers == {p}
  {
    var read := Do(w, l.s, ReadClock(q, name));
    var evicted := Do(w, read, DeleteExpired(q));
    assert At(read, q) == Reading(name, l.s.clock) && At(evicted, q) == Evicted(name, l.s.clock);
    assert name in evicted.grants <==> Current(l.s, name);
    assert forall x :: x in l.writers <==> x == p;
  }

  // ---- good until expiry ----

  /** No renewal of the row by its owner is in flight whose clock reading would bring its expiry below `until`. */
  ghost predicate Unthreatened(w: World, s: State, name: string, owner: string, until: nat) {
    until <= s.clock + w.ttl(owner)
    && forall pid :: pid in s.procs && s.procs[pid].Renewing? && s.procs[pid].name == name && w.owner(pid) == owner
                     ==> until <= s.procs[pid].now + w.ttl(owner)
  }

  lemma UnthreatenedStays(w: World, s: State, step: Step, name: string, owner: string, until: nat)
    requires Unthreatened(w, s, name, owner, until)
    ensures Unthreatened(w, Do(w, s, step), name, owner, until)
    ensures Renews(w, s, step, name) && Owned(s, name, owner)
            ==> Owned(Do(w, s, step), name, owner) && until <= Do(w, s, step).grants[name].expires
  {
  }

  /** A lease just taken is good until it says: whatever anybody does, the row is A's while the clock is
      within the expiry given at the start, provided A does not release it and had no older renewal in
      flight. */
  lemma {:induction false} GoodUntilExpiry(w: World, s: State, steps: seq<Step>, name: string, owner: string,
                                           until: nat)
    requires Valid(w, s) && Owned(s, name, owner) && until <= s.grants[name].expires
             && Unthreatened(w, s, name, owner, until)
    requires Unreleased(w, steps, name, owner) && After(w, s, steps).clock <= until
    ensures Owned(After(w, s, steps), name, owner) && until <= After(w, s, steps).grants[name].expires
    ensures Unthreatened(w, After(w, s, steps), name, owner, until)
    ensures NobodyAcquires(w, s, steps, name)
  {
    if steps != [] {
      hide Do, Valid, Unthreatened, Acquires, Releases, Renews, After, NobodyAcquires;
      var before, last := steps[..|steps| - 1], steps[|steps| - 1];
      AfterLast(w, s, steps);
      StaysValid(w, s, before);
      var mid := After(w, s, before);
      StepKeepsValid(w, mid, last);
      GoodUntilExpiry(w, s, before, name, owner, until);
      CurrentStays(w, mid, last, name, owner);
      RowGoesExactly(w, mid, last, name);
      UnthreatenedStays(w, mid, last, name, owner, until);
      NobodyAcquiresSnoc(w, s, steps, name);
    }
    AfterLast(w, s, steps);
  }

  /** Recovery: an Acquire with no other step between its DELETE and its INSERT succeeds exactly when the
      name is free or its clock reading is past the expiry, crashed owner or not. */
  lemma AcquireSucceedsExactly(w: World, s: State, pid: nat, name: string, now: nat)
    requires At(s, pid) == Reading(name, now)
    ensures var mid := Do(w, s, DeleteExpired(pid));
            (Acquires(mid, InsertRow(pid), name) <==> name !in s.grants || s.grants[name].expires < now)
            && (Acquires(mid, InsertRow(pid), name) ==>
                  name in Do(w, mid, InsertRow(pid)).grants
                    && Do(w, mid, InsertRow(pid)).grants[name] == Given(w, pid, now))
  {
  }

  // ---- on text ----

  /** The statement of a step, as the database runs it on text. */
  function OnText(w: World, s: State, step: Step, t: LeaseTable): LeaseTable {
    match step
    case DeleteExpired(pid) => if At(s, pid).Reading? then Evict(t, LeaseText(At(s, pid).now)) else t
    case InsertRow(pid) =>
      if At(s, pid).Evicted? then InsertOrIgnore(t, At(s, pid).name, Stored(Given(w, pid, At(s, pid).now))) else t
    case UpdateRow(pid) =>
      if At(s, pid).Renewing? then
        Extend(t, At(s, pid).name, w.owner(pid), LeaseText(At(s, pid).now + w.ttl(w.owner(pid))))
      else t
    case ReleaseRow(pid, name) => DeleteOwned(t, name, w.owner(pid))
    case _ => t
  }

  /** As long as the clock and a TTL stay within the year 9999, the text table goes through the very steps
      of the instants. */
  lemma TextRunsAlong(w: World, s: State, step: Step)
    requires Valid(w, s) && FourDigitYear(s.clock)
    requires forall n :: n in s.grants ==> FourDigitYear(s.clock + w.ttl(s.grants[n].owner))
    ensures OnText(w, s, step, StoredAll(s.grants)) == StoredAll(Do(w, s, step).grants)
  {
    hide FourDigitYear, LeaseText, StoredAll, Evict, InsertOrIgnore, Extend, DeleteOwned, EvictAt, GrantTo, Prolong,
         Revoke;
    match step {
      case DeleteExpired(pid) =>
        if At(s, pid).Reading? {
          forall n | n in s.grants
            ensures FourDigitYear(s.grants[n].expires)
          {
            EarlierInRange(s.grants[n].expires, s.clock + w.ttl(s.grants[n].owner));
          }
          EarlierInRange(At(s, pid).now, s.clock);
          EvictsExactlyExpired(s.grants, At(s, pid).now);
        }
      case InsertRow(pid) =>
        if At(s, pid).Evicted? {
          OtherStatementsAgree(s.grants, At(s, pid).name, Given(w, pid, At(s, pid).now), "", 0);
        }
      case UpdateRow(pid) =>
        if At(s, pid).Renewing? {
          OtherStatementsAgree(s.grants, At(s, pid).name, Grant("", 0, 0), w.owner(pid),
                               At(s, pid).now + w.ttl(w.owner(pid)));
        }
      case ReleaseRow(pid, name) => OtherStatementsAgree(s.grants, name, Grant("", 0, 0), w.owner(pid), 0);
      case _ =>
    }
  }

  /** The clock and a TTL past it lie within the year 9999. */
  ghost predicate InRange(w: World, s: State) {
    FourDigitYear(s.clock) && forall n :: n in s.grants ==> FourDigitYear(s.clock + w.ttl(s.grants[n].owner))
  }

  /** The text table after the steps. */
  function TextAfter(w: World, s: State, steps: seq<Step>, t: LeaseTable): LeaseTable {
    if steps == [] then t
    else
      var front := steps[..|steps| - 1];
      OnText(w, After(w, s, front), steps[|steps| - 1], TextAfter(w, s, front, t))
  }

  ghost predicate AllInRange(w: World, s: State, steps: seq<Step>) {
    forall i :: 0 <= i < |steps| ==> InRange(w, After(w, s, steps[..i]))
  }

  lemma AllInRangeFront(w: World, s: State, steps: seq<Step>)
    requires steps != [] && AllInRange(w, s, steps)
    ensures AllInRange(w, s, steps[..|steps| - 1]) && InRange(w, After(w, s, steps[..|steps| - 1]))
  {
    hide After, InRange;
    var front := steps[..|steps| - 1];
    forall i | 0 <= i < |front|
      ensures InRange(w, After(w, s, front[..i]))
    {
      assert front[..i] == steps[..i];
    }
  }

  lemma {:induction false} TextStaysAlong(w: World, s: State, steps: seq<Step>)
    requires Valid(w, s) && AllInRange(w, s, steps)
    ensures TextAfter(w, s, steps, StoredAll(s.grants)) == StoredAll(After(w, s, steps).grants)
  {
    hide Do, Valid, OnText, StoredAll, InRange, AllInRange, After;
    AfterLast(w, s, steps);
    if steps != [] {
      var front := steps[..|steps| - 1];
      AllInRangeFront(w, s, steps);
      TextStaysAlong(w, s, front);
      StaysValid(w, s, front);
      TextStep(w, After(w, s, front), steps[|steps| - 1]);
    }
  }

  lemma TextStep(w: World, s: State, step: Step)
    requires Valid(w, s) && InRange(w, s)
    ensures OnText(w, s, step, StoredAll(s.grants)) == StoredAll(Do(w, s, step).grants)
  {
    hide Valid, FourDigitYear, OnText, StoredAll, Do;
    TextRunsAlong(w, s, step);
  }

  /** Exclusion in the database's own terms: the text row stays the holder's. */
  lemma TextRowStays(w: World, s: State, steps: seq<Step>, name: string, owner: string)
    requires Valid(w, s) && Owned(s, name, owner) && Unreleased(w, steps, name, owner) && InTime(w, s, steps, name)
    requires AllInRange(w, s, steps)
    ensures var t := TextAfter(w, s, steps, StoredAll(s.grants)); name in t && t[name].owner == owner
  {
    hide After, Valid, AllInRange, InTime, Deadline, TextAfter, Unreleased, NobodyAcquires, LeaseText;
    RenewedInTime(w, s, steps, name, owner);
    TextStaysAlong(w, s, steps);
  }

  // ---- what the lease does not promise ----

  /** An Acquire nobody interferes with. */
  function Taken(w: World, s: State, pid: nat, name: string): State {
    Do(w, Do(w, Do(w, s, ReadClock(pid, name)), DeleteExpired(pid)), InsertRow(pid))
  }

  /** The token is not checked: a late release by one run of an instance drops the row a newer run of the
      same instance holds. */
  lemma StaleReleaseDropsNewer(w: World, name: string, older: nat, newer: nat, later: nat)
    requires older != newer && w.owner(older) == w.owner(newer) && later > w.ttl(w.owner(older))
    ensures var s := Taken(w, Do(w, Taken(w, State(map[], 0, map[]), older, name), Tick(later)), newer, name);
            name in s.grants && s.grants[name] == Given(w, newer, later) && Current(s, name)
            && name !in Do(w, s, ReleaseRow(older, name)).grants
  {
  }

  /** A slow Acquire takes a lease that is already over: its expiry counts from the clock reading. */
  lemma SlowAcquireIsBornExpired(w: World, s: State, pid: nat, name: string, now: nat)
    requires At(s, pid) == Evicted(name, now) && name !in s.grants
    ensures Acquires(s, InsertRow(pid), name)
            && (Current(Do(w, s, InsertRow(pid)), name) <==> s.clock <= now + w.ttl(w.owner(pid)))
  {
  }

  /** A renewal does not look at the expiry: it revives an expired row nobody has evicted. */
  lemma RenewRevives(w: World, s: State, pid: nat, name: string)
    requires At(s, pid).Idle? && Owned(s, name, w.owner(pid)) && !Current(s, name)
    ensures Current(Do(w, Do(w, s, BeginRenew(pid, name)), UpdateRow(pid)), name)
  {
  }

  /** A renewal with an old clock reading can shorten the lease; it does exactly when the reading plus the
      TTL is below the row's expiry. */
  lemma StaleRenewShortens(w: World, s: State, pid: nat, name: string, now: nat)
    requires At(s, pid) == Renewing(name, now) && Owned(s, name, w.owner(pid))
    ensures var s' := Do(w, s, UpdateRow(pid));
            name in s'.grants && (s'.grants[name].expires < s.grants[name].expires
                                  <==> now + w.ttl(w.owner(pid)) < s.grants[name].expires)
  {
  }
}
