/** Task definitions: what validation refuses, what it fills in, and what the engine may then rely on. */
module Config {
  import opened Wrappers
  import opened Tables
  import opened Names

  const PAGE_SIZE := 5000
  const BATCH_SIZE := 500
  /** Thirty minutes, in nanoseconds. */
  const TIMEOUT := 1_800_000_000_000

  datatype Mode = Unset | Upsert | Insert | OtherMode(text: string)

  datatype Endpoint = Endpoint(kind: string, dsn: string, dsnEnv: string, query: string)

  datatype Goal = Goal(endpoint: Endpoint, table: string, mode: Mode, keys: seq<Column>, batchSize: int, bulk: bool)

  datatype Incremental = Incremental(column: Column, initial: string)

  /** One replication task; the last two fields are derived by validation. */
  datatype Task = Task(
    name: string, schedule: string, timeout: string, enabled: Option<bool>, pageSize: int,
    source: Endpoint, target: Goal, incremental: Option<Incremental>,
    timeoutDur: int, isEnabled: bool)

  /** The environment, the cron parser and the duration parser. */
  datatype Host = Host(env: string -> string, cron: string -> bool, duration: string -> Option<int>)

  predicate Supported(kind: string) { kind in {"postgres", "mysql", "sqlite", "sqlserver"} }

  /** resolveDSN: a named environment variable wins over a literal DSN. */
  function ResolveDsn(h: Host, ep: Endpoint): Option<string> {
    if ep.dsnEnv != "" then (if h.env(ep.dsnEnv) == "" then None else Some(h.env(ep.dsnEnv)))
    else if ep.dsn != "" then Some(ep.dsn)
    else None
  }

  ghost predicate KnownKind(kind: string) {
    kind == "postgres" || kind == "mysql" || kind == "sqlite" || kind == "sqlserver"
  }

  /** The DSN an endpoint names: what the environment has under its variable, if it names one; empty is none. */
  ghost function DsnOf(h: Host, ep: Endpoint): string { if ep.dsnEnv == "" then ep.dsn else h.env(ep.dsnEnv) }

  ghost predicate SourcePasses(h: Host, t: Task) {
    t.name != "" && KnownKind(t.source.kind) && t.source.query != "" && DsnOf(h, t.source) != ""
  }

  ghost predicate GoalPasses(h: Host, g: Goal) {
    && KnownKind(g.endpoint.kind) && g.table != "" && DsnOf(h, g.endpoint) != ""
    && !g.mode.OtherMode? && (g.mode != Insert ==> g.keys != [])
  }

  ghost predicate TimesPass(h: Host, t: Task) {
    && (t.schedule != "" ==> h.cron(t.schedule))
    && (t.timeout != "" ==> h.duration(t.timeout).Some? && h.duration(t.timeout).value > 0)
  }

  ghost predicate IncrementalPasses(t: Task) {
    t.incremental.Some? ==> IsIdentifier(t.incremental.value.column) && t.incremental.value.initial != ""
  }

  /** The definitions that pass. */
  ghost predicate Acceptable(h: Host, t: Task) {
    SourcePasses(h, t) && GoalPasses(h, t.target) && TimesPass(h, t) && IncrementalPasses(t)
  }

  function Positive(n: int, default_: nat): int { if n <= 0 then default_ else n }

  ghost function NormalGoal(h: Host, g: Goal): Goal
    requires GoalPasses(h, g)
  {
    g.(endpoint := g.endpoint.(dsn := DsnOf(h, g.endpoint)),
       mode := if g.mode == Unset then Upsert else g.mode)
  }

  /** What a definition that passes turns into. */
  ghost function Normal(h: Host, t: Task): Task
    requires Acceptable(h, t)
  {
    t.(source := t.source.(dsn := DsnOf(h, t.source)),
       target := NormalGoal(h, t.target).(batchSize := Positive(t.target.batchSize, BATCH_SIZE)),
       timeoutDur := if t.timeout == "" then TIMEOUT else h.duration(t.timeout).value,
       isEnabled := t.enabled != Some(false),
       pageSize := Positive(t.pageSize, PAGE_SIZE))
  }

  /** The defaults: a page of 5000 rows, a batch of 500, thirty minutes, upsert, enabled. */
  lemma NormalDefaults(h: Host, t: Task)
    requires Acceptable(h, t)
    ensures var n := Normal(h, t);
            && n.isEnabled == (t.enabled.None? || t.enabled.value)
            && n.pageSize == (if t.pageSize > 0 then t.pageSize else 5000)
            && n.target.batchSize == (if t.target.batchSize > 0 then t.target.batchSize else 500)
            && (t.timeout == "" ==> n.timeoutDur == 30 * 60 * 1_000_000_000)
            && (n.target.mode == Upsert || n.target.mode == t.target.mode == Insert)
  {
  }

  /** What the engine needs of a task: chunk and page loops that make progress, keys to upsert by, an
      incremental column and its first literal, a timeout. */
  ghost predicate Runnable(t: Task) {
    && t.name != "" && t.pageSize >= 1 && t.target.batchSize >= 1 && t.timeoutDur > 0
    && (t.target.mode == Upsert || t.target.mode == Insert)
    && (t.target.mode == Upsert ==> t.target.keys != [])
    && IncrementalPasses(t)
  }

  /** Normal definitions are runnable, pass again, and are not changed by passing again. */
  lemma NormalIsStable(h: Host, t: Task)
    requires Acceptable(h, t)
    ensures Runnable(Normal(h, t))
    ensures Acceptable(h, Normal(h, t)) && Normal(h, Normal(h, t)) == Normal(h, t)
  {
  }

  /** Only slot `i` of the task list has changed. */
  twostate predicate OnlyAt(tasks: array<Task>, i: nat)
    reads tasks
  {
    forall j :: 0 <= j < tasks.Length && j != i ==> tasks[j] == old(tasks[j])
  }

  /** validateTask on one slot of the task list, mutating it in place; a refused definition may be left
      half filled in. */
  method ValidateTask(h: Host, tasks: array<Task>, i: nat) returns (ok: bool)
    requires i < tasks.Length
    modifies tasks
    ensures ok <==> Acceptable(h, old(tasks[i]))
    ensures ok ==> tasks[i] == Normal(h, old(tasks[i]))
    ensures tasks[i].name == old(tasks[i]).name
    ensures OnlyAt(tasks, i)
  {
    hide GoalPasses, IsIdentifier;
    ok := false;
    if tasks[i].name == "" { return; }
    if !Supported(tasks[i].source.kind) { return; }
    if tasks[i].source.query == "" { return; }
    var dsn := ResolveDsn(h, tasks[i].source);
    if dsn.None? { return; }
    tasks[i] := tasks[i].(source := tasks[i].source.(dsn := dsn.value));

    var goalOk := ValidateGoal(h, tasks, i);
    if !goalOk { return; }
    var timesOk := ValidateTimes(h, tasks, i);
    if !timesOk { return; }
    var incrementalOk := ValidateIncremental(tasks[i]);
    if !incrementalOk { return; }

    tasks[i] := tasks[i].(isEnabled := tasks[i].enabled.None? || tasks[i].enabled.value);
    if tasks[i].pageSize <= 0 {
      tasks[i] := tasks[i].(pageSize := PAGE_SIZE);
    }
    if tasks[i].target.batchSize <= 0 {
      tasks[i] := tasks[i].(target := tasks[i].target.(batchSize := BATCH_SIZE));
    }
    ok := true;
  }

  /** The target's part of validateTask. */
  method ValidateGoal(h: Host, tasks: array<Task>, i: nat) returns (ok: bool)
    requires i < tasks.Length
    modifies tasks
    ensures ok <==> GoalPasses(h, old(tasks[i]).target)
    ensures ok ==> tasks[i] == old(tasks[i]).(target := NormalGoal(h, old(tasks[i]).target))
    ensures tasks[i].name == old(tasks[i]).name
    ensures OnlyAt(tasks, i)
  {
    ok := false;
    if !Supported(tasks[i].target.endpoint.kind) { return; }
    if tasks[i].target.table == "" { return; }
    if tasks[i].target.mode == Unset {
      tasks[i] := tasks[i].(target := tasks[i].target.(mode := Upsert));
    }
    if tasks[i].target.mode != Upsert && tasks[i].target.mode != Insert { return; }
    if tasks[i].target.mode == Upsert && |tasks[i].target.keys| == 0 { return; }
    var dsn := ResolveDsn(h, tasks[i].target.endpoint);
    if dsn.None? { return; }
    tasks[i] := tasks[i].(target := tasks[i].target.(endpoint := tasks[i].target.endpoint.(dsn := dsn.value)));
    ok := true;
  }

  /** The schedule and timeout parts of validateTask. */
  method ValidateTimes(h: Host, tasks: array<Task>, i: nat) returns (ok: bool)
    requires i < tasks.Length
    modifies tasks
    ensures ok <==> TimesPass(h, old(tasks[i]))
    ensures ok ==> tasks[i] == old(tasks[i]).(timeoutDur := if old(tasks[i]).timeout == "" then TIMEOUT
                                                            else h.duration(old(tasks[i]).timeout).value)
    ensures tasks[i].name == old(tasks[i]).name
    ensures OnlyAt(tasks, i)
  {
    ok := false;
    if tasks[i].schedule != "" {
      if !h.cron(tasks[i].schedule) { return; }
    }
    if tasks[i].timeout == "" {
      tasks[i] := tasks[i].(timeoutDur := TIMEOUT);
    } else {
      var d := h.duration(tasks[i].timeout);
      if d.None? { return; }
      if d.value <= 0 { return; }
      tasks[i] := tasks[i].(timeoutDur := d.value);
    }
    ok := true;
  }

  /** The incremental part of validateTask. */
  method ValidateIncremental(t: Task) returns (ok: bool)
    ensures ok <==> IncrementalPasses(t)
  {
    if t.incremental.None? { return true; }
    if t.incremental.value.column == "" { return false; }
    var named := ValidateColumns([t.incremental.value.column]);
    assert t.incremental.value.column in [t.incremental.value.column];
    ok := named && t.incremental.value.initial != "";
  }

  ghost predicate DistinctNames(tasks: seq<Task>) {
    forall i, j :: 0 <= i < j < |tasks| ==> tasks[i].name != tasks[j].name
  }

  /** A task file passes exactly when it defines a task, every definition passes and no name repeats;
      every task is then normal, hence runnable.  Otherwise the tasks before the first offender are
      normal and those after it untouched. */
  method Validate(h: Host, tasks: array<Task>) returns (ok: bool)
    modifies tasks
    ensures ok <==> (tasks.Length > 0 && (forall t :: t in old(tasks[..]) ==> Acceptable(h, t))
                     && DistinctNames(old(tasks[..])))
    ensures ok ==> forall i :: 0 <= i < tasks.Length ==> tasks[i] == Normal(h, old(tasks[..])[i]) && Runnable(tasks[i])
    ensures ok ==> DistinctNames(tasks[..])
    ensures !ok ==> tasks.Length == 0
                    || exists k :: 0 <= k < tasks.Length && Settled(h, old(tasks[..]), tasks[..], k)
  {
    hide Acceptable, Normal, Runnable;
    if tasks.Length == 0 { return false; }
    ghost var before := tasks[..];
    var seen: set<string> := {};
    var i := 0;
    while i < tasks.Length
      invariant 0 <= i <= tasks.Length
      invariant forall j :: 0 <= j < i ==> Acceptable(h, before[j]) && tasks[j] == Normal(h, before[j])
      invariant forall j :: 0 <= j < tasks.Length ==> tasks[j].name == before[j].name
      invariant forall j :: i <= j < tasks.Length ==> tasks[j] == before[j]
      invariant seen == set j | 0 <= j < i :: before[j].name
      invariant forall j, k :: 0 <= j < k < i ==> before[j].name != before[k].name
    {
      var valid := ValidateTask(h, tasks, i);
      if !valid {
        assert before[i] in before;
        assert Settled(h, before, tasks[..], i);
        return false;
      }
      if tasks[i].name in seen {
        ghost var j :| 0 <= j < i && before[j].name == tasks[i].name;
        assert Settled(h, before, tasks[..], i);
        return false;
      }
      seen := seen + {tasks[i].name};
      i := i + 1;
    }
    forall t | t in before
      ensures Acceptable(h, t)
    {
      var j :| 0 <= j < |before| && before[j] == t;
    }
    forall j | 0 <= j < tasks.Length
      ensures Runnable(tasks[j])
    {
      NormalIsStable(h, before[j]);
    }
    ok := true;
  }

  /** Everything before `k` is normal, everything after it as it was. */
  ghost predicate Settled(h: Host, before: seq<Task>, after: seq<Task>, k: nat) {
    |before| == |after| && k < |before|
    && (forall j :: 0 <= j < k ==> Acceptable(h, before[j]) && after[j] == Normal(h, before[j]))
    && (forall j :: k < j < |before| ==> after[j] == before[j])
  }
}
