/** The target side: a database behind a connection pool, whose statements may fail at any time. */
module Connector {
  import opened Wrappers
  import opened Tables
  import opened SqlText
  import opened Dialects
  import opened Statements
  import opened Execution
  import opened Builders
  import opened Names
  import opened Ladder
  import opened Staging
  import R = Runlog

  /** What is known of a bulk load afterwards. */
  datatype BulkOutcome = Loaded(n: nat) | Unsupported | Failed

  type Bound = Option<(Statement, seq<Row>)>

  /** A statement that says what an upsert of `rows` over `cols` should say. */
  ghost predicate Says(b: Bound, keys: seq<Column>, cols: seq<Column>, rows: seq<Row>) {
    if NonKeys(keys, cols) == [] then b.None?
    else
      b.Some? && b.value.1 == ProjectedAll(cols, rows) && b.value.0.on == FromNew(keys)
      && b.value.0.sets == FromNew(NonKeys(keys, cols)) && b.value.0.inserts == FromNew(cols)
  }

  /** A statement that says what a plain insert of `rows` over `cols` should say. */
  ghost predicate SaysInsert(b: Bound, cols: seq<Column>, rows: seq<Row>) {
    b.Some? && b.value.1 == ProjectedAll(cols, rows) && b.value.0.on == [] && b.value.0.sets == []
    && b.value.0.inserts == FromNew(cols)
  }

  /** COPY puts each staged tuple in under the column names. */
  function Copied(parts: seq<string>, cols: seq<Column>, staged: seq<seq<Value>>): Bound
    requires forall i :: 0 <= i < |staged| ==> |staged[i]| == |cols|
  {
    Some((Statement(parts, cols, Stage(""), [], [], FromNew(cols)), StagedRows(cols, staged)))
  }

  predicate Within(at: seq<nat>, n: nat) { forall j :: 0 <= j < |at| ==> at[j] < n }

  function Picks<T>(xs: seq<T>, at: seq<nat>): (r: seq<T>)
    requires Within(at, |xs|)
    ensures |r| == |at|
  {
    seq(|at|, j requires 0 <= j < |at| && Within(at, |xs|) => xs[at[j]])
  }

  lemma PicksChanges(s: Schema, rows: seq<Row>, at: seq<nat>)
    requires Within(at, |rows|)
    ensures Picks(Changes(s, rows), at) == Changes(s, Picks(rows, at))
  {
  }

  lemma PicksProjected(cols: seq<Column>, rows: seq<Row>, at: seq<nat>)
    requires Within(at, |rows|)
    ensures Picks(ProjectedAll(cols, rows), at) == ProjectedAll(cols, Picks(rows, at))
  {
  }

  /** Positions of source rows the constraints accept. */
  predicate Acceptable(site: Site, xs: seq<Row>, at: seq<nat>) {
    Within(at, |xs|) && forall j :: 0 <= j < |at| ==> site.accepts(xs[at[j]])
  }

  ghost predicate NamesValid(path: string, keys: seq<Column>, cols: seq<Column>) {
    SplitTablePath(path).Some? && ValidNames(keys) && ValidNames(cols)
  }

  function SinkOf(path: string, keys: seq<Column>, cols: seq<Column>, site: Site): Sink {
    Sink(path, SchemaOf(keys, cols, site.defaults), site.accepts)
  }

  lemma AdmitsExactly(path: string, keys: seq<Column>, cols: seq<Column>, site: Site, r: Row)
    ensures SinkOf(path, keys, cols, site).Admits(r)
            <==> NamesValid(path, keys, cols) && NonKeys(keys, cols) != [] && site.accepts(Projected(cols, r))
  {
    var sink := SinkOf(path, keys, cols, site);
    assert Synced(sink.schema, r) == Projected(cols, r);
    if NonKeys(keys, cols) != [] {
      assert NonKeys(keys, cols)[0] in NonKeys(keys, cols);
    }
  }

  /** Part of the statement's effect, and only rows the constraints accept. */
  lemma PartOfStatement(path: string, keys: seq<Column>, cols: seq<Column>, site: Site, b: Bound, rows: seq<Row>,
                        t: Table, at: seq<nat>)
    requires b.Some? && Says(b, keys, cols, rows) && NamesValid(path, keys, cols)
             && (forall k :: k in keys ==> k in cols)
    requires Acceptable(site, b.value.1, at)
    ensures Partly(SinkOf(path, keys, cols, site), t,
                   InSequence(site.defaults, t, Picks(Effects(b.value.0, b.value.1), at)), rows)
  {
    hide InSequence, UpsertAll, Effects, Changes, FromNew, NonKeys, NamesValid;
    var sink := SinkOf(path, keys, cols, site);
    var done := Picks(rows, at);
    EffectsAreChanges(b.value.0, keys, cols, site.defaults, rows);
    PicksChanges(sink.schema, rows, at);
    SequenceIsFold(sink.schema, t, done);
    forall r | r in done
      ensures r in rows && sink.Admits(r)
    {
      var j :| 0 <= j < |done| && done[j] == r;
      AdmitsExactly(path, keys, cols, site, r);
    }
    assert Among(sink, done, rows);
  }

  lemma WholeStatement(d: Dialect, path: string, keys: seq<Column>, cols: seq<Column>, site: Site, b: Bound,
                       rows: seq<Row>, t: Table)
    requires b.Some? && Says(b, keys, cols, rows) && NamesValid(path, keys, cols)
    requires Sound(SinkOf(path, keys, cols, site), t)
    ensures RunStatement(d, keys, site.defaults, b.value.0, b.value.1, t)
            == Upserted(d, keys, cols, site.defaults, rows, t)
    ensures AcceptsAll(site, b.value.1) <==> AllAdmitted(SinkOf(path, keys, cols, site), rows)
  {
    hide RunStatement, Upserted, UpsertAll, FromNew, NonKeys, NamesValid, WellKeyed, Sink.Admits;
    var sink := SinkOf(path, keys, cols, site);
    forall k | k in keys
      ensures k in cols
    {
      assert k in sink.schema.cols;
    }
    StatementUpserts(d, b.value.0, keys, cols, site.defaults, rows, t);
    var xs := b.value.1;
    forall i | 0 <= i < |rows|
      ensures sink.Admits(rows[i]) <==> site.accepts(xs[i])
    {
      AdmitsExactly(path, keys, cols, site, rows[i]);
    }
    assert AcceptsAll(site, xs) <==> forall i :: 0 <= i < |xs| ==> site.accepts(xs[i]);
  }

  /** Nothing was done but statements sent to the target. */
  ghost predicate OnlySent(before: seq<R.Deed>, after: seq<R.Deed>) {
    before <= after && forall i :: |before| <= i < |after| ==> after[i] == R.Sent
  }

  /** One more statement. */
  ghost method Send(history: R.History)
    modifies history
    ensures history.deeds == old(history.deeds) + [R.Sent]
    ensures forall a :: OnlySent(a, old(history.deeds)) ==> OnlySent(a, history.deeds)
  {
    history.Add(R.Sent);
  }

  lemma SentNothing(a: seq<R.Deed>)
    ensures OnlySent(a, a)
  {
  }

  lemma SentConcat(a: seq<R.Deed>, b: seq<R.Deed>, c: seq<R.Deed>)
    requires OnlySent(a, b) && OnlySent(b, c)
    ensures OnlySent(a, c)
  {
  }

  /** `index` is the target's only unique index and `accepts` its other constraints; `table`, and the
      staging tables PostgreSQL sessions hold in `stages`, live in the database.  A steady database
      fails a single-row statement only over the row itself; every other statement may fail at any
      time, having taken effect in part. */
  class Target {
    const dialect: Dialect
    const index: seq<Column>
    const defaults: Row
    const accepts: Row -> bool
    const steady: bool
    var table: Table
    var stages: map<nat, seq<seq<Value>>>
    ghost const history: R.History

    constructor (dialect: Dialect, index: seq<Column>, defaults: Row, accepts: Row -> bool, steady: bool, table: Table,
                 ghost history: R.History)
      ensures this.dialect == dialect && this.index == index && this.defaults == defaults
      ensures this.accepts == accepts && this.steady == steady && this.table == table && stages == map[]
              && this.history == history
    {
      this.history := history;
      this.dialect, this.index, this.defaults := dialect, index, defaults;
      this.accepts, this.steady, this.table, this.stages := accepts, steady, table, map[];
    }

    function SiteAt(parts: seq<string>): Site { Site(parts, index, defaults, accepts) }

    function SinkFor(path: string, cols: seq<Column>): Sink { SinkOf(path, index, cols, SiteAt([])) }

    /** A failed statement took effect for the source rows at these positions. */
    predicate LeftBy(b: Bound, t: Table, t': Table, at: seq<nat>) {
      b.Some? && Acceptable(SiteAt([]), b.value.1, at)
      && t' == InSequence(defaults, t, Picks(Effects(b.value.0, b.value.1), at))
    }

    /** The server runs one upsert statement. */
    method Perform(b: Bound) returns (ok: bool)
      modifies this`table, history
      ensures history.deeds == old(history.deeds) + [R.Sent]
      ensures ok ==> b.Some? && AcceptsAll(SiteAt([]), b.value.1)
                     && RunStatement(dialect, index, defaults, b.value.0, b.value.1, old(table)) == Some(table)
      ensures !ok ==> table == old(table)
                      || (b.Some? && !(steady && |b.value.1| == 1)
                           && exists at: seq<nat> :: LeftBy(b, old(table), table, at))
      ensures (steady && b.Some? && |b.value.1| == 1 && AcceptsAll(SiteAt([]), b.value.1)
               && RunStatement(dialect, index, defaults, b.value.0, b.value.1, old(table)).Some?) ==> ok
    {
      Send(history);
      if b.None? { return false; }
      var (st, xs) := b.value;
      var result := if AcceptsAll(SiteAt([]), xs) then RunStatement(dialect, index, defaults, st, xs, table) else None;
      var single := steady && |xs| == 1;
      var fault: bool := *;
      if result.Some? && (single || !fault) {
        table := result.value;
        return true;
      }
      ok := false;
      if !single {
        var at: seq<nat> := [];
        at := *;
        if Acceptable(SiteAt([]), xs, at) {
          table := InSequence(defaults, table, Picks(Effects(st, xs), at));
          assert LeftBy(b, old(table), table, at);
        }
      }
    }

    /** Perform, for a statement that says what the chunk's upsert should say. */
    method Apply(b: Bound, path: string, cols: seq<Column>, ghost rows: seq<Row>) returns (ok: bool)
      requires Says(b, index, cols, rows) && NamesValid(path, index, cols) && Sound(SinkFor(path, cols), table)
      modifies this`table, history
      ensures history.deeds == old(history.deeds) + [R.Sent]
      ensures Sound(SinkFor(path, cols), table)
      ensures ok ==> AllAdmitted(SinkFor(path, cols), rows)
                     && table == UpsertAll(SinkFor(path, cols).schema, old(table), rows)
      ensures !ok ==> Partly(SinkFor(path, cols), old(table), table, rows)
      ensures steady && |rows| == 1 ==> (ok <==> SinkFor(path, cols).Admits(rows[0])) && (!ok ==> table == old(table))
    {
      hide UpsertAll, InSequence, RunStatement, WellKeyed, Effects, NonKeys, NamesValid;
      ghost var sink := SinkFor(path, cols);
      ghost var before := table;
      ok := Perform(b);
      NothingDone(sink, before, rows);
      forall k | k in index
        ensures k in cols
      {
        assert k in sink.schema.cols;
      }
      if b.Some? {
        WholeStatement(dialect, path, index, cols, SiteAt([]), b, rows, before);
        if !ok && table != before {
          var at: seq<nat> :| LeftBy(b, before, table, at);
          PartOfStatement(path, index, cols, SiteAt([]), b, rows, before, at);
        }
      }
      if ok { WroteAll(sink, before, rows, steady); }
      PartlySound(sink, before, table, rows);
      if |rows| == 1 {
        SingleRow(path, cols, b, rows, before);
      }
    }

    /** UpsertRows: one multi-row statement for the chunk. */
    method UpsertRows(path: string, keys: seq<Column>, cols: seq<Column>, rows: seq<Row>) returns (n: nat, ok: bool)
      requires keys == index && keys != [] && Sound(SinkFor(path, cols), table)
      modifies this`table, history
      ensures OnlySent(old(history.deeds), history.deeds)
      ensures Sound(SinkFor(path, cols), table)
      ensures n == if ok then |rows| else 0
      ensures ok ==> AllAdmitted(SinkFor(path, cols), rows)
                     && table == UpsertAll(SinkFor(path, cols).schema, old(table), rows)
      ensures !ok ==> Partly(SinkFor(path, cols), old(table), table, rows)
      ensures steady && |rows| == 1 ==> (ok <==> SinkFor(path, cols).Admits(rows[0])) && (!ok ==> table == old(table))
    {
      hide WellKeyed, IsIdentifier, Sink.Admits, UpsertAll, UpsertText, FlatArgs, ReadBound, FromNew, SplitOn;
      NoRows(SinkFor(path, cols), table);
      NothingDone(SinkFor(path, cols), table, rows);
      if rows == [] { return 0, true; }
      n, ok := 0, false;
      AdmitsExactly(path, index, cols, SiteAt([]), rows[0]);
      var parts := SplitTablePath(path);
      if parts.None? { return; }
      var colsOk := ValidateColumns(cols);
      if !colsOk { return; }
      var keysOk := ValidateColumns(keys);
      if !keysOk { return; }
      var text := BuildUpsert(dialect, parts.value, keys, cols, |rows|);
      var args := FlattenArgs(cols, rows);
      assert keys[0] in cols by { assert keys[0] in SinkFor(path, cols).schema.cols; }
      UpsertTextBinds(dialect, parts.value, keys, cols, rows);
      ok := Apply(ReadBound(dialect, index, text, args), path, cols, rows);
      n := if ok then |rows| else 0;
    }

    /** InsertRows: a plain multi-row insert, which a key conflict fails.  On a steady target a single row goes
        in exactly if the names are allowed, its key is free and the constraints take it. */
    method InsertRows(path: string, cols: seq<Column>, rows: seq<Row>) returns (n: nat, ok: bool)
      modifies this`table, history
      ensures OnlySent(old(history.deeds), history.deeds)
      ensures n == if ok then |rows| else 0
      ensures ok ==> InsertAll(SinkFor(path, cols).schema, old(table), rows) == Some(table)
      ensures Extends(old(table), table)
      ensures OnlyAdded(SinkFor(path, cols).schema, old(table), table, rows)
      ensures steady && |rows| == 1 && cols != []
              ==> (ok <==> SplitTablePath(path).Some? && ValidNames(cols)
                           && Insertable(SinkFor(path, cols).schema, old(table), rows[0]))
                  && (!ok ==> table == old(table))
    {
      hide OnlyAdded, Insertable, InsertAll, InsertText, ReadBoundInsert, FlatArgs, Matrix;
      NothingAdded(SinkFor(path, cols).schema, table, rows);
      NoInsert(SinkFor(path, cols).schema, table);
      if rows == [] { return 0, true; }
      var parts := SplitTablePath(path);
      if parts.None? { return 0, false; }
      var colsOk := ValidateColumns(cols);
      if !colsOk { return 0, false; }
      if cols == [] {
        Send(history);
        return 0, false;
      }
      var text := BuildInsert(dialect, parts.value, cols, |rows|);
      var args := FlattenArgs(cols, rows);
      InsertTextBinds(dialect, parts.value, cols, rows);
      ok := ApplyInsert(ReadBoundInsert(dialect, text, args), path, cols, rows);
      n := if ok then |rows| else 0;
    }

    /** No row has the key, and the constraints take the row. */
    ghost predicate Insertable(s: Schema, t: Table, r: Row) { InsertKey(s, r) !in t && accepts(Synced(s, r)) }

    lemma OneInsertable(s: Schema, t: Table, r: Row)
      ensures Insertable(s, t, r) <==> InsertAll(s, t, [r]).Some? && accepts(Synced(s, r))
    {
      assert [r][..0] == [];
      assert InsertAll(s, t, [r][..0]) == Some(t);
    }

    /** A failed insert took effect for the source rows at these positions. */
    predicate InsertedBy(b: Bound, t: Table, t': Table, at: seq<nat>) {
      b.Some? && Within(at, |b.value.1|)
      && RunInsert(index, defaults, b.value.0, Picks(b.value.1, at), t) == Some(t')
    }

    /** The server runs one insert statement, or a COPY. */
    method PerformInsert(b: Bound) returns (ok: bool)
      modifies this`table, history
      ensures history.deeds == old(history.deeds) + [R.Sent]
      ensures ok ==> b.Some? && AcceptsAll(SiteAt([]), b.value.1)
                     && RunInsert(index, defaults, b.value.0, b.value.1, old(table)) == Some(table)
      ensures !ok ==> table == old(table)
                      || (b.Some? && !(steady && |b.value.1| == 1)
                          && exists at: seq<nat> :: InsertedBy(b, old(table), table, at))
      ensures (steady && b.Some? && |b.value.1| == 1 && AcceptsAll(SiteAt([]), b.value.1)
               && RunInsert(index, defaults, b.value.0, b.value.1, old(table)).Some?) ==> ok
    {
      Send(history);
      if b.None? { return false; }
      var (st, xs) := b.value;
      var result := if AcceptsAll(SiteAt([]), xs) then RunInsert(index, defaults, st, xs, table) else None;
      var single := steady && |xs| == 1;
      var fault: bool := *;
      if result.Some? && (single || !fault) {
        table := result.value;
        return true;
      }
      ok := false;
      if !single {
        var at: seq<nat> := [];
        at := *;
        if Within(at, |xs|) {
          var part := RunInsert(index, defaults, st, Picks(xs, at), table);
          if part.Some? {
            table := part.value;
            assert InsertedBy(b, old(table), table, at);
          }
        }
      }
    }

    /** What a statement that says what the insert should say comes to. */
    lemma InsertSays(path: string, b: Bound, cols: seq<Column>, rows: seq<Row>, t: Table)
      requires SaysInsert(b, cols, rows)
      ensures RunInsert(index, defaults, b.value.0, b.value.1, t) == InsertAll(SinkFor(path, cols).schema, t, rows)
      ensures b.Some? && |b.value.1| == |rows|
      ensures |rows| == 1 ==>
                (Insertable(SinkFor(path, cols).schema, t, rows[0])
                 <==> AcceptsAll(SiteAt([]), b.value.1) && InsertAll(SinkFor(path, cols).schema, t, rows).Some?)
    {
      hide RunInsert, InsertAll, FromNew, Insertable;
      var xs, s := b.value.1, SinkFor(path, cols).schema;
      InsertRuns(b.value.0, index, cols, defaults, rows, t);
      forall i | 0 <= i < |rows|
        ensures xs[i] == Synced(s, rows[i])
      {
        assert Synced(s, rows[i]) == Projected(cols, rows[i]);
      }
      assert AcceptsAll(SiteAt([]), xs) <==> forall i :: 0 <= i < |xs| ==> accepts(xs[i]);
      if |rows| == 1 {
        assert rows == [rows[0]];
        OneInsertable(s, t, rows[0]);
      }
    }

    lemma InsertedSays(path: string, b: Bound, cols: seq<Column>, rows: seq<Row>, t: Table, t': Table, at: seq<nat>)
      requires SaysInsert(b, cols, rows) && InsertedBy(b, t, t', at)
      ensures Extends(t, t') && OnlyAdded(SinkFor(path, cols).schema, t, t', rows)
    {
      hide RunInsert, InsertAll, FromNew, OnlyAdded, ProjectedAll;
      var s := SinkFor(path, cols).schema;
      PicksProjected(cols, rows, at);
      InsertRuns(b.value.0, index, cols, defaults, Picks(rows, at), t);
      InsertAllExtends(s, t, Picks(rows, at));
      InsertAllAdds(s, t, Picks(rows, at));
      PicksAdded(s, t, t', rows, at);
    }

    /** PerformInsert, for a statement that says what the insert should say. */
    method ApplyInsert(b: Bound, path: string, cols: seq<Column>, ghost rows: seq<Row>) returns (ok: bool)
      requires SaysInsert(b, cols, rows)
      modifies this`table, history
      ensures history.deeds == old(history.deeds) + [R.Sent]
      ensures ok ==> InsertAll(SinkFor(path, cols).schema, old(table), rows) == Some(table)
      ensures Extends(old(table), table)
      ensures OnlyAdded(SinkFor(path, cols).schema, old(table), table, rows)
      ensures steady && |rows| == 1
              ==> (ok <==> Insertable(SinkFor(path, cols).schema, old(table), rows[0])) && (!ok ==> table == old(table))
    {
      hide RunInsert, InsertAll, FromNew, OnlyAdded, AllAdded, Insertable, InsertedBy, SaysInsert;
      ghost var s := SinkFor(path, cols).schema;
      ghost var before := table;
      NothingAdded(s, table, rows);
      InsertSays(path, b, cols, rows, table);
      ok := PerformInsert(b);
      if ok {
        InsertAllExtends(s, before, rows);
        InsertAllAdds(s, before, rows);
      } else if table != before {
        ghost var at: seq<nat> :| InsertedBy(b, before, table, at);
        InsertedSays(path, b, cols, rows, before, table, at);
      }
    }

    /** BulkLoad routes to the dialect's native path, which a PostgreSQL connection of an unexpected driver
        type lacks.  With keys it upserts like UpsertRows does. */
    method BulkLoad(path: string, keys: seq<Column>, cols: seq<Column>, rows: seq<Row>) returns (out: BulkOutcome)
      requires keys == [] || (keys == index && Sound(SinkFor(path, cols), table))
      modifies this`table, this`stages, history
      ensures OnlySent(old(history.deeds), history.deeds)
      ensures keys != [] ==> Sound(SinkFor(path, cols), table)
      ensures out.Loaded? ==> out.n == |rows|
      ensures out.Unsupported? ==> dialect != SqlServer
      ensures (dialect == MySQL || dialect == SQLite) && rows != [] && NamesValid(path, keys, cols) ==> out.Unsupported?
      ensures keys != [] && out.Loaded? ==> AllAdmitted(SinkFor(path, cols), rows)
                                            && table == UpsertAll(SinkFor(path, cols).schema, old(table), rows)
      ensures keys != [] && !out.Loaded? ==> Partly(SinkFor(path, cols), old(table), table, rows)
      ensures keys == []
              ==> Extends(old(table), table) && OnlyAdded(SinkFor(path, cols).schema, old(table), table, rows)
                             && (out.Loaded? ==> InsertAll(SinkFor(path, cols).schema, old(table), rows) == Some(table))
    {
      hide WellKeyed, OnlyAdded, IsIdentifier, Sink.Admits;
      NothingDone(SinkFor(path, cols), table, rows);
      NothingAdded(SinkFor(path, cols).schema, table, rows);
      if rows == [] { return Loaded(0); }
      var parts := SplitTablePath(path);
      if parts.None? { return Failed; }
      var colsOk := ValidateColumns(cols);
      if !colsOk { return Failed; }
      var keysOk := ValidateColumns(keys);
      if !keysOk { return Failed; }
      if dialect == Postgres {
        var native: bool := *;
        if !native {
          out := Unsupported;
        } else if keys == [] {
          var staged := CopyAll(rows, cols);
          StagedRowsAre(cols, rows);
          var copied := ApplyInsert(Copied(parts.value, cols, staged), path, cols, rows);
          out := if copied then Loaded(|rows|) else Failed;
        } else {
          ghost var call;
          out, call := BulkPostgres(path, parts.value, cols, rows);
        }
      } else if dialect == SqlServer {
        out := BulkSqlServer(path, parts.value, keys, cols, rows);
      } else {
        out := Unsupported;
      }
    }

    /** Create a staging table in the session, COPY, merge, drop. */
    method LoadOnSession(parts: seq<string>, cols: seq<Column>, c: Call) returns (ok: bool)
      modifies this`table, this`stages, history
      ensures OnlySent(old(history.deeds), history.deeds)
      ensures Load(SiteAt(parts), cols, Db(old(table), old(stages)), c) == Outcome(Db(table, stages), ok)
    {
      hide Merged, StagedArgs, StageText, OnlySent;
      SentNothing(history.deeds);
      Send(history);
      if c.faults.create || c.conn in stages { return false; }
      ghost var before := stages;
      stages := stages[c.conn := []];
      Send(history);
      if c.faults.copy { return false; }
      var staged := CopyAll(c.rows, cols);
      stages := stages[c.conn := staged];
      assert stages == before[c.conn := staged];
      var text := BuildStaged(Postgres, parts, PG_STAGE, index, cols);
      Send(history);
      var merged := if c.faults.merge then None else Merged(SiteAt(parts), cols, text, table, staged);
      if merged.None? { return false; }
      table := merged.value;
      Send(history);
      if !c.faults.drop {
        stages := stages - {c.conn};
        assert stages == before;
      }
      ok := true;
    }

    /** A keyed load in whichever session the pool hands out, with whatever faults: it merges exactly its
        own chunk or leaves the target alone. */
    method BulkPostgres(path: string, parts: seq<string>, cols: seq<Column>, rows: seq<Row>)
      returns (out: BulkOutcome, ghost call: Call)
      requires index != [] && parts != [] && NamesValid(path, index, cols) && Sound(SinkFor(path, cols), table)
      modifies this`table, this`stages, history
      ensures OnlySent(old(history.deeds), history.deeds)
      ensures call.rows == rows
      ensures Load(SiteAt(parts), cols, Db(old(table), old(stages)), call) == Outcome(Db(table, stages), out.Loaded?)
      ensures out == Loaded(|rows|) || out == Failed
      ensures Sound(SinkFor(path, cols), table)
      ensures out.Loaded? ==> AllAdmitted(SinkFor(path, cols), rows)
                              && table == UpsertAll(SinkFor(path, cols).schema, old(table), rows)
      ensures !out.Loaded? ==> table == old(table)
    {
      hide WellKeyed, Load, NamesValid, Sink.Admits, UpsertAll, NonKeys;
      var conn: nat := 0;
      conn := *;
      var faults := Faults(false, false, false, false);
      faults := *;
      var c := Call(conn, rows, faults);
      call := c;
      ReadyHere(path, parts, cols, table);
      LoadExactly(SiteAt(parts), cols, Db(table, stages), c);
      AcceptedAdmits(path, parts, cols, rows);
      UpsertAllKeepsKeys(SinkFor(path, cols).schema, table, rows);
      var ok := LoadOnSession(parts, cols, c);
      out := if ok then Loaded(|rows|) else Failed;
    }

    lemma ReadyHere(path: string, parts: seq<string>, cols: seq<Column>, t: Table)
      requires index != [] && parts != [] && Sound(SinkFor(path, cols), t)
      ensures Ready(SiteAt(parts), cols, t)
    {
    }

    lemma AcceptedAdmits(path: string, parts: seq<string>, cols: seq<Column>, rows: seq<Row>)
      requires NamesValid(path, index, cols)
      ensures AcceptsAll(SiteAt(parts), ProjectedAll(cols, rows)) && NonKeys(index, cols) != []
              ==> AllAdmitted(SinkFor(path, cols), rows)
    {
      hide NonKeys, NamesValid, Sink.Admits;
      var xs := ProjectedAll(cols, rows);
      if AcceptsAll(SiteAt(parts), xs) && NonKeys(index, cols) != [] {
        forall r | r in rows
          ensures SinkFor(path, cols).Admits(r)
        {
          var i :| 0 <= i < |rows| && rows[i] == r;
          assert xs[i] in xs;
          AdmitsExactly(path, index, cols, SiteAt([]), r);
        }
      }
    }

    /** The prepared bulk statement takes the rows one by one and a final flush. */
    method SendRows(cols: seq<Column>, rows: seq<Row>) returns (staged: seq<seq<Value>>, ok: bool)
      ensures ok ==> staged == StagedArgs(cols, rows)
    {
      staged := [];
      var fault: bool;
      for i := 0 to |rows|
        invariant staged == StagedArgs(cols, rows)[..i]
      {
        var vals := [];
        for c := 0 to |cols|
          invariant vals == ValuesOf(cols, rows[i])[..c]
        {
          vals := vals + [Get(rows[i], cols[c])];
        }
        fault := *;
        if fault { return staged, false; }
        assert vals == ValuesOf(cols, rows[i]);
        staged := staged + [vals];
      }
      fault := *;
      ok := !fault;
    }

    /** A staging table of a fresh name on one connection, applied with a single MERGE (or a plain insert
        without keys). */
    method BulkSqlServer(path: string, parts: seq<string>, keys: seq<Column>, cols: seq<Column>, rows: seq<Row>)
      returns (out: BulkOutcome)
      requires dialect == SqlServer && parts != [] && rows != []
      requires keys == [] || (keys == index && Sound(SinkFor(path, cols), table) && NamesValid(path, index, cols))
      modifies this`table, history
      ensures OnlySent(old(history.deeds), history.deeds)
      ensures out == Loaded(|rows|) || out == Failed
      ensures keys != [] ==> Sound(SinkFor(path, cols), table)
      ensures keys != [] && out.Loaded? ==> AllAdmitted(SinkFor(path, cols), rows)
                                            && table == UpsertAll(SinkFor(path, cols).schema, old(table), rows)
      ensures keys != [] && !out.Loaded? ==> Partly(SinkFor(path, cols), old(table), table, rows)
      ensures keys == []
              ==> Extends(old(table), table) && OnlyAdded(SinkFor(path, cols).schema, old(table), table, rows)
                             && (out.Loaded? ==> InsertAll(SinkFor(path, cols).schema, old(table), rows) == Some(table))
    {
      hide WellKeyed, NamesValid, UpsertAll, NonKeys, StagedArgs, InsertAll, OnlyAdded, Sink.Admits, StageText, FromNew,
           ReadStagedBound;
      NothingDone(SinkFor(path, cols), table, rows);
      NothingAdded(SinkFor(path, cols).schema, table, rows);
      out := Failed;
      Send(history);
      var fault: bool := *;
      if fault { return; }
      var stage := "#replicron_bulk_";
      stage := *;
      Send(history);
      var staged, sent := SendRows(cols, rows);
      if !sent { return; }
      var ok;
      if keys == [] {
        if cols == [] { return; }
        var text := BuildStagedInsert(parts, stage, cols);
        InsertStageTextBinds(parts, stage, cols, rows);
        ok := ApplyInsert(ReadStagedBoundInsert(SqlServer, cols, text, stage, staged), path, cols, rows);
      } else {
        var text := BuildStaged(SqlServer, parts, stage, keys, cols);
        assert keys[0] in cols by { assert keys[0] in SinkFor(path, cols).schema.cols; }
        StageTextBinds(SqlServer, parts, stage, keys, cols, rows);
        ok := Apply(ReadStagedBound(SqlServer, cols, text, stage, staged), path, cols, rows);
      }
      if ok { out := Loaded(|rows|); }
    }

    lemma SingleRow(path: string, cols: seq<Column>, b: Bound, rows: seq<Row>, t: Table)
      requires |rows| == 1 && Says(b, index, cols, rows) && NamesValid(path, index, cols)
               && Sound(SinkFor(path, cols), t)
      ensures SinkFor(path, cols).Admits(rows[0])
              <==> b.Some? && AcceptsAll(SiteAt([]), b.value.1)
                   && RunStatement(dialect, index, defaults, b.value.0, b.value.1, t).Some?
      ensures b.Some? ==> |b.value.1| == 1
    {
      hide UpsertAll, RunStatement, WellKeyed, NonKeys, NamesValid;
      AdmitsExactly(path, index, cols, SiteAt([]), rows[0]);
      if b.Some? {
        WholeStatement(dialect, path, index, cols, SiteAt([]), b, rows, t);
      }
    }
  }

  lemma NoInsert(s: Schema, t: Table)
    ensures InsertAll(s, t, []) == Some(t)
  {
  }

  lemma NothingAdded(s: Schema, t: Table, rows: seq<Row>)
    ensures OnlyAdded(s, t, t, rows)
  {
  }

  lemma PicksAdded(s: Schema, t: Table, t': Table, rows: seq<Row>, at: seq<nat>)
    requires Within(at, |rows|) && OnlyAdded(s, t, t', Picks(rows, at))
    ensures OnlyAdded(s, t, t', rows)
  {
    hide Stands;
    forall r | r in Picks(rows, at)
      ensures r in rows
    {
      var j :| 0 <= j < |at| && Picks(rows, at)[j] == r;
      assert rows[at[j]] == r;
    }
  }

  lemma NoRows(sink: Sink, t: Table)
    ensures AllAdmitted(sink, []) && UpsertAll(sink.schema, t, []) == t
  {
  }

  lemma NothingDone(sink: Sink, t: Table, rows: seq<Row>)
    ensures Partly(sink, t, t, rows)
  {
    assert Among(sink, [], rows) && UpsertAll(sink.schema, t, []) == t;
  }
}
