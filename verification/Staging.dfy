/** PostgreSQL's keyed bulk load on pooled sessions: create a staging table, COPY into it, merge it into
    the target, drop it.  A load that fails after the create leaves its staging table in the session. */
module Staging {
  import opened Wrappers
  import opened Tables
  import opened SqlText
  import opened Statements
  import opened Execution

  const PG_STAGE := "_replicron_bulk_stage"

  /** The database as these loads see it: the target and each session's staging table. */
  datatype Db = Db(table: Table, stages: map<nat, seq<seq<Value>>>)

  /** Which statements of one load fail for reasons of their own. */
  datatype Faults = Faults(create: bool, copy: bool, merge: bool, drop: bool)

  /** The target's side of a load: unique index, other columns' defaults, constraints. */
  datatype Site = Site(parts: seq<string>, index: seq<Column>, defaults: Row, accepts: Row -> bool)

  predicate AcceptsAll(site: Site, xs: seq<Row>) { forall x :: x in xs ==> site.accepts(x) }

  function Merged(site: Site, cols: seq<Column>, text: string, t: Table, staged: seq<seq<Value>>): Option<Table> {
    if (exists i :: 0 <= i < |staged| && |staged[i]| != |cols|) || !AcceptsAll(site, StagedRows(cols, staged)) then None
    else RunStaged(Postgres, site.index, site.defaults, cols, text, PG_STAGE, staged, t)
  }

  /** One keyed load: the session the pool hands out, the chunk, and what goes wrong. */
  datatype Call = Call(conn: nat, rows: seq<Row>, faults: Faults)

  datatype Outcome = Outcome(db: Db, ok: bool)

  function Load(site: Site, cols: seq<Column>, db: Db, c: Call): (r: Outcome)
    ensures !r.ok ==> r.db.table == db.table
  {
    if c.faults.create || c.conn in db.stages then Outcome(db, false)
    else if c.faults.copy then Outcome(db.(stages := db.stages[c.conn := []]), false)
    else
      var staged := StagedArgs(cols, c.rows);
      var text := StageText(Postgres, site.parts, PG_STAGE, site.index, cols);
      match if c.faults.merge then None else Merged(site, cols, text, db.table, staged)
      case None => Outcome(db.(stages := db.stages[c.conn := staged]), false)
      case Some(t) => Outcome(Db(t, if c.faults.drop then db.stages[c.conn := staged] else db.stages), true)
  }

  ghost predicate Ready(site: Site, cols: seq<Column>, t: Table) {
    site.parts != [] && site.index != [] && (forall k :: k in site.index ==> k in cols)
    && WellKeyed(SchemaOf(site.index, cols, site.defaults), t)
  }

  /** A load succeeds exactly when none of create, copy and merge fails, the session holds no staging
      table, no key repeats, some column is not a key and every row is acceptable; it has then merged
      its own rows and nothing else. */
  lemma LoadExactly(site: Site, cols: seq<Column>, db: Db, c: Call)
    requires Ready(site, cols, db.table)
    ensures var s := SchemaOf(site.index, cols, site.defaults);
            var r := Load(site, cols, db, c);
            (r.ok <==> !c.faults.create && c.conn !in db.stages && !c.faults.copy && !c.faults.merge
                       && NonKeys(site.index, cols) != [] && DistinctKeys(s, c.rows)
                       && AcceptsAll(site, ProjectedAll(cols, c.rows)))
            && (r.ok ==> r.db.table == UpsertAll(s, db.table, c.rows))
  {
    hide UpsertAll, WellKeyed, DistinctKeys, RunStaged, StageText, ProjectedAll, StagedRows, NonKeys, StagedArgs;
    StagedRowsAre(cols, c.rows);
    StageTextUpserts(Postgres, site.parts, PG_STAGE, site.index, cols, site.defaults, c.rows, db.table);
  }

  // ---- sequences of loads ----

  function After(site: Site, cols: seq<Column>, db: Db, calls: seq<Call>): Db {
    if calls == [] then db
    else Load(site, cols, After(site, cols, db, calls[..|calls| - 1]), calls[|calls| - 1]).db
  }

  /** Whether call `i` of the sequence reports success. */
  predicate Succeeds(site: Site, cols: seq<Column>, db: Db, calls: seq<Call>, i: nat)
    requires i < |calls|
  {
    Load(site, cols, After(site, cols, db, calls[..i]), calls[i]).ok
  }

  /** The rows of the calls that report success, in call order. */
  function Reported(site: Site, cols: seq<Column>, db: Db, calls: seq<Call>): seq<Row> {
    if calls == [] then []
    else
      var n := |calls| - 1;
      Reported(site, cols, db, calls[..n]) + if Succeeds(site, cols, db, calls, n) then calls[n].rows else []
  }

  lemma LoadStep(site: Site, cols: seq<Column>, db: Db, c: Call)
    requires Ready(site, cols, db.table)
    ensures var r := Load(site, cols, db, c);
            r.db.table == UpsertAll(SchemaOf(site.index, cols, site.defaults), db.table, if r.ok then c.rows else [])
            && Ready(site, cols, r.db.table)
  {
    hide Load, WellKeyed;
    var s := SchemaOf(site.index, cols, site.defaults);
    LoadExactly(site, cols, db, c);
    assert UpsertAll(s, db.table, []) == db.table;
    UpsertAllKeepsKeys(s, db.table, c.rows);
  }

  /** Over any sequence of loads, with any failures and any staging tables left behind, the target is
      what the reported rows, and only those, make of it. */
  lemma {:induction false} StagesStayFresh(site: Site, cols: seq<Column>, db: Db, calls: seq<Call>)
    requires Ready(site, cols, db.table)
    ensures After(site, cols, db, calls).table
            == UpsertAll(SchemaOf(site.index, cols, site.defaults), db.table, Reported(site, cols, db, calls))
    ensures Ready(site, cols, After(site, cols, db, calls).table)
  {
    if calls != [] {
      hide Load, Ready, UpsertAll, SchemaOf;
      var s := SchemaOf(site.index, cols, site.defaults);
      var before, c := calls[..|calls| - 1], calls[|calls| - 1];
      StagesStayFresh(site, cols, db, before);
      LoadStep(site, cols, After(site, cols, db, before), c);
      UpsertAllConcat(s, db.table, Reported(site, cols, db, before),
                      if Succeeds(site, cols, db, calls, |calls| - 1) then c.rows else []);
    }
  }

  lemma LeftoverStays(site: Site, cols: seq<Column>, db: Db, c: Call, conn: nat)
    requires conn in db.stages
    ensures conn in Load(site, cols, db, c).db.stages
    ensures c.conn == conn ==> !Load(site, cols, db, c).ok
  {
  }

  lemma {:induction false} LeftoverRemains(site: Site, cols: seq<Column>, db: Db, calls: seq<Call>, conn: nat)
    requires conn in db.stages
    ensures conn in After(site, cols, db, calls).stages
  {
    if calls != [] {
      hide Load;
      var before := calls[..|calls| - 1];
      LeftoverRemains(site, cols, db, before, conn);
      LeftoverStays(site, cols, After(site, cols, db, before), calls[|calls| - 1], conn);
    }
  }

  /** A staging table left behind closes its session to every later load. */
  lemma LeftoverBlocksSession(site: Site, cols: seq<Column>, db: Db, calls: seq<Call>, i: nat)
    requires i < |calls| && calls[i].conn in db.stages
    ensures !Succeeds(site, cols, db, calls, i)
  {
    hide Load, After;
    LeftoverRemains(site, cols, db, calls[..i], calls[i].conn);
    LeftoverStays(site, cols, After(site, cols, db, calls[..i]), calls[i], calls[i].conn);
  }

  /** A load in a session without a staging table leaves one exactly if it created it and then failed, or
      failed to drop it; the session's bulk path is then lost. */
  lemma FailureLeavesStage(site: Site, cols: seq<Column>, db: Db, c: Call)
    ensures !Load(site, cols, db, c).ok && !c.faults.create ==> c.conn in Load(site, cols, db, c).db.stages
    ensures c.conn !in db.stages ==>
              (c.conn in Load(site, cols, db, c).db.stages
               <==> !c.faults.create && (!Load(site, cols, db, c).ok || c.faults.drop))
  {
  }

  /** The load is the kind that leaves its staging table behind. */
  predicate Leaves(site: Site, cols: seq<Column>, db: Db, c: Call) {
    !c.faults.create && (!Load(site, cols, db, c).ok || c.faults.drop)
  }

  lemma StageStep(site: Site, cols: seq<Column>, db: Db, c: Call, conn: nat)
    ensures conn in Load(site, cols, db, c).db.stages
            <==> conn in db.stages || (c.conn == conn && Leaves(site, cols, db, c))
  {
    hide Merged, StagedArgs, StageText;
  }

  /** Some call of the sequence in this session was of that kind. */
  ghost predicate SomeLeft(site: Site, cols: seq<Column>, db: Db, calls: seq<Call>, conn: nat) {
    exists j :: 0 <= j < |calls| && calls[j].conn == conn
                && Leaves(site, cols, After(site, cols, db, calls[..j]), calls[j])
  }

  lemma SomeLeftSnoc(site: Site, cols: seq<Column>, db: Db, calls: seq<Call>, conn: nat)
    requires calls != []
    ensures var front, c := calls[..|calls| - 1], calls[|calls| - 1];
            SomeLeft(site, cols, db, calls, conn)
            <==> (SomeLeft(site, cols, db, front, conn)
                  || (c.conn == conn && Leaves(site, cols, After(site, cols, db, front), c)))
  {
    hide Leaves, After;
    var front := calls[..|calls| - 1];
    forall j | 0 <= j < |front|
      ensures front[..j] == calls[..j] && front[j] == calls[j]
    {
    }
    if SomeLeft(site, cols, db, front, conn) {
      var j :| 0 <= j < |front| && front[j].conn == conn
               && Leaves(site, cols, After(site, cols, db, front[..j]), front[j]);
      assert calls[j].conn == conn && Leaves(site, cols, After(site, cols, db, calls[..j]), calls[j]);
    }
    if SomeLeft(site, cols, db, calls, conn) {
      var j :| 0 <= j < |calls| && calls[j].conn == conn
               && Leaves(site, cols, After(site, cols, db, calls[..j]), calls[j]);
      if j < |front| { assert front[j].conn == conn; }
    }
  }

  /** After any sequence of loads a session has lost its bulk path exactly if it had before, or if some
      load in it got past its create and then failed or did not drop its table. */
  lemma {:induction false} SessionLostExactly(site: Site, cols: seq<Column>, db: Db, calls: seq<Call>, conn: nat)
    ensures conn in After(site, cols, db, calls).stages
            <==> conn in db.stages || SomeLeft(site, cols, db, calls, conn)
  {
    if calls != [] {
      hide Load, Leaves, SomeLeft;
      var front, c := calls[..|calls| - 1], calls[|calls| - 1];
      SessionLostExactly(site, cols, db, front, conn);
      SomeLeftSnoc(site, cols, db, calls, conn);
      StageStep(site, cols, After(site, cols, db, front), c, conn);
    }
  }
}
