/** Running the statement texts: the arguments they are given, the source rows they see, and the table
    they leave. */
module Execution {
  import opened Wrappers
  import opened Tables
  import opened SqlText
  import opened Dialects
  import opened Statements

  /** The bound parameters: every row's values, row after row. */
  function FlatArgs(cols: seq<Column>, rows: seq<Row>): seq<Value> {
    if rows == [] then [] else FlatArgs(cols, rows[..|rows| - 1]) + ValuesOf(cols, rows[|rows| - 1])
  }

  lemma {:induction false} FlatArgsLength(cols: seq<Column>, rows: seq<Row>)
    ensures |FlatArgs(cols, rows)| == |rows| * |cols|
  {
    if rows != [] {
      FlatArgsLength(cols, rows[..|rows| - 1]);
      Product(|rows| - 1, |cols|);
    }
  }

  lemma Product(n: nat, k: nat)
    ensures n * k + k == (n + 1) * k
  {
  }

  lemma {:induction false} ProductMonotone(m: nat, n: nat, k: nat)
    requires m <= n
    ensures m * k <= n * k
  {
  }

  /** Parameter r*cols+c is row r's own value for column c, NULL if the row lacks the column. */
  lemma {:induction false} FlatArgsAt(cols: seq<Column>, rows: seq<Row>, r: nat, c: nat)
    requires r < |rows| && c < |cols|
    ensures 0 <= r * |cols| + c < |FlatArgs(cols, rows)|
    ensures FlatArgs(cols, rows)[r * |cols| + c] == if cols[c] in rows[r] then rows[r][cols[c]] else Null
  {
    var rows' := rows[..|rows| - 1];
    FlatArgsLength(cols, rows);
    FlatArgsLength(cols, rows');
    Product(r, |cols|);
    ProductMonotone(r + 1, |rows|, |cols|);
    if r < |rows| - 1 {
      FlatArgsAt(cols, rows', r, c);
    }
  }

  // ---- source rows ----

  /** A row of the statement's source, its columns named in order. */
  function Named(columns: seq<Column>, vals: seq<Value>): (r: Row)
    requires |columns| == |vals|
  {
    if columns == [] then map[]
    else
      var n := |columns| - 1;
      Named(columns[..n], vals[..n])[columns[n] := vals[n]]
  }

  lemma {:induction false} NamedIs(columns: seq<Column>, r: Row)
    ensures Named(columns, ValuesOf(columns, r)) == map c | c in columns :: Get(r, c)
  {
    if columns != [] {
      var n := |columns| - 1;
      NamedIs(columns[..n], r);
      assert ValuesOf(columns, r)[..n] == ValuesOf(columns[..n], r);
      assert columns == columns[..n] + [columns[n]];
    }
  }

  function Bound(args: seq<Value>, cells: seq<nat>): Option<seq<Value>> {
    if forall i :: 0 <= i < |cells| ==> cells[i] < |args|
    then Some(seq(|cells|, i requires 0 <= i < |cells| && cells[i] < |args| => args[cells[i]]))
    else None
  }

  function BoundRows(columns: seq<Column>, args: seq<Value>, cells: seq<seq<nat>>): Option<seq<Row>> {
    if cells == [] then Some([])
    else
      var n := |cells| - 1;
      var vals :- Bound(args, cells[n]);
      if |vals| != |columns| then None
      else
        var before :- BoundRows(columns, args, cells[..n]);
        Some(before + [Named(columns, vals)])
  }

  /** A row restricted to the synced columns. */
  function Projected(cols: seq<Column>, r: Row): Row { map c | c in cols :: Get(r, c) }

  function ProjectedAll(cols: seq<Column>, rows: seq<Row>): (p: seq<Row>)
    ensures |p| == |rows|
  {
    seq(|rows|, i requires 0 <= i < |rows| => Projected(cols, rows[i]))
  }

  lemma BoundRow(cols: seq<Column>, rows: seq<Row>, args: seq<Value>, r: nat, n: nat)
    requires r < n <= |rows| && args == FlatArgs(cols, rows)
    ensures Bound(args, Matrix(|cols|, 0, n)[r]) == Some(ValuesOf(cols, rows[r]))
  {
    hide Matrix, FlatArgs;
    var cells := Matrix(|cols|, 0, n)[r];
    MatrixRowLength(|cols|, 0, n, r);
    forall c | 0 <= c < |cols|
      ensures cells[c] < |args| && args[cells[c]] == Get(rows[r], cols[c])
    {
      MatrixAt(|cols|, 0, n, r, c);
      FlatArgsAt(cols, rows, r, c);
    }
    assert Bound(args, cells).value == ValuesOf(cols, rows[r]);
  }

  lemma {:induction false} MatrixRowLength(cols: nat, i: nat, n: nat, r: nat)
    requires r < n
    ensures |Matrix(cols, i, n)[r]| == cols
    decreases n
  {
    if r > 0 { MatrixRowLength(cols, i + cols, n - 1, r - 1); }
  }

  /** Bound to the flattened arguments, the placeholder matrix reproduces the rows. */
  lemma {:induction false} BoundRowsAre(cols: seq<Column>, rows: seq<Row>, args: seq<Value>, n: nat, k: nat)
    requires k <= n == |rows| && args == FlatArgs(cols, rows)
    ensures BoundRows(cols, args, Matrix(|cols|, 0, n)[..k]) == Some(ProjectedAll(cols, rows[..k]))
    decreases k
  {
    hide Matrix, Bound, FlatArgs, ValuesOf, Named;
    var m := Matrix(|cols|, 0, n);
    if k > 0 {
      BoundRowsAre(cols, rows, args, n, k - 1);
      BoundRow(cols, rows, args, k - 1, n);
      NamedIs(cols, rows[k - 1]);
      assert m[..k][..k - 1] == m[..k - 1] && m[..k][k - 1] == m[k - 1];
      assert ProjectedAll(cols, rows[..k]) == ProjectedAll(cols, rows[..k - 1]) + [Projected(cols, rows[k - 1])];
    } else {
      assert ProjectedAll(cols, rows[..0]) == [];
    }
  }

  // ---- effect ----

  /** What a SET list makes of a source row; a later assignment to a column overrides an earlier one. */
  function Terms(ps: seq<Entry>, x: Row): map<Column, Term> {
    if ps == [] then map[]
    else
      var p := ps[|ps| - 1];
      Terms(ps[..|ps| - 1], x)[p.name := match p.operand case New(c) => Fixed(Get(x, c)) case Old(c) => Own(c)]
  }

  /** The values a list takes from a source row. */
  function Picked(ps: seq<Entry>, x: Row): Row {
    if ps == [] then map[] else Picked(ps[..|ps| - 1], x)[ps[|ps| - 1].name := Get(x, ps[|ps| - 1].operand.column)]
  }

  lemma FromNewSnoc(cs: seq<Column>)
    requires cs != []
    ensures FromNew(cs)[..|cs| - 1] == FromNew(cs[..|cs| - 1])
    ensures forall c :: c in cs <==> c in cs[..|cs| - 1] || c == cs[|cs| - 1]
  {
    assert cs == cs[..|cs| - 1] + [cs[|cs| - 1]];
  }

  lemma {:induction false} PickedIs(cs: seq<Column>, x: Row)
    ensures Picked(FromNew(cs), x) == map c | c in cs :: Get(x, c)
  {
    if cs != [] {
      PickedIs(cs[..|cs| - 1], x);
      FromNewSnoc(cs);
    }
  }

  lemma {:induction false} TermsAre(cs: seq<Column>, x: Row)
    ensures Terms(FromNew(cs), x) == AllFixed(map c | c in cs :: Get(x, c))
  {
    if cs != [] {
      TermsAre(cs[..|cs| - 1], x);
      FromNewSnoc(cs);
    }
  }

  lemma NewOnly(cs: seq<Column>)
    ensures AllNew(FromNew(cs))
  {
  }

  function Effect(st: Statement, x: Row): Change {
    Change(seq(|st.on|, i requires 0 <= i < |st.on| => Get(x, st.on[i].operand.column)),
           Terms(st.sets, x), Picked(st.inserts, x))
  }

  function Effects(st: Statement, xs: seq<Row>): (cs: seq<Change>)
    ensures |cs| == |xs|
  {
    seq(|xs|, i requires 0 <= i < |xs| => Effect(st, xs[i]))
  }

  predicate AllNew(ps: seq<Entry>) { forall i :: 0 <= i < |ps| ==> ps[i].operand.New? }

  /** Run one statement.  Its match columns must be the target's unique index, and what is matched and
      inserted comes from the new rows. */
  function RunStatement(d: Dialect, index: seq<Column>, defaults: Row, st: Statement, xs: seq<Row>,
                        t: Table): Option<Table> {
    if NamesOf(st.on) == index && AllNew(st.on) && AllNew(st.inserts) then Execute(d, defaults, t, Effects(st, xs))
    else None
  }

  /** The statement a text says and the source rows its arguments give it. */
  function ReadBound(d: Dialect, index: seq<Column>, text: string, args: seq<Value>): Option<(Statement, seq<Row>)> {
    var st :- ReadUpsert(d, index, text);
    if st.source.Stage? then None
    else
      var xs :- BoundRows(st.columns, args, st.source.cells);
      Some((st, xs))
  }

  function RunText(d: Dialect, index: seq<Column>, defaults: Row, text: string, args: seq<Value>,
                   t: Table): Option<Table> {
    var (st, xs) :- ReadBound(d, index, text, args);
    RunStatement(d, index, defaults, st, xs, t)
  }

  /** The statement that applies a staging table, and the rows that table, holding `staged`, gives it. */
  function ReadStagedBound(d: Dialect, columns: seq<Column>, text: string, stage: string,
                           staged: seq<seq<Value>>): Option<(Statement, seq<Row>)> {
    var st :- ReadStaged(d, columns, text);
    if st.source != Stage(stage) || exists i :: 0 <= i < |staged| && |staged[i]| != |columns| then None
    else Some((st, StagedRows(columns, staged)))
  }

  function RunStaged(d: Dialect, index: seq<Column>, defaults: Row, columns: seq<Column>, text: string,
                     stage: string, staged: seq<seq<Value>>, t: Table): Option<Table> {
    var (st, xs) :- ReadStagedBound(d, columns, text, stage, staged);
    RunStatement(d, index, defaults, st, xs, t)
  }

  function StagedRows(columns: seq<Column>, staged: seq<seq<Value>>): (xs: seq<Row>)
    requires forall i :: 0 <= i < |staged| ==> |staged[i]| == |columns|
    ensures |xs| == |staged|
  {
    seq(|staged|, i requires 0 <= i < |staged| => Named(columns, staged[i]))
  }

  function SchemaOf(keys: seq<Column>, cols: seq<Column>, defaults: Row): Schema {
    Schema(keys, (set c | c in cols), defaults)
  }

  lemma EffectIsChange(st: Statement, keys: seq<Column>, cols: seq<Column>, defaults: Row, r: Row)
    requires st.on == FromNew(keys) && st.sets == FromNew(NonKeys(keys, cols)) && st.inserts == FromNew(cols)
    requires forall k :: k in keys ==> k in cols
    ensures Effect(st, Projected(cols, r)) == ChangeOf(SchemaOf(keys, cols, defaults), r)
  {
    hide Picked, Terms, NonKeys, AllFixed;
    var x := Projected(cols, r);
    var s := SchemaOf(keys, cols, defaults);
    TermsAre(NonKeys(keys, cols), x);
    PickedIs(cols, x);
    forall i | 0 <= i < |keys|
      ensures Get(x, st.on[i].operand.column) == Get(r, keys[i])
    {
      assert keys[i] in cols;
    }
    assert Effect(st, x).key == ValuesOf(keys, r);
    assert (map c | c in NonKeys(keys, cols) :: Get(x, c)) == Assigned(s, r);
    assert Picked(st.inserts, x) == Synced(s, r);
  }

  lemma EffectsAreChanges(st: Statement, keys: seq<Column>, cols: seq<Column>, defaults: Row, rows: seq<Row>)
    requires st.on == FromNew(keys) && st.sets == FromNew(NonKeys(keys, cols)) && st.inserts == FromNew(cols)
    requires forall k :: k in keys ==> k in cols
    ensures Effects(st, ProjectedAll(cols, rows)) == Changes(SchemaOf(keys, cols, defaults), rows)
  {
    hide Effect, ChangeOf, NonKeys, FromNew, Projected;
    var a, b := Effects(st, ProjectedAll(cols, rows)), Changes(SchemaOf(keys, cols, defaults), rows);
    forall i | 0 <= i < |rows|
      ensures a[i] == b[i]
    {
      EffectIsChange(st, keys, cols, defaults, rows[i]);
    }
  }

  /** What any of the upsert statements must come to, given the dialect's view of repeated keys. */
  ghost function Upserted(d: Dialect, keys: seq<Column>, cols: seq<Column>, defaults: Row, rows: seq<Row>,
                          t: Table): Option<Table> {
    var s := SchemaOf(keys, cols, defaults);
    if NonKeys(keys, cols) == [] then None
    else if TakesRepeats(d) || DistinctKeys(s, rows) then Some(UpsertAll(s, t, rows))
    else None
  }

  lemma StatementUpserts(d: Dialect, st: Statement, keys: seq<Column>, cols: seq<Column>, defaults: Row,
                         rows: seq<Row>, t: Table)
    requires st.on == FromNew(keys) && st.sets == FromNew(NonKeys(keys, cols)) && st.inserts == FromNew(cols)
    requires NonKeys(keys, cols) != []
    requires forall k :: k in keys ==> k in cols
    requires WellKeyed(SchemaOf(keys, cols, defaults), t)
    ensures RunStatement(d, keys, defaults, st, ProjectedAll(cols, rows), t)
            == Upserted(d, keys, cols, defaults, rows, t)
  {
    hide Effects, Changes, Execute, FromNew, NonKeys, UpsertAll, WellKeyed, DistinctKeys, ProjectedAll, NamesOf;
    NamesOfNew(keys);
    NewOnly(keys);
    NewOnly(cols);
    EffectsAreChanges(st, keys, cols, defaults, rows);
    DialectsAgree(d, SchemaOf(keys, cols, defaults), t, rows);
  }

  lemma UpsertTextBinds(d: Dialect, parts: seq<string>, keys: seq<Column>, cols: seq<Column>, rows: seq<Row>)
    requires parts != [] && keys != [] && cols != [] && rows != []
    ensures ReadBound(d, keys, UpsertText(d, parts, keys, cols, |rows|), FlatArgs(cols, rows))
            == if NonKeys(keys, cols) == [] then None
               else Some((Intended(parts, keys, cols, |rows|), ProjectedAll(cols, rows)))
  {
    hide UpsertText, ReadUpsert, FlatArgs, BoundRows, NonKeys, Matrix, ProjectedAll, FromNew;
    UpsertTextReads(d, parts, keys, cols, |rows|);
    if NonKeys(keys, cols) != [] {
      var m := Matrix(|cols|, 0, |rows|);
      BoundRowsAre(cols, rows, FlatArgs(cols, rows), |rows|, |rows|);
      assert m[..|rows|] == m && rows[..|rows|] == rows;
    }
  }

  /** End to end: the statement text a dialect builds, read as SQL and given the flattened arguments,
      upserts exactly the rows, one after the other, whatever the column names and values are. */
  lemma UpsertTextUpserts(d: Dialect, parts: seq<string>, keys: seq<Column>, cols: seq<Column>, defaults: Row,
                          rows: seq<Row>, t: Table)
    requires parts != [] && keys != [] && rows != []
    requires forall k :: k in keys ==> k in cols
    requires WellKeyed(SchemaOf(keys, cols, defaults), t)
    ensures RunText(d, keys, defaults, UpsertText(d, parts, keys, cols, |rows|), FlatArgs(cols, rows), t)
            == Upserted(d, keys, cols, defaults, rows, t)
  {
    hide UpsertText, ReadBound, FlatArgs, RunStatement, WellKeyed, NonKeys, ProjectedAll, FromNew, UpsertAll,
         DistinctKeys;
    assert keys[0] in cols;
    UpsertTextBinds(d, parts, keys, cols, rows);
    if NonKeys(keys, cols) != [] {
      StatementUpserts(d, Intended(parts, keys, cols, |rows|), keys, cols, defaults, rows, t);
    }
  }

  function StagedArgs(cols: seq<Column>, rows: seq<Row>): (a: seq<seq<Value>>)
    ensures |a| == |rows|
  {
    seq(|rows|, i requires 0 <= i < |rows| => ValuesOf(cols, rows[i]))
  }

  lemma StagedRowsAre(cols: seq<Column>, rows: seq<Row>)
    ensures forall i :: 0 <= i < |rows| ==> |StagedArgs(cols, rows)[i]| == |cols|
    ensures StagedRows(cols, StagedArgs(cols, rows)) == ProjectedAll(cols, rows)
  {
    hide Named, ValuesOf, Projected;
    var a := StagedArgs(cols, rows);
    forall i | 0 <= i < |rows|
      ensures Named(cols, ValuesOf(cols, rows[i])) == Projected(cols, rows[i])
    {
      NamedIs(cols, rows[i]);
      assert Projected(cols, rows[i]) == map c | c in cols :: Get(rows[i], c) by { ProjectedIs(cols, rows[i]); }
    }
    assert StagedRows(cols, a) == ProjectedAll(cols, rows);
  }

  lemma ProjectedIs(cols: seq<Column>, r: Row)
    ensures Projected(cols, r) == map c | c in cols :: Get(r, c)
  {
  }

  lemma StageTextBinds(d: Dialect, parts: seq<string>, stage: string, keys: seq<Column>, cols: seq<Column>,
                       rows: seq<Row>)
    requires d == Postgres || d == SqlServer
    requires parts != [] && keys != [] && cols != []
    ensures ReadStagedBound(d, cols, StageText(d, parts, stage, keys, cols), stage, StagedArgs(cols, rows))
            == if NonKeys(keys, cols) == [] then None
               else Some((IntendedStaged(parts, stage, keys, cols), ProjectedAll(cols, rows)))
  {
    hide StageText, ReadStaged, NonKeys, ProjectedAll, FromNew, StagedArgs, StagedRows;
    StageTextReads(d, parts, stage, keys, cols);
    StagedRowsAre(cols, rows);
  }

  /** The bulk path's statement over a stage holding the rows does the same. */
  lemma StageTextUpserts(d: Dialect, parts: seq<string>, stage: string, keys: seq<Column>, cols: seq<Column>,
                         defaults: Row,
                         rows: seq<Row>, t: Table)
    requires d == Postgres || d == SqlServer
    requires parts != [] && keys != []
    requires forall k :: k in keys ==> k in cols
    requires WellKeyed(SchemaOf(keys, cols, defaults), t)
    ensures RunStaged(d, keys, defaults, cols, StageText(d, parts, stage, keys, cols), stage, StagedArgs(cols, rows), t)
            == Upserted(d, keys, cols, defaults, rows, t)
  {
    hide StageText, ReadStagedBound, RunStatement, WellKeyed, NonKeys, ProjectedAll, FromNew, StagedArgs;
    hide UpsertAll, DistinctKeys;
    assert keys[0] in cols;
    StageTextBinds(d, parts, stage, keys, cols, rows);
    if NonKeys(keys, cols) != [] {
      StatementUpserts(d, IntendedStaged(parts, stage, keys, cols), keys, cols, defaults, rows, t);
    }
  }

  // ---- plain inserts ----

  /** The rows a plain insert puts in. */
  function PickedAll(ps: seq<Entry>, xs: seq<Row>): (rows: seq<Row>)
    ensures |rows| == |xs|
  {
    seq(|xs|, i requires 0 <= i < |xs| => Picked(ps, xs[i]))
  }

  /** Run one insert. */
  function RunInsert(index: seq<Column>, defaults: Row, st: Statement, xs: seq<Row>, t: Table): Option<Table> {
    if st.on == [] && st.sets == [] && AllNew(st.inserts) then
      InsertAll(SchemaOf(index, NamesOf(st.inserts), defaults), t, PickedAll(st.inserts, xs))
    else None
  }

  function ReadBoundInsert(d: Dialect, text: string, args: seq<Value>): Option<(Statement, seq<Row>)> {
    var st :- ReadInsert(d, text);
    if st.source.Stage? then None
    else
      var xs :- BoundRows(st.columns, args, st.source.cells);
      Some((st, xs))
  }

  function ReadStagedBoundInsert(d: Dialect, columns: seq<Column>, text: string, stage: string,
                                 staged: seq<seq<Value>>): Option<(Statement, seq<Row>)> {
    var st :- ReadStagedInsert(d, columns, text);
    if st.source != Stage(stage) || exists i :: 0 <= i < |staged| && |staged[i]| != |columns| then None
    else Some((st, StagedRows(columns, staged)))
  }

  lemma InsertTextBinds(d: Dialect, parts: seq<string>, cols: seq<Column>, rows: seq<Row>)
    requires parts != [] && cols != [] && rows != []
    ensures ReadBoundInsert(d, InsertText(d, parts, cols, |rows|), FlatArgs(cols, rows))
            == Some((Statement(parts, cols, Values(Matrix(|cols|, 0, |rows|)), [], [], FromNew(cols)),
                     ProjectedAll(cols, rows)))
  {
    hide InsertText, ReadInsert, FlatArgs, BoundRows, Matrix, ProjectedAll, FromNew;
    InsertTextReads(d, parts, cols, |rows|);
    var m := Matrix(|cols|, 0, |rows|);
    BoundRowsAre(cols, rows, FlatArgs(cols, rows), |rows|, |rows|);
    assert m[..|rows|] == m && rows[..|rows|] == rows;
  }

  lemma InsertStageTextBinds(parts: seq<string>, stage: string, cols: seq<Column>, rows: seq<Row>)
    requires parts != [] && cols != []
    ensures ReadStagedBoundInsert(SqlServer, cols, InsertStageText(parts, stage, cols), stage, StagedArgs(cols, rows))
            == Some((Statement(parts, cols, Stage(stage), [], [], FromNew(cols)), ProjectedAll(cols, rows)))
  {
    hide InsertStageText, ReadStagedInsert, ProjectedAll, FromNew, StagedArgs, StagedRows;
    InsertStageTextReads(parts, stage, cols);
    StagedRowsAre(cols, rows);
  }

  /** What is put in is the rows' values in the listed columns. */
  lemma PickedAllIs(cols: seq<Column>, rows: seq<Row>)
    ensures PickedAll(FromNew(cols), ProjectedAll(cols, rows)) == ProjectedAll(cols, rows)
  {
    hide Picked, FromNew;
    forall i | 0 <= i < |rows|
      ensures Picked(FromNew(cols), Projected(cols, rows[i])) == Projected(cols, rows[i])
    {
      PickedIs(cols, Projected(cols, rows[i]));
    }
  }

  lemma SyncedProjected(keys: seq<Column>, cols: seq<Column>, defaults: Row, r: Row)
    ensures var s := SchemaOf(keys, cols, defaults);
            Synced(s, Projected(cols, r)) == Synced(s, r) && InsertKey(s, Projected(cols, r)) == InsertKey(s, r)
  {
    var s := SchemaOf(keys, cols, defaults);
    assert Synced(s, Projected(cols, r)) == Synced(s, r);
  }

  lemma {:induction false} InsertProjected(keys: seq<Column>, cols: seq<Column>, defaults: Row, t: Table,
                                           rows: seq<Row>)
    ensures InsertAll(SchemaOf(keys, cols, defaults), t, ProjectedAll(cols, rows))
            == InsertAll(SchemaOf(keys, cols, defaults), t, rows)
  {
    if rows != [] {
      hide Projected, InsertKey, Synced;
      var n := |rows| - 1;
      InsertProjected(keys, cols, defaults, t, rows[..n]);
      SyncedProjected(keys, cols, defaults, rows[n]);
      assert ProjectedAll(cols, rows)[..n] == ProjectedAll(cols, rows[..n]);
    }
  }

  lemma InsertRuns(st: Statement, index: seq<Column>, cols: seq<Column>, defaults: Row, rows: seq<Row>, t: Table)
    requires st.on == [] && st.sets == [] && st.inserts == FromNew(cols)
    ensures RunInsert(index, defaults, st, ProjectedAll(cols, rows), t)
            == InsertAll(SchemaOf(index, cols, defaults), t, rows)
  {
    hide ProjectedAll, FromNew, NamesOf, PickedAll, InsertAll, AllNew;
    NewOnly(cols);
    NamesOfNew(cols);
    PickedAllIs(cols, rows);
    InsertProjected(index, cols, defaults, t, rows);
  }

  /** End to end: the insert a dialect builds, read as SQL and given the flattened arguments, puts in exactly the
      rows, or fails over a key that repeats or is taken. */
  lemma InsertTextInserts(d: Dialect, parts: seq<string>, index: seq<Column>, cols: seq<Column>, defaults: Row,
                          rows: seq<Row>, t: Table)
    requires parts != [] && cols != [] && rows != []
    ensures var b := ReadBoundInsert(d, InsertText(d, parts, cols, |rows|), FlatArgs(cols, rows));
            b.Some? && RunInsert(index, defaults, b.value.0, b.value.1, t)
                       == InsertAll(SchemaOf(index, cols, defaults), t, rows)
  {
    hide InsertText, ReadBoundInsert, FlatArgs, Matrix, ProjectedAll, FromNew, RunInsert, InsertAll;
    InsertTextBinds(d, parts, cols, rows);
    InsertRuns(Statement(parts, cols, Values(Matrix(|cols|, 0, |rows|)), [], [], FromNew(cols)), index, cols, defaults,
               rows, t);
  }
}
