/** The loops that build statement texts and arguments, each shown to produce the text or list its
    specification describes. */
module Builders {
  import opened Tables
  import opened SqlText
  import opened Statements
  import opened Execution

  /** Go's strings.Join. */
  function JoinStrings(ss: seq<string>, sep: string): string {
    if ss == [] then "" else if |ss| == 1 then ss[0] else ss[0] + (sep + JoinStrings(ss[1..], sep))
  }

  function Rendered(q: Quoter, tm: Template, cs: seq<string>): (r: seq<string>)
    ensures |r| == |cs|
  {
    seq(|cs|, i requires 0 <= i < |cs| => Render(q, tm, cs[i]))
  }

  lemma {:induction false} JoinRendered(q: Quoter, tm: Template, sep: string, cs: seq<string>)
    ensures JoinStrings(Rendered(q, tm, cs), sep) == Join(q, tm, sep, cs)
  {
    if |cs| > 1 {
      JoinRendered(q, tm, sep, cs[1..]);
      assert Rendered(q, tm, cs)[1..] == Rendered(q, tm, cs[1..]);
    }
  }

  /** qualify, quotedList, and the assignment and comparison lists. */
  method JoinedList(q: Quoter, tm: Template, sep: string, cs: seq<string>) returns (s: string)
    ensures s == Join(q, tm, sep, cs)
  {
    var qs: seq<string> := [];
    for i := 0 to |cs|
      invariant qs == Rendered(q, tm, cs[..i])
    {
      qs := qs + [Render(q, tm, cs[i])];
    }
    assert cs[..|cs|] == cs;
    JoinRendered(q, tm, sep, cs);
    s := JoinStrings(qs, sep);
  }

  lemma NonKeysSnoc(keys: seq<Column>, cols: seq<Column>, i: nat)
    requires i < |cols|
    ensures NonKeys(keys, cols[..i + 1]) == NonKeys(keys, cols[..i]) + if cols[i] in keys then [] else [cols[i]]
  {
    assert cols[..i + 1][..i] == cols[..i];
  }

  lemma NoColumns(keys: seq<Column>)
    ensures NonKeys(keys, []) == []
  {
  }

  /** The SET list: every synced column outside the key set. */
  method SetList(q: Quoter, tm: Template, keys: seq<Column>, cols: seq<Column>) returns (s: string)
    ensures s == Join(q, tm, ", ", NonKeys(keys, cols))
  {
    hide NonKeys, Render, Join;
    var keySet: set<Column> := {};
    for i := 0 to |keys|
      invariant keySet == set c | c in keys[..i]
    {
      assert keys[..i + 1] == keys[..i] + [keys[i]];
      keySet := keySet + {keys[i]};
    }
    assert keys[..|keys|] == keys;
    var sets: seq<string> := [];
    NoColumns(keys);
    for i := 0 to |cols|
      invariant sets == Rendered(q, tm, NonKeys(keys, cols[..i]))
    {
      NonKeysSnoc(keys, cols, i);
      if cols[i] !in keySet {
        sets := sets + [Render(q, tm, cols[i])];
      }
    }
    assert cols[..|cols|] == cols;
    JoinRendered(q, tm, ", ", NonKeys(keys, cols));
    s := JoinStrings(sets, ", ");
  }

  lemma CellsHead(d: Dialect, i: nat, n: nat)
    ensures CellsText(d, i, n) == if n == 0 then ""
                                  else if n == 1 then Placeholder(d, i)
                                  else Placeholder(d, i) + ("," + CellsText(d, i + 1, n - 1))
  {
  }

  lemma {:induction false} CellsSnoc(d: Dialect, i: nat, n: nat)
    ensures CellsText(d, i, n + 1) == CellsText(d, i, n) + (if n == 0 then "" else ",") + Placeholder(d, i + n)
    decreases n
  {
    hide Placeholder, CellsText;
    CellsHead(d, i, n + 1);
    if n > 0 {
      CellsHead(d, i, n);
      CellsSnoc(d, i + 1, n - 1);
      CellsHead(d, i + 1, n - 1);
    } else {
      CellsHead(d, i, 0);
    }
  }

  lemma RowsHead(d: Dialect, cols: nat, i: nat, n: nat)
    ensures RowsText(d, cols, i, n) == if n == 0 then ""
                                       else if n == 1 then RowText(d, cols, i)
                                       else RowText(d, cols, i) + ("," + RowsText(d, cols, i + cols, n - 1))
  {
    hide RowText;
  }

  lemma {:induction false} RowsSnoc(d: Dialect, cols: nat, i: nat, n: nat)
    ensures RowsText(d, cols, i, n + 1)
            == RowsText(d, cols, i, n) + (if n == 0 then "" else ",") + RowText(d, cols, i + n * cols)
    decreases n
  {
    hide RowText, RowsText;
    RowsHead(d, cols, i, n + 1);
    RowsHead(d, cols, i, n);
    if n > 0 {
      Product(n - 1, cols);
      RowsSnoc(d, cols, i + cols, n - 1);
      RowsHead(d, cols, i + cols, n - 1);
    }
  }

  lemma NoCells(d: Dialect, cols: nat, i: nat)
    ensures CellsText(d, i, 0) == "" && RowsText(d, cols, i, 0) == ""
  {
  }

  lemma OneMoreRow(d: Dialect, cols: nat, r: nat, b: string)
    requires b == RowsText(d, cols, 0, r) + (if r == 0 then "" else ",") + "(" + CellsText(d, r * cols, cols) + ")"
    ensures b == RowsText(d, cols, 0, r + 1)
  {
    hide CellsText, RowsText;
    RowsSnoc(d, cols, 0, r);
    var start := RowsText(d, cols, 0, r) + if r == 0 then "" else ",";
    assert b == start + ("(" + (CellsText(d, r * cols, cols) + ")"));
  }

  /** valuesClause: placeholder r*cols+c in row r, column c. */
  method ValuesClause(d: Dialect, cols: nat, n: nat) returns (b: string)
    ensures b == RowsText(d, cols, 0, n)
  {
    hide CellsText, RowsText, RowText, Placeholder;
    b := "";
    NoCells(d, cols, 0);
    for r := 0 to n
      invariant b == RowsText(d, cols, 0, r)
    {
      if r > 0 { b := b + ","; }
      b := b + "(";
      ghost var start := b;
      NoCells(d, cols, r * cols);
      for c := 0 to cols
        invariant b == start + CellsText(d, r * cols, c)
      {
        CellsSnoc(d, r * cols, c);
        if c > 0 { b := b + ","; }
        b := b + Placeholder(d, r * cols + c);
      }
      b := b + ")";
      OneMoreRow(d, cols, r, b);
    }
  }

  /** flatArgs. */
  method FlattenArgs(cols: seq<Column>, rows: seq<Row>) returns (args: seq<Value>)
    ensures args == FlatArgs(cols, rows)
  {
    args := [];
    for r := 0 to |rows|
      invariant args == FlatArgs(cols, rows[..r])
    {
      ghost var before := args;
      for c := 0 to |cols|
        invariant args == before + ValuesOf(cols, rows[r])[..c]
      {
        args := args + [Get(rows[r], cols[c])];
      }
      assert rows[..r + 1][..r] == rows[..r];
    }
    assert rows[..|rows|] == rows;
  }

  /** upsertOnConflict, upsertMySQL and mergeMSSQL. */
  method BuildUpsert(d: Dialect, parts: seq<string>, keys: seq<Column>, cols: seq<Column>, n: nat)
    returns (text: string)
    ensures text == UpsertText(d, parts, keys, cols, n)
  {
    var q := Quotes(d);
    var table := JoinedList(q, NAME, ".", parts);
    var names := JoinedList(q, NAME, ", ", cols);
    var values := ValuesClause(d, |cols|, n);
    match d {
      case MySQL =>
        var sets := SetList(q, FROM_VALUES, keys, cols);
        text := "INSERT INTO "
          + (table + (" (" + (names + (")" + (" VALUES " + (values + (" ON DUPLICATE KEY UPDATE " + sets)))))));
      case SqlServer =>
        var tail := BuildMergeTail(q, keys, cols);
        text := "MERGE INTO "
          + (table + (" AS tgt USING (VALUES " + (values + (") AS src (" + (names + (")" + tail))))));
      case _ =>
        var conflict := JoinedList(q, NAME, ", ", keys);
        var sets := SetList(q, FROM_EXCLUDED, keys, cols);
        text := "INSERT INTO " + (table + (" (" + (names + (")" + (" VALUES " + (values
          + (" ON CONFLICT (" + (conflict + (") DO UPDATE SET " + sets)))))))));
    }
  }

  /** insertWith. */
  method BuildInsert(d: Dialect, parts: seq<string>, cols: seq<Column>, n: nat) returns (text: string)
    ensures text == InsertText(d, parts, cols, n)
  {
    var q := Quotes(d);
    var table := JoinedList(q, NAME, ".", parts);
    var names := JoinedList(q, NAME, ", ", cols);
    var values := ValuesClause(d, |cols|, n);
    text := "INSERT INTO " + (table + (" (" + (names + (")" + (" VALUES " + values)))));
  }

  /** The insert out of SQL Server's staging table. */
  method BuildStagedInsert(parts: seq<string>, stage: string, cols: seq<Column>) returns (text: string)
    ensures text == InsertStageText(parts, stage, cols)
  {
    var q := Quotes(SqlServer);
    var table := JoinedList(q, NAME, ".", parts);
    var names := JoinedList(q, NAME, ", ", cols);
    text := "INSERT INTO " + (table + (" (" + (names + (")" + (" SELECT " + (names + (" FROM " + Quote(q, stage))))))));
  }

  method BuildMergeTail(q: Quoter, keys: seq<Column>, cols: seq<Column>) returns (text: string)
    ensures text == MergeTail(q, keys, cols)
  {
    var on := JoinedList(q, KEY_MATCH, " AND ", keys);
    var sets := SetList(q, FROM_SOURCE, keys, cols);
    var names := JoinedList(q, NAME, ", ", cols);
    var values := JoinedList(q, SOURCE_VALUE, ", ", cols);
    text := " ON " + (on + (" WHEN MATCHED THEN UPDATE SET " + (sets
            + (" WHEN NOT MATCHED THEN INSERT (" + (names + (") VALUES (" + (values + ");")))))));
  }

  /** mergeFromStage and the PostgreSQL merge out of the staging table. */
  method BuildStaged(d: Dialect, parts: seq<string>, stage: string, keys: seq<Column>, cols: seq<Column>)
    returns (text: string)
    requires d == Postgres || d == SqlServer
    ensures text == StageText(d, parts, stage, keys, cols)
  {
    var q := Quotes(d);
    var table := JoinedList(q, NAME, ".", parts);
    if d == SqlServer {
      var tail := BuildMergeTail(q, keys, cols);
      text := "MERGE INTO " + (table + (" AS tgt USING " + (Quote(q, stage) + (" AS src" + tail))));
    } else {
      var names := JoinedList(q, NAME, ", ", cols);
      var conflict := JoinedList(q, NAME, ", ", keys);
      var sets := SetList(q, FROM_EXCLUDED, keys, cols);
      text := "INSERT INTO " + (table + (" (" + (names + (")" + (" SELECT " + (names + (" FROM " + (Quote(q, stage)
              + (" ON CONFLICT (" + (conflict + (") DO UPDATE SET " + sets)))))))))));
    }
  }

  /** The COPY source: one row's values per successful Next. */
  class RowCopySource {
    const rows: seq<Row>
    const cols: seq<Column>
    var idx: nat
    var cur: seq<Value>

    ghost predicate Valid()
      reads this
    {
      idx <= |rows|
    }

    constructor (rows: seq<Row>, cols: seq<Column>)
      ensures Valid() && this.rows == rows && this.cols == cols && idx == 0
    {
      this.rows, this.cols, idx, cur := rows, cols, 0, [];
    }

    method Next() returns (ok: bool)
      requires Valid()
      modifies this
      ensures Valid()
      ensures ok <==> old(idx) < |rows|
      ensures ok ==> idx == old(idx) + 1 && cur == ValuesOf(cols, rows[old(idx)])
      ensures !ok ==> idx == old(idx) && cur == old(cur)
    {
      if idx >= |rows| { return false; }
      var r := rows[idx];
      cur := [];
      for i := 0 to |cols|
        invariant cur == ValuesOf(cols, r)[..i] && idx == old(idx)
      {
        cur := cur + [Get(r, cols[i])];
      }
      idx := idx + 1;
      ok := true;
    }
  }

  /** COPY drains its source until Next says no. */
  method CopyAll(rows: seq<Row>, cols: seq<Column>) returns (staged: seq<seq<Value>>)
    ensures staged == StagedArgs(cols, rows)
  {
    var src := new RowCopySource(rows, cols);
    staged := [];
    var more := src.Next();
    while more
      invariant src.Valid() && src.rows == rows && src.cols == cols
      invariant |staged| <= |rows| && staged == StagedArgs(cols, rows)[..|staged|]
      invariant src.idx == |staged| + if more then 1 else 0
      invariant more ==> src.cur == ValuesOf(cols, rows[|staged|])
      invariant !more ==> |staged| == |rows|
      decreases |rows| - |staged|
    {
      staged := staged + [src.cur];
      more := src.Next();
    }
  }

  function Concatenated(a: seq<seq<Value>>): seq<Value> {
    if a == [] then [] else Concatenated(a[..|a| - 1]) + a[|a| - 1]
  }

  /** COPY and bound parameters carry the same values in the same order. */
  lemma {:induction false} CopyCarriesArgs(cols: seq<Column>, rows: seq<Row>)
    ensures Concatenated(StagedArgs(cols, rows)) == FlatArgs(cols, rows)
  {
    if rows != [] {
      CopyCarriesArgs(cols, rows[..|rows| - 1]);
      assert StagedArgs(cols, rows)[..|rows| - 1] == StagedArgs(cols, rows[..|rows| - 1]);
    }
  }
}
