/** The upsert and insert statements of the four dialects: their text, the reading of that text, and what running
    it with the flattened arguments does to the target table. */
module Statements {
  import opened Wrappers
  import opened Tables
  import opened SqlText

  // ---- text ----

  function NonKeys(keys: seq<Column>, cols: seq<Column>): (r: seq<Column>)
    ensures forall c :: c in r <==> c in cols && c !in keys
  {
    if cols == [] then []
    else
      var last := cols[|cols| - 1];
      assert cols == cols[..|cols| - 1] + [last];
      NonKeys(keys, cols[..|cols| - 1]) + if last in keys then [] else [last]
  }

  function Head(q: Quoter, parts: seq<string>, cols: seq<Column>, rest: string): string {
    "INSERT INTO " + (Join(q, NAME, ".", parts) + (" (" + (Join(q, NAME, ", ", cols) + (")" + rest))))
  }

  function ConflictTail(q: Quoter, keys: seq<Column>, cols: seq<Column>): string {
    " ON CONFLICT ("
      + (Join(q, NAME, ", ", keys) + (") DO UPDATE SET " + Join(q, FROM_EXCLUDED, ", ", NonKeys(keys, cols))))
  }

  function DuplicateTail(q: Quoter, keys: seq<Column>, cols: seq<Column>): string {
    " ON DUPLICATE KEY UPDATE " + Join(q, FROM_VALUES, ", ", NonKeys(keys, cols))
  }

  function InsertTail(q: Quoter, cols: seq<Column>): string {
    " WHEN NOT MATCHED THEN INSERT ("
      + (Join(q, NAME, ", ", cols) + (") VALUES (" + (Join(q, SOURCE_VALUE, ", ", cols) + ");")))
  }

  function MergeTail(q: Quoter, keys: seq<Column>, cols: seq<Column>): string {
    " ON " + (Join(q, KEY_MATCH, " AND ", keys)
              + (" WHEN MATCHED THEN UPDATE SET "
                + (Join(q, FROM_SOURCE, ", ", NonKeys(keys, cols)) + InsertTail(q, cols))))
  }

  /** The multi-row upsert over bound parameters. */
  function UpsertText(d: Dialect, parts: seq<string>, keys: seq<Column>, cols: seq<Column>, n: nat): string {
    var q := Quotes(d);
    var rows := RowsText(d, |cols|, 0, n);
    match d
    case MySQL => Head(q, parts, cols, " VALUES " + (rows + DuplicateTail(q, keys, cols)))
    case SqlServer =>
      "MERGE INTO " + (Join(q, NAME, ".", parts) + (" AS tgt USING (VALUES " + (rows + (") AS src ("
      + (Join(q, NAME, ", ", cols) + (")" + MergeTail(q, keys, cols)))))))
    case _ => Head(q, parts, cols, " VALUES " + (rows + ConflictTail(q, keys, cols)))
  }

  /** The upsert that applies a filled staging table (PostgreSQL and SQL Server bulk loads). */
  function StageText(d: Dialect, parts: seq<string>, stage: string, keys: seq<Column>, cols: seq<Column>): string {
    var q := Quotes(d);
    if d == SqlServer then
      "MERGE INTO "
        + (Join(q, NAME, ".", parts) + (" AS tgt USING " + (Quote(q, stage) + (" AS src" + MergeTail(q, keys, cols)))))
    else
      Head(q, parts, cols, " SELECT "
        + (Join(q, NAME, ", ", cols) + (" FROM " + (Quote(q, stage) + ConflictTail(q, keys, cols)))))
  }

  /** The multi-row insert over bound parameters. */
  function InsertText(d: Dialect, parts: seq<string>, cols: seq<Column>, n: nat): string {
    Head(Quotes(d), parts, cols, " VALUES " + RowsText(d, |cols|, 0, n))
  }

  /** The insert of a filled staging table (SQL Server bulk loads without keys). */
  function InsertStageText(parts: seq<string>, stage: string, cols: seq<Column>): string {
    var q := Quotes(SqlServer);
    Head(q, parts, cols, " SELECT " + (Join(q, NAME, ", ", cols) + (" FROM " + Quote(q, stage))))
  }

  // ---- reading ----

  datatype Source = Values(cells: seq<seq<nat>>) | Stage(name: string)

  /** A statement: target table, the names of the source columns, where source rows come from, and what the
      target's columns are matched with, set to and inserted as.  A plain insert matches and sets none. */
  datatype Statement = Statement(
    table: seq<string>, columns: seq<Column>, source: Source,
    on: seq<Entry>, sets: seq<Entry>, inserts: seq<Entry>)

  function NamesOf(ps: seq<Entry>): (r: seq<string>)
    ensures |r| == |ps|
  {
    seq(|ps|, i requires 0 <= i < |ps| => ps[i].name)
  }

  lemma NamesOfNew(cs: seq<string>)
    ensures NamesOf(FromNew(cs)) == cs
  {
  }

  /** The columns of one list from those of another, position by position. */
  function Zip(a: seq<Entry>, b: seq<Entry>): Option<seq<Entry>> {
    if |a| == |b| then Some(seq(|a|, i requires 0 <= i < |a| => Entry(a[i].name, b[i].operand))) else None
  }

  lemma ZipNew(cs: seq<string>)
    ensures Zip(FromNew(cs), FromNew(cs)) == Some(FromNew(cs))
  {
    var ps := FromNew(cs);
    assert seq(|ps|, i requires 0 <= i < |ps| => Entry(ps[i].name, ps[i].operand)) == ps;
  }

  function ReadHead(d: Dialect, s: string): Option<(seq<Entry>, seq<Entry>, string)> {
    var s1 :- Expect(s, "INSERT INTO ");
    var (parts, s2) :- ReadList(d, Name, ".", s1);
    var s3 :- Expect(s2, " (");
    var (cols, s4) :- ReadList(d, Name, ", ", s3);
    var s5 :- Expect(s4, ")");
    Some((parts, cols, s5))
  }

  function ReadConflictTail(d: Dialect, s: string): Option<(seq<Entry>, seq<Entry>)> {
    var s1 :- Expect(s, " ON CONFLICT (");
    var (keys, s2) :- ReadList(d, Name, ", ", s1);
    var s3 :- Expect(s2, ") DO UPDATE SET ");
    var (sets, s4) :- ReadList(d, Assignment, ", ", s3);
    if s4 == "" then Some((keys, sets)) else None
  }

  function ReadDuplicateTail(d: Dialect, s: string): Option<seq<Entry>> {
    var s1 :- Expect(s, " ON DUPLICATE KEY UPDATE ");
    var (sets, s2) :- ReadList(d, Assignment, ", ", s1);
    if s2 == "" then Some(sets) else None
  }

  function ReadInsertTail(d: Dialect, s: string): Option<seq<Entry>> {
    var s1 :- Expect(s, " WHEN NOT MATCHED THEN INSERT (");
    var (cols, s2) :- ReadList(d, Name, ", ", s1);
    var s3 :- Expect(s2, ") VALUES (");
    var (vals, s4) :- ReadList(d, FromSource, ", ", s3);
    if s4 == ");" then Zip(cols, vals) else None
  }

  function ReadMergeTail(d: Dialect, s: string): Option<(seq<Entry>, seq<Entry>, seq<Entry>)> {
    var s1 :- Expect(s, " ON ");
    var (on, s2) :- ReadList(d, Match, " AND ", s1);
    var s3 :- Expect(s2, " WHEN MATCHED THEN UPDATE SET ");
    var (sets, s4) :- ReadList(d, Assignment, ", ", s3);
    var inserts :- ReadInsertTail(d, s4);
    Some((on, sets, inserts))
  }

  /** `index` is the target's unique index, which MySQL's statement leaves unnamed. */
  function ReadUpsert(d: Dialect, index: seq<Column>, s: string): Option<Statement> {
    if d == SqlServer then
      var s1 :- Expect(s, "MERGE INTO ");
      var (parts, s2) :- ReadList(d, Name, ".", s1);
      var s3 :- Expect(s2, " AS tgt USING (VALUES ");
      var (cells, s4) :- ReadRows(d, 0, s3);
      var s5 :- Expect(s4, ") AS src (");
      var (cols, s6) :- ReadList(d, Name, ", ", s5);
      var s7 :- Expect(s6, ")");
      var (on, sets, inserts) :- ReadMergeTail(d, s7);
      Some(Statement(NamesOf(parts), NamesOf(cols), Values(cells), on, sets, inserts))
    else
      var (parts, cols, s1) :- ReadHead(d, s);
      var s2 :- Expect(s1, " VALUES ");
      var (cells, s3) :- ReadRows(d, 0, s2);
      if d == MySQL then
        var sets :- ReadDuplicateTail(d, s3);
        Some(Statement(NamesOf(parts), NamesOf(cols), Values(cells), FromNew(index), sets, FromNew(NamesOf(cols))))
      else
        var (keys, sets) :- ReadConflictTail(d, s3);
        Some(Statement(NamesOf(parts), NamesOf(cols), Values(cells), keys, sets, FromNew(NamesOf(cols))))
  }

  /** A staging table carries exactly the columns it was created with. */
  function ReadStaged(d: Dialect, columns: seq<Column>, s: string): Option<Statement> {
    if d == SqlServer then
      var s1 :- Expect(s, "MERGE INTO ");
      var (parts, s2) :- ReadList(d, Name, ".", s1);
      var s3 :- Expect(s2, " AS tgt USING ");
      var (stage, s4) :- ReadName(d, s3);
      var s5 :- Expect(s4, " AS src");
      var (on, sets, inserts) :- ReadMergeTail(d, s5);
      Some(Statement(NamesOf(parts), columns, Stage(stage), on, sets, inserts))
    else
      var (parts, cols, s1) :- ReadHead(d, s);
      var s2 :- Expect(s1, " SELECT ");
      var (vals, s3) :- ReadList(d, Name, ", ", s2);
      var s4 :- Expect(s3, " FROM ");
      var (stage, s5) :- ReadName(d, s4);
      var (keys, sets) :- ReadConflictTail(d, s5);
      var inserts :- Zip(cols, vals);
      Some(Statement(NamesOf(parts), columns, Stage(stage), keys, sets, inserts))
  }

  function ReadInsert(d: Dialect, s: string): Option<Statement> {
    var (parts, cols, s1) :- ReadHead(d, s);
    var s2 :- Expect(s1, " VALUES ");
    var (cells, s3) :- ReadRows(d, 0, s2);
    if s3 != "" then None
    else Some(Statement(NamesOf(parts), NamesOf(cols), Values(cells), [], [], FromNew(NamesOf(cols))))
  }

  function ReadStagedInsert(d: Dialect, columns: seq<Column>, s: string): Option<Statement> {
    var (parts, cols, s1) :- ReadHead(d, s);
    var s2 :- Expect(s1, " SELECT ");
    var (vals, s3) :- ReadList(d, Name, ", ", s2);
    var s4 :- Expect(s3, " FROM ");
    var (stage, s5) :- ReadName(d, s4);
    var inserts :- Zip(cols, vals);
    if s5 != "" then None else Some(Statement(NamesOf(parts), columns, Stage(stage), [], [], inserts))
  }

  // ---- the readers recover the statements ----

  lemma EmptyListFails(d: Dialect, sep: string, rest: string)
    requires rest == "" || rest[0] != Delimiters(d).open
    ensures ReadList(d, Assignment, sep, "" + rest).None?
  {
    hide ReadOperand, Expect, ScanBody;
    assert "" + rest == rest;
  }

  lemma HeadRoundTrip(d: Dialect, parts: seq<string>, cols: seq<Column>, rest: string)
    requires parts != [] && cols != []
    ensures ReadHead(d, Head(Quotes(d), parts, cols, rest)) == Some((FromNew(parts), FromNew(cols), rest))
  {
    hide Expect, ReadList, Join, FromNew;
    var q := Quotes(d);
    var s4 := ")" + rest;
    var s3 := Join(q, NAME, ", ", cols) + s4;
    var s2 := " (" + s3;
    ExpectAfter(")", rest);
    ListRoundTrip(d, Name, ", ", cols, s4);
    ExpectAfter(" (", s3);
    ListRoundTrip(d, Name, ".", parts, s2);
    ExpectAfter("INSERT INTO ", Join(q, NAME, ".", parts) + s2);
  }

  lemma JoinEnd(q: Quoter, tm: Template, sep: string, cs: seq<string>)
    ensures Join(q, tm, sep, cs) == Join(q, tm, sep, cs) + ""
  {
  }

  lemma SetListReads(d: Dialect, cs: seq<Column>, rest: string)
    requires rest == "" || rest[0] == ' '
    ensures ReadList(d, Assignment, ", ", Join(Quotes(d), Written(d, Assignment), ", ", cs) + rest)
            == if cs == [] then None else Some((FromNew(cs), rest))
  {
    hide ReadList, Render, Written;
    if cs == [] {
      EmptyListFails(d, ", ", rest);
    } else {
      ListRoundTrip(d, Assignment, ", ", cs, rest);
    }
  }

  lemma ConflictTailRoundTrip(d: Dialect, keys: seq<Column>, cols: seq<Column>)
    requires (d == Postgres || d == SQLite) && keys != []
    ensures ReadConflictTail(d, ConflictTail(Quotes(d), keys, cols))
            == if NonKeys(keys, cols) == [] then None else Some((FromNew(keys), FromNew(NonKeys(keys, cols))))
  {
    hide Expect, ReadList, Join, FromNew, NonKeys;
    var q := Quotes(d);
    var sets := Join(q, FROM_EXCLUDED, ", ", NonKeys(keys, cols));
    var s2 := ") DO UPDATE SET " + sets;
    ExpectAfter(") DO UPDATE SET ", sets);
    ListRoundTrip(d, Name, ", ", keys, s2);
    ExpectAfter(" ON CONFLICT (", Join(q, NAME, ", ", keys) + s2);
    SetListReads(d, NonKeys(keys, cols), "");
    JoinEnd(q, FROM_EXCLUDED, ", ", NonKeys(keys, cols));
  }

  lemma DuplicateTailRoundTrip(keys: seq<Column>, cols: seq<Column>)
    ensures ReadDuplicateTail(MySQL, DuplicateTail(Quotes(MySQL), keys, cols))
            == if NonKeys(keys, cols) == [] then None else Some(FromNew(NonKeys(keys, cols)))
  {
    hide Expect, ReadList, Join, FromNew, NonKeys;
    var q := Quotes(MySQL);
    ExpectAfter(" ON DUPLICATE KEY UPDATE ", Join(q, FROM_VALUES, ", ", NonKeys(keys, cols)));
    SetListReads(MySQL, NonKeys(keys, cols), "");
    JoinEnd(q, FROM_VALUES, ", ", NonKeys(keys, cols));
  }

  lemma InsertTailRoundTrip(cols: seq<Column>)
    requires cols != []
    ensures ReadInsertTail(SqlServer, InsertTail(Quotes(SqlServer), cols)) == Some(FromNew(cols))
  {
    hide Expect, ReadList, Join, FromNew, Zip;
    var q := Quotes(SqlServer);
    var s3 := Join(q, SOURCE_VALUE, ", ", cols) + ");";
    ListRoundTrip(SqlServer, FromSource, ", ", cols, ");");
    ExpectAfter(") VALUES (", s3);
    ListRoundTrip(SqlServer, Name, ", ", cols, ") VALUES (" + s3);
    ExpectAfter(" WHEN NOT MATCHED THEN INSERT (", Join(q, NAME, ", ", cols) + (") VALUES (" + s3));
    ZipNew(cols);
  }

  lemma MergeTailRoundTrip(keys: seq<Column>, cols: seq<Column>)
    requires keys != [] && cols != []
    ensures ReadMergeTail(SqlServer, MergeTail(Quotes(SqlServer), keys, cols))
            == if NonKeys(keys, cols) == [] then None
               else Some((FromNew(keys), FromNew(NonKeys(keys, cols)), FromNew(cols)))
  {
    hide Expect, ReadList, Join, FromNew, NonKeys, ReadInsertTail;
    var q := Quotes(SqlServer);
    var s4 := InsertTail(q, cols);
    assert s4[0] == ' ';
    hide InsertTail;
    var s3 := Join(q, FROM_SOURCE, ", ", NonKeys(keys, cols)) + s4;
    var s2 := " WHEN MATCHED THEN UPDATE SET " + s3;
    InsertTailRoundTrip(cols);
    SetListReads(SqlServer, NonKeys(keys, cols), s4);
    ExpectAfter(" WHEN MATCHED THEN UPDATE SET ", s3);
    assert s2[1] == 'W' && " AND "[1] == 'A';
    ListRoundTrip(SqlServer, Match, " AND ", keys, s2);
    ExpectAfter(" ON ", Join(q, KEY_MATCH, " AND ", keys) + s2);
  }

  /** What the multi-row upsert text says: rows of parameters, matched on the keys, every other column set to
      the new row's value, every column inserted. */
  function Intended(parts: seq<string>, keys: seq<Column>, cols: seq<Column>, n: nat): Statement {
    Statement(parts, cols, Values(Matrix(|cols|, 0, n)), FromNew(keys), FromNew(NonKeys(keys, cols)), FromNew(cols))
  }

  function IntendedStaged(parts: seq<string>, stage: string, keys: seq<Column>, cols: seq<Column>): Statement {
    Statement(parts, cols, Stage(stage), FromNew(keys), FromNew(NonKeys(keys, cols)), FromNew(cols))
  }

  /** In its dialect's grammar the text of a multi-row upsert reads back as the statement meant, for any names,
      if and only if some synced column is not a key; otherwise it is no statement at all. */
  lemma UpsertTextReads(d: Dialect, parts: seq<string>, keys: seq<Column>, cols: seq<Column>, n: nat)
    requires parts != [] && keys != [] && cols != [] && n > 0
    ensures ReadUpsert(d, keys, UpsertText(d, parts, keys, cols, n))
            == if NonKeys(keys, cols) == [] then None else Some(Intended(parts, keys, cols, n))
  {
    hide Expect, ReadList, Join, FromNew, NonKeys, ReadRows, RowsText, Matrix, Head, ReadHead, NamesOf;
    hide ReadMergeTail, ReadConflictTail, ReadDuplicateTail;
    NamesOfNew(parts);
    NamesOfNew(cols);
    var q := Quotes(d);
    var rows := RowsText(d, |cols|, 0, n);
    if d == SqlServer {
      var tail := MergeTail(q, keys, cols);
      hide MergeTail;
      var s5 := Join(q, NAME, ", ", cols) + (")" + tail);
      var s3 := rows + (") AS src (" + s5);
      var s2 := " AS tgt USING (VALUES " + s3;
      MergeTailRoundTrip(keys, cols);
      ExpectAfter(")", tail);
      ListRoundTrip(d, Name, ", ", cols, ")" + tail);
      ExpectAfter(") AS src (", s5);
      RowsRoundTrip(d, |cols|, 0, n, ") AS src (" + s5);
      ExpectAfter(" AS tgt USING (VALUES ", s3);
      ListRoundTrip(d, Name, ".", parts, s2);
      ExpectAfter("MERGE INTO ", Join(q, NAME, ".", parts) + s2);
    } else {
      var tail := if d == MySQL then DuplicateTail(q, keys, cols) else ConflictTail(q, keys, cols);
      assert tail[0] == ' ';
      hide DuplicateTail, ConflictTail;
      HeadRoundTrip(d, parts, cols, " VALUES " + (rows + tail));
      ExpectAfter(" VALUES ", rows + tail);
      RowsRoundTrip(d, |cols|, 0, n, tail);
      if d == MySQL { DuplicateTailRoundTrip(keys, cols); } else { ConflictTailRoundTrip(d, keys, cols); }
    }
  }

  /** The same for the statement that applies a staging table. */
  lemma StageTextReads(d: Dialect, parts: seq<string>, stage: string, keys: seq<Column>, cols: seq<Column>)
    requires d == Postgres || d == SqlServer
    requires parts != [] && keys != [] && cols != []
    ensures ReadStaged(d, cols, StageText(d, parts, stage, keys, cols))
            == if NonKeys(keys, cols) == [] then None
               else Some(IntendedStaged(parts, stage, keys, cols))
  {
    hide Expect, ReadList, Join, FromNew, NonKeys, Head, ReadHead, NamesOf, Zip, ReadName, Quote;
    hide ReadMergeTail, ReadConflictTail;
    NamesOfNew(parts);
    ZipNew(cols);
    var q := Quotes(d);
    if d == SqlServer {
      var tail := MergeTail(q, keys, cols);
      hide MergeTail;
      var s4 := " AS src" + tail;
      var s2 := " AS tgt USING " + (Quote(q, stage) + s4);
      MergeTailRoundTrip(keys, cols);
      ExpectAfter(" AS src", tail);
      NameReads(d, stage, s4);
      ExpectAfter(" AS tgt USING ", Quote(q, stage) + s4);
      ListRoundTrip(d, Name, ".", parts, s2);
      ExpectAfter("MERGE INTO ", Join(q, NAME, ".", parts) + s2);
    } else {
      var tail := ConflictTail(q, keys, cols);
      assert tail[0] == ' ';
      hide ConflictTail;
      var s3 := " FROM " + (Quote(q, stage) + tail);
      ConflictTailRoundTrip(d, keys, cols);
      NameReads(d, stage, tail);
      ExpectAfter(" FROM ", Quote(q, stage) + tail);
      ListRoundTrip(d, Name, ", ", cols, s3);
      ExpectAfter(" SELECT ", Join(q, NAME, ", ", cols) + s3);
      HeadRoundTrip(d, parts, cols, " SELECT " + (Join(q, NAME, ", ", cols) + s3));
    }
  }

  /** The text of a multi-row insert reads back as the insert meant, for any names. */
  lemma InsertTextReads(d: Dialect, parts: seq<string>, cols: seq<Column>, n: nat)
    requires parts != [] && cols != [] && n > 0
    ensures ReadInsert(d, InsertText(d, parts, cols, n))
            == Some(Statement(parts, cols, Values(Matrix(|cols|, 0, n)), [], [], FromNew(cols)))
  {
    hide Expect, ReadList, Join, FromNew, ReadRows, RowsText, Matrix, Head, ReadHead, NamesOf;
    NamesOfNew(parts);
    NamesOfNew(cols);
    var rows := RowsText(d, |cols|, 0, n);
    HeadRoundTrip(d, parts, cols, " VALUES " + rows);
    ExpectAfter(" VALUES ", rows);
    RowsRoundTrip(d, |cols|, 0, n, "");
    assert rows + "" == rows;
  }

  /** The same for the insert of a staging table. */
  lemma InsertStageTextReads(parts: seq<string>, stage: string, cols: seq<Column>)
    requires parts != [] && cols != []
    ensures ReadStagedInsert(SqlServer, cols, InsertStageText(parts, stage, cols))
            == Some(Statement(parts, cols, Stage(stage), [], [], FromNew(cols)))
  {
    hide Expect, ReadList, Join, FromNew, Head, ReadHead, NamesOf, Zip, ReadName, Quote;
    var q := Quotes(SqlServer);
    NamesOfNew(parts);
    ZipNew(cols);
    var s4 := Quote(q, stage);
    var s3 := " FROM " + s4;
    NameReads(SqlServer, stage, "");
    assert s4 + "" == s4;
    ExpectAfter(" FROM ", s4);
    ListRoundTrip(SqlServer, Name, ", ", cols, s3);
    ExpectAfter(" SELECT ", Join(q, NAME, ", ", cols) + s3);
    HeadRoundTrip(SqlServer, parts, cols, " SELECT " + (Join(q, NAME, ", ", cols) + s3));
  }
}
