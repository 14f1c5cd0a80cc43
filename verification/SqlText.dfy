/** Identifier quoting, lists of quoted names, the VALUES clause, and for each a reader that follows the
    grammar of the dialect. */
module SqlText {
  import opened Wrappers
  import opened Text

  datatype Dialect = Postgres | MySQL | SQLite | SqlServer

  /** The delimiters of a quoted name or string literal. */
  datatype Quoter = Quoter(open: char, close: char)

  const DOUBLE := Quoter('"', '"')
  const BACKTICK := Quoter('`', '`')
  const BRACKET := Quoter('[', ']')

  /** How the connectors quote names. */
  function Quotes(d: Dialect): Quoter {
    match d
    case MySQL => BACKTICK
    case SqlServer => BRACKET
    case _ => DOUBLE
  }

  /** What delimits a name in each dialect. */
  function Delimiters(d: Dialect): Quoter {
    match d
    case MySQL => Quoter('`', '`')
    case SqlServer => Quoter('[', ']')
    case _ => Quoter('"', '"')
  }

  function Quote(q: Quoter, s: string): string {
    [q.open] + ReplaceAll(s, [q.close], [q.close, q.close]) + [q.close]
  }

  /** Sections 5.2 and 5.3 of ISO/IEC 9075:1992: inside the delimiters a doubled closing delimiter
      stands for one, a single one ends the token. */
  function ScanBody(c: char, s: string): (r: Option<(string, string)>)
    ensures r.Some? ==> |r.value.1| < |s|
  {
    if s == "" then None
    else if s[0] != c then
      var (name, rest) :- ScanBody(c, s[1..]);
      Some(([s[0]] + name, rest))
    else if |s| > 1 && s[1] == c then
      var (name, rest) :- ScanBody(c, s[2..]);
      Some(([c] + name, rest))
    else Some(("", s[1..]))
  }

  function ScanQuoted(q: Quoter, s: string): (r: Option<(string, string)>)
    ensures r.Some? ==> |r.value.1| < |s|
  {
    if s == "" || s[0] != q.open then None else ScanBody(q.close, s[1..])
  }

  predicate Ends(q: Quoter, rest: string) { rest == "" || rest[0] != q.close }

  lemma DoublingStep(c: char, s: string)
    requires s != ""
    ensures ReplaceAll(s, [c], [c, c]) == (if s[0] == c then [c, c] else [s[0]]) + ReplaceAll(s[1..], [c], [c, c])
  {
  }

  lemma {:induction false} BodyRoundTrip(c: char, s: string, rest: string)
    requires rest == "" || rest[0] != c
    ensures ScanBody(c, ReplaceAll(s, [c], [c, c]) + ([c] + rest)) == Some((s, rest))
  {
    var text := ReplaceAll(s, [c], [c, c]) + ([c] + rest);
    if s == "" {
      assert text == [c] + rest;
    } else {
      hide ReplaceAll;
      BodyRoundTrip(c, s[1..], rest);
      DoublingStep(c, s);
      var tail := ReplaceAll(s[1..], [c], [c, c]) + ([c] + rest);
      assert text == (if s[0] == c then [c, c] else [s[0]]) + tail;
      assert if s[0] == c then text[2..] == tail else text[1..] == tail;
      assert s == [s[0]] + s[1..];
    }
  }

  lemma {:induction false} BodyReadsOn(c: char, s: string, rest: string)
    requires rest != "" && rest[0] == c
    ensures var r := ScanBody(c, ReplaceAll(s, [c], [c, c]) + ([c] + rest));
            r.Some? ==> |r.value.0| > |s|
  {
    var text := ReplaceAll(s, [c], [c, c]) + ([c] + rest);
    if s == "" {
      assert text == [c] + rest && text[1] == c;
    } else {
      hide ReplaceAll;
      BodyReadsOn(c, s[1..], rest);
      DoublingStep(c, s);
      var tail := ReplaceAll(s[1..], [c], [c, c]) + ([c] + rest);
      assert text == (if s[0] == c then [c, c] else [s[0]]) + tail;
      assert if s[0] == c then text[2..] == tail else text[1..] == tail;
    }
  }

  /** Any string survives quoting, and the scan stops exactly at the closing delimiter if and only if
      the text that follows does not begin with one. */
  lemma QuoteRoundTrip(q: Quoter, s: string, rest: string)
    ensures ScanQuoted(q, Quote(q, s) + rest) == Some((s, rest)) <==> Ends(q, rest)
  {
    var text := Quote(q, s) + rest;
    assert text[1..] == ReplaceAll(s, [q.close], [q.close, q.close]) + ([q.close] + rest);
    if Ends(q, rest) {
      BodyRoundTrip(q.close, s, rest);
    } else {
      BodyReadsOn(q.close, s, rest);
    }
  }

  // ---- joined lists ----

  /** One list element: a name, or the same name on both sides of an assignment or comparison. */
  datatype Template = One(pre: string) | Two(pre: string, mid: string, post: string)

  const NAME := One("")
  const SOURCE_VALUE := One("src.")
  const FROM_EXCLUDED := Two("", " = excluded.", "")
  const FROM_VALUES := Two("", " = VALUES(", ")")
  const FROM_SOURCE := Two("", " = src.", "")
  const KEY_MATCH := Two("tgt.", " = src.", "")

  function Render(q: Quoter, tm: Template, c: string): string {
    match tm
    case One(pre) => pre + Quote(q, c)
    case Two(pre, mid, post) => pre + (Quote(q, c) + (mid + (Quote(q, c) + post)))
  }

  /** Go's strings.Join over the rendered elements. */
  function Join(q: Quoter, tm: Template, sep: string, cs: seq<string>): string {
    if cs == [] then ""
    else if |cs| == 1 then Render(q, tm, cs[0])
    else Render(q, tm, cs[0]) + (sep + Join(q, tm, sep, cs[1..]))
  }

  // ---- reading lists ----

  function Expect(s: string, lit: string): (r: Option<string>)
    ensures r.Some? ==> s == lit + r.value
  {
    if lit <= s then Some(s[|lit|..]) else None
  }

  /** Where a value comes from: the row that is being put in, or the row that is there. */
  datatype Operand = New(column: string) | Old(column: string)

  datatype Entry = Entry(name: string, operand: Operand)

  /** The kinds of list elements: a name; `name = value` in a SET list; a pair of columns matched in a MERGE's ON;
      and a value of a MERGE's source. */
  datatype Item = Name | Assignment | Match | FromSource

  function ReadName(d: Dialect, s: string): (r: Option<(string, string)>)
    ensures r.Some? ==> |r.value.1| < |s|
  {
    ScanQuoted(Delimiters(d), s)
  }

  /** The right side of an assignment.  The new row is `excluded` in PostgreSQL and SQLite, VALUES(…) in MySQL,
      and the source `src` of a MERGE, whose target is `tgt`.  A bare name is the row's own old value, but
      ambiguous in PostgreSQL and in a MERGE. */
  function ReadOperand(d: Dialect, s: string): (r: Option<(Operand, string)>)
    ensures r.Some? ==> |r.value.1| < |s|
  {
    if d == SqlServer then
      if "src." <= s then
        var (c, s1) :- ReadName(d, s[4..]);
        Some((New(c), s1))
      else
        var s0 :- Expect(s, "tgt.");
        var (c, s1) :- ReadName(d, s0);
        Some((Old(c), s1))
    else if d == MySQL && "VALUES(" <= s then
      var (c, s1) :- ReadName(d, s[7..]);
      var s2 :- Expect(s1, ")");
      Some((New(c), s2))
    else if d != MySQL && "excluded." <= s then
      var (c, s1) :- ReadName(d, s[9..]);
      Some((New(c), s1))
    else if d == Postgres then None
    else
      var (c, s1) :- ReadName(d, s);
      Some((Old(c), s1))
  }

  function ReadItem(d: Dialect, kind: Item, s: string): (r: Option<(Entry, string)>)
    ensures r.Some? ==> |r.value.1| < |s|
  {
    match kind
    case Name =>
      var (c, s1) :- ReadName(d, s);
      Some((Entry(c, New(c)), s1))
    case Assignment =>
      var (c, s1) :- ReadName(d, s);
      var s2 :- Expect(s1, " = ");
      var (o, s3) :- ReadOperand(d, s2);
      Some((Entry(c, o), s3))
    case Match =>
      var s1 :- Expect(s, "tgt.");
      var (c, s2) :- ReadName(d, s1);
      var s3 :- Expect(s2, " = src.");
      var (o, s4) :- ReadName(d, s3);
      Some((Entry(c, New(o)), s4))
    case FromSource =>
      var s1 :- Expect(s, "src.");
      var (c, s2) :- ReadName(d, s1);
      Some((Entry(c, New(c)), s2))
  }

  function ReadList(d: Dialect, kind: Item, sep: string, s: string): Option<(seq<Entry>, string)>
    decreases |s|
  {
    var (p, rest) :- ReadItem(d, kind, s);
    if sep <= rest then
      var (ps, rest') :- ReadList(d, kind, sep, rest[|sep|..]);
      Some(([p] + ps, rest'))
    else Some(([p], rest))
  }

  /** Each column from the same column of the new row. */
  function FromNew(cs: seq<string>): (ps: seq<Entry>)
    ensures |ps| == |cs|
  {
    seq(|cs|, i requires 0 <= i < |cs| => Entry(cs[i], New(cs[i])))
  }

  // ---- the readers recover the lists ----

  lemma ExpectAfter(lit: string, rest: string)
    ensures Expect(lit + rest, lit) == Some(rest)
  {
  }

  /** What the connectors write for each kind of element. */
  function Written(d: Dialect, kind: Item): Template {
    match kind
    case Name => NAME
    case Assignment => (match d case MySQL => FROM_VALUES case SqlServer => FROM_SOURCE case _ => FROM_EXCLUDED)
    case Match => KEY_MATCH
    case FromSource => SOURCE_VALUE
  }

  lemma NameReads(d: Dialect, c: string, rest: string)
    requires Ends(Delimiters(d), rest)
    ensures ReadName(d, Quote(Quotes(d), c) + rest) == Some((c, rest))
  {
    hide ScanQuoted, Quote;
    QuoteRoundTrip(Delimiters(d), c, rest);
  }

  /** The right side of an assignment as the connectors write it, and what follows. */
  function OperandText(d: Dialect, x: string, rest: string): string {
    match d
    case MySQL => "VALUES(" + (x + (")" + rest))
    case SqlServer => "src." + (x + ("" + rest))
    case _ => "excluded." + (x + ("" + rest))
  }

  lemma OperandReads(d: Dialect, c: string, rest: string)
    requires d == MySQL || Ends(Delimiters(d), rest)
    ensures ReadOperand(d, OperandText(d, Quote(Quotes(d), c), rest)) == Some((New(c), rest))
  {
    hide ReadName, Quote, Expect;
    var x := Quote(Quotes(d), c);
    assert "" + rest == rest;
    if d == MySQL {
      var s1 := x + (")" + rest);
      NameReads(d, c, ")" + rest);
      ExpectAfter(")", rest);
      assert "VALUES(" <= "VALUES(" + s1 && ("VALUES(" + s1)[7..] == s1;
    } else {
      NameReads(d, c, rest);
      var s1 := x + rest;
      assert "src." <= "src." + s1 && ("src." + s1)[4..] == s1;
      assert "excluded." <= "excluded." + s1 && ("excluded." + s1)[9..] == s1;
    }
  }

  /** Without its qualifier the name would be the row's own old value, or ambiguous. */
  lemma BareOperandReads(d: Dialect, c: string, rest: string)
    requires Ends(Delimiters(d), rest)
    ensures ReadOperand(d, Quote(Quotes(d), c) + rest)
            == if d == MySQL || d == SQLite then Some((Old(c), rest)) else None
  {
    hide ScanQuoted;
    NameReads(d, c, rest);
    var s := Quote(Quotes(d), c) + rest;
    assert s[0] == Delimiters(d).open;
    assert "src."[0] == 's' && "tgt."[0] == 't' && "excluded."[0] == 'e' && "VALUES("[0] == 'V';
  }

  lemma Regroup(x: string, mid: string, post: string, rest: string, pre: string, lit: string)
    requires mid == pre + lit
    ensures "" + (x + (mid + (x + post))) + rest == x + (pre + (lit + (x + (post + rest))))
  {
  }

  lemma AssignmentText(d: Dialect, c: string, rest: string)
    ensures Render(Quotes(d), Written(d, Assignment), c) + rest
            == Quote(Quotes(d), c) + (" = " + OperandText(d, Quote(Quotes(d), c), rest))
  {
    hide Quote;
    var x := Quote(Quotes(d), c);
    match d
    case MySQL => Regroup(x, " = VALUES(", ")", rest, " = ", "VALUES(");
    case SqlServer => Regroup(x, " = src.", "", rest, " = ", "src.");
    case _ => Regroup(x, " = excluded.", "", rest, " = ", "excluded.");
  }

  lemma AssignmentReads(d: Dialect, c: string, rest: string)
    requires d == MySQL || Ends(Delimiters(d), rest)
    ensures ReadItem(d, Assignment, Render(Quotes(d), Written(d, Assignment), c) + rest)
            == Some((Entry(c, New(c)), rest))
  {
    hide ReadName, ReadOperand, Quote, Expect, Render, OperandText;
    var s2 := OperandText(d, Quote(Quotes(d), c), rest);
    OperandReads(d, c, rest);
    ExpectAfter(" = ", s2);
    NameReads(d, c, " = " + s2);
    AssignmentText(d, c, rest);
  }

  lemma MatchReads(d: Dialect, c: string, rest: string)
    requires Ends(Delimiters(d), rest)
    ensures ReadItem(d, Match, Render(Quotes(d), KEY_MATCH, c) + rest) == Some((Entry(c, New(c)), rest))
  {
    hide ReadName, Quote, Expect;
    var x := Quote(Quotes(d), c);
    var s2 := " = src." + (x + rest);
    NameReads(d, c, rest);
    ExpectAfter(" = src.", x + rest);
    NameReads(d, c, s2);
    ExpectAfter("tgt.", x + s2);
    assert Render(Quotes(d), KEY_MATCH, c) + rest == "tgt." + (x + s2);
  }

  lemma ItemReads(d: Dialect, kind: Item, c: string, rest: string)
    requires (d == MySQL && kind == Assignment) || Ends(Delimiters(d), rest)
    ensures ReadItem(d, kind, Render(Quotes(d), Written(d, kind), c) + rest) == Some((Entry(c, New(c)), rest))
  {
    hide ReadName, Quote, Expect;
    match kind
    case Name =>
      NameReads(d, c, rest);
      assert Render(Quotes(d), NAME, c) + rest == Quote(Quotes(d), c) + rest;
    case Assignment => AssignmentReads(d, c, rest);
    case Match => MatchReads(d, c, rest);
    case FromSource =>
      NameReads(d, c, rest);
      ExpectAfter("src.", Quote(Quotes(d), c) + rest);
      assert Render(Quotes(d), SOURCE_VALUE, c) + rest == "src." + (Quote(Quotes(d), c) + rest);
  }

  /** A non-empty list as the connectors join it reads back as exactly its elements, whatever characters they
      hold, each with the new row's value. */
  lemma {:induction false} ListRoundTrip(d: Dialect, kind: Item, sep: string, cs: seq<string>, rest: string)
    requires cs != [] && sep != "" && sep[0] != Delimiters(d).close
    requires Ends(Delimiters(d), rest) && !(sep <= rest)
    ensures ReadList(d, kind, sep, Join(Quotes(d), Written(d, kind), sep, cs) + rest) == Some((FromNew(cs), rest))
  {
    hide Render, ReadItem, Written;
    var q, tm := Quotes(d), Written(d, kind);
    if |cs| == 1 {
      ItemReads(d, kind, cs[0], rest);
      assert FromNew(cs) == [Entry(cs[0], New(cs[0]))];
    } else {
      var tail := Join(q, tm, sep, cs[1..]) + rest;
      ListRoundTrip(d, kind, sep, cs[1..], rest);
      ItemReads(d, kind, cs[0], sep + tail);
      assert Join(q, tm, sep, cs) + rest == Render(q, tm, cs[0]) + (sep + tail);
      assert (sep + tail)[|sep|..] == tail;
      assert FromNew(cs) == [Entry(cs[0], New(cs[0]))] + FromNew(cs[1..]);
    }
  }

  // ---- the VALUES clause ----

  function Placeholder(d: Dialect, i: nat): string {
    if d == Postgres || d == SQLite then "$" + Itoa(i + 1) else "?"
  }

  /** Placeholders i, i+1, …, i+n-1 with commas between them. */
  function CellsText(d: Dialect, i: nat, n: nat): string
    decreases n
  {
    if n == 0 then ""
    else if n == 1 then Placeholder(d, i)
    else Placeholder(d, i) + ("," + CellsText(d, i + 1, n - 1))
  }

  function RowText(d: Dialect, cols: nat, i: nat): string { "(" + (CellsText(d, i, cols) + ")") }

  /** `n` parenthesised rows of `cols` placeholders, the first of them placeholder `i`. */
  function RowsText(d: Dialect, cols: nat, i: nat, n: nat): string
    decreases n
  {
    if n == 0 then ""
    else if n == 1 then RowText(d, cols, i)
    else RowText(d, cols, i) + ("," + RowsText(d, cols, i + cols, n - 1))
  }

  /** In PostgreSQL and SQLite a placeholder names its parameter; elsewhere a plain "?" is the next one in the
      statement. */
  function ReadPlaceholder(d: Dialect, next: nat, s: string): (r: Option<(nat, string)>)
    ensures r.Some? ==> |r.value.1| < |s|
  {
    if d in {Postgres, SQLite} then
      if s != "" && s[0] == '$' then
        var n := DigitRun(s[1..]);
        if n == 0 || NatOf(s[1..][..n]) == 0 then None else Some((NatOf(s[1..][..n]) - 1, s[1..][n..]))
      else None
    else if s != "" && s[0] == '?' then Some((next, s[1..]))
    else None
  }

  function ReadCells(d: Dialect, next: nat, s: string): (r: Option<(seq<nat>, string)>)
    ensures r.Some? ==> |r.value.1| < |s|
    decreases |s|
  {
    var (i, rest) :- ReadPlaceholder(d, next, s);
    if rest != "" && rest[0] == ',' then
      var (more, rest') :- ReadCells(d, next + 1, rest[1..]);
      Some(([i] + more, rest'))
    else Some(([i], rest))
  }

  function ReadRow(d: Dialect, next: nat, s: string): (r: Option<(seq<nat>, string)>)
    ensures r.Some? ==> |r.value.1| < |s|
  {
    var s1 :- Expect(s, "(");
    var (row, s2) :- ReadCells(d, next, s1);
    var s3 :- Expect(s2, ")");
    Some((row, s3))
  }

  function ReadRows(d: Dialect, next: nat, s: string): Option<(seq<seq<nat>>, string)>
    decreases |s|
  {
    var (row, rest) :- ReadRow(d, next, s);
    if rest != "" && rest[0] == ',' then
      var (rows, rest') :- ReadRows(d, next + |row|, rest[1..]);
      Some(([row] + rows, rest'))
    else Some(([row], rest))
  }

  lemma PlaceholderRoundTrip(d: Dialect, i: nat, rest: string)
    requires rest == "" || !IsDigit(rest[0])
    ensures ReadPlaceholder(d, i, Placeholder(d, i) + rest) == Some((i, rest))
  {
    hide Itoa, NatOf, DigitRun;
    var s := Placeholder(d, i) + rest;
    if d == Postgres || d == SQLite {
      assert s[1..] == Itoa(i + 1) + rest;
      DigitRunStops(Itoa(i + 1), rest);
      NatOfItoa(i + 1);
    } else {
      assert s[1..] == rest;
    }
  }

  function Counted(i: nat, n: nat): (s: seq<nat>)
    ensures |s| == n
  {
    seq(n, k => i + k)
  }

  lemma {:induction false} CellsRoundTrip(d: Dialect, i: nat, n: nat, rest: string)
    requires n > 0 && (rest == "" || (!IsDigit(rest[0]) && rest[0] != ','))
    ensures ReadCells(d, i, CellsText(d, i, n) + rest) == Some((Counted(i, n), rest))
    decreases n
  {
    hide ReadPlaceholder, Placeholder;
    if n == 1 {
      PlaceholderRoundTrip(d, i, rest);
      assert Counted(i, 1) == [i];
    } else {
      var tail := CellsText(d, i + 1, n - 1) + rest;
      CellsRoundTrip(d, i + 1, n - 1, rest);
      PlaceholderRoundTrip(d, i, "," + tail);
      assert CellsText(d, i, n) + rest == Placeholder(d, i) + ("," + tail);
      assert ("," + tail)[1..] == tail;
      assert Counted(i, n) == [i] + Counted(i + 1, n - 1);
    }
  }

  /** The parameter index of each cell, `n` rows of `cols` from index `i` on. */
  function Matrix(cols: nat, i: nat, n: nat): (m: seq<seq<nat>>)
    ensures |m| == n
    decreases n
  {
    if n == 0 then [] else [Counted(i, cols)] + Matrix(cols, i + cols, n - 1)
  }

  lemma {:induction false} MatrixAt(cols: nat, i: nat, n: nat, r: nat, c: nat)
    requires r < n && c < cols
    ensures |Matrix(cols, i, n)[r]| == cols && Matrix(cols, i, n)[r][c] == i + r * cols + c
    decreases n
  {
    if r > 0 {
      MatrixAt(cols, i + cols, n - 1, r - 1, c);
      assert (r - 1) * cols + cols == r * cols;
    }
  }

  lemma RowRoundTrip(d: Dialect, cols: nat, i: nat, rest: string)
    requires cols > 0
    ensures ReadRow(d, i, RowText(d, cols, i) + rest) == Some((Counted(i, cols), rest))
  {
    hide ReadCells, CellsText, Counted, Expect;
    var cells := CellsText(d, i, cols);
    CellsRoundTrip(d, i, cols, ")" + rest);
    ExpectAfter("(", cells + (")" + rest));
    ExpectAfter(")", rest);
    assert RowText(d, cols, i) + rest == "(" + (cells + (")" + rest));
  }

  /** The clause lists the parameters i..i+n*cols-1 once each, in order, n rows of cols. */
  lemma {:induction false} RowsRoundTrip(d: Dialect, cols: nat, i: nat, n: nat, rest: string)
    requires cols > 0 && n > 0 && (rest == "" || rest[0] != ',')
    ensures ReadRows(d, i, RowsText(d, cols, i, n) + rest) == Some((Matrix(cols, i, n), rest))
    decreases n
  {
    hide ReadRow, RowText, Counted;
    if n == 1 {
      RowRoundTrip(d, cols, i, rest);
      assert Matrix(cols, i, 1) == [Counted(i, cols)];
    } else {
      var tail := RowsText(d, cols, i + cols, n - 1) + rest;
      RowsRoundTrip(d, cols, i + cols, n - 1, rest);
      RowRoundTrip(d, cols, i, "," + tail);
      assert RowsText(d, cols, i, n) + rest == RowText(d, cols, i) + ("," + tail);
      assert ("," + tail)[1..] == tail;
    }
  }
}
