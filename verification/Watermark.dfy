/** Watermark values: their order, the running maximum of a run, the literal put into the source query
    and the form kept in the run log. */
module Watermark {
  import opened Wrappers
  import opened Text
  import opened Calendar
  import opened TimeText
  import opened Tables
  import opened SqlText

  // ---- comparison ----

  datatype Class = TimeClass | StringClass | NumberClass | NoClass

  function ClassOf(v: Value): Class {
    match v
    case Time(_) => TimeClass
    case Str(_) => StringClass
    case Int(_) => NumberClass
    case Float(_) => NumberClass
    case _ => NoClass
  }

  /** How the machine turns an integer into a float; it may round. */
  type Rounding = int -> real

  function AsFloat(f64: Rounding, v: Value): real
    requires ClassOf(v) == NumberClass
  {
    if v.Int? then f64(v.i) else v.f
  }

  /** watermarkGreater: None when the two values cannot be compared. */
  function Greater(f64: Rounding, a: Value, b: Value): Option<bool> {
    if a.Time? then (if b.Time? then Some(a.ns > b.ns) else None)
    else if a.Str? then (if b.Str? then Some(LexLess(b.s, a.s)) else None)
    else if a.Int? && b.Int? then Some(a.i > b.i)
    else if ClassOf(a) == NumberClass && ClassOf(b) == NumberClass then Some(AsFloat(f64, a) > AsFloat(f64, b))
    else None
  }

  /** One kind of watermark column: every value is built by one constructor, and has an order. */
  predicate SameKind(a: Value, b: Value) {
    (a.Time? && b.Time?) || (a.Int? && b.Int?) || (a.Float? && b.Float?) || (a.Str? && b.Str?)
  }

  predicate Before(a: Value, b: Value)
    requires SameKind(a, b)
  {
    match a
    case Time(_) => a.ns < b.ns
    case Int(_) => a.i < b.i
    case Float(_) => a.f < b.f
    case _ => LexLess(a.s, b.s)
  }

  lemma BeforeIsStrictOrder(a: Value, b: Value, c: Value)
    requires SameKind(a, b) && SameKind(b, c)
    ensures Before(a, b) ==> !Before(b, a)
    ensures a != b ==> Before(a, b) || Before(b, a)
    ensures Before(a, b) && Before(b, c) ==> Before(a, c)
    ensures Before(a, b) && !Before(c, b) ==> Before(a, c)
    ensures !Before(b, a) && Before(b, c) ==> Before(a, c)
  {
    if a.Str? {
      if LexLess(a.s, b.s) { LexAsymmetric(a.s, b.s); }
      if a.s != b.s { LexTotal(a.s, b.s); }
      if b.s != c.s { LexTotal(b.s, c.s); }
      if LexLess(a.s, b.s) && LexLess(b.s, c.s) { LexTransitive(a.s, b.s, c.s); }
    }
  }

  // ---- the running maximum ----

  /** The fold `observe` computes.  The outer None is the failure, the inner one "no value yet". */
  function Fold(f64: Rounding, max: Option<Value>, vs: seq<Value>): Option<Option<Value>> {
    if vs == [] then Some(max)
    else
      var m :- Fold(f64, max, vs[..|vs| - 1]);
      Step(f64, m, vs[|vs| - 1])
  }

  function Step(f64: Rounding, max: Option<Value>, v: Value): Option<Option<Value>> {
    if v.Null? then Some(max)
    else if max.None? then Some(Some(v))
    else
      var gt :- Greater(f64, v, max.value);
      Some(if gt then Some(v) else max)
  }

  /** The rows' own values in the column, NULL for a row without it. */
  function ColumnOf(column: Column, rows: seq<Row>): (vs: seq<Value>)
    ensures |vs| == |rows|
  {
    seq(|rows|, i requires 0 <= i < |rows| => if column in rows[i] then rows[i][column] else Null)
  }

  /** Folding `rows` into `max` stops at row `k`, whose value does not compare with the maximum `m` so far. */
  ghost predicate StopsAt(f64: Rounding, max: Option<Value>, column: Column, rows: seq<Row>, k: nat, m: Option<Value>) {
    k < |rows| && Fold(f64, max, ColumnOf(column, rows[..k])) == Some(m)
    && Fold(f64, max, ColumnOf(column, rows[..k + 1])) == None
  }

  /** The tracker of one run. */
  class Tracker {
    const column: Column
    const f64: Rounding
    var max: Value
    var seen: bool

    ghost function Max(): Option<Value>
      reads this
    {
      if seen then Some(max) else None
    }

    constructor (column: Column, f64: Rounding)
      ensures this.column == column && this.f64 == f64 && Max() == None
    {
      this.column, this.f64, this.max, this.seen := column, f64, Null, false;
    }

    /** Fold one page in.  A failure leaves the maximum of the rows before the offending one. */
    method Observe(rows: seq<Row>) returns (ok: bool)
      modifies this
      ensures ok ==> Fold(f64, old(Max()), ColumnOf(column, rows)) == Some(Max())
      ensures !ok ==> exists k :: StopsAt(f64, old(Max()), column, rows, k, Max())
    {
      ghost var before := Max();
      for i := 0 to |rows|
        invariant Fold(f64, before, ColumnOf(column, rows[..i])) == Some(Max())
      {
        ColumnSnoc(column, rows, i);
        var v := Get(rows[i], column);
        if v.Null? { continue; }
        if !seen {
          max, seen := v, true;
          continue;
        }
        var gt := Greater(f64, v, max);
        if gt.None? {
          assert StopsAt(f64, before, column, rows, i, Max());
          return false;
        }
        if gt.value { max := v; }
      }
      assert rows[..|rows|] == rows;
      ok := true;
    }
  }

  lemma ColumnSnoc(column: Column, rows: seq<Row>, i: nat)
    requires i < |rows|
    ensures ColumnOf(column, rows[..i + 1]) == ColumnOf(column, rows[..i]) + [Get(rows[i], column)]
    ensures ColumnOf(column, rows[..i + 1])[..i] == ColumnOf(column, rows[..i])
  {
  }

  /** Page boundaries do not matter. */
  lemma {:induction false} FoldConcat(f64: Rounding, max: Option<Value>, a: seq<Value>, b: seq<Value>)
    ensures Fold(f64, max, a + b)
            == match Fold(f64, max, a) { case None => None case Some(m) => Fold(f64, m, b) }
  {
    if b == [] {
      assert a + b == a;
    } else {
      var b' := b[..|b| - 1];
      FoldConcat(f64, max, a, b');
      assert (a + b)[..|a + b| - 1] == a + b';
    }
  }

  function NonNull(vs: seq<Value>): (r: seq<Value>)
    ensures forall v :: v in r <==> v in vs && !v.Null?
  {
    if vs == [] then []
    else
      var v := vs[|vs| - 1];
      assert vs == vs[..|vs| - 1] + [v];
      NonNull(vs[..|vs| - 1]) + if v.Null? then [] else [v]
  }

  predicate OneClass(vs: seq<Value>) {
    forall i, j :: 0 <= i < |vs| && 0 <= j < |vs| ==> ClassOf(vs[i]) == ClassOf(vs[j]) != NoClass
  }

  lemma OneClassSnoc(vs: seq<Value>, v: Value)
    requires vs != []
    ensures |vs| == 1 ==> (OneClass(vs + [v]) <==> ClassOf(vs[0]) == ClassOf(v) != NoClass)
    ensures |vs| > 1 && OneClass(vs) ==> (OneClass(vs + [v]) <==> ClassOf(vs[0]) == ClassOf(v))
    ensures |vs| > 1 && !OneClass(vs) ==> !OneClass(vs + [v])
  {
    var ws := vs + [v];
    assert ws[|vs|] == v && forall i :: 0 <= i < |vs| ==> ws[i] == vs[i];
  }

  /** What the tracker may end with on the non-NULL values `ws`: a failure exactly on two or more values
      that are not all times, all strings or all numbers; otherwise nothing exactly when there was no
      value, or one of the values observed. */
  predicate Outcome(ws: seq<Value>, r: Option<Option<Value>>) {
    match r
    case None => |ws| >= 2 && !OneClass(ws)
    case Some(None) => ws == []
    case Some(Some(m)) => m in ws && (|ws| >= 2 ==> OneClass(ws))
  }

  lemma OutcomeStep(f64: Rounding, ws: seq<Value>, m: Option<Value>, v: Value)
    requires Outcome(ws, Some(m)) && !v.Null?
    ensures Outcome(ws + [v], Step(f64, m, v))
  {
    if ws != [] {
      OneClassSnoc(ws, v);
      var i :| 0 <= i < |ws| && ws[i] == m.value;
      assert |ws| > 1 ==> ClassOf(ws[i]) == ClassOf(ws[0]) != NoClass;
      hide OneClass;
      assert Greater(f64, v, m.value).Some? <==> ClassOf(v) == ClassOf(m.value) != NoClass;
      assert m.value in ws + [v];
    }
  }

  lemma FailureStays(ws: seq<Value>, v: Value)
    requires Outcome(ws, None)
    ensures Outcome(ws + [v], None)
  {
    OneClassSnoc(ws, v);
  }

  lemma {:induction false} FoldOutcome(f64: Rounding, vs: seq<Value>)
    ensures Outcome(NonNull(vs), Fold(f64, None, vs))
  {
    if vs != [] {
      hide Outcome, OneClass, Greater;
      var vs', v := vs[..|vs| - 1], vs[|vs| - 1];
      FoldOutcome(f64, vs');
      match Fold(f64, None, vs') {
        case Some(m) => if !v.Null? { OutcomeStep(f64, NonNull(vs'), m, v); }
        case None => if !v.Null? { FailureStays(NonNull(vs'), v); }
      }
    }
  }

  predicate OneKind(vs: seq<Value>, like: Value) { forall v :: v in vs && !v.Null? ==> SameKind(v, like) }

  /** On a column of one kind the result is the true maximum. */
  lemma {:induction false} FoldIsMaximum(f64: Rounding, vs: seq<Value>, like: Value)
    requires SameKind(like, like) && OneKind(vs, like)
    ensures Fold(f64, None, vs).Some?
    ensures match Fold(f64, None, vs).value {
              case None => forall v :: v in vs ==> v.Null?
              case Some(m) => m in vs && SameKind(m, like)
                              && forall v :: v in vs && !v.Null? ==> SameKind(m, v) && !Before(m, v)
            }
  {
    if vs != [] {
      var vs', v := vs[..|vs| - 1], vs[|vs| - 1];
      assert vs == vs' + [v];
      FoldIsMaximum(f64, vs', like);
      var m := Fold(f64, None, vs').value;
      if !v.Null? {
        BeforeIsStrictOrder(v, v, v);
        if m.Some? {
          BeforeIsStrictOrder(m.value, v, v);
          forall w | w in vs' && !w.Null?
            ensures !Before(m.value, w) && (Before(m.value, v) ==> !Before(v, w))
          {
            BeforeIsStrictOrder(m.value, v, w);
          }
        }
      }
    }
  }

  function Amount(v: Value): real
    requires ClassOf(v) == NumberClass
  {
    if v.Int? then v.i as real else v.f
  }

  /** Numbers and NULLs, whose integers the machine represents exactly as floats. */
  ghost predicate ExactNumbers(f64: Rounding, vs: seq<Value>) {
    forall v :: v in vs && !v.Null? ==> ClassOf(v) == NumberClass && AsFloat(f64, v) == Amount(v)
  }

  /** The fold ends with a value no other exceeds, or with none if there is none. */
  ghost predicate FindsMaximum(f64: Rounding, vs: seq<Value>)
    requires forall v :: v in vs && !v.Null? ==> ClassOf(v) == NumberClass
  {
    match Fold(f64, None, vs)
    case None => false
    case Some(None) => forall v :: v in vs ==> v.Null?
    case Some(Some(m)) => m in vs && ClassOf(m) == NumberClass
                          && forall v :: v in vs && !v.Null? ==> Amount(v) <= Amount(m)
  }

  /** Integers and floats may mix as long as no integer is rounded: the result is then the true maximum. */
  lemma {:induction false} FoldIsMaximumOfNumbers(f64: Rounding, vs: seq<Value>)
    requires ExactNumbers(f64, vs)
    ensures FindsMaximum(f64, vs)
  {
    if vs != [] {
      var vs', v := vs[..|vs| - 1], vs[|vs| - 1];
      assert vs == vs' + [v];
      FoldIsMaximumOfNumbers(f64, vs');
      var m := Fold(f64, None, vs').value;
      if !v.Null? && m.Some? {
        GreaterByAmount(f64, v, m.value);
      }
    }
  }

  /** A column of NULLs, any floats, and integers from a given set. */
  ghost predicate Drawn(ints: set<int>, vs: seq<Value>) {
    forall v :: v in vs ==> v.Null? || v.Float? || (v.Int? && v.i in ints)
  }

  ghost predicate AlwaysFindsMaximum(f64: Rounding, ints: set<int>) {
    forall vs :: Drawn(ints, vs) ==> FindsMaximum(f64, vs)
  }

  /** Over columns that mix floats with integers from a set, the tracker always ends with the maximum if
      and only if the machine rounds none of those integers. */
  lemma MixedNumbersExactly(f64: Rounding, ints: set<int>)
    ensures AlwaysFindsMaximum(f64, ints) <==> forall i :: i in ints ==> f64(i) == i as real
  {
    hide FindsMaximum;
    if forall i :: i in ints ==> f64(i) == i as real {
      forall vs | Drawn(ints, vs)
        ensures FindsMaximum(f64, vs)
      {
        FoldIsMaximumOfNumbers(f64, vs);
      }
    }
    if AlwaysFindsMaximum(f64, ints) {
      forall i | i in ints
        ensures f64(i) == i as real
      {
        MisleadingIsDrawn(f64, ints, i);
        if f64(i) != i as real { RoundedMisleads(f64, i); }
      }
    }
  }

  /** A rounded integer together with what it is rounded to, the lower of the two first. */
  function Misleading(f64: Rounding, i: int): seq<Value> {
    if f64(i) < i as real then [Float(f64(i)), Int(i)] else [Int(i), Float(f64(i))]
  }

  lemma MisleadingIsDrawn(f64: Rounding, ints: set<int>, i: int)
    requires i in ints
    ensures Drawn(ints, Misleading(f64, i))
  {
  }

  lemma RoundedMisleads(f64: Rounding, i: int)
    requires f64(i) != i as real
    ensures !FindsMaximum(f64, Misleading(f64, i))
  {
    var vs := Misleading(f64, i);
    assert vs == [vs[0]] + [vs[1]] && vs[..1] == [vs[0]] && [vs[0]][..0] == [];
    assert Fold(f64, None, [vs[0]]) == Some(Some(vs[0]));
    assert Fold(f64, None, vs) == Some(Some(vs[0]));
    assert vs[1] in vs;
  }

  lemma GreaterByAmount(f64: Rounding, a: Value, b: Value)
    requires ClassOf(a) == NumberClass && ClassOf(b) == NumberClass
    requires AsFloat(f64, a) == Amount(a) && AsFloat(f64, b) == Amount(b)
    ensures Greater(f64, a, b) == Some(Amount(a) > Amount(b))
  {
  }

  /** For instance 2^53 as a float followed by the integer 2^53 + 1. */
  lemma MixedNumbersMayRound(f64: Rounding)
    requires f64(9_007_199_254_740_993) == 9_007_199_254_740_992.0
    ensures Fold(f64, None, [Float(9_007_199_254_740_992.0), Int(9_007_199_254_740_993)])
            == Some(Some(Float(9_007_199_254_740_992.0)))
  {
  }

  // ---- the literal in the source query ----

  /** The value the literal denotes: times lose what is below a microsecond. */
  function Rendered(v: Value): Value {
    if v.Time? then Time(v.ns - v.ns % 1000) else v
  }

  /** watermarkLiteral.  `fmt` prints a float (%g). */
  function Literal(fmt: real -> string, v: Value): Option<string> {
    match v
    case Time(ns) => Some("'" + LiteralText(ns) + "'")
    case Int(i) => Some(IntText(i))
    case Float(f) => Some(fmt(f))
    case Str(s) => Some("'" + ReplaceAll(s, "'", "''") + "'")
    case _ => None
  }

  /** The string a literal denotes, doubled quotes inside it standing for one. */
  function Unquoted(text: string): Option<string> {
    match ScanQuoted(Quoter('\'', '\''), text)
    case Some((s, rest)) => if rest == "" then Some(s) else None
    case None => None
  }

  /** The source's reading of a literal compared with a column of the kind of `like`. */
  function ReadLiteral(read: string -> Option<real>, like: Value, text: string): Option<Value> {
    match like
    case Time(_) =>
      var s :- Unquoted(text);
      var t :- ReadStamp(s, ' ');
      Some(Time(t))
    case Int(_) =>
      var i :- ParseInt(text);
      Some(Int(i))
    case Float(_) =>
      var f :- read(text);
      Some(Float(f))
    case Str(_) =>
      var s :- Unquoted(text);
      Some(Str(s))
    case _ => None
  }

  lemma {:induction false} NothingToDouble(s: string, c: char)
    requires c !in s
    ensures ReplaceAll(s, [c], [c, c]) == s
  {
    if s != "" {
      assert s[0] in s && !([c] <= s);
      assert s == [s[0]] + s[1..];
      NothingToDouble(s[1..], c);
    }
  }

  predicate Plain(s: string) { '\'' !in s }

  lemma PlainConcat(a: string, b: string)
    requires Plain(a) && Plain(b)
    ensures Plain(a + b)
  {
  }

  lemma PlainSingle(c: char)
    requires c != '\''
    ensures Plain([c])
  {
  }

  lemma PlainTriple(a: nat, w: nat, b: nat, c: nat, sep: char)
    requires sep != '\''
    ensures Plain(Triple(a, w, b, c, sep))
  {
  }

  lemma PlainFraction(n: nat, w: nat)
    ensures Plain(Fraction(n, w))
  {
  }

  lemma PlainLiteral(t: nat)
    ensures Plain(LiteralText(t))
  {
    hide Plain, Fraction, Triple, CivilDate, Split;
    var s := Split(t);
    var d := CivilDate(s.day);
    var f := Fraction(s.nanos / 1000, 6);
    PlainFraction(s.nanos / 1000, 6);
    PlainTriple(d.year, 4, d.month, d.day, '-');
    PlainTriple(s.clock.hour, 2, s.clock.minute, s.clock.second, ':');
    PlainSingle(' ');
    PlainConcat(ClockText(s.clock), f);
    PlainConcat([' '], ClockText(s.clock) + f);
    PlainConcat(DateText(s.day), [' '] + (ClockText(s.clock) + f));
  }

  lemma QuotedReads(s: string)
    ensures Unquoted("'" + ReplaceAll(s, "'", "''") + "'") == Some(s)
  {
    hide ScanQuoted, ReplaceAll;
    var q := Quoter('\'', '\'');
    QuoteRoundTrip(q, s, "");
    assert Quote(q, s) + "" == Quote(q, s) == "'" + ReplaceAll(s, "'", "''") + "'";
  }

  /** A stored watermark has a literal exactly when it is a time, an integer, a float or a string, and
      the source reads that literal as the value, times rounded down to the microsecond. */
  lemma LiteralDenotes(fmt: real -> string, read: string -> Option<real>, v: Value)
    requires forall f :: read(fmt(f)) == Some(f)
    requires v.Time? ==> FourDigitYear(v.ns)
    ensures Literal(fmt, v).Some? <==> ClassOf(v) != NoClass
    ensures ClassOf(v) != NoClass ==> ReadLiteral(read, v, Literal(fmt, v).value) == Some(Rendered(v))
  {
    hide LiteralText, ReadStamp, IntText, ParseInt, Unquoted, FourDigitYear;
    match v {
      case Time(t) =>
        LiteralFloor(t);
        PlainLiteral(t);
        NothingToDouble(LiteralText(t), '\'');
        QuotedReads(LiteralText(t));
      case Int(i) => IntTextParses(i);
      case Str(s) => QuotedReads(s);
      case _ =>
    }
  }

  /** The window the literal opens contains every value after the stored one, and reaches back less than
      a microsecond before it. */
  lemma RenderedNeverSkips(v: Value, x: Value)
    requires SameKind(v, x)
    ensures SameKind(Rendered(v), x) && !Before(v, Rendered(v))
    ensures Before(v, x) ==> Before(Rendered(v), x)
    ensures Before(Rendered(v), x) && !Before(v, x) && x != v ==> v.Time? && x.Time? && v.ns - x.ns < 1000
  {
    BeforeIsStrictOrder(v, x, v);
    BeforeIsStrictOrder(v, v, v);
  }

  /** A value selected by a literal is rendered no lower than that literal. */
  lemma RenderedNeverFalls(v: Value, x: Value)
    requires SameKind(v, x) && Before(Rendered(v), x)
    ensures SameKind(Rendered(x), Rendered(v)) && !Before(Rendered(x), Rendered(v))
  {
    BeforeIsStrictOrder(v, x, v);
    if v.Time? {
      Multiple(v.ns, x.ns);
    }
  }

  lemma Multiple(a: nat, b: nat)
    requires a - a % 1000 < b
    ensures a - a % 1000 <= b - b % 1000
  {
  }

  // ---- the stored form ----

  /** encodeWatermark: kind and text. */
  function Encode(fmt: real -> string, v: Value): Option<(string, string)> {
    match v
    case Time(ns) => Some(("time", StoredText(ns)))
    case Int(i) => Some(("int", IntText(i)))
    case Float(f) => Some(("float", fmt(f)))
    case Str(s) => Some(("string", s))
    case _ => None
  }

  function Decode(read: string -> Option<real>, kind: string, raw: string): Option<Value> {
    if kind == "time" then
      var t :- ReadStored(raw);
      Some(Time(t))
    else if kind == "int" then
      var i :- ParseInt(raw);
      Some(Int(i))
    else if kind == "float" then
      var f :- read(raw);
      Some(Float(f))
    else if kind == "string" then Some(Str(raw))
    else None
  }

  /** Storing a watermark and reading it back changes nothing, down to the nanosecond. */
  lemma StoreRoundTrip(fmt: real -> string, read: string -> Option<real>, v: Value)
    requires forall f :: read(fmt(f)) == Some(f)
    requires v.Time? ==> FourDigitYear(v.ns)
    ensures Encode(fmt, v).Some? <==> ClassOf(v) != NoClass
    ensures Encode(fmt, v).Some? ==> Decode(read, Encode(fmt, v).value.0, Encode(fmt, v).value.1) == Some(v)
  {
    hide StoredText, ReadStored, IntText, ParseInt, FourDigitYear;
    match v {
      case Time(t) =>
        StoredRoundTrip(t);
      case Int(i) => IntTextParses(i);
      case _ =>
    }
  }
}
