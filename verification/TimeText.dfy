/** The three texts the program writes for an instant, and the reading of each.
    An instant is a number of nanoseconds since 0000-01-01 00:00:00 UTC. */
module TimeText {
  import opened Wrappers
  import opened Text
  import opened Calendar

  datatype Clock = Clock(hour: nat, minute: nat, second: nat)

  predicate ValidClock(c: Clock) { c.hour < 24 && c.minute < 60 && c.second < 60 }

  function Seconds(c: Clock): nat { c.hour * 3600 + c.minute * 60 + c.second }

  /** An instant taken apart. */
  datatype Stamp = Stamp(day: nat, clock: Clock, nanos: nat)

  predicate ValidStamp(s: Stamp) { ValidClock(s.clock) && s.nanos < 1_000_000_000 }

  function InstantOf(s: Stamp): nat {
    (s.day * 86_400 + Seconds(s.clock)) * 1_000_000_000 + s.nanos
  }

  function Split(t: nat): (s: Stamp)
    ensures ValidStamp(s) && InstantOf(s) == t
  {
    var sec := t / 1_000_000_000;
    var r := sec % 86_400;
    Stamp(sec / 86_400, Clock(r / 3600, r % 3600 / 60, r % 60), t % 1_000_000_000)
  }

  /** Years 0000 to 9999, the range RFC 3339 covers. */
  predicate FourDigitYear(t: nat) { CivilDate(Split(t).day).year < 10_000 }

  /** Three numerals with a separator, as in 2006-01-02 and 15:04:05. */
  function Triple(a: nat, w: nat, b: nat, c: nat, sep: char): (s: string)
    ensures |s| == w + 6
  {
    Pad(a, w) + ([sep] + (Pad(b, 2) + ([sep] + Pad(c, 2))))
  }

  function DateText(n: nat): (s: string)
    ensures |s| == 10
  {
    var d := CivilDate(n);
    Triple(d.year, 4, d.month, d.day, '-')
  }

  function ClockText(c: Clock): (s: string)
    ensures |s| == 8
  {
    Triple(c.hour, 2, c.minute, c.second, ':')
  }

  function StampText(day: nat, clock: Clock, sep: char, frac: string): string {
    DateText(day) + ([sep] + (ClockText(clock) + frac))
  }

  /** leaseTimeFormat: nine fraction digits, always written. */
  function LeaseText(t: nat): string {
    var s := Split(t);
    StampText(s.day, s.clock, ' ', "." + Pad(s.nanos, 9))
  }

  function TrimZeros(s: string): (r: string)
    ensures r <= s
    ensures r != "" ==> r[|r| - 1] != '0'
  {
    if s != "" && s[|s| - 1] == '0' then TrimZeros(s[..|s| - 1]) else s
  }

  /** A ".999…" layout: trailing zeros dropped, and the point with them. */
  function Fraction(n: nat, w: nat): string {
    var p := TrimZeros(Pad(n, w));
    if p == "" then "" else "." + p
  }

  /** Microseconds, truncated: the text of a time watermark inside the source query. */
  function LiteralText(t: nat): string {
    var s := Split(t);
    StampText(s.day, s.clock, ' ', Fraction(s.nanos / 1000, 6))
  }

  /** RFC 3339 with nanoseconds, the stored form of a time watermark. */
  function StoredText(t: nat): string {
    var s := Split(t);
    StampText(s.day, s.clock, 'T', Fraction(s.nanos, 9)) + "Z"
  }

  // ---- reading ----

  function ReadTriple(s: string, w: nat, sep: char): Option<(nat, nat, nat)>
    requires |s| == w + 6
  {
    if AllDigits(s[..w]) && s[w] == sep && AllDigits(s[w + 1..w + 3]) && s[w + 3] == sep && AllDigits(s[w + 4..]) then
      Some((NatOf(s[..w]), NatOf(s[w + 1..w + 3]), NatOf(s[w + 4..])))
    else None
  }

  function ReadDate(s: string): Option<nat>
    requires |s| == 10
  {
    match ReadTriple(s, 4, '-')
    case Some((y, m, d)) => if ValidDate(Date(y, m, d)) then Some(DayNumber(Date(y, m, d))) else None
    case None => None
  }

  function ReadClock(s: string): Option<nat>
    requires |s| == 8
  {
    match ReadTriple(s, 2, ':')
    case Some((h, m, c)) => if ValidClock(Clock(h, m, c)) then Some(Seconds(Clock(h, m, c))) else None
    case None => None
  }

  function Zeros(n: nat): (z: string)
    ensures |z| == n && AllDigits(z)
  {
    if n == 0 then "" else Zeros(n - 1) + ['0']
  }

  /** Nanoseconds written as an optional point and one to nine digits. */
  function ReadFraction(s: string): Option<nat> {
    if s == "" then Some(0)
    else if s[0] == '.' && 2 <= |s| <= 10 && AllDigits(s[1..]) then
      Some(NatOf(s[1..] + Zeros(10 - |s|)))
    else None
  }

  /** Date, separator, clock, optional fraction. */
  function ReadStamp(s: string, sep: char): Option<nat> {
    if |s| < 19 || s[10] != sep then None
    else
      match (ReadDate(s[..10]), ReadClock(s[11..19]), ReadFraction(s[19..]))
      case (Some(d), Some(c), Some(f)) => Some((d * 86_400 + c) * 1_000_000_000 + f)
      case _ => None
  }

  function ReadStored(s: string): Option<nat> {
    if s != "" && s[|s| - 1] == 'Z' then ReadStamp(s[..|s| - 1], 'T') else None
  }

  // ---- order ----

  predicate ClockLess(a: Clock, b: Clock) {
    a.hour < b.hour || (a.hour == b.hour && (a.minute < b.minute || (a.minute == b.minute && a.second < b.second)))
  }

  lemma ClockOrder(a: Clock, b: Clock)
    requires ValidClock(a) && ValidClock(b)
    ensures ClockLess(a, b) <==> Seconds(a) < Seconds(b)
  {
  }

  lemma InstantOrder(a: Stamp, b: Stamp)
    requires ValidStamp(a) && ValidStamp(b) && InstantOf(a) < InstantOf(b)
    ensures a.day < b.day || (a.day == b.day && (ClockLess(a.clock, b.clock)
            || (a.clock == b.clock && a.nanos < b.nanos)))
  {
  }

  lemma Pow10Small()
    ensures Pow10(2) == 100 && Pow10(3) == 1000 && Pow10(4) == 10_000
    ensures Pow10(6) == 1_000_000 && Pow10(9) == 1_000_000_000
  {
  }

  /** A numeral decides the order of everything written after it. */
  lemma NumeralDecides(a: nat, b: nat, w: nat, x: string, y: string)
    requires a < b < Pow10(w) || (a == b && LexLess(x, y))
    ensures LexLess(Pad(a, w) + x, Pad(b, w) + y)
  {
    if a < b {
      PadOrder(a, b, w);
      LexBeforeSuffix(Pad(a, w), Pad(b, w), x, y);
    } else {
      LexAfterPrefix(Pad(a, w), x, y);
    }
  }

  lemma TripleOrder(a: nat, b: nat, c: nat, a': nat, b': nat, c': nat, w: nat, sep: char)
    requires a' < Pow10(w) && b' < Pow10(2) && c' < Pow10(2)
    requires a < a' || (a == a' && (b < b' || (b == b' && c < c')))
    ensures LexLess(Triple(a, w, b, c, sep), Triple(a', w, b', c', sep))
  {
    var x2, y2 := [sep] + Pad(c, 2), [sep] + Pad(c', 2);
    if b == b' && c < c' {
      PadOrder(c, c', 2);
      LexAfterPrefix([sep], Pad(c, 2), Pad(c', 2));
    }
    var x1, y1 := [sep] + (Pad(b, 2) + x2), [sep] + (Pad(b', 2) + y2);
    if a == a' {
      NumeralDecides(b, b', 2, x2, y2);
      LexAfterPrefix([sep], Pad(b, 2) + x2, Pad(b', 2) + y2);
    }
    NumeralDecides(a, a', w, x1, y1);
  }

  lemma DateTextOrder(a: nat, b: nat)
    requires a < b && CivilDate(b).year < 10_000
    ensures LexLess(DateText(a), DateText(b))
  {
    var c, d := CivilDate(a), CivilDate(b);
    DateOrder(c, d);
    Pow10Small();
    TripleOrder(c.year, c.month, c.day, d.year, d.month, d.day, 4, '-');
  }

  lemma ClockTextOrder(a: Clock, b: Clock)
    requires ValidClock(b) && ClockLess(a, b)
    ensures LexLess(ClockText(a), ClockText(b))
  {
    Pow10Small();
    TripleOrder(a.hour, a.minute, a.second, b.hour, b.minute, b.second, 2, ':');
  }

  /** Date, then clock, then whatever the fraction texts say. */
  lemma StampOrder(d: nat, c: Clock, f: string, d': nat, c': Clock, f': string, sep: char)
    requires CivilDate(d').year < 10_000 && ValidClock(c')
    requires d < d' || (d == d' && (ClockLess(c, c') || (c == c' && LexLess(f, f'))))
    ensures LexLess(StampText(d, c, sep, f), StampText(d', c', sep, f'))
  {
    var x, y := ClockText(c) + f, ClockText(c') + f';
    if d < d' {
      DateTextOrder(d, d');
      LexBeforeSuffix(DateText(d), DateText(d'), [sep] + x, [sep] + y);
    } else {
      if ClockLess(c, c') {
        ClockTextOrder(c, c');
        LexBeforeSuffix(ClockText(c), ClockText(c'), f, f');
      } else {
        LexAfterPrefix(ClockText(c), f, f');
      }
      LexAfterPrefix([sep], x, y);
      LexAfterPrefix(DateText(d), [sep] + x, [sep] + y);
    }
  }

  lemma LeaseTextIncreases(a: nat, b: nat)
    requires FourDigitYear(b) && a < b
    ensures LexLess(LeaseText(a), LeaseText(b))
  {
    var x, y := Split(a), Split(b);
    InstantOrder(x, y);
    if x.day == y.day && x.clock == y.clock {
      Pow10Small();
      PadOrder(x.nanos, y.nanos, 9);
      LexAfterPrefix(".", Pad(x.nanos, 9), Pad(y.nanos, 9));
    }
    StampOrder(x.day, x.clock, "." + Pad(x.nanos, 9), y.day, y.clock, "." + Pad(y.nanos, 9), ' ');
  }

  /** Comparing two lease timestamps as strings is comparing the instants. */
  lemma LeaseTextOrder(a: nat, b: nat)
    requires FourDigitYear(a) && FourDigitYear(b)
    ensures LexLess(LeaseText(a), LeaseText(b)) <==> a < b
  {
    if a < b {
      LeaseTextIncreases(a, b);
    } else if LexLess(LeaseText(a), LeaseText(b)) {
      LexAsymmetric(LeaseText(a), LeaseText(b));
      if b < a { LeaseTextIncreases(b, a); }
    }
  }

  lemma {:induction false} FirstDifference(p: string, q: string) returns (i: nat)
    requires |p| == |q| && LexLess(p, q)
    ensures i < |p| && p[..i] == q[..i] && p[i] < q[i]
  {
    if p[0] < q[0] {
      i := 0;
    } else {
      var j := FirstDifference(p[1..], q[1..]);
      i := j + 1;
      assert p[..i] == [p[0]] + p[1..][..j] && q[..i] == [q[0]] + q[1..][..j];
    }
  }

  lemma {:induction false} TrimKeeps(s: string, i: nat)
    requires i < |s| && s[i] != '0'
    ensures |TrimZeros(s)| > i
  {
    if s[|s| - 1] == '0' { TrimKeeps(s[..|s| - 1], i); }
  }

  /** Dropping trailing zeros keeps the order of equally long numerals. */
  lemma TrimOrder(p: string, q: string)
    requires |p| == |q| && AllDigits(p) && AllDigits(q) && LexLess(p, q)
    ensures LexLess(TrimZeros(p), TrimZeros(q))
  {
    hide TrimZeros, LexLess;
    var x, y := TrimZeros(p), TrimZeros(q);
    var i := FirstDifference(p, q);
    TrimKeeps(q, i);
    if |x| > i {
      FirstDifferenceDecides(x, y, i);
    } else {
      assert x == p[..i][..|x|] && y[..|x|] == q[..i][..|x|];
      LexExtends(x, y[|x|..]);
      assert y == x + y[|x|..];
    }
  }

  lemma FirstDifferenceDecides(x: string, y: string, i: nat)
    requires i < |x| && i < |y| && x[..i] == y[..i] && x[i] < y[i]
    ensures LexLess(x, y)
  {
    LexAfterPrefix(x[..i], x[i..], y[i..]);
    assert x == x[..i] + x[i..] && y == x[..i] + y[i..];
  }

  lemma FractionOrder(m: nat, n: nat, w: nat)
    requires m < n < Pow10(w)
    ensures LexLess(Fraction(m, w), Fraction(n, w))
  {
    PadOrder(m, n, w);
    TrimOrder(Pad(m, w), Pad(n, w));
    LexAfterPrefix(".", TrimZeros(Pad(m, w)), TrimZeros(Pad(n, w)));
  }

  lemma LiteralTextIncreases(a: nat, b: nat)
    requires FourDigitYear(b) && a / 1000 < b / 1000
    ensures LexLess(LiteralText(a), LiteralText(b))
  {
    var x, y := Split(a), Split(b);
    InstantOrder(x, y);
    if x.day == y.day && x.clock == y.clock {
      MicrosOrder(x, y);
      Pow10Small();
      FractionOrder(x.nanos / 1000, y.nanos / 1000, 6);
    }
    StampOrder(x.day, x.clock, Fraction(x.nanos / 1000, 6), y.day, y.clock, Fraction(y.nanos / 1000, 6), ' ');
  }

  /** The seconds of an instant since the beginning. */
  function WholeSeconds(s: Stamp): nat { s.day * 86_400 + Seconds(s.clock) }

  lemma WholeMicros(j: nat, n: nat)
    ensures (j * 1_000_000_000 + n) / 1000 == j * 1_000_000 + n / 1000
  {
  }

  lemma InstantMicros(s: Stamp)
    requires ValidStamp(s)
    ensures InstantOf(s) / 1000 == WholeSeconds(s) * 1_000_000 + s.nanos / 1000 && s.nanos / 1000 < 1_000_000
  {
    hide Seconds, ValidClock;
    WholeMicros(WholeSeconds(s), s.nanos);
  }

  lemma MicrosOrder(x: Stamp, y: Stamp)
    requires ValidStamp(x) && ValidStamp(y) && x.day == y.day && x.clock == y.clock
    ensures InstantOf(x) / 1000 < InstantOf(y) / 1000 <==> x.nanos / 1000 < y.nanos / 1000
    ensures InstantOf(x) / 1000 == InstantOf(y) / 1000 <==> x.nanos / 1000 == y.nanos / 1000
  {
    hide InstantOf, Seconds, ValidClock;
    InstantMicros(x);
    InstantMicros(y);
  }

  lemma SameDay(d: nat, c: nat, d': nat, c': nat)
    requires c < 86_400 && c' < 86_400 && d * 86_400 + c == d' * 86_400 + c'
    ensures d == d' && c == c'
  {
  }

  lemma SameSecond(j: nat, m: nat, k: nat, n: nat)
    requires m < 1_000_000 && n < 1_000_000 && j * 1_000_000 + m == k * 1_000_000 + n
    ensures j == k && m == n
  {
  }

  lemma SecondsOfDay(c: Clock)
    requires ValidClock(c)
    ensures Seconds(c) < 86_400
  {
  }

  lemma SameMicros(x: Stamp, y: Stamp)
    requires ValidStamp(x) && ValidStamp(y) && InstantOf(x) / 1000 == InstantOf(y) / 1000
    ensures x.day == y.day && x.clock == y.clock && x.nanos / 1000 == y.nanos / 1000
  {
    InstantMicros(x);
    InstantMicros(y);
    hide InstantOf, Seconds;
    SameSecond(WholeSeconds(x), x.nanos / 1000, WholeSeconds(y), y.nanos / 1000);
    SecondsOfDay(x.clock);
    SecondsOfDay(y.clock);
    SameDay(x.day, Seconds(x.clock), y.day, Seconds(y.clock));
    ClockOrder(x.clock, y.clock);
    ClockOrder(y.clock, x.clock);
  }

  /** Rendered watermarks sort as the instants truncated to the microsecond: this is what a source
      that keeps its times as text compares. */
  lemma LiteralTextOrder(a: nat, b: nat)
    requires FourDigitYear(a) && FourDigitYear(b)
    ensures LexLess(LiteralText(a), LiteralText(b)) <==> a / 1000 < b / 1000
    ensures a / 1000 == b / 1000 ==> LiteralText(a) == LiteralText(b)
  {
    if a / 1000 < b / 1000 {
      LiteralTextIncreases(a, b);
    } else {
      if a / 1000 == b / 1000 { SameMicros(Split(a), Split(b)); }
      if LexLess(LiteralText(a), LiteralText(b)) {
        LexAsymmetric(LiteralText(a), LiteralText(b));
        if b / 1000 < a / 1000 { LiteralTextIncreases(b, a); }
      }
    }
  }

  // ---- round trips ----

  lemma TripleRoundTrip(a: nat, w: nat, b: nat, c: nat, sep: char)
    requires a < Pow10(w) && b < Pow10(2) && c < Pow10(2)
    ensures ReadTriple(Triple(a, w, b, c, sep), w, sep) == Some((a, b, c))
  {
    hide Pad, NatOf, ReadTriple;
    NatOfPad(a, w);
    NatOfPad(b, 2);
    NatOfPad(c, 2);
    TripleParts(Pad(a, w), Pad(b, 2), Pad(c, 2), sep);
  }

  lemma TripleParts(a: string, b: string, c: string, sep: char)
    requires AllDigits(a) && AllDigits(b) && AllDigits(c) && |b| == 2 && |c| == 2
    ensures ReadTriple(a + ([sep] + (b + ([sep] + c))), |a|, sep) == Some((NatOf(a), NatOf(b), NatOf(c)))
  {
    hide NatOf, AllDigits;
    TripleSlices(a, b, c, sep);
  }

  lemma TripleSlices(a: string, b: string, c: string, sep: char)
    requires |b| == 2
    ensures var s := a + ([sep] + (b + ([sep] + c)));
            s[..|a|] == a && s[|a|] == sep && s[|a| + 1..|a| + 3] == b && s[|a| + 3] == sep && s[|a| + 4..] == c
  {
  }

  lemma DateRoundTrip(n: nat)
    requires CivilDate(n).year < 10_000
    ensures ReadDate(DateText(n)) == Some(n)
  {
    hide Triple, ReadTriple, CivilDate, DayNumber;
    var d := CivilDate(n);
    Pow10Small();
    TripleRoundTrip(d.year, 4, d.month, d.day, '-');
  }

  lemma ClockRoundTrip(c: Clock)
    requires ValidClock(c)
    ensures ReadClock(ClockText(c)) == Some(Seconds(c))
  {
    hide Triple, ReadTriple;
    Pow10Small();
    TripleRoundTrip(c.hour, 2, c.minute, c.second, ':');
  }

  lemma {:induction false} TrimThenFill(s: string)
    ensures TrimZeros(s) + Zeros(|s| - |TrimZeros(s)|) == s
  {
    if s != "" && s[|s| - 1] == '0' {
      TrimThenFill(s[..|s| - 1]);
    }
  }

  lemma AppendZero(p: string, n: nat)
    requires n > 0 && AllDigits(p)
    ensures NatOf(p + Zeros(n)) == 10 * NatOf(p + Zeros(n - 1))
  {
    var s := p + Zeros(n);
    assert s[..|s| - 1] == p + Zeros(n - 1);
  }

  lemma {:induction false} FillScales(p: string, n: nat)
    requires AllDigits(p)
    ensures NatOf(p + Zeros(n)) == NatOf(p) * Pow10(n)
  {
    if n == 0 {
      assert p + Zeros(0) == p;
    } else {
      hide NatOf, Zeros;
      AppendZero(p, n);
      FillScales(p, n - 1);
      Scale(NatOf(p), Pow10(n - 1));
    }
  }

  lemma Scale(a: nat, b: nat)
    ensures 10 * (a * b) == a * (10 * b)
  {
  }

  lemma {:induction false} ZerosAdd(m: nat, n: nat)
    ensures Zeros(m) + Zeros(n) == Zeros(m + n)
  {
    if n > 0 { ZerosAdd(m, n - 1); }
  }

  lemma {:induction false} ZerosDenoteZero(n: nat)
    ensures NatOf(Zeros(n)) == 0
  {
    if n > 0 {
      ZerosDenoteZero(n - 1);
      assert Zeros(n)[..n - 1] == Zeros(n - 1);
    }
  }

  /** Reading pads the trimmed numeral back to nine digits. */
  lemma TrimmedReads(q: string, v: nat)
    requires |q| <= 9 && AllDigits(q) && NatOf(q + Zeros(9 - |q|)) == v
    ensures ReadFraction(if q == "" then "" else "." + q) == Some(v)
  {
    if q == "" {
      ZerosDenoteZero(9 - |q|);
      assert q + Zeros(9 - |q|) == Zeros(9 - |q|);
    } else {
      var s := "." + q;
      assert s[1..] == q;
      assert 10 - |s| == 9 - |q|;
    }
  }

  lemma FillMore(p: string, q: string, k: nat, m: nat)
    requires q + Zeros(k) == p
    ensures q + Zeros(k + m) == p + Zeros(m)
  {
    hide Zeros;
    ZerosAdd(k, m);
    assert q + (Zeros(k) + Zeros(m)) == p + Zeros(m);
  }

  lemma FractionRoundTrip(n: nat, w: nat)
    requires w <= 9 && n < Pow10(w)
    ensures ReadFraction(Fraction(n, w)) == Some(n * Pow10(9 - w))
  {
    hide Pad, TrimZeros, Zeros, NatOf, ReadFraction;
    var p := Pad(n, w);
    var q := TrimZeros(p);
    NatOfPad(n, w);
    TrimThenFill(p);
    FillMore(p, q, w - |q|, 9 - w);
    FillScales(p, 9 - w);
    TrimmedReads(q, n * Pow10(9 - w));
  }

  lemma StampReads(s: Stamp, sep: char, f: string, v: nat)
    requires ValidStamp(s) && CivilDate(s.day).year < 10_000 && ReadFraction(f) == Some(v)
    ensures ReadStamp(StampText(s.day, s.clock, sep, f), sep)
            == Some((s.day * 86_400 + Seconds(s.clock)) * 1_000_000_000 + v)
  {
    hide ReadStamp, ReadDate, ReadClock, ReadFraction, DateText, ClockText, CivilDate;
    DateRoundTrip(s.day);
    ClockRoundTrip(s.clock);
    ReadParts(DateText(s.day), sep, ClockText(s.clock), f, s.day, Seconds(s.clock), v);
  }

  lemma ReadParts(a: string, sep: char, b: string, f: string, d: nat, c: nat, v: nat)
    requires |a| == 10 && |b| == 8
    requires ReadDate(a) == Some(d) && ReadClock(b) == Some(c) && ReadFraction(f) == Some(v)
    ensures ReadStamp(a + ([sep] + (b + f)), sep) == Some((d * 86_400 + c) * 1_000_000_000 + v)
  {
    hide ReadDate, ReadClock, ReadFraction;
    var s := a + ([sep] + (b + f));
    assert s[..10] == a;
    assert s[11..19] == b;
    assert s[19..] == f;
  }

  lemma FloorOf(k: nat, n: nat)
    ensures k * 1_000_000_000 + n / 1000 * 1000 == k * 1_000_000_000 + n - (k * 1_000_000_000 + n) % 1000
  {
  }

  lemma MicrosFraction(n: nat)
    requires n < 1_000_000
    ensures ReadFraction(Fraction(n, 6)) == Some(n * 1000)
  {
    hide Fraction, ReadFraction;
    Pow10Small();
    FractionRoundTrip(n, 6);
  }

  lemma NanosFraction(n: nat)
    requires n < 1_000_000_000
    ensures ReadFraction(Fraction(n, 9)) == Some(n)
  {
    hide Fraction, ReadFraction;
    Pow10Small();
    FractionRoundTrip(n, 9);
    assert Pow10(0) == 1;
  }

  /** A ".999…" fraction has no trailing zero, and is not there at all if it is zero. */
  lemma FractionShortest(n: nat, w: nat)
    requires n < Pow10(w)
    ensures Fraction(n, w) == "" <==> n == 0
    ensures Fraction(n, w) != "" ==> |Fraction(n, w)| <= w + 1 && Fraction(n, w)[|Fraction(n, w)| - 1] != '0'
  {
    hide Pad, NatOf, Zeros;
    var p := Pad(n, w);
    NatOfPad(n, w);
    TrimThenFill(p);
    if TrimZeros(p) == "" {
      ZerosDenoteZero(w);
      assert p == "" + Zeros(w) == Zeros(w);
    } else if n == 0 {
      PadOfZero(w);
      TrimOfZeros(w);
    }
  }

  lemma {:induction false} PadOfZero(w: nat)
    ensures Pad(0, w) == Zeros(w)
  {
    if w > 0 { PadOfZero(w - 1); }
  }

  lemma {:induction false} TrimOfZeros(w: nat)
    ensures TrimZeros(Zeros(w)) == ""
  {
    if w > 0 {
      assert Zeros(w)[..w - 1] == Zeros(w - 1);
      TrimOfZeros(w - 1);
    }
  }

  /** The literal denotes the instant rounded down to the microsecond: never above it, never a whole
      microsecond below it.  It is no longer than it must be. */
  lemma LiteralFloor(t: nat)
    requires FourDigitYear(t)
    ensures ReadStamp(LiteralText(t), ' ') == Some(t - t % 1000)
    ensures t - t % 1000 <= t < t - t % 1000 + 1000
    ensures |LiteralText(t)| == 19 || (20 < |LiteralText(t)| <= 26 && LiteralText(t)[|LiteralText(t)| - 1] != '0')
  {
    LiteralLength(t);
    hide ReadStamp, StampText, Fraction, CivilDate, Split;
    var s := Split(t);
    MicrosFraction(s.nanos / 1000);
    StampReads(s, ' ', Fraction(s.nanos / 1000, 6), s.nanos / 1000 * 1000);
    FloorOf(s.day * 86_400 + Seconds(s.clock), s.nanos);
  }

  lemma LiteralLength(t: nat)
    ensures |LiteralText(t)| == 19 || (20 < |LiteralText(t)| <= 26 && LiteralText(t)[|LiteralText(t)| - 1] != '0')
  {
    hide Fraction, CivilDate;
    var s := Split(t);
    var f := Fraction(s.nanos / 1000, 6);
    Pow10Small();
    FractionShortest(s.nanos / 1000, 6);
    FractionPoint(s.nanos / 1000, 6);
  }

  lemma FractionPoint(n: nat, w: nat)
    ensures |Fraction(n, w)| != 1
  {
  }

  lemma FullFraction(n: nat)
    requires n < 1_000_000_000
    ensures ReadFraction("." + Pad(n, 9)) == Some(n)
  {
    hide Pad, NatOf;
    Pow10Small();
    NatOfPad(n, 9);
    var s := "." + Pad(n, 9);
    assert s[1..] == Pad(n, 9) && Zeros(0) == "" && Pad(n, 9) + "" == Pad(n, 9);
  }

  /** A lease timestamp denotes its instant to the nanosecond. */
  lemma LeaseTextReads(t: nat)
    requires FourDigitYear(t)
    ensures ReadStamp(LeaseText(t), ' ') == Some(t)
  {
    hide ReadStamp, StampText, Pad, ReadFraction, CivilDate, Split;
    var s := Split(t);
    FullFraction(s.nanos);
    StampReads(s, ' ', "." + Pad(s.nanos, 9), s.nanos);
  }

  lemma ZoneDropped(x: string)
    ensures ReadStored(x + "Z") == ReadStamp(x, 'T')
  {
  }

  /** The stored form loses nothing. */
  lemma StoredRoundTrip(t: nat)
    requires FourDigitYear(t)
    ensures ReadStored(StoredText(t)) == Some(t)
  {
    hide ReadStamp, ReadStored, StampText, Fraction, CivilDate, Split;
    var s := Split(t);
    NanosFraction(s.nanos);
    StampReads(s, 'T', Fraction(s.nanos, 9), s.nanos);
    ZoneDropped(StampText(s.day, s.clock, 'T', Fraction(s.nanos, 9)));
  }
}
