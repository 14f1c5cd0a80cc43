/** Strings as the program's databases and its Go code compare them: character by character,
    a proper prefix first.  Also decimal numerals, fixed width and free width, and their readers. */
module Text {
  import opened Wrappers

  predicate LexLess(a: string, b: string) {
    b != "" && (a == "" || a[0] < b[0] || (a[0] == b[0] && LexLess(a[1..], b[1..])))
  }

  /** The strings first differ where `a` has the lower character, or has ended. */
  ghost predicate LowerAt(a: string, b: string, i: nat) {
    i <= |a| && i < |b| && a[..i] == b[..i] && (i == |a| || a[i] < b[i])
  }

  lemma {:induction false} LexExactly(a: string, b: string)
    ensures LexLess(a, b) <==> exists i: nat :: LowerAt(a, b, i)
  {
    if b != "" && (a == "" || a[0] < b[0]) {
      assert LowerAt(a, b, 0);
    } else if a != "" && b != "" && a[0] == b[0] {
      LexExactly(a[1..], b[1..]);
      if i: nat :| LowerAt(a[1..], b[1..], i) {
        assert a[..i + 1] == [a[0]] + a[1..][..i] && b[..i + 1] == [b[0]] + b[1..][..i];
        assert LowerAt(a, b, i + 1);
      }
      if i: nat :| LowerAt(a, b, i) {
        assert i > 0;
        assert a[1..][..i - 1] == a[..i][1..] == b[1..][..i - 1];
        assert LowerAt(a[1..], b[1..], i - 1);
      }
    } else {
      assert forall i: nat :: 0 < i <= |a| && i <= |b| ==> a[..i][0] == a[0] && b[..i][0] == b[0];
    }
  }

  lemma {:induction false} LexAsymmetric(a: string, b: string)
    requires LexLess(a, b)
    ensures !LexLess(b, a)
  {
    if a != "" && a[0] == b[0] {
      LexAsymmetric(a[1..], b[1..]);
    }
  }

  lemma {:induction false} LexTotal(a: string, b: string)
    requires a != b
    ensures LexLess(a, b) || LexLess(b, a)
  {
    if a != "" && b != "" && a[0] == b[0] {
      assert a == [a[0]] + a[1..] && b == [b[0]] + b[1..];
      LexTotal(a[1..], b[1..]);
    }
  }

  lemma {:induction false} LexTransitive(a: string, b: string, c: string)
    requires LexLess(a, b) && LexLess(b, c)
    ensures LexLess(a, c)
  {
    if a != "" && a[0] == b[0] && b[0] == c[0] {
      LexTransitive(a[1..], b[1..], c[1..]);
    }
  }

  lemma {:induction false} LexAfterPrefix(p: string, x: string, y: string)
    requires LexLess(x, y)
    ensures LexLess(p + x, p + y)
  {
    if p == "" {
      assert p + x == x && p + y == y;
    } else {
      LexAfterPrefix(p[1..], x, y);
      assert (p + x)[1..] == p[1..] + x && (p + y)[1..] == p[1..] + y;
    }
  }

  lemma {:induction false} LexBeforeSuffix(p: string, q: string, x: string, y: string)
    requires |p| == |q| && LexLess(p, q)
    ensures LexLess(p + x, q + y)
  {
    assert (p + x)[0] == p[0] && (q + y)[0] == q[0];
    if p[0] == q[0] {
      LexBeforeSuffix(p[1..], q[1..], x, y);
      assert (p + x)[1..] == p[1..] + x && (q + y)[1..] == q[1..] + y;
    }
  }

  lemma {:induction false} LexExtends(p: string, x: string)
    requires x != ""
    ensures LexLess(p, p + x)
  {
    LexAfterPrefix(p, "", x);
    assert p + "" == p;
  }

  // ---- decimal numerals ----

  predicate IsDigit(c: char) { '0' <= c <= '9' }

  predicate AllDigits(s: string) { forall i :: 0 <= i < |s| ==> IsDigit(s[i]) }

  function Digit(n: nat): (c: char)
    requires n < 10
    ensures IsDigit(c) && c as int == 48 + n
  {
    (48 + n) as char
  }

  function Pow10(w: nat): (p: nat)
    ensures p >= 1
  {
    if w == 0 then 1 else 10 * Pow10(w - 1)
  }

  /** The last `w` decimal digits of `n`, zero-padded on the left. */
  function Pad(n: nat, w: nat): (s: string)
    ensures |s| == w && AllDigits(s)
  {
    if w == 0 then "" else Pad(n / 10, w - 1) + [Digit(n % 10)]
  }

  function NatOf(s: string): nat
    requires AllDigits(s)
  {
    if s == "" then 0 else 10 * NatOf(s[..|s| - 1]) + (s[|s| - 1] as int - 48)
  }

  lemma {:induction false} NatOfPad(n: nat, w: nat)
    requires n < Pow10(w)
    ensures NatOf(Pad(n, w)) == n
  {
    if w > 0 {
      NatOfPad(n / 10, w - 1);
      assert Pad(n, w)[..w - 1] == Pad(n / 10, w - 1);
    }
  }

  /** Fixed-width numerals sort as the numbers they denote. */
  lemma {:induction false} PadOrder(n: nat, m: nat, w: nat)
    requires n < m < Pow10(w)
    ensures LexLess(Pad(n, w), Pad(m, w))
  {
    if n / 10 == m / 10 {
      LexAfterPrefix(Pad(n / 10, w - 1), [Digit(n % 10)], [Digit(m % 10)]);
    } else {
      PadOrder(n / 10, m / 10, w - 1);
      LexBeforeSuffix(Pad(n / 10, w - 1), Pad(m / 10, w - 1), [Digit(n % 10)], [Digit(m % 10)]);
    }
  }

  function Itoa(n: nat): (s: string)
    ensures s != "" && AllDigits(s)
  {
    if n < 10 then [Digit(n)] else Itoa(n / 10) + [Digit(n % 10)]
  }

  lemma {:induction false} NatOfItoa(n: nat)
    ensures NatOf(Itoa(n)) == n
  {
    if n >= 10 {
      NatOfItoa(n / 10);
      assert Itoa(n)[..|Itoa(n)| - 1] == Itoa(n / 10);
    } else {
      assert NatOf([]) == 0;
      assert Itoa(n)[..0] == [];
    }
  }

  function IntText(i: int): string {
    if i < 0 then "-" + Itoa(-i) else Itoa(i)
  }

  function ParseInt(s: string): Option<int> {
    if s != "" && AllDigits(s) then Some(NatOf(s))
    else if |s| > 1 && s[0] == '-' && AllDigits(s[1..]) then var v: int := NatOf(s[1..]); Some(-v)
    else None
  }

  lemma IntTextParses(i: int)
    ensures ParseInt(IntText(i)) == Some(i)
  {
    if i < 0 {
      NatOfItoa(-i);
      assert IntText(i)[1..] == Itoa(-i);
      assert !IsDigit(IntText(i)[0]);
    } else {
      NatOfItoa(i);
    }
  }

  /** Length of the longest run of digits at the start of `s`. */
  function DigitRun(s: string): (n: nat)
    ensures n <= |s| && AllDigits(s[..n])
    ensures n < |s| ==> !IsDigit(s[n])
  {
    if s == "" || !IsDigit(s[0]) then 0
    else
      var n := DigitRun(s[1..]);
      assert s[..n + 1] == [s[0]] + s[1..][..n];
      n + 1
  }

  lemma {:induction false} DigitRunStops(d: string, rest: string)
    requires AllDigits(d)
    requires rest == "" || !IsDigit(rest[0])
    ensures DigitRun(d + rest) == |d|
    ensures (d + rest)[..|d|] == d && (d + rest)[|d|..] == rest
  {
  }

  // ---- substitution ----

  predicate OccursAt(s: string, p: string, i: nat) { i + |p| <= |s| && s[i..i + |p|] == p }

  ghost predicate Occurs(s: string, p: string) { exists i: nat :: OccursAt(s, p, i) }

  ghost predicate FirstAt(s: string, p: string, i: nat) {
    OccursAt(s, p, i) && forall j: nat :: j < i ==> !OccursAt(s, p, j)
  }

  /** Up to the first place the pattern stands in `s`, `r` is as `s`; there it has `w`, and behind it the rest
      of `s` with the same done to it.  If the pattern stands nowhere, `r` is `s`. */
  ghost predicate Substituted(s: string, p: string, w: string, r: string)
    requires p != ""
    decreases |s|, 1
  {
    if Occurs(s, p) then exists i: nat :: FirstAt(s, p, i) && PutAt(s, p, w, r, i) else r == s
  }

  ghost predicate PutAt(s: string, p: string, w: string, r: string, i: nat)
    requires p != "" && OccursAt(s, p, i)
    decreases |s|, 0
  {
    i + |w| <= |r| && r[..i] == s[..i] && r[i..i + |w|] == w && Substituted(s[i + |p|..], p, w, r[i + |w|..])
  }

  /** strings.Contains. */
  predicate Contains(s: string, p: string) {
    p <= s || (s != "" && Contains(s[1..], p))
  }

  lemma OccursStep(s: string, p: string, i: nat)
    requires s != ""
    ensures OccursAt(s, p, i + 1) <==> OccursAt(s[1..], p, i)
    ensures OccursAt(s, p, 0) <==> p <= s
  {
    if i + 1 + |p| <= |s| {
      assert s[i + 1..i + 1 + |p|] == s[1..][i..i + |p|];
    }
  }

  lemma {:induction false} ContainsExactly(s: string, p: string)
    ensures Contains(s, p) <==> Occurs(s, p)
  {
    if p <= s {
      assert OccursAt(s, p, 0);
    } else if s != "" {
      ContainsExactly(s[1..], p);
      if i: nat :| OccursAt(s[1..], p, i) {
        OccursStep(s, p, i);
        assert OccursAt(s, p, i + 1);
      }
      if i: nat :| OccursAt(s, p, i) {
        assert i > 0;
        OccursStep(s, p, i - 1);
      }
    }
  }

  /** Go's strings.ReplaceAll for a non-empty pattern: leftmost, non-overlapping, replacements not rescanned. */
  function ReplaceAll(s: string, p: string, with: string): string
    requires p != ""
  {
    if s == "" then ""
    else if p <= s then with + ReplaceAll(s[|p|..], p, with)
    else [s[0]] + ReplaceAll(s[1..], p, with)
  }

  lemma ReplaceStep(s: string, p: string, with: string)
    requires p != "" && s != ""
    ensures ReplaceAll(s, p, with)
            == if OccursAt(s, p, 0) then with + ReplaceAll(s[|p|..], p, with)
               else [s[0]] + ReplaceAll(s[1..], p, with)
  {
  }

  lemma FirstStep(s: string, p: string, i: nat)
    requires s != "" && i > 0 && FirstAt(s, p, i)
    ensures FirstAt(s[1..], p, i - 1)
  {
    OccursStep(s, p, i - 1);
    forall j: nat | j < i - 1
      ensures !OccursAt(s[1..], p, j)
    {
      OccursStep(s, p, j);
    }
  }

  lemma Shorten(s: string, i: nat, n: nat)
    requires 0 < i && i + n <= |s|
    ensures s[1..][i - 1 + n..] == s[i + n..] && s[..i] == [s[0]] + s[1..][..i - 1]
  {
  }

  /** The first place the pattern stands is replaced, and the rest is done behind it. */
  lemma {:induction false} ReplaceFirst(s: string, p: string, with: string, i: nat)
    requires p != "" && FirstAt(s, p, i)
    ensures i + |p| <= |s| && ReplaceAll(s, p, with) == s[..i] + with + ReplaceAll(s[i + |p|..], p, with)
  {
    hide ReplaceAll;
    assert OccursAt(s, p, i) && (i > 0 ==> !OccursAt(s, p, 0));
    ReplaceStep(s, p, with);
    if i > 0 {
      FirstStep(s, p, i);
      Shorten(s, i, |p|);
      hide OccursAt, FirstAt;
      ReplaceFirst(s[1..], p, with, i - 1);
    } else {
      assert s[..0] == "" && "" + with == with;
    }
  }

  lemma {:induction false} ReplaceNone(s: string, p: string, with: string)
    requires p != "" && !Occurs(s, p)
    ensures ReplaceAll(s, p, with) == s
  {
    if s != "" {
      assert !OccursAt(s, p, 0);
      OccursStep(s, p, 0);
      forall i: nat
        ensures !OccursAt(s[1..], p, i)
      {
        OccursStep(s, p, i);
      }
      ReplaceNone(s[1..], p, with);
      assert s == [s[0]] + s[1..];
    }
  }

  /** A string with the pattern first at the end of `a + p`. */
  lemma ReplaceAfter(a: string, p: string, b: string, with: string)
    requires p != "" && FirstAt(a + p, p, |a|)
    ensures ReplaceAll(a + p + b, p, with) == a + with + ReplaceAll(b, p, with)
  {
    var s := a + p + b;
    forall j: nat | j < |a|
      ensures !OccursAt(s, p, j)
    {
      assert !OccursAt(a + p, p, j);
      assert (a + p)[j..j + |p|] == s[j..j + |p|];
    }
    assert s[|a|..|a| + |p|] == p && s[..|a|] == a && s[|a| + |p|..] == b;
    ReplaceFirst(s, p, with, |a|);
  }

  lemma {:induction false} FirstPlace(s: string, p: string, i: nat) returns (k: nat)
    requires OccursAt(s, p, i)
    ensures FirstAt(s, p, k)
  {
    if j: nat :| j < i && OccursAt(s, p, j) {
      k := FirstPlace(s, p, j);
    } else {
      k := i;
    }
  }

  lemma OneFirst(s: string, p: string, i: nat, j: nat)
    requires FirstAt(s, p, i) && FirstAt(s, p, j)
    ensures i == j
  {
  }

  /** The text with the pattern substituted is the one ReplaceAll computes, and no other. */
  lemma {:induction false} SubstitutedExactly(s: string, p: string, w: string, r: string)
    requires p != ""
    ensures Substituted(s, p, w, r) <==> r == ReplaceAll(s, p, w)
    decreases |s|
  {
    hide OccursAt, FirstAt, ReplaceAll;
    if i: nat :| OccursAt(s, p, i) {
      var k := FirstPlace(s, p, i);
      SubstitutedAt(s, p, w, r, k);
      SubstitutedExactly(s[Past(s, p, k)..], p, w, ReplaceAll(s[Past(s, p, k)..], p, w));
      if k + |w| <= |r| { SubstitutedExactly(s[Past(s, p, k)..], p, w, r[k + |w|..]); }
      ReplaceFirst(s, p, w, k);
      SplitAt(r, s[..k], w, ReplaceAll(s[Past(s, p, k)..], p, w));
    } else {
      ReplaceNone(s, p, w);
    }
  }

  /** Where the text after an occurrence begins. */
  function Past(s: string, p: string, i: nat): (n: nat)
    requires OccursAt(s, p, i)
    ensures n == i + |p| <= |s|
  {
    i + |p|
  }

  lemma SplitAt(r: string, a: string, b: string, c: string)
    ensures r == a + b + c <==> |a| + |b| <= |r| && r[..|a|] == a && r[|a|..|a| + |b|] == b && r[|a| + |b|..] == c
  {
  }

  lemma SubstitutedAt(s: string, p: string, w: string, r: string, k: nat)
    requires p != "" && FirstAt(s, p, k)
    ensures Substituted(s, p, w, r) <==> PutAt(s, p, w, r, k)
  {
    hide PutAt;
    assert OccursAt(s, p, k);
    if i: nat :| FirstAt(s, p, i) && PutAt(s, p, w, r, i) {
      OneFirst(s, p, i, k);
    }
  }
}
