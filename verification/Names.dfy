/** The identifier allowlist and table paths. */
module Names {
  import opened Wrappers
  import opened Text
  import opened Tables
  import opened Builders

  // ---- identifiers ----

  predicate IsLetter(c: char) { 'A' <= c <= 'Z' || 'a' <= c <= 'z' || c == '_' }

  /** ^[A-Za-z_][A-Za-z0-9_]*$ */
  predicate IsIdentifier(s: string) {
    s != "" && IsLetter(s[0]) && forall i :: 0 <= i < |s| ==> IsLetter(s[i]) || IsDigit(s[i])
  }

  /** ASCII letters, the underscore and, not in front, decimal digits. */
  lemma IdentifierExactly(s: string)
    ensures IsIdentifier(s) <==> s != "" && (forall i :: 0 <= i < |s| ==>
              var n := s[i] as int;
              65 <= n <= 90 || 97 <= n <= 122 || n == 95 || (i > 0 && 48 <= n <= 57))
  {
    assert IsIdentifier(s) ==> forall i :: 0 <= i < |s| ==> IsLetter(s[i]) || (i > 0 && IsDigit(s[i]));
  }

  /** Go's strings.Split on one character. */
  function SplitOn(s: string, c: char): (parts: seq<string>)
    ensures parts != []
  {
    if s == "" then [""]
    else
      var rest := SplitOn(s[1..], c);
      if s[0] == c then [""] + rest else [[s[0]] + rest[0]] + rest[1..]
  }

  function SplitTablePath(table: string): Option<seq<string>> {
    var parts := SplitOn(table, '.');
    if |parts| <= 2 && forall i :: 0 <= i < |parts| ==> IsIdentifier(parts[i]) then Some(parts) else None
  }

  lemma {:induction false} SplitJoins(s: string, c: char)
    ensures JoinStrings(SplitOn(s, c), [c]) == s
  {
    if s != "" {
      SplitJoins(s[1..], c);
      var rest := SplitOn(s[1..], c);
      var parts := SplitOn(s, c);
      assert s == [s[0]] + s[1..];
      if s[0] == c {
        assert parts[1..] == rest;
      } else if |rest| > 1 {
        assert parts[1..] == rest[1..];
      }
    }
  }

  lemma {:induction false} NothingToSplit(p: string, c: char)
    requires c !in p
    ensures SplitOn(p, c) == [p]
  {
    if p != "" {
      assert p == [p[0]] + p[1..] && p[0] in p;
      NothingToSplit(p[1..], c);
    }
  }

  lemma {:induction false} SplitFirst(p: string, rest: string, c: char)
    requires c !in p
    ensures SplitOn(p + [c] + rest, c) == [p] + SplitOn(rest, c)
  {
    var s := p + [c] + rest;
    if p == "" {
      assert s == [c] + rest && s[1..] == rest;
    } else {
      assert p == [p[0]] + p[1..] && p[0] in p;
      SplitFirst(p[1..], rest, c);
      assert s[1..] == p[1..] + [c] + rest;
    }
  }

  lemma SplitTwo(p: string, q: string, c: char)
    requires c !in p && c !in q
    ensures SplitOn(p + [c] + q, c) == [p, q]
  {
    SplitFirst(p, q, c);
    NothingToSplit(q, c);
  }

  lemma NoDotInside(p: string)
    requires IsIdentifier(p)
    ensures '.' !in p
  {
  }

  predicate TablePath(parts: seq<string>) {
    1 <= |parts| <= 2 && forall i :: 0 <= i < |parts| ==> IsIdentifier(parts[i])
  }

  /** A table path is accepted exactly when it is one identifier or two joined by a dot, and the parts
      are then the only ones possible. */
  lemma SplitTablePathExact(table: string, parts: seq<string>)
    ensures SplitTablePath(table) == Some(parts) <==> TablePath(parts) && JoinStrings(parts, ".") == table
  {
    SplitJoins(table, '.');
    if TablePath(parts) && JoinStrings(parts, ".") == table {
      hide SplitOn, IsIdentifier;
      NoDotInside(parts[0]);
      if |parts| == 1 {
        NothingToSplit(parts[0], '.');
        assert parts == [parts[0]];
      } else {
        NoDotInside(parts[1]);
        SplitTwo(parts[0], parts[1], '.');
        assert parts[1..] == [parts[1]] && JoinStrings([parts[1]], ".") == parts[1];
        assert table == parts[0] + ("." + parts[1]) == parts[0] + ['.'] + parts[1];
        assert parts == [parts[0], parts[1]];
      }
    }
  }

  predicate ValidNames(cols: seq<Column>) { forall c :: c in cols ==> IsIdentifier(c) }

  method ValidateColumns(cols: seq<Column>) returns (ok: bool)
    ensures ok <==> ValidNames(cols)
  {
    for i := 0 to |cols|
      invariant forall j :: 0 <= j < i ==> IsIdentifier(cols[j])
    {
      if !IsIdentifier(cols[i]) { return false; }
    }
    ok := true;
  }
}
