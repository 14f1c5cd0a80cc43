/** The read side: a query's result set handed over in pages from one reused buffer. */
module Streaming {
  import opened Wrappers
  import opened Tables
  import opened Execution
  import opened Watermark
  import opened Config
  import opened Pages

  const PAGE_SIZE := 5000

  /** What the source returns for a query.  A broken one ends in an error after its last tuple. */
  datatype ResultSet = ResultSet(columns: seq<Column>, tuples: seq<seq<Value>>, broken: bool)

  predicate Rectangular(rs: ResultSet) { forall i :: 0 <= i < |rs.tuples| ==> |rs.tuples[i]| == |rs.columns| }

  function ColumnSet(rs: ResultSet): set<Column> { set c | c in rs.columns }

  /** normalize: drivers that return text as bytes. */
  function Normalize(v: Value): Value { if v.Bytes? then Str(v.b) else v }

  function NormalizeAll(vals: seq<Value>): (r: seq<Value>)
    ensures |r| == |vals|
  {
    seq(|vals|, i requires 0 <= i < |vals| => Normalize(vals[i]))
  }

  /** The rows of a result set; of two columns with one name the later wins. */
  function RowsOf(rs: ResultSet): (rows: seq<Row>)
    requires Rectangular(rs)
    ensures |rows| == |rs.tuples|
  {
    seq(|rs.tuples|, i requires 0 <= i < |rs.tuples| => Named(rs.columns, NormalizeAll(rs.tuples[i])))
  }

  /** `m` is the tuple by column name: text bytes as strings, any other value as it is, and of several columns
      of one name the last. */
  ghost predicate TupleRow(columns: seq<Column>, vals: seq<Value>, m: Row)
    requires |columns| == |vals|
  {
    m.Keys == (set c | c in columns)
    && forall j :: 0 <= j < |columns| && (forall k :: j < k < |columns| ==> columns[k] != columns[j]) ==>
         m[columns[j]] == match vals[j] case Bytes(b) => Str(b) case v => v
  }

  lemma OneMoreColumn(columns: seq<Column>, vals: seq<Value>, m: Row, c: Column, v: Value, x: Value)
    requires |columns| == |vals| && TupleRow(columns, vals, m) && x == match v case Bytes(b) => Str(b) case v => v
    ensures TupleRow(columns + [c], vals + [v], m[c := x])
  {
    var cs, n := columns + [c], |columns|;
    forall j | 0 <= j < n && forall k :: j < k <= n ==> cs[k] != cs[j]
      ensures m[c := x][cs[j]] == match vals[j] case Bytes(b) => Str(b) case v => v
    {
      assert cs[n] != cs[j] && cs[j] == columns[j];
      forall k | j < k < n
        ensures columns[k] != columns[j]
      {
        assert cs[k] != cs[j];
      }
    }
  }

  lemma NoTuple()
    ensures TupleRow([], [], Named([], NormalizeAll([])))
  {
  }

  lemma NamedSnoc(columns: seq<Column>, vals: seq<Value>, c: Column, v: Value)
    requires |columns| == |vals|
    ensures Named(columns + [c], NormalizeAll(vals + [v])) == Named(columns, NormalizeAll(vals))[c := Normalize(v)]
  {
    var all := NormalizeAll(vals + [v]);
    assert all[..|vals|] == NormalizeAll(vals) && all[|vals|] == Normalize(v);
    assert (columns + [c])[..|columns|] == columns;
  }

  lemma NamedStep(columns: seq<Column>, vals: seq<Value>, c: Column, v: Value)
    requires |columns| == |vals| && TupleRow(columns, vals, Named(columns, NormalizeAll(vals)))
    ensures TupleRow(columns + [c], vals + [v], Named(columns + [c], NormalizeAll(vals + [v])))
  {
    NamedSnoc(columns, vals, c, v);
    OneMoreColumn(columns, vals, Named(columns, NormalizeAll(vals)), c, v, Normalize(v));
  }

  lemma Unsnoc<T>(s: seq<T>)
    requires s != []
    ensures s == s[..|s| - 1] + [s[|s| - 1]]
  {
  }

  lemma {:induction false} NamedIsTuple(columns: seq<Column>, vals: seq<Value>)
    requires |columns| == |vals|
    ensures TupleRow(columns, vals, Named(columns, NormalizeAll(vals)))
  {
    hide TupleRow, Named, NormalizeAll;
    if columns == [] {
      NoTuple();
    } else {
      var n := |columns| - 1;
      Unsnoc(columns);
      Unsnoc(vals);
      NamedIsTuple(columns[..n], vals[..n]);
      NamedStep(columns[..n], vals[..n], columns[n], vals[n]);
    }
  }

  lemma {:induction false} LastColumn(columns: seq<Column>, c: Column) returns (j: nat)
    requires c in columns
    ensures j < |columns| && columns[j] == c && forall k :: j < k < |columns| ==> columns[k] != columns[j]
  {
    var n := |columns| - 1;
    if columns[n] == c {
      j := n;
    } else {
      assert columns == columns[..n] + [columns[n]];
      j := LastColumn(columns[..n], c);
    }
  }

  /** A tuple makes one row. */
  lemma OneRow(columns: seq<Column>, vals: seq<Value>, m: Row, m': Row)
    requires |columns| == |vals| && TupleRow(columns, vals, m) && TupleRow(columns, vals, m')
    ensures m == m'
  {
    forall c | c in columns
      ensures m[c] == m'[c]
    {
      var j := LastColumn(columns, c);
    }
    assert m.Keys == m'.Keys;
  }

  /** Row i is tuple i by column name. */
  lemma RowsAre(rs: ResultSet, i: nat)
    requires Rectangular(rs) && i < |rs.tuples|
    ensures |rs.columns| == |rs.tuples[i]| && TupleRow(rs.columns, rs.tuples[i], RowsOf(rs)[i])
  {
    NamedIsTuple(rs.columns, rs.tuples[i]);
  }

  /** All rows of a result set have the same columns, and no value is left as bytes. */
  lemma RowsShareColumns(rs: ResultSet, i: nat)
    requires Rectangular(rs) && i < |rs.tuples|
    ensures RowsOf(rs)[i].Keys == ColumnSet(rs)
    ensures forall c :: c in RowsOf(rs)[i] ==> !RowsOf(rs)[i][c].Bytes?
  {
    RowsAre(rs, i);
    forall c | c in rs.columns
      ensures !RowsOf(rs)[i][c].Bytes?
    {
      var j := LastColumn(rs.columns, c);
    }
  }

  /** One scanned tuple as a row. */
  method ScanRow(columns: seq<Column>, vals: seq<Value>) returns (m: Row)
    requires |columns| == |vals|
    ensures TupleRow(columns, vals, m)
  {
    m := map[];
    for i := 0 to |columns|
      invariant TupleRow(columns[..i], vals[..i], m)
    {
      OneMoreColumn(columns[..i], vals[..i], m, columns[i], vals[i], Normalize(vals[i]));
      m := m[columns[i] := Normalize(vals[i])];
      assert columns[..i + 1] == columns[..i] + [columns[i]] && vals[..i + 1] == vals[..i] + [vals[i]];
    }
    assert columns[..|columns|] == columns && vals[..|columns|] == vals;
  }

  function PageSize(n: int): (size: nat)
    ensures size == if n > 0 then n else 5000
  {
    if n <= 0 then PAGE_SIZE else n
  }

  /** Why a stream ends early: the source broke with less than a page in the buffer, or the page after the
      first `total` rows does not pass. */
  ghost predicate Stops(task: Task, f64: Rounding, rs: ResultSet, total: nat, size: nat)
    requires Rectangular(rs) && total <= |rs.tuples|
  {
    || (rs.broken && |rs.tuples| - total < size)
    || (total < |rs.tuples|
        && !Passes(task, f64, ColumnSet(rs), RowsOf(rs)[..total], RowsOf(rs)[total..Min(total + size, |rs.tuples|)]))
  }

  /** One call of the callback, with the rows after the first `from`. */
  method HandOver(h: PageHandler, ghost rs: ResultSet, ghost from: nat, page: seq<Row>, ghost size: nat)
    returns (err: Option<string>)
    requires h.Valid() && h.Tracking() && AllFull(h.pages, size)
    requires Rectangular(rs) && h.columns == ColumnSet(rs) && 1 <= |page| <= size && from + |page| <= |rs.tuples|
    requires page == RowsOf(rs)[from..from + |page|] && Flat(h.pages) == RowsOf(rs)[..from]
    modifies h, h.tgt`table, h.tgt`stages, h.store`log, h.store`failures, h.wm, h.tgt.history
    ensures h.Valid() && old(h.store.failures) <= h.store.failures
    ensures err.Some? ==> h.pages == old(h.pages) && !Passes(h.task, h.f64, ColumnSet(rs), RowsOf(rs)[..from], page)
    ensures err.None? ==> h.Tracking() && Flat(h.pages) == RowsOf(rs)[..from + |page|] && Cut(h.pages, size)
    ensures err.None? && |page| == size ==> AllFull(h.pages, size)
  {
    hide Flat, RowsOf, Rectangular, ColumnSet, PageHandler.Valid, PageHandler.Tracking, Passes;
    FirstColumns(rs, from, page);
    FlatSnoc(h.pages, page);
    CutSnoc(h.pages, page, size);
    ghost var rows := RowsOf(rs);
    assert rows[..from + |page|] == rows[..from] + rows[from..from + |page|];
    err := h.OnPage(page);
  }

  /** Stream.  The accepted pages are the result set cut into full pages and a last, shorter one; after an
      error only full pages were accepted, and the total is the number of rows in the accepted pages. */
  method Stream(rs: Option<ResultSet>, pageSize: int, h: PageHandler) returns (total: nat, err: Option<string>)
    requires h.Valid() && h.Tracking() && h.pages == []
    requires rs.Some? ==> Rectangular(rs.value) && h.columns == ColumnSet(rs.value)
    modifies h, h.tgt`table, h.tgt`stages, h.store`log, h.store`failures, h.wm, h.tgt.history
    ensures h.Valid() && total == |Flat(h.pages)| && old(h.store.failures) <= h.store.failures
    ensures rs.None? ==> err.Some? && total == 0 && h.tgt.table == old(h.tgt.table)
    ensures rs.Some? ==> total <= |rs.value.tuples| && Flat(h.pages) == RowsOf(rs.value)[..total]
                         && Cut(h.pages, PageSize(pageSize))
    ensures err.None? <==> rs.Some? && !rs.value.broken && total == |rs.value.tuples|
    ensures err.None? ==> h.Tracking()
    ensures err.Some? ==> AllFull(h.pages, PageSize(pageSize))
    ensures err.Some? && rs.Some? ==> Stops(h.task, h.f64, rs.value, total, PageSize(pageSize))
  {
    hide TupleRow, Flat, RowsOf, Rectangular, ColumnSet, PageHandler.Valid, PageHandler.Tracking,
         PageHandler.Observed, Passes;
    var size := PageSize(pageSize);
    NoPieces<Row>(size);
    total := 0;
    if rs.None? { return 0, Some("query failed"); }
    ghost var rows := RowsOf(rs.value);
    var page: array<Row> := new Row[size];
    var n := 0;
    for i := 0 to |rs.value.tuples|
      invariant old(h.store.failures) <= h.store.failures
      invariant fresh(page) && page.Length == size && 0 <= n < size
      invariant h.Valid() && h.Tracking() && AllFull(h.pages, size)
      invariant total == |Flat(h.pages)| && total + n == i
      invariant Flat(h.pages) == rows[..total] && page[..n] == rows[total..i]
    {
      RowsAre(rs.value, i);
      var m := ScanRow(rs.value.columns, rs.value.tuples[i]);
      OneRow(rs.value.columns, rs.value.tuples[i], m, rows[i]);
      page[n] := m;
      n := n + 1;
      assert page[..n] == page[..n - 1] + [m] == rows[total..i + 1];
      if n >= size {
        err := HandOver(h, rs.value, total, page[..n], size);
        if err.Some? { return; }
        total := total + n;
        n := 0;
      }
    }
    if rs.value.broken { return total, Some("rows failed"); }
    if n > 0 {
      err := HandOver(h, rs.value, total, page[..n], size);
      if err.Some? { return; }
      total := total + n;
    }
    err := None;
  }

  lemma FirstColumns(rs: ResultSet, from: nat, page: seq<Row>)
    requires Rectangular(rs) && page != [] && from + |page| <= |rs.tuples| && page == RowsOf(rs)[from..from + |page|]
    ensures page[0].Keys == ColumnSet(rs)
  {
    hide RowsOf, ColumnSet;
    RowsShareColumns(rs, from);
  }
}
