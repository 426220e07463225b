/** The text report `HeapStatsHashtable::print` writes: a header line and one
    line per class, sorted by total bytes, in three left-justified columns. */
module HeapStatsReport {
  import opened Text

  /** One class of the histogram. */
  datatype Row = Row(className: string, instanceCount: nat, totalBytes: nat)

  // ---- ordering the rows ----

  /** Largest total first. */
  predicate SortedByBytes(rows: seq<Row>) {
    forall i, j :: 0 <= i < j < |rows| ==> rows[i].totalBytes >= rows[j].totalBytes
  }

  /** Each row's total is at least the next one's. */
  predicate AdjacentSorted(rows: seq<Row>) {
    forall i :: 0 < i < |rows| ==> rows[i - 1].totalBytes >= rows[i].totalBytes
  }

  lemma {:induction false} AdjacentSortedIsSorted(rows: seq<Row>)
    requires AdjacentSorted(rows)
    ensures SortedByBytes(rows)
    decreases |rows|
  {
    if rows != [] {
      var tail := rows[1..];
      assert forall i :: 0 <= i < |tail| ==> tail[i] == rows[i + 1];
      AdjacentSortedIsSorted(tail);
      forall j | 1 < j < |rows|
        ensures rows[0].totalBytes >= rows[j].totalBytes
      {
        assert rows[0].totalBytes >= tail[0].totalBytes >= tail[j - 1].totalBytes;
      }
    }
  }

  /** `r` goes in front of the first row whose total is not larger. */
  function Insert(r: Row, sorted: seq<Row>): (out: seq<Row>)
    ensures |out| == |sorted| + 1
    ensures out[0] == r || (sorted != [] && out[0] == sorted[0])
    decreases |sorted|
  {
    if sorted == [] then [r]
    else if sorted[0].totalBytes <= r.totalBytes then [r] + sorted
    else [sorted[0]] + Insert(r, sorted[1..])
  }

  function SortRows(rows: seq<Row>): seq<Row>
    decreases |rows|
  {
    if rows == [] then [] else Insert(rows[0], SortRows(rows[1..]))
  }

  lemma {:induction false} InsertSorted(r: Row, sorted: seq<Row>)
    requires AdjacentSorted(sorted)
    ensures AdjacentSorted(Insert(r, sorted))
    decreases |sorted|
  {
    if sorted != [] && sorted[0].totalBytes > r.totalBytes {
      var tail := sorted[1..];
      assert forall i :: 0 <= i < |tail| ==> tail[i] == sorted[i + 1];
      InsertSorted(r, tail);
      var ins := Insert(r, tail);
      assert Insert(r, sorted) == [sorted[0]] + ins;
      assert forall i :: 0 < i < |ins| + 1 ==> ([sorted[0]] + ins)[i] == ins[i - 1];
    }
  }

  lemma {:induction false} InsertPermutes(r: Row, sorted: seq<Row>)
    ensures multiset(Insert(r, sorted)) == multiset(sorted) + multiset{r}
    decreases |sorted|
  {
    if sorted != [] {
      assert sorted == [sorted[0]] + sorted[1..];
      if sorted[0].totalBytes > r.totalBytes {
        InsertPermutes(r, sorted[1..]);
      }
    }
  }

  /** The report's rows are in non-increasing order of total bytes and are
      exactly the rows given, each as often as given. */
  lemma {:induction false} SortRowsProperties(rows: seq<Row>)
    ensures SortedByBytes(SortRows(rows))
    ensures multiset(SortRows(rows)) == multiset(rows)
    ensures |SortRows(rows)| == |rows|
    decreases |rows|
  {
    SortRowsAdjacent(rows);
    AdjacentSortedIsSorted(SortRows(rows));
    SortRowsPermutes(rows);
    assert |multiset(SortRows(rows))| == |multiset(rows)|;
  }

  lemma {:induction false} SortRowsAdjacent(rows: seq<Row>)
    ensures AdjacentSorted(SortRows(rows))
    decreases |rows|
  {
    if rows != [] {
      SortRowsAdjacent(rows[1..]);
      InsertSorted(rows[0], SortRows(rows[1..]));
    }
  }

  lemma {:induction false} SortRowsPermutes(rows: seq<Row>)
    ensures multiset(SortRows(rows)) == multiset(rows)
    decreases |rows|
  {
    if rows != [] {
      SortRowsPermutes(rows[1..]);
      InsertPermutes(rows[0], SortRows(rows[1..]));
      assert rows == [rows[0]] + rows[1..];
    }
  }

  /** The rows whose total is `b`, in the order given. */
  function WithTotal(rows: seq<Row>, b: nat): seq<Row>
    decreases |rows|
  {
    if rows == [] then []
    else (if rows[0].totalBytes == b then [rows[0]] else []) + WithTotal(rows[1..], b)
  }

  lemma WithTotalCons(h: Row, rest: seq<Row>, b: nat)
    ensures WithTotal([h] + rest, b) == (if h.totalBytes == b then [h] else []) + WithTotal(rest, b)
  {
    assert ([h] + rest)[1..] == rest;
  }

  /** Insertion puts `r` ahead of the rows with its own total and passes no
      row of another total over one with that total. */
  lemma {:induction false} InsertKeepsTies(r: Row, sorted: seq<Row>, b: nat)
    ensures WithTotal(Insert(r, sorted), b) == (if r.totalBytes == b then [r] else []) + WithTotal(sorted, b)
    decreases |sorted|
  {
    if sorted == [] {
      assert Insert(r, sorted) == [r] + [];
      WithTotalCons(r, [], b);
    } else if sorted[0].totalBytes <= r.totalBytes {
      assert Insert(r, sorted) == [r] + sorted;
      WithTotalCons(r, sorted, b);
    } else {
      var h, tail := sorted[0], sorted[1..];
      assert Insert(r, sorted) == [h] + Insert(r, tail);
      assert sorted == [h] + tail;
      WithTotalCons(h, Insert(r, tail), b);
      WithTotalCons(h, tail, b);
      InsertKeepsTies(r, tail, b);
      assert h.totalBytes != b || r.totalBytes != b;
    }
  }

  /** The sort is stable: rows with equal totals are printed in the order
      they were given. */
  lemma {:induction false} SortRowsStable(rows: seq<Row>, b: nat)
    ensures WithTotal(SortRows(rows), b) == WithTotal(rows, b)
    decreases |rows|
  {
    if rows != [] {
      SortRowsStable(rows[1..], b);
      InsertKeepsTies(rows[0], SortRows(rows[1..]), b);
    }
  }

  // ---- columns ----

  const HEADER: seq<string> := ["Instance Count", "Total Bytes", "Class Name"]

  /** A row's three cells: the count and the total in decimal, then the name. */
  function Cells(r: Row): (cs: seq<string>)
    ensures |cs| == 3
  {
    [NatToString(r.instanceCount), NatToString(r.totalBytes), r.className]
  }

  function Max(a: nat, b: nat): nat {
    if a >= b then a else b
  }

  function MaxCellWidth(rows: seq<Row>, c: nat): nat
    requires c < 3
    decreases |rows|
  {
    if rows == [] then 0 else Max(|Cells(rows[0])[c]|, MaxCellWidth(rows[1..], c))
  }

  /** Column `c` is as wide as its header label or its widest cell. */
  function ColumnWidth(rows: seq<Row>, c: nat): nat
    requires c < 3
  {
    Max(|HEADER[c]|, MaxCellWidth(rows, c))
  }

  lemma {:induction false} MaxCellWidthIsMax(rows: seq<Row>, c: nat)
    requires c < 3
    ensures forall i :: 0 <= i < |rows| ==> |Cells(rows[i])[c]| <= MaxCellWidth(rows, c)
    ensures rows == [] ==> MaxCellWidth(rows, c) == 0
    ensures rows != [] ==> exists i :: 0 <= i < |rows| && MaxCellWidth(rows, c) == |Cells(rows[i])[c]|
    decreases |rows|
  {
    if rows != [] {
      var tail := rows[1..];
      MaxCellWidthIsMax(tail, c);
      assert forall i :: 0 <= i < |tail| ==> tail[i] == rows[i + 1];
      if tail != [] && MaxCellWidth(rows, c) != |Cells(rows[0])[c]| {
        var i :| 0 <= i < |tail| && MaxCellWidth(tail, c) == |Cells(tail[i])[c]|;
        assert MaxCellWidth(rows, c) == |Cells(rows[i + 1])[c]|;
      }
    }
  }

  /** The width of a column is the largest of its header length and its cell
      lengths: no cell is wider, and the width is one of those lengths. */
  lemma ColumnWidthIsMax(rows: seq<Row>, c: nat)
    requires c < 3
    ensures |HEADER[c]| <= ColumnWidth(rows, c)
    ensures forall r :: r in rows ==> |Cells(r)[c]| <= ColumnWidth(rows, c)
    ensures ColumnWidth(rows, c) == |HEADER[c]|
            || exists i :: 0 <= i < |rows| && ColumnWidth(rows, c) == |Cells(rows[i])[c]|
  {
    MaxCellWidthIsMax(rows, c);
  }

  function Spaces(n: nat): (s: string)
    ensures |s| == n && forall i :: 0 <= i < n ==> s[i] == ' '
  {
    if n == 0 then [] else [' '] + Spaces(n - 1)
  }

  /** A left-justified cell: space-padded on the right up to `w`, as the
      expected tables of heapstatstests.c++ show; a longer string is written
      whole. */
  function Pad(s: string, w: nat): (p: string)
    ensures |p| == Max(|s|, w)
    ensures p[..|s|] == s
    ensures forall i :: |s| <= i < |p| ==> p[i] == ' '
  {
    if |s| >= w then s else s + Spaces(w - |s|)
  }

  /** One line of the table. */
  function Line(cells: seq<string>, widths: seq<nat>): string
    requires |cells| == 3 && |widths| == 3
  {
    Frame(Pad(cells[0], widths[0]), Pad(cells[1], widths[1]), Pad(cells[2], widths[2]))
  }

  /** Three padded cells between the borders and separators of a line. */
  function Frame(p0: string, p1: string, p2: string): string {
    "| " + p0 + " | " + p1 + " | " + p2 + " |\n"
  }

  predicate Fits(cells: seq<string>, widths: seq<nat>)
    requires |cells| == 3 && |widths| == 3
  {
    forall c :: 0 <= c < 3 ==> |cells[c]| <= widths[c]
  }

  /** Where each of seven glued pieces sits in the result. */
  lemma Pieces(a: string, b: string, c: string, d: string, e: string, f: string, g: string)
    ensures var l := a + b + c + d + e + f + g;
      var i1, i2, i3 := |a|, |a| + |b|, |a| + |b| + |c|;
      var i4, i5, i6 := i3 + |d|, i3 + |d| + |e|, i3 + |d| + |e| + |f|;
      |l| == i6 + |g|
      && l[..i1] == a && l[i1..i2] == b && l[i2..i3] == c && l[i3..i4] == d
      && l[i4..i5] == e && l[i5..i6] == f && l[i6..] == g
  {
    var l := a + b + c + d + e + f + g;
    var i1, i2, i3 := |a|, |a| + |b|, |a| + |b| + |c|;
    var i4, i5, i6 := i3 + |d|, i3 + |d| + |e|, i3 + |d| + |e| + |f|;
    assert l[..i6] == a + b + c + d + e + f;
    assert l[..i5] == a + b + c + d + e;
    assert l[..i4] == a + b + c + d;
    assert l[..i3] == a + b + c;
    assert l[..i2] == a + b;
  }

  /** A line whose cells fit is as long as its columns plus the eleven
      characters of the borders and separators. */
  lemma LineLength(cells: seq<string>, widths: seq<nat>)
    requires |cells| == 3 && |widths| == 3 && Fits(cells, widths)
    ensures |Line(cells, widths)| == 11 + widths[0] + widths[1] + widths[2]
  {
    assert |cells[0]| <= widths[0] && |cells[1]| <= widths[1] && |cells[2]| <= widths[2];
    assert |Pad(cells[0], widths[0])| == widths[0];
    assert |Pad(cells[1], widths[1])| == widths[1];
    assert |Pad(cells[2], widths[2])| == widths[2];
  }

  /** Where everything sits in a line whose cells fit their columns: each
      padded cell starts at the same offset on every line. */
  lemma FrameLayout(p0: string, p1: string, p2: string)
    ensures Frame(p0, p1, p2)[..2] == "| "
    ensures Frame(p0, p1, p2)[2..2 + |p0|] == p0
    ensures Frame(p0, p1, p2)[2 + |p0|..5 + |p0|] == " | "
    ensures Frame(p0, p1, p2)[5 + |p0|..5 + |p0| + |p1|] == p1
    ensures Frame(p0, p1, p2)[5 + |p0| + |p1|..8 + |p0| + |p1|] == " | "
    ensures Frame(p0, p1, p2)[8 + |p0| + |p1|..8 + |p0| + |p1| + |p2|] == p2
    ensures Frame(p0, p1, p2)[8 + |p0| + |p1| + |p2|..] == " |\n"
  {
    Pieces("| ", p0, " | ", p1, " | ", p2, " |\n");
  }

  lemma LineLayout(cells: seq<string>, widths: seq<nat>)
    requires |cells| == 3 && |widths| == 3 && Fits(cells, widths)
    ensures Line(cells, widths)[..2] == "| "
    ensures Line(cells, widths)[2..2 + widths[0]] == Pad(cells[0], widths[0])
    ensures Line(cells, widths)[2 + widths[0]..5 + widths[0]] == " | "
    ensures Line(cells, widths)[5 + widths[0]..5 + widths[0] + widths[1]] == Pad(cells[1], widths[1])
    ensures Line(cells, widths)[5 + widths[0] + widths[1]..8 + widths[0] + widths[1]] == " | "
    ensures Line(cells, widths)[8 + widths[0] + widths[1]..8 + widths[0] + widths[1] + widths[2]] == Pad(cells[2], widths[2])
    ensures Line(cells, widths)[8 + widths[0] + widths[1] + widths[2]..] == " |\n"
  {
    var p0, p1, p2 := Pad(cells[0], widths[0]), Pad(cells[1], widths[1]), Pad(cells[2], widths[2]);
    assert |p0| == widths[0] && |p1| == widths[1] && |p2| == widths[2];
    FrameLayout(p0, p1, p2);
  }

  // ---- the report ----

  function Widths(rows: seq<Row>): (w: seq<nat>)
    ensures |w| == 3
  {
    [ColumnWidth(rows, 0), ColumnWidth(rows, 1), ColumnWidth(rows, 2)]
  }

  function RowLines(sorted: seq<Row>, widths: seq<nat>): (ls: seq<string>)
    requires |widths| == 3
    ensures |ls| == |sorted|
    decreases |sorted|
  {
    if sorted == [] then [] else [Line(Cells(sorted[0]), widths)] + RowLines(sorted[1..], widths)
  }

  /** The header line, then one line per row, largest total first. */
  function Lines(rows: seq<Row>): seq<string> {
    [Line(HEADER, Widths(rows))] + RowLines(SortRows(rows), Widths(rows))
  }

  function Concat(ls: seq<string>): string
    decreases |ls|
  {
    if ls == [] then "" else ls[0] + Concat(ls[1..])
  }

  /** What `print` writes for the given rows. */
  function Report(rows: seq<Row>): string {
    Concat(Lines(rows))
  }

  lemma {:induction false} RowLinesAt(sorted: seq<Row>, widths: seq<nat>, i: nat)
    requires |widths| == 3 && i < |sorted|
    ensures RowLines(sorted, widths)[i] == Line(Cells(sorted[i]), widths)
    decreases i
  {
    if i > 0 {
      RowLinesAt(sorted[1..], widths, i - 1);
    }
  }

  /** The report is one header line and one line per row, the rows in
      sorted order. */
  lemma ReportLines(rows: seq<Row>)
    ensures |Lines(rows)| == 1 + |rows|
    ensures Lines(rows)[0] == Line(HEADER, Widths(rows))
    ensures forall i :: 0 <= i < |rows| ==> Lines(rows)[i + 1] == Line(Cells(SortRows(rows)[i]), Widths(rows))
  {
    SortRowsProperties(rows);
    forall i | 0 <= i < |rows|
      ensures Lines(rows)[i + 1] == Line(Cells(SortRows(rows)[i]), Widths(rows))
    {
      RowLinesAt(SortRows(rows), Widths(rows), i);
    }
  }

  lemma RowFits(rows: seq<Row>, r: Row)
    requires r in rows
    ensures Fits(Cells(r), Widths(rows))
  {
    ColumnWidthIsMax(rows, 0);
    ColumnWidthIsMax(rows, 1);
    ColumnWidthIsMax(rows, 2);
    var cs, w := Cells(r), Widths(rows);
    assert |cs[0]| <= w[0] && |cs[1]| <= w[1] && |cs[2]| <= w[2];
  }

  lemma HeaderFits(rows: seq<Row>)
    ensures Fits(HEADER, Widths(rows))
  {
    ColumnWidthIsMax(rows, 0);
    ColumnWidthIsMax(rows, 1);
    ColumnWidthIsMax(rows, 2);
    var w := Widths(rows);
    assert |HEADER[0]| <= w[0] && |HEADER[1]| <= w[1] && |HEADER[2]| <= w[2];
  }

  /** Every cell of the report, header included, fits its column: nothing is
      truncated and every line is padded to the same widths. */
  lemma ReportFits(rows: seq<Row>)
    ensures Fits(HEADER, Widths(rows))
    ensures forall i :: 0 <= i < |SortRows(rows)| ==> Fits(Cells(SortRows(rows)[i]), Widths(rows))
  {
    HeaderFits(rows);
    SortRowsProperties(rows);
    forall i | 0 <= i < |SortRows(rows)|
      ensures Fits(Cells(SortRows(rows)[i]), Widths(rows))
    {
      var r := SortRows(rows)[i];
      assert r in multiset(rows);
      RowFits(rows, r);
    }
  }

  /** All lines have the same length, so the columns line up. */
  lemma ReportAligned(rows: seq<Row>)
    ensures forall i :: 0 <= i < |Lines(rows)| ==>
      |Lines(rows)[i]| == 11 + ColumnWidth(rows, 0) + ColumnWidth(rows, 1) + ColumnWidth(rows, 2)
  {
    var w := Widths(rows);
    ReportLines(rows);
    ReportFits(rows);
    SortRowsProperties(rows);
    LineLength(HEADER, w);
    forall i | 0 <= i < |Lines(rows)|
      ensures |Lines(rows)[i]| == 11 + w[0] + w[1] + w[2]
    {
      if i > 0 {
        LineLength(Cells(SortRows(rows)[i - 1]), w);
        assert Lines(rows)[(i - 1) + 1] == Lines(rows)[i];
      }
    }
  }

  /** The lines of a table whose rows sort to `[a]` or `[a, b]`. */
  lemma LinesOfSorted(rows: seq<Row>, sorted: seq<Row>, w: seq<nat>)
    requires SortRows(rows) == sorted && Widths(rows) == w && 1 <= |sorted| <= 2
    ensures |sorted| == 1 ==> Lines(rows) == [Line(HEADER, w), Line(Cells(sorted[0]), w)]
    ensures |sorted| == 2 ==> Lines(rows) == [Line(HEADER, w), Line(Cells(sorted[0]), w), Line(Cells(sorted[1]), w)]
  {
    var last := sorted[|sorted| - 1];
    assert sorted[|sorted| - 1..] == [last];
    assert [last][1..] == [];
    assert RowLines([last], w) == [Line(Cells(last), w)];
    if |sorted| == 2 {
      assert sorted[1..] == [last];
      assert RowLines(sorted, w) == [Line(Cells(sorted[0]), w), Line(Cells(last), w)];
    }
  }

  lemma ConcatLines(a: string, b: string, c: string)
    ensures Concat([a]) == a
    ensures Concat([a, b]) == a + b
    ensures Concat([a, b, c]) == a + b + c
  {
    assert [a][1..] == [] && a + "" == a;
    assert [b][1..] == [] && b + "" == b;
    assert [c][1..] == [] && c + "" == c;
    assert [a, b][1..] == [b];
    assert [b, c][1..] == [c];
    assert [a, b, c][1..] == [b, c];
    assert Concat([c]) == c;
    assert Concat([b]) == b;
    assert Concat([b, c]) == b + c;
    assert Concat([a, b, c]) == a + (b + c);
    assert a + (b + c) == a + b + c;
  }

  lemma EmptyHeaderLine()
    ensures Line(HEADER, [14, 11, 10]) == "| Instance Count | Total Bytes | Class Name |\n"
  {
    assert "| " + "Instance Count" == "| Instance Count";
    assert "| Instance Count" + " | " == "| Instance Count | ";
    assert "| Instance Count | " + "Total Bytes" == "| Instance Count | Total Bytes";
    assert "| Instance Count | Total Bytes" + " | " == "| Instance Count | Total Bytes | ";
    assert "| Instance Count | Total Bytes | " + "Class Name" == "| Instance Count | Total Bytes | Class Name";
    assert "| Instance Count | Total Bytes | Class Name" + " |\n" == "| Instance Count | Total Bytes | Class Name |\n";
    assert Pad("Instance Count", 14) == "Instance Count";
    assert Pad("Total Bytes", 11) == "Total Bytes";
    assert Pad("Class Name", 10) == "Class Name";
  }

  /** With no classes recorded, only the header is printed. */
  lemma EmptyReport()
    ensures Report([]) == "| Instance Count | Total Bytes | Class Name |\n"
  {
    var w := Widths([]);
    assert w == [14, 11, 10];
    assert Lines([]) == [Line(HEADER, w)];
    EmptyHeaderLine();
    ConcatLines(Line(HEADER, w), "", "");
  }
}
