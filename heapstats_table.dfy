/** The class histogram, `HeapStatsHashtable`: `recordObject` counts the
    instances and adds up the bytes of each class; `print` writes the table
    that `HeapStatsReport` describes. */
module HeapStatsTable {
  import opened Text
  import opened HeapStatsReport

  /** What the table keeps for one class. */
  datatype Stats = Stats(instanceCount: nat, totalBytes: nat)

  /** One call of `recordObject`. */
  datatype Record = Record(className: string, size: nat)

  // ---- the table as a function of the records ----

  /** The table after the records, in the order they were made. */
  function Tally(records: seq<Record>): map<string, Stats>
    decreases |records|
  {
    if records == [] then map[]
    else
      var t := Tally(records[..|records| - 1]);
      var r := records[|records| - 1];
      if r.className in t then
        t[r.className := Stats(t[r.className].instanceCount + 1, t[r.className].totalBytes + r.size)]
      else
        t[r.className := Stats(1, r.size)]
  }

  /** How many records name the class. */
  function CountOf(records: seq<Record>, name: string): nat
    decreases |records|
  {
    if records == [] then 0
    else (if records[0].className == name then 1 else 0) + CountOf(records[1..], name)
  }

  /** The sizes of the records naming the class, added up. */
  function BytesOf(records: seq<Record>, name: string): nat
    decreases |records|
  {
    if records == [] then 0
    else (if records[0].className == name then records[0].size else 0) + BytesOf(records[1..], name)
  }

  lemma {:induction false} CountOfAppend(records: seq<Record>, r: Record, name: string)
    ensures CountOf(records + [r], name) == CountOf(records, name) + (if r.className == name then 1 else 0)
    ensures BytesOf(records + [r], name) == BytesOf(records, name) + (if r.className == name then r.size else 0)
    decreases |records|
  {
    if records == [] {
      assert [] + [r] == [r];
      assert [r][1..] == [];
    } else {
      assert (records + [r])[1..] == records[1..] + [r];
      CountOfAppend(records[1..], r, name);
    }
  }

  /** The classes of the table are the classes recorded. */
  lemma {:induction false} TallyKeys(records: seq<Record>)
    ensures Tally(records).Keys == set i | 0 <= i < |records| :: records[i].className
    decreases |records|
  {
    if records != [] {
      var prefix := records[..|records| - 1];
      var r := records[|records| - 1];
      TallyKeys(prefix);
      assert Tally(records).Keys == Tally(prefix).Keys + {r.className};
      var all := set i | 0 <= i < |records| :: records[i].className;
      var before := set i | 0 <= i < |prefix| :: prefix[i].className;
      forall name | name in all
        ensures name in before + {r.className}
      {
        var i :| 0 <= i < |records| && records[i].className == name;
        if i < |prefix| {
          assert prefix[i] == records[i];
        }
      }
      forall name | name in before
        ensures name in all
      {
        var i :| 0 <= i < |prefix| && prefix[i].className == name;
        assert records[i] == prefix[i];
      }
      assert r.className == records[|records| - 1].className;
    }
  }

  /** A class is in the table exactly when some record names it, and then
      its entry holds the number of those records and the sum of their sizes. */
  lemma {:induction false} TallyCounts(records: seq<Record>, name: string)
    ensures name in Tally(records) <==> exists i :: 0 <= i < |records| && records[i].className == name
    ensures name in Tally(records) ==>
      Tally(records)[name] == Stats(CountOf(records, name), BytesOf(records, name))
    ensures name !in Tally(records) ==> CountOf(records, name) == 0 && BytesOf(records, name) == 0
    decreases |records|
  {
    TallyKeys(records);
    if records != [] {
      var prefix := records[..|records| - 1];
      var r := records[|records| - 1];
      TallyCounts(prefix, name);
      assert records == prefix + [r];
      CountOfAppend(prefix, r, name);
    }
  }

  /** The table's classes in the order they were first recorded. */
  function FirstSeen(records: seq<Record>): seq<string>
    decreases |records|
  {
    if records == [] then []
    else
      var f := FirstSeen(records[..|records| - 1]);
      var name := records[|records| - 1].className;
      if name in f then f else f + [name]
  }

  predicate Distinct(names: seq<string>) {
    forall i, j :: 0 <= i < j < |names| ==> names[i] != names[j]
  }

  /** Each class of the table appears once in the order, and nothing else does. */
  lemma {:induction false} FirstSeenIsTheTable(records: seq<Record>)
    ensures Distinct(FirstSeen(records))
    ensures forall name :: name in FirstSeen(records) <==> name in Tally(records)
    ensures |FirstSeen(records)| == |Tally(records)|
    decreases |records|
  {
    if records != [] {
      var prefix := records[..|records| - 1];
      FirstSeenIsTheTable(prefix);
      var f := FirstSeen(prefix);
      var name := records[|records| - 1].className;
      assert Tally(records).Keys == Tally(prefix).Keys + {name};
      if name !in f {
        assert name !in Tally(prefix).Keys;
        var g := f + [name];
        assert forall i :: 0 <= i < |f| ==> g[i] == f[i];
      }
    }
  }

  function RowOf(table: map<string, Stats>, name: string): Row
    requires name in table
  {
    Row(name, table[name].instanceCount, table[name].totalBytes)
  }

  /** The rows of the named classes, in the given order. */
  function RowsOf(table: map<string, Stats>, names: seq<string>): (rows: seq<Row>)
    requires forall i :: 0 <= i < |names| ==> names[i] in table
    ensures |rows| == |names|
    decreases |names|
  {
    if names == [] then []
    else RowsOf(table, names[..|names| - 1]) + [RowOf(table, names[|names| - 1])]
  }

  lemma {:induction false} RowsOfAt(table: map<string, Stats>, names: seq<string>, i: nat)
    requires forall j :: 0 <= j < |names| ==> names[j] in table
    requires i < |names|
    ensures RowsOf(table, names)[i] == RowOf(table, names[i])
    decreases |names|
  {
    if i < |names| - 1 {
      var prefix := names[..|names| - 1];
      assert prefix[i] == names[i];
      RowsOfAt(table, prefix, i);
    }
  }

  /** The rows `print` hands to the formatter. */
  function Rows(records: seq<Record>): seq<Row> {
    FirstSeenIsTheTable(records);
    RowsOf(Tally(records), FirstSeen(records))
  }

  /** What `print` writes after the records. */
  function ReportOf(records: seq<Record>): string {
    Report(Rows(records))
  }

  lemma RowsAt(records: seq<Record>, i: nat)
    requires i < |FirstSeen(records)|
    ensures FirstSeen(records)[i] in Tally(records)
    ensures |Rows(records)| == |FirstSeen(records)|
    ensures Rows(records)[i] == RowOf(Tally(records), FirstSeen(records)[i])
  {
    FirstSeenIsTheTable(records);
    RowsOfAt(Tally(records), FirstSeen(records), i);
  }

  /** One row per recorded class, none twice, each holding the number of
      records of that class and the sum of their sizes. */
  lemma RowsAreTheClasses(records: seq<Record>)
    ensures |Rows(records)| == |Tally(records)|
    ensures forall i, j :: 0 <= i < j < |Rows(records)| ==> Rows(records)[i].className != Rows(records)[j].className
    ensures forall i :: 0 <= i < |Rows(records)| ==>
      var r := Rows(records)[i];
      r.instanceCount == CountOf(records, r.className) && r.totalBytes == BytesOf(records, r.className)
    ensures forall name :: name in Tally(records) ==> exists i :: 0 <= i < |Rows(records)| && Rows(records)[i].className == name
  {
    FirstSeenIsTheTable(records);
    var f, rows := FirstSeen(records), Rows(records);
    forall i | 0 <= i < |rows|
      ensures rows[i].className == f[i]
      ensures rows[i].instanceCount == CountOf(records, f[i]) && rows[i].totalBytes == BytesOf(records, f[i])
    {
      RowsAt(records, i);
      TallyCounts(records, f[i]);
    }
    forall name | name in Tally(records)
      ensures exists i :: 0 <= i < |rows| && rows[i].className == name
    {
      var i :| 0 <= i < |f| && f[i] == name;
      assert rows[i].className == name;
    }
  }

  /** What `print` writes for the records: the header, then one line per
      recorded class, the lines ordered by total bytes, largest first. */
  lemma PrintedLines(records: seq<Record>)
    ensures |Lines(Rows(records))| == 1 + |Tally(records)|
    ensures SortedByBytes(SortRows(Rows(records)))
    ensures multiset(SortRows(Rows(records))) == multiset(Rows(records))
    ensures forall i :: 0 <= i < |Tally(records)| ==>
      Lines(Rows(records))[i + 1] == Line(Cells(SortRows(Rows(records))[i]), Widths(Rows(records)))
  {
    RowsAreTheClasses(records);
    ReportLines(Rows(records));
    SortRowsProperties(Rows(records));
  }

  /** The walk over the table that `print` makes: one row per class, in the
      given order. */
  method CollectRows(table: map<string, Stats>, order: seq<string>) returns (rows: seq<Row>)
    requires forall i :: 0 <= i < |order| ==> order[i] in table
    ensures rows == RowsOf(table, order)
  {
    rows := [];
    for i := 0 to |order|
      invariant rows == RowsOf(table, order[..i])
    {
      var name := order[i];
      var s := table[name];
      assert order[..i + 1][..i] == order[..i];
      rows := rows + [Row(name, s.instanceCount, s.totalBytes)];
    }
    assert order[..|order|] == order;
  }

  // ---- the hash table ----

  class HeapStatsHashtable {
    var table: map<string, Stats>
    /** The classes in the order they were first recorded. */
    var order: seq<string>
    /** Every `recordObject` call so far. */
    ghost var records: seq<Record>

    ghost predicate Valid()
      reads this
    {
      table == Tally(records) && order == FirstSeen(records)
    }

    constructor()
      ensures Valid() && records == []
    {
      table := map[];
      order := [];
      records := [];
    }

    /** `recordObject(name, size)`: one more instance of the class, `size`
        more bytes. */
    method RecordObject(className: string, size: nat)
      requires Valid()
      modifies this
      ensures Valid() && records == old(records) + [Record(className, size)]
    {
      ghost var rs := records + [Record(className, size)];
      assert rs[..|rs| - 1] == records;
      assert rs[|rs| - 1] == Record(className, size);
      FirstSeenIsTheTable(records);
      if className in table {
        var s := table[className];
        table := table[className := Stats(s.instanceCount + 1, s.totalBytes + size)];
      } else {
        table := table[className := Stats(1, size)];
        order := order + [className];
      }
      records := rs;
    }

    /** `print`: the rows in first-recorded order, formatted. */
    method Print() returns (report: string)
      requires Valid()
      ensures report == ReportOf(records)
    {
      FirstSeenIsTheTable(records);
      var rows := CollectRows(table, order);
      report := Report(rows);
    }
  }
}
