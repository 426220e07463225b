/** The four report tests of the heap statistics table, each a lemma that
    the formatter turns the recorded objects into exactly the expected text,
    and a method that drives the table as the test does. */
module HeapStatsTests {
  import opened Text
  import opened HeapStatsReport
  import opened HeapStatsTable

  const CLASS_NAME_1 := "java.lang.Object"
  const CLASS_NAME_2 := "java.lang.long.longer.String"

  lemma SingleRecordRows()
    ensures Rows([Record(CLASS_NAME_1, 24)]) == [Row(CLASS_NAME_1, 1, 24)]
  {
    var rs := [Record(CLASS_NAME_1, 24)];
    assert [Record(CLASS_NAME_1, 24)][..0] == [];
    assert Tally([Record(CLASS_NAME_1, 24)]) == map[CLASS_NAME_1 := Stats(1, 24)];
    assert FirstSeen([Record(CLASS_NAME_1, 24)]) == [CLASS_NAME_1];
    var t := Tally(rs);
    assert [CLASS_NAME_1][..0] == [];
    assert RowsOf(t, [CLASS_NAME_1]) == [Row(CLASS_NAME_1, 1, 24)];
  }

  lemma SingleRecordWidths()
    ensures Widths([Row(CLASS_NAME_1, 1, 24)]) == [14, 11, 16]
  {
    var rows := [Row(CLASS_NAME_1, 1, 24)];
    assert rows[1..] == [];
    assert NatToString(1) == "1";
    assert NatToString(24) == "24";
    assert Cells(Row(CLASS_NAME_1, 1, 24)) == ["1", "24", CLASS_NAME_1];
    assert MaxCellWidth([Row(CLASS_NAME_1, 1, 24)], 0) == 1;
    assert MaxCellWidth([Row(CLASS_NAME_1, 1, 24)], 1) == 2;
    assert MaxCellWidth([Row(CLASS_NAME_1, 1, 24)], 2) == 16;
  }

  lemma HeaderLine16()
    ensures Line(HEADER, [14, 11, 16]) == "| Instance Count | Total Bytes | Class Name       |\n"
  {
    Head1();
    Tail1();
    assert Pad("Instance Count", 14) == "Instance Count";
    assert Pad("Total Bytes", 11) == "Total Bytes";
    assert Pad("Class Name", 16) == "Class Name      ";
  }

  lemma SingleRecordLine1()
    ensures Line(Cells(Row(CLASS_NAME_1, 1, 24)), [14, 11, 16]) == "| 1              | 24          | java.lang.Object |\n"
  {
    Head2();
    Tail2();
    assert Pad("1", 14) == "1             ";
    assert Pad("24", 11) == "24         ";
    assert Pad(CLASS_NAME_1, 16) == "java.lang.Object";
    assert NatToString(1) == "1";
    assert NatToString(24) == "24";
    assert Cells(Row(CLASS_NAME_1, 1, 24)) == ["1", "24", CLASS_NAME_1];
  }

  lemma SingleRecordSorted()
    ensures SortRows([Row(CLASS_NAME_1, 1, 24)]) == [Row(CLASS_NAME_1, 1, 24)]
  {
    var rows := [Row(CLASS_NAME_1, 1, 24)];
    assert rows[1..] == [];
    assert SortRows([Row(CLASS_NAME_1, 1, 24)]) == [Row(CLASS_NAME_1, 1, 24)];
  }

  lemma SingleRecordLines()
    ensures Lines([Row(CLASS_NAME_1, 1, 24)]) == [
      "| Instance Count | Total Bytes | Class Name       |\n",
      "| 1              | 24          | java.lang.Object |\n"]
  {
    var rows := [Row(CLASS_NAME_1, 1, 24)];
    SingleRecordWidths();
    SingleRecordSorted();
    LinesOfSorted(rows, [Row(CLASS_NAME_1, 1, 24)], [14, 11, 16]);
    HeaderLine16();
    SingleRecordLine1();
  }

  lemma SingleRecordReport()
    ensures ReportOf([Record(CLASS_NAME_1, 24)]) ==
      "| Instance Count | Total Bytes | Class Name       |\n"
      + "| 1              | 24          | java.lang.Object |\n"
  {
    SingleRecordRows();
    SingleRecordLines();
    ConcatLines("| Instance Count | Total Bytes | Class Name       |\n", "| 1              | 24          | java.lang.Object |\n", "");
  }

  method TestSingleRecordAndPrint() returns (report: string)
    ensures report ==
      "| Instance Count | Total Bytes | Class Name       |\n"
      + "| 1              | 24          | java.lang.Object |\n"
  {
    var heapStats := new HeapStatsHashtable();
    heapStats.RecordObject(CLASS_NAME_1, 24);
    report := heapStats.Print();
    SingleRecordReport();
  }

  lemma MultiRecordRows()
    ensures Rows([Record(CLASS_NAME_1, 24), Record(CLASS_NAME_2, 36)]) == [Row(CLASS_NAME_1, 1, 24), Row(CLASS_NAME_2, 1, 36)]
  {
    var rs := [Record(CLASS_NAME_1, 24), Record(CLASS_NAME_2, 36)];
    assert [Record(CLASS_NAME_1, 24)][..0] == [];
    assert Tally([Record(CLASS_NAME_1, 24)]) == map[CLASS_NAME_1 := Stats(1, 24)];
    assert FirstSeen([Record(CLASS_NAME_1, 24)]) == [CLASS_NAME_1];
    assert [Record(CLASS_NAME_1, 24), Record(CLASS_NAME_2, 36)][..1] == [Record(CLASS_NAME_1, 24)];
    assert Tally([Record(CLASS_NAME_1, 24), Record(CLASS_NAME_2, 36)]) == map[CLASS_NAME_1 := Stats(1, 24), CLASS_NAME_2 := Stats(1, 36)];
    assert FirstSeen([Record(CLASS_NAME_1, 24), Record(CLASS_NAME_2, 36)]) == [CLASS_NAME_1, CLASS_NAME_2];
    var t := Tally(rs);
    assert [CLASS_NAME_1][..0] == [];
    assert RowsOf(t, [CLASS_NAME_1]) == [Row(CLASS_NAME_1, 1, 24)];
    assert [CLASS_NAME_1, CLASS_NAME_2][..1] == [CLASS_NAME_1];
    assert RowsOf(t, [CLASS_NAME_1, CLASS_NAME_2]) == [Row(CLASS_NAME_1, 1, 24), Row(CLASS_NAME_2, 1, 36)];
  }

  lemma MultiRecordWidths()
    ensures Widths([Row(CLASS_NAME_1, 1, 24), Row(CLASS_NAME_2, 1, 36)]) == [14, 11, 28]
  {
    var rows := [Row(CLASS_NAME_1, 1, 24), Row(CLASS_NAME_2, 1, 36)];
    assert rows[1..] == [Row(CLASS_NAME_2, 1, 36)];
    assert rows[2..] == [];
    assert NatToString(1) == "1";
    assert NatToString(24) == "24";
    assert NatToString(36) == "36";
    assert Cells(Row(CLASS_NAME_1, 1, 24)) == ["1", "24", CLASS_NAME_1];
    assert Cells(Row(CLASS_NAME_2, 1, 36)) == ["1", "36", CLASS_NAME_2];
    assert MaxCellWidth([Row(CLASS_NAME_2, 1, 36)], 0) == 1;
    assert MaxCellWidth([Row(CLASS_NAME_1, 1, 24), Row(CLASS_NAME_2, 1, 36)], 0) == 1;
    assert MaxCellWidth([Row(CLASS_NAME_2, 1, 36)], 1) == 2;
    assert MaxCellWidth([Row(CLASS_NAME_1, 1, 24), Row(CLASS_NAME_2, 1, 36)], 1) == 2;
    assert MaxCellWidth([Row(CLASS_NAME_2, 1, 36)], 2) == 28;
    assert MaxCellWidth([Row(CLASS_NAME_1, 1, 24), Row(CLASS_NAME_2, 1, 36)], 2) == 28;
  }

  lemma HeaderLine28()
    ensures Line(HEADER, [14, 11, 28]) == "| Instance Count | Total Bytes | Class Name                   |\n"
  {
    Head1();
    Tail3();
    assert Pad("Instance Count", 14) == "Instance Count";
    assert Pad("Total Bytes", 11) == "Total Bytes";
    assert Pad("Class Name", 28) == "Class Name                  ";
  }

  lemma MultiRecordLine1()
    ensures Line(Cells(Row(CLASS_NAME_2, 1, 36)), [14, 11, 28]) == "| 1              | 36          | java.lang.long.longer.String |\n"
  {
    Head3();
    Tail4();
    assert Pad("1", 14) == "1             ";
    assert Pad("36", 11) == "36         ";
    assert Pad(CLASS_NAME_2, 28) == "java.lang.long.longer.String";
    assert NatToString(1) == "1";
    assert NatToString(36) == "36";
    assert Cells(Row(CLASS_NAME_2, 1, 36)) == ["1", "36", CLASS_NAME_2];
  }

  lemma MultiRecordLine2()
    ensures Line(Cells(Row(CLASS_NAME_1, 1, 24)), [14, 11, 28]) == "| 1              | 24          | java.lang.Object             |\n"
  {
    Head2();
    Tail5();
    assert Pad("1", 14) == "1             ";
    assert Pad("24", 11) == "24         ";
    assert Pad(CLASS_NAME_1, 28) == "java.lang.Object            ";
    assert NatToString(1) == "1";
    assert NatToString(24) == "24";
    assert Cells(Row(CLASS_NAME_1, 1, 24)) == ["1", "24", CLASS_NAME_1];
  }

  lemma MultiRecordSorted()
    ensures SortRows([Row(CLASS_NAME_1, 1, 24), Row(CLASS_NAME_2, 1, 36)]) == [Row(CLASS_NAME_2, 1, 36), Row(CLASS_NAME_1, 1, 24)]
  {
    var rows := [Row(CLASS_NAME_1, 1, 24), Row(CLASS_NAME_2, 1, 36)];
    assert rows[1..] == [Row(CLASS_NAME_2, 1, 36)];
    assert rows[2..] == [];
    assert SortRows([Row(CLASS_NAME_2, 1, 36)]) == [Row(CLASS_NAME_2, 1, 36)];
    assert SortRows([Row(CLASS_NAME_1, 1, 24), Row(CLASS_NAME_2, 1, 36)]) == [Row(CLASS_NAME_2, 1, 36), Row(CLASS_NAME_1, 1, 24)];
  }

  lemma MultiRecordLines()
    ensures Lines([Row(CLASS_NAME_1, 1, 24), Row(CLASS_NAME_2, 1, 36)]) == [
      "| Instance Count | Total Bytes | Class Name                   |\n",
      "| 1              | 36          | java.lang.long.longer.String |\n",
      "| 1              | 24          | java.lang.Object             |\n"]
  {
    var rows := [Row(CLASS_NAME_1, 1, 24), Row(CLASS_NAME_2, 1, 36)];
    MultiRecordWidths();
    MultiRecordSorted();
    LinesOfSorted(rows, [Row(CLASS_NAME_2, 1, 36), Row(CLASS_NAME_1, 1, 24)], [14, 11, 28]);
    HeaderLine28();
    MultiRecordLine1();
    MultiRecordLine2();
  }

  lemma MultiRecordReport()
    ensures ReportOf([Record(CLASS_NAME_1, 24), Record(CLASS_NAME_2, 36)]) ==
      "| Instance Count | Total Bytes | Class Name                   |\n"
      + "| 1              | 36          | java.lang.long.longer.String |\n"
      + "| 1              | 24          | java.lang.Object             |\n"
  {
    MultiRecordRows();
    MultiRecordLines();
    ConcatLines("| Instance Count | Total Bytes | Class Name                   |\n", "| 1              | 36          | java.lang.long.longer.String |\n", "| 1              | 24          | java.lang.Object             |\n");
  }

  method TestMultiRecordAndPrint() returns (report: string)
    ensures report ==
      "| Instance Count | Total Bytes | Class Name                   |\n"
      + "| 1              | 36          | java.lang.long.longer.String |\n"
      + "| 1              | 24          | java.lang.Object             |\n"
  {
    var heapStats := new HeapStatsHashtable();
    heapStats.RecordObject(CLASS_NAME_1, 24);
    assert heapStats.records == [Record(CLASS_NAME_1, 24)];
    heapStats.RecordObject(CLASS_NAME_2, 36);
    assert heapStats.records == [Record(CLASS_NAME_1, 24), Record(CLASS_NAME_2, 36)];
    report := heapStats.Print();
    MultiRecordReport();
  }

  lemma DuplicateRecordRows()
    ensures Rows([Record(CLASS_NAME_1, 24), Record(CLASS_NAME_1, 26), Record(CLASS_NAME_2, 32)]) == [Row(CLASS_NAME_1, 2, 50), Row(CLASS_NAME_2, 1, 32)]
  {
    var rs := [Record(CLASS_NAME_1, 24), Record(CLASS_NAME_1, 26), Record(CLASS_NAME_2, 32)];
    assert [Record(CLASS_NAME_1, 24)][..0] == [];
    assert Tally([Record(CLASS_NAME_1, 24)]) == map[CLASS_NAME_1 := Stats(1, 24)];
    assert FirstSeen([Record(CLASS_NAME_1, 24)]) == [CLASS_NAME_1];
    assert [Record(CLASS_NAME_1, 24), Record(CLASS_NAME_1, 26)][..1] == [Record(CLASS_NAME_1, 24)];
    assert Tally([Record(CLASS_NAME_1, 24), Record(CLASS_NAME_1, 26)]) == map[CLASS_NAME_1 := Stats(2, 50)];
    assert FirstSeen([Record(CLASS_NAME_1, 24), Record(CLASS_NAME_1, 26)]) == [CLASS_NAME_1];
    assert [Record(CLASS_NAME_1, 24), Record(CLASS_NAME_1, 26), Record(CLASS_NAME_2, 32)][..2] == [Record(CLASS_NAME_1, 24), Record(CLASS_NAME_1, 26)];
    assert Tally([Record(CLASS_NAME_1, 24), Record(CLASS_NAME_1, 26), Record(CLASS_NAME_2, 32)]) == map[CLASS_NAME_1 := Stats(2, 50), CLASS_NAME_2 := Stats(1, 32)];
    assert FirstSeen([Record(CLASS_NAME_1, 24), Record(CLASS_NAME_1, 26), Record(CLASS_NAME_2, 32)]) == [CLASS_NAME_1, CLASS_NAME_2];
    var t := Tally(rs);
    assert [CLASS_NAME_1][..0] == [];
    assert RowsOf(t, [CLASS_NAME_1]) == [Row(CLASS_NAME_1, 2, 50)];
    assert [CLASS_NAME_1, CLASS_NAME_2][..1] == [CLASS_NAME_1];
    assert RowsOf(t, [CLASS_NAME_1, CLASS_NAME_2]) == [Row(CLASS_NAME_1, 2, 50), Row(CLASS_NAME_2, 1, 32)];
  }

  lemma DuplicateRecordWidths()
    ensures Widths([Row(CLASS_NAME_1, 2, 50), Row(CLASS_NAME_2, 1, 32)]) == [14, 11, 28]
  {
    var rows := [Row(CLASS_NAME_1, 2, 50), Row(CLASS_NAME_2, 1, 32)];
    assert rows[1..] == [Row(CLASS_NAME_2, 1, 32)];
    assert rows[2..] == [];
    assert NatToString(1) == "1";
    assert NatToString(2) == "2";
    assert NatToString(32) == "32";
    assert NatToString(50) == "50";
    assert Cells(Row(CLASS_NAME_1, 2, 50)) == ["2", "50", CLASS_NAME_1];
    assert Cells(Row(CLASS_NAME_2, 1, 32)) == ["1", "32", CLASS_NAME_2];
    assert MaxCellWidth([Row(CLASS_NAME_2, 1, 32)], 0) == 1;
    assert MaxCellWidth([Row(CLASS_NAME_1, 2, 50), Row(CLASS_NAME_2, 1, 32)], 0) == 1;
    assert MaxCellWidth([Row(CLASS_NAME_2, 1, 32)], 1) == 2;
    assert MaxCellWidth([Row(CLASS_NAME_1, 2, 50), Row(CLASS_NAME_2, 1, 32)], 1) == 2;
    assert MaxCellWidth([Row(CLASS_NAME_2, 1, 32)], 2) == 28;
    assert MaxCellWidth([Row(CLASS_NAME_1, 2, 50), Row(CLASS_NAME_2, 1, 32)], 2) == 28;
  }

  lemma DuplicateRecordLine1()
    ensures Line(Cells(Row(CLASS_NAME_1, 2, 50)), [14, 11, 28]) == "| 2              | 50          | java.lang.Object             |\n"
  {
    Head4();
    Tail6();
    assert Pad("2", 14) == "2             ";
    assert Pad("50", 11) == "50         ";
    assert Pad(CLASS_NAME_1, 28) == "java.lang.Object            ";
    assert NatToString(2) == "2";
    assert NatToString(50) == "50";
    assert Cells(Row(CLASS_NAME_1, 2, 50)) == ["2", "50", CLASS_NAME_1];
  }

  lemma DuplicateRecordLine2()
    ensures Line(Cells(Row(CLASS_NAME_2, 1, 32)), [14, 11, 28]) == "| 1              | 32          | java.lang.long.longer.String |\n"
  {
    Head5();
    Tail7();
    assert Pad("1", 14) == "1             ";
    assert Pad("32", 11) == "32         ";
    assert Pad(CLASS_NAME_2, 28) == "java.lang.long.longer.String";
    assert NatToString(1) == "1";
    assert NatToString(32) == "32";
    assert Cells(Row(CLASS_NAME_2, 1, 32)) == ["1", "32", CLASS_NAME_2];
  }

  lemma DuplicateRecordSorted()
    ensures SortRows([Row(CLASS_NAME_1, 2, 50), Row(CLASS_NAME_2, 1, 32)]) == [Row(CLASS_NAME_1, 2, 50), Row(CLASS_NAME_2, 1, 32)]
  {
    var rows := [Row(CLASS_NAME_1, 2, 50), Row(CLASS_NAME_2, 1, 32)];
    assert rows[1..] == [Row(CLASS_NAME_2, 1, 32)];
    assert rows[2..] == [];
    assert SortRows([Row(CLASS_NAME_2, 1, 32)]) == [Row(CLASS_NAME_2, 1, 32)];
    assert SortRows([Row(CLASS_NAME_1, 2, 50), Row(CLASS_NAME_2, 1, 32)]) == [Row(CLASS_NAME_1, 2, 50), Row(CLASS_NAME_2, 1, 32)];
  }

  lemma DuplicateRecordLines()
    ensures Lines([Row(CLASS_NAME_1, 2, 50), Row(CLASS_NAME_2, 1, 32)]) == [
      "| Instance Count | Total Bytes | Class Name                   |\n",
      "| 2              | 50          | java.lang.Object             |\n",
      "| 1              | 32          | java.lang.long.longer.String |\n"]
  {
    var rows := [Row(CLASS_NAME_1, 2, 50), Row(CLASS_NAME_2, 1, 32)];
    DuplicateRecordWidths();
    DuplicateRecordSorted();
    LinesOfSorted(rows, [Row(CLASS_NAME_1, 2, 50), Row(CLASS_NAME_2, 1, 32)], [14, 11, 28]);
    HeaderLine28();
    DuplicateRecordLine1();
    DuplicateRecordLine2();
  }

  lemma DuplicateRecordReport()
    ensures ReportOf([Record(CLASS_NAME_1, 24), Record(CLASS_NAME_1, 26), Record(CLASS_NAME_2, 32)]) ==
      "| Instance Count | Total Bytes | Class Name                   |\n"
      + "| 2              | 50          | java.lang.Object             |\n"
      + "| 1              | 32          | java.lang.long.longer.String |\n"
  {
    DuplicateRecordRows();
    DuplicateRecordLines();
    ConcatLines("| Instance Count | Total Bytes | Class Name                   |\n", "| 2              | 50          | java.lang.Object             |\n", "| 1              | 32          | java.lang.long.longer.String |\n");
  }

  method TestDuplicateRecordAndPrint() returns (report: string)
    ensures report ==
      "| Instance Count | Total Bytes | Class Name                   |\n"
      + "| 2              | 50          | java.lang.Object             |\n"
      + "| 1              | 32          | java.lang.long.longer.String |\n"
  {
    var heapStats := new HeapStatsHashtable();
    heapStats.RecordObject(CLASS_NAME_1, 24);
    assert heapStats.records == [Record(CLASS_NAME_1, 24)];
    heapStats.RecordObject(CLASS_NAME_1, 26);
    assert heapStats.records == [Record(CLASS_NAME_1, 24), Record(CLASS_NAME_1, 26)];
    heapStats.RecordObject(CLASS_NAME_2, 32);
    assert heapStats.records == [Record(CLASS_NAME_1, 24), Record(CLASS_NAME_1, 26), Record(CLASS_NAME_2, 32)];
    report := heapStats.Print();
    DuplicateRecordReport();
  }

  lemma SortRecordRows()
    ensures Rows([Record(CLASS_NAME_2, 937072), Record(CLASS_NAME_1, 96)]) == [Row(CLASS_NAME_2, 1, 937072), Row(CLASS_NAME_1, 1, 96)]
  {
    var rs := [Record(CLASS_NAME_2, 937072), Record(CLASS_NAME_1, 96)];
    assert [Record(CLASS_NAME_2, 937072)][..0] == [];
    assert Tally([Record(CLASS_NAME_2, 937072)]) == map[CLASS_NAME_2 := Stats(1, 937072)];
    assert FirstSeen([Record(CLASS_NAME_2, 937072)]) == [CLASS_NAME_2];
    assert [Record(CLASS_NAME_2, 937072), Record(CLASS_NAME_1, 96)][..1] == [Record(CLASS_NAME_2, 937072)];
    assert Tally([Record(CLASS_NAME_2, 937072), Record(CLASS_NAME_1, 96)]) == map[CLASS_NAME_2 := Stats(1, 937072), CLASS_NAME_1 := Stats(1, 96)];
    assert FirstSeen([Record(CLASS_NAME_2, 937072), Record(CLASS_NAME_1, 96)]) == [CLASS_NAME_2, CLASS_NAME_1];
    var t := Tally(rs);
    assert [CLASS_NAME_2][..0] == [];
    assert RowsOf(t, [CLASS_NAME_2]) == [Row(CLASS_NAME_2, 1, 937072)];
    assert [CLASS_NAME_2, CLASS_NAME_1][..1] == [CLASS_NAME_2];
    assert RowsOf(t, [CLASS_NAME_2, CLASS_NAME_1]) == [Row(CLASS_NAME_2, 1, 937072), Row(CLASS_NAME_1, 1, 96)];
  }

  lemma SortRecordWidths()
    ensures Widths([Row(CLASS_NAME_2, 1, 937072), Row(CLASS_NAME_1, 1, 96)]) == [14, 11, 28]
  {
    var rows := [Row(CLASS_NAME_2, 1, 937072), Row(CLASS_NAME_1, 1, 96)];
    assert rows[1..] == [Row(CLASS_NAME_1, 1, 96)];
    assert rows[2..] == [];
    assert NatToString(1) == "1";
    assert NatToString(96) == "96";
    assert NatToString(937072) == "937072";
    assert Cells(Row(CLASS_NAME_2, 1, 937072)) == ["1", "937072", CLASS_NAME_2];
    assert Cells(Row(CLASS_NAME_1, 1, 96)) == ["1", "96", CLASS_NAME_1];
    assert MaxCellWidth([Row(CLASS_NAME_1, 1, 96)], 0) == 1;
    assert MaxCellWidth([Row(CLASS_NAME_2, 1, 937072), Row(CLASS_NAME_1, 1, 96)], 0) == 1;
    assert MaxCellWidth([Row(CLASS_NAME_1, 1, 96)], 1) == 2;
    assert MaxCellWidth([Row(CLASS_NAME_2, 1, 937072), Row(CLASS_NAME_1, 1, 96)], 1) == 6;
    assert MaxCellWidth([Row(CLASS_NAME_1, 1, 96)], 2) == 16;
    assert MaxCellWidth([Row(CLASS_NAME_2, 1, 937072), Row(CLASS_NAME_1, 1, 96)], 2) == 28;
  }

  lemma SortRecordLine1()
    ensures Line(Cells(Row(CLASS_NAME_2, 1, 937072)), [14, 11, 28]) == "| 1              | 937072      | java.lang.long.longer.String |\n"
  {
    Head6();
    Tail8();
    assert Pad("1", 14) == "1             ";
    assert Pad("937072", 11) == "937072     ";
    assert Pad(CLASS_NAME_2, 28) == "java.lang.long.longer.String";
    assert NatToString(1) == "1";
    assert NatToString(937072) == "937072";
    assert Cells(Row(CLASS_NAME_2, 1, 937072)) == ["1", "937072", CLASS_NAME_2];
  }

  lemma SortRecordLine2()
    ensures Line(Cells(Row(CLASS_NAME_1, 1, 96)), [14, 11, 28]) == "| 1              | 96          | java.lang.Object             |\n"
  {
    Head7();
    Tail9();
    assert Pad("1", 14) == "1             ";
    assert Pad("96", 11) == "96         ";
    assert Pad(CLASS_NAME_1, 28) == "java.lang.Object            ";
    assert NatToString(1) == "1";
    assert NatToString(96) == "96";
    assert Cells(Row(CLASS_NAME_1, 1, 96)) == ["1", "96", CLASS_NAME_1];
  }

  lemma SortRecordSorted()
    ensures SortRows([Row(CLASS_NAME_2, 1, 937072), Row(CLASS_NAME_1, 1, 96)]) == [Row(CLASS_NAME_2, 1, 937072), Row(CLASS_NAME_1, 1, 96)]
  {
    var rows := [Row(CLASS_NAME_2, 1, 937072), Row(CLASS_NAME_1, 1, 96)];
    assert rows[1..] == [Row(CLASS_NAME_1, 1, 96)];
    assert rows[2..] == [];
    assert SortRows([Row(CLASS_NAME_1, 1, 96)]) == [Row(CLASS_NAME_1, 1, 96)];
    assert SortRows([Row(CLASS_NAME_2, 1, 937072), Row(CLASS_NAME_1, 1, 96)]) == [Row(CLASS_NAME_2, 1, 937072), Row(CLASS_NAME_1, 1, 96)];
  }

  lemma SortRecordLines()
    ensures Lines([Row(CLASS_NAME_2, 1, 937072), Row(CLASS_NAME_1, 1, 96)]) == [
      "| Instance Count | Total Bytes | Class Name                   |\n",
      "| 1              | 937072      | java.lang.long.longer.String |\n",
      "| 1              | 96          | java.lang.Object             |\n"]
  {
    var rows := [Row(CLASS_NAME_2, 1, 937072), Row(CLASS_NAME_1, 1, 96)];
    SortRecordWidths();
    SortRecordSorted();
    LinesOfSorted(rows, [Row(CLASS_NAME_2, 1, 937072), Row(CLASS_NAME_1, 1, 96)], [14, 11, 28]);
    HeaderLine28();
    SortRecordLine1();
    SortRecordLine2();
  }

  lemma SortRecordReport()
    ensures ReportOf([Record(CLASS_NAME_2, 937072), Record(CLASS_NAME_1, 96)]) ==
      "| Instance Count | Total Bytes | Class Name                   |\n"
      + "| 1              | 937072      | java.lang.long.longer.String |\n"
      + "| 1              | 96          | java.lang.Object             |\n"
  {
    SortRecordRows();
    SortRecordLines();
    ConcatLines("| Instance Count | Total Bytes | Class Name                   |\n", "| 1              | 937072      | java.lang.long.longer.String |\n", "| 1              | 96          | java.lang.Object             |\n");
  }

  method TestSortAndPrint() returns (report: string)
    ensures report ==
      "| Instance Count | Total Bytes | Class Name                   |\n"
      + "| 1              | 937072      | java.lang.long.longer.String |\n"
      + "| 1              | 96          | java.lang.Object             |\n"
  {
    var heapStats := new HeapStatsHashtable();
    heapStats.RecordObject(CLASS_NAME_2, 937072);
    assert heapStats.records == [Record(CLASS_NAME_2, 937072)];
    heapStats.RecordObject(CLASS_NAME_1, 96);
    assert heapStats.records == [Record(CLASS_NAME_2, 937072), Record(CLASS_NAME_1, 96)];
    report := heapStats.Print();
    SortRecordReport();
  }
  // ---- literal steps: a long string literal is glued from its pieces a
  // few at a time, since one equation over the whole line is costly ----

  lemma Head1()
    ensures "| " + "Instance Count" + " | " + "Total Bytes" + " | " == "| Instance Count | Total Bytes | "
  {
    assert "| " + "Instance Count" == "| Instance Count";
    assert "| Instance Count" + " | " == "| Instance Count | ";
    assert "| Instance Count | " + "Total Bytes" == "| Instance Count | Total Bytes";
    assert "| Instance Count | Total Bytes" + " | " == "| Instance Count | Total Bytes | ";
  }

  lemma Tail1()
    ensures "| Instance Count | Total Bytes | " + "Class Name      " + " |\n" == "| Instance Count | Total Bytes | Class Name       |\n"
  {
    assert "| Instance Count | Total Bytes | " + "Class Name      " == "| Instance Count | Total Bytes | Class Name      ";
    assert "| Instance Count | Total Bytes | Class Name      " + " |\n" == "| Instance Count | Total Bytes | Class Name       |\n";
  }

  lemma Head2()
    ensures "| " + "1             " + " | " + "24         " + " | " == "| 1              | 24          | "
  {
    assert "| " + "1             " == "| 1             ";
    assert "| 1             " + " | " == "| 1              | ";
    assert "| 1              | " + "24         " == "| 1              | 24         ";
    assert "| 1              | 24         " + " | " == "| 1              | 24          | ";
  }

  lemma Tail2()
    ensures "| 1              | 24          | " + "java.lang.Object" + " |\n" == "| 1              | 24          | java.lang.Object |\n"
  {
    assert "| 1              | 24          | " + "java.lang.Object" == "| 1              | 24          | java.lang.Object";
    assert "| 1              | 24          | java.lang.Object" + " |\n" == "| 1              | 24          | java.lang.Object |\n";
  }

  lemma Tail3()
    ensures "| Instance Count | Total Bytes | " + "Class Name                  " + " |\n" == "| Instance Count | Total Bytes | Class Name                   |\n"
  {
    assert "| Instance Count | Total Bytes | " + "Class Name                  " == "| Instance Count | Total Bytes | Class Name                  ";
    assert "| Instance Count | Total Bytes | Class Name                  " + " |\n" == "| Instance Count | Total Bytes | Class Name                   |\n";
  }

  lemma Head3()
    ensures "| " + "1             " + " | " + "36         " + " | " == "| 1              | 36          | "
  {
    assert "| " + "1             " == "| 1             ";
    assert "| 1             " + " | " == "| 1              | ";
    assert "| 1              | " + "36         " == "| 1              | 36         ";
    assert "| 1              | 36         " + " | " == "| 1              | 36          | ";
  }

  lemma Tail4()
    ensures "| 1              | 36          | " + "java.lang.long.longer.String" + " |\n" == "| 1              | 36          | java.lang.long.longer.String |\n"
  {
    assert "| 1              | 36          | " + "java.lang.long.longer.String" == "| 1              | 36          | java.lang.long.longer.String";
    assert "| 1              | 36          | java.lang.long.longer.String" + " |\n" == "| 1              | 36          | java.lang.long.longer.String |\n";
  }

  lemma Tail5()
    ensures "| 1              | 24          | " + "java.lang.Object            " + " |\n" == "| 1              | 24          | java.lang.Object             |\n"
  {
    assert "| 1              | 24          | " + "java.lang.Object            " == "| 1              | 24          | java.lang.Object            ";
    assert "| 1              | 24          | java.lang.Object            " + " |\n" == "| 1              | 24          | java.lang.Object             |\n";
  }

  lemma Head4()
    ensures "| " + "2             " + " | " + "50         " + " | " == "| 2              | 50          | "
  {
    assert "| " + "2             " == "| 2             ";
    assert "| 2             " + " | " == "| 2              | ";
    assert "| 2              | " + "50         " == "| 2              | 50         ";
    assert "| 2              | 50         " + " | " == "| 2              | 50          | ";
  }

  lemma Tail6()
    ensures "| 2              | 50          | " + "java.lang.Object            " + " |\n" == "| 2              | 50          | java.lang.Object             |\n"
  {
    assert "| 2              | 50          | " + "java.lang.Object            " == "| 2              | 50          | java.lang.Object            ";
    assert "| 2              | 50          | java.lang.Object            " + " |\n" == "| 2              | 50          | java.lang.Object             |\n";
  }

  lemma Head5()
    ensures "| " + "1             " + " | " + "32         " + " | " == "| 1              | 32          | "
  {
    assert "| " + "1             " == "| 1             ";
    assert "| 1             " + " | " == "| 1              | ";
    assert "| 1              | " + "32         " == "| 1              | 32         ";
    assert "| 1              | 32         " + " | " == "| 1              | 32          | ";
  }

  lemma Tail7()
    ensures "| 1              | 32          | " + "java.lang.long.longer.String" + " |\n" == "| 1              | 32          | java.lang.long.longer.String |\n"
  {
    assert "| 1              | 32          | " + "java.lang.long.longer.String" == "| 1              | 32          | java.lang.long.longer.String";
    assert "| 1              | 32          | java.lang.long.longer.String" + " |\n" == "| 1              | 32          | java.lang.long.longer.String |\n";
  }

  lemma Head6()
    ensures "| " + "1             " + " | " + "937072     " + " | " == "| 1              | 937072      | "
  {
    assert "| " + "1             " == "| 1             ";
    assert "| 1             " + " | " == "| 1              | ";
    assert "| 1              | " + "937072     " == "| 1              | 937072     ";
    assert "| 1              | 937072     " + " | " == "| 1              | 937072      | ";
  }

  lemma Tail8()
    ensures "| 1              | 937072      | " + "java.lang.long.longer.String" + " |\n" == "| 1              | 937072      | java.lang.long.longer.String |\n"
  {
    assert "| 1              | 937072      | " + "java.lang.long.longer.String" == "| 1              | 937072      | java.lang.long.longer.String";
    assert "| 1              | 937072      | java.lang.long.longer.String" + " |\n" == "| 1              | 937072      | java.lang.long.longer.String |\n";
  }

  lemma Head7()
    ensures "| " + "1             " + " | " + "96         " + " | " == "| 1              | 96          | "
  {
    assert "| " + "1             " == "| 1             ";
    assert "| 1             " + " | " == "| 1              | ";
    assert "| 1              | " + "96         " == "| 1              | 96         ";
    assert "| 1              | 96         " + " | " == "| 1              | 96          | ";
  }

  lemma Tail9()
    ensures "| 1              | 96          | " + "java.lang.Object            " + " |\n" == "| 1              | 96          | java.lang.Object             |\n"
  {
    assert "| 1              | 96          | " + "java.lang.Object            " == "| 1              | 96          | java.lang.Object            ";
    assert "| 1              | 96          | java.lang.Object            " + " |\n" == "| 1              | 96          | java.lang.Object             |\n";
  }
}
