/**
 * The inline data set of the script (lines 9-14) and the table and bars it
 * produces. The lemmas speak of any record sequence that equals the data
 * record by record (`IsSample`), which `SampleRecords` does.
 */
module Sample {
  import opened Wrappers
  import opened Digits
  import opened Ordering
  import opened Dates
  import opened Quarters
  import opened Aggregation
  import opened Chart

  const SampleRecords: seq<Record> := [
    Record(Date(2022, 12, 1), "Project Name", 22, 44),
    Record(Date(2024, 3, 3), "Project Name2", 22, 1),
    Record(Date(2024, 4, 2), "Project Name4", 23, 22),
    Record(Date(2024, 6, 2), "Project Name", 14, 44),
    Record(Date(2024, 9, 2), "Project Name2", 13, 13),
    Record(Date(2025, 10, 3), "Project Name3", 15, 16)
  ]

  /** The `Date` column as the script writes it. */
  const SampleDateTexts: seq<string> := ["2022-12-01", "2024-03-03", "2024-04-02", "2024-06-02", "2024-09-02", "2025-10-03"]

  /** The rows of the chart: every quarter from 2022-Q4 to 2025-Q4. */
  const SamplePeriods: seq<string> := [
    "2022-Q4",
    "2023-Q1", "2023-Q2", "2023-Q3", "2023-Q4",
    "2024-Q1", "2024-Q2", "2024-Q3", "2024-Q4",
    "2025-Q1", "2025-Q2", "2025-Q3", "2025-Q4"
  ]

  /** The stacks of each bar, in text order. */
  const SampleProjects: seq<string> := ["Project Name", "Project Name2", "Project Name3", "Project Name4"]

  /** Row, column and `Total` of each record of the data. */
  const RecordRows: seq<nat> := [0, 5, 6, 6, 7, 12]
  const RecordCols: seq<nat> := [0, 1, 3, 0, 1, 2]
  const RecordTotals: seq<int> := [66, 23, 45, 58, 26, 31]

  /** The height of each bar of the chart. */
  const SampleBars: seq<int> := [66, 0, 0, 0, 0, 23, 103, 26, 0, 0, 0, 0, 31]

  /** The expected cell of the pivoted table. */
  function SampleCell(i: nat, j: nat): int {
    if i == 0 && j == 0 then 66
    else if i == 5 && j == 1 then 23
    else if i == 6 && j == 0 then 58
    else if i == 6 && j == 3 then 45
    else if i == 7 && j == 1 then 26
    else if i == 12 && j == 2 then 31
    else 0
  }

  /** Records equal, one by one, to the data. */
  predicate IsSample(recs: seq<Record>) {
    |recs| == |SampleRecords| && forall k :: 0 <= k < |recs| ==> recs[k] == SampleRecords[k]
  }

  lemma SampleIsSample()
    ensures IsSample(SampleRecords)
  {
  }

  /** Quarter, project and total of each record. */
  lemma SampleRecordFacts(recs: seq<Record>, k: nat)
    requires IsSample(recs) && k < |recs|
    ensures Valid(recs[k].date)
    ensures DateQuarter(recs[k].date) == QuarterIndex(2022, 4) + RecordRows[k]
    ensures RecordCols[k] < |SampleProjects| && recs[k].project == SampleProjects[RecordCols[k]]
    ensures recs[k].number1 + recs[k].number2 == RecordTotals[k]
  {
    var r := SampleRecords;
    assert recs[k] == r[k];
    if k == 0 {
      assert r[0] == Record(Date(2022, 12, 1), "Project Name", 22, 44);
    } else if k == 1 {
      assert r[1] == Record(Date(2024, 3, 3), "Project Name2", 22, 1);
    } else if k == 2 {
      assert r[2] == Record(Date(2024, 4, 2), "Project Name4", 23, 22);
    } else if k == 3 {
      assert r[3] == Record(Date(2024, 6, 2), "Project Name", 14, 44);
    } else if k == 4 {
      assert r[4] == Record(Date(2024, 9, 2), "Project Name2", 13, 13);
    } else {
      assert r[5] == Record(Date(2025, 10, 3), "Project Name3", 15, 16);
    }
  }

  /** Every date of the data parses. */
  lemma SampleValid(recs: seq<Record>)
    requires IsSample(recs)
    ensures AllValid(recs)
  {
    forall k | 0 <= k < |recs| ensures Valid(recs[k].date) {
      SampleRecordFacts(recs, k);
    }
  }

  /** The first three `Date` strings are the text of the first three dates. */
  lemma SampleDateTextsFirst()
    ensures Valid(SampleRecords[0].date) && FormatDate(SampleRecords[0].date) == SampleDateTexts[0]
    ensures Valid(SampleRecords[1].date) && FormatDate(SampleRecords[1].date) == SampleDateTexts[1]
    ensures Valid(SampleRecords[2].date) && FormatDate(SampleRecords[2].date) == SampleDateTexts[2]
  {
  }

  /** The last three `Date` strings are the text of the last three dates. */
  lemma SampleDateTextsLast()
    ensures Valid(SampleRecords[3].date) && FormatDate(SampleRecords[3].date) == SampleDateTexts[3]
    ensures Valid(SampleRecords[4].date) && FormatDate(SampleRecords[4].date) == SampleDateTexts[4]
    ensures Valid(SampleRecords[5].date) && FormatDate(SampleRecords[5].date) == SampleDateTexts[5]
  {
  }

  /** Each `Date` string of the data reads as that record's date. */
  lemma SampleDatesParse(k: nat)
    requires k < |SampleDateTexts|
    ensures ParseDate(SampleDateTexts[k]) == Some(SampleRecords[k].date)
  {
    SampleDateTextsFirst();
    SampleDateTextsLast();
    ParseFormatted(SampleRecords[k].date);
  }

  /** The earliest date is the first record's, 2022-12-01. */
  lemma SampleEarliest(recs: seq<Record>)
    requires IsSample(recs)
    ensures AllValid(recs) && DateQuarter(Earliest(recs)) == QuarterIndex(2022, 4)
  {
    SampleValid(recs);
    var d := Earliest(recs);
    var i :| 0 <= i < |recs| && recs[i].date == d;
    SampleRecordFacts(recs, 0);
    SampleRecordFacts(recs, i);
    DateQuarterMonotone(d, recs[0].date);
  }

  /** The latest date is the last record's, 2025-10-03. */
  lemma SampleLatest(recs: seq<Record>)
    requires IsSample(recs)
    ensures AllValid(recs) && DateQuarter(Latest(recs)) == QuarterIndex(2025, 4)
  {
    SampleValid(recs);
    var d := Latest(recs);
    var i :| 0 <= i < |recs| && recs[i].date == d;
    SampleRecordFacts(recs, 5);
    SampleRecordFacts(recs, i);
    DateQuarterMonotone(recs[5].date, d);
  }

  lemma LabelParts(y: int, q: int)
    requires 1000 <= y <= 9999 && 1 <= q <= 4
    ensures PeriodLabel(4 * y + q - 1) == Digits4(y) + "-Q" + [DigitChar(q)]
  {
  }

  lemma QuarterDigits()
    ensures [DigitChar(1)] == "1" && [DigitChar(2)] == "2" && [DigitChar(3)] == "3" && [DigitChar(4)] == "4"
  {
  }

  /** The labels of the four quarters of year `y`, given its text. */
  lemma YearLabels(y: int, text: string)
    requires 1000 <= y <= 9999 && Digits4(y) == text
    ensures PeriodLabel(QuarterIndex(y, 1)) == text + "-Q1"
    ensures PeriodLabel(QuarterIndex(y, 2)) == text + "-Q2"
    ensures PeriodLabel(QuarterIndex(y, 3)) == text + "-Q3"
    ensures PeriodLabel(QuarterIndex(y, 4)) == text + "-Q4"
  {
    QuarterDigits();
    LabelParts(y, 1);
    LabelParts(y, 2);
    LabelParts(y, 3);
    LabelParts(y, 4);
  }

  lemma SamplePeriodsOf2022()
    ensures PeriodLabel(QuarterIndex(2022, 4)) == SamplePeriods[0]
  {
    YearLabels(2022, "2022");
  }

  lemma SamplePeriodsOf2023(i: nat)
    requires 1 <= i <= 4
    ensures PeriodLabel(QuarterIndex(2022, 4) + i) == SamplePeriods[i]
  {
    YearLabels(2023, "2023");
    assert QuarterIndex(2022, 4) + i == QuarterIndex(2023, i);
  }

  lemma SamplePeriodsOf2024(i: nat)
    requires 5 <= i <= 8
    ensures PeriodLabel(QuarterIndex(2022, 4) + i) == SamplePeriods[i]
  {
    YearLabels(2024, "2024");
    assert QuarterIndex(2022, 4) + i == QuarterIndex(2024, i - 4);
  }

  lemma SamplePeriodsOf2025(i: nat)
    requires 9 <= i <= 12
    ensures PeriodLabel(QuarterIndex(2022, 4) + i) == SamplePeriods[i]
  {
    YearLabels(2025, "2025");
    assert QuarterIndex(2022, 4) + i == QuarterIndex(2025, i - 8);
  }

  /** Row `i` of the data's period range is the label of the i-th quarter after 2022-Q4. */
  lemma SamplePeriodLabel(i: nat)
    requires i < |SamplePeriods|
    ensures PeriodLabel(QuarterIndex(2022, 4) + i) == SamplePeriods[i]
  {
    if i == 0 {
      SamplePeriodsOf2022();
    } else if i <= 4 {
      SamplePeriodsOf2023(i);
    } else if i <= 8 {
      SamplePeriodsOf2024(i);
    } else {
      SamplePeriodsOf2025(i);
    }
  }

  lemma SameElements(a: seq<string>, b: seq<string>)
    requires |a| == |b| && forall i :: 0 <= i < |a| ==> a[i] == b[i]
    ensures a == b
  {
  }

  /** The period range of the data runs from 2022-Q4 to 2025-Q4, empty quarters included. */
  lemma SampleRows(recs: seq<Record>)
    requires IsSample(recs)
    ensures AllValid(recs) && |recs| > 0
    ensures AllPeriods(recs) == SamplePeriods
  {
    SampleEarliest(recs);
    SampleLatest(recs);
    AllPeriodsLength(recs);
    forall i | 0 <= i < |SamplePeriods| ensures AllPeriods(recs)[i] == SamplePeriods[i] {
      AllPeriodsConsecutive(recs, i);
      SamplePeriodLabel(i);
    }
    SameElements(AllPeriods(recs), SamplePeriods);
  }

  lemma SamplePeriodsNoDup()
    ensures NoDup(SamplePeriods)
  {
    SampleIsSample();
    SampleRows(SampleRecords);
    AllPeriodsOrdered(SampleRecords);
  }

  lemma SuffixesOrdered(p: string)
    ensures Sorted([p, p + "2", p + "3", p + "4"]) && NoDup([p, p + "2", p + "3", p + "4"])
  {
    var c := [p, p + "2", p + "3", p + "4"];
    LexLePrefix(p, "2");
    LexLePrefix(p, "3");
    LexLePrefix(p, "4");
    LexLeCommonPrefix(p, "2", "3");
    LexLeCommonPrefix(p, "2", "4");
    LexLeCommonPrefix(p, "3", "4");
    assert LexLe("2", "3") && LexLe("2", "4") && LexLe("3", "4");
    assert c[1][|p|] == '2' && c[2][|p|] == '3' && c[3][|p|] == '4';
  }

  lemma SampleProjectsOrdered()
    ensures Sorted(SampleProjects) && NoDup(SampleProjects)
  {
    var p := "Project Name";
    assert "Project Name2" == p + "2";
    assert "Project Name3" == p + "3";
    assert "Project Name4" == p + "4";
    assert SampleProjects == [p, p + "2", p + "3", p + "4"];
    SuffixesOrdered(p);
  }

  lemma SampleProjectsMembers(recs: seq<Record>, x: string)
    requires IsSample(recs)
    ensures x in SampleProjects <==> exists i :: 0 <= i < |recs| && recs[i].project == x
  {
    if x in SampleProjects {
      var j :| 0 <= j < |SampleProjects| && SampleProjects[j] == x;
      var k := if j == 0 then 0 else if j == 1 then 1 else if j == 2 then 5 else 2;
      SampleRecordFacts(recs, k);
    }
    if exists i :: 0 <= i < |recs| && recs[i].project == x {
      var i :| 0 <= i < |recs| && recs[i].project == x;
      SampleRecordFacts(recs, i);
    }
  }

  /** The columns are the four projects in text order, not in order of appearance. */
  lemma SampleColumns(recs: seq<Record>, t: Table)
    requires IsSample(recs) && Aggregate(recs) == Success(t)
    ensures t.projects == SampleProjects
  {
    AggregateShape(recs, t);
    SampleProjectsOrdered();
    forall x ensures x in SampleProjects <==> x in t.projects {
      SampleProjectsMembers(recs, x);
    }
    SortedUnique(t.projects, SampleProjects);
  }

  /** The table's rows and columns, and one cell per (row, column) pair. */
  lemma SampleShape(recs: seq<Record>, t: Table)
    requires IsSample(recs) && Aggregate(recs) == Success(t)
    ensures t.periods == SamplePeriods && t.projects == SampleProjects
    ensures |t.cells| == |SamplePeriods|
    ensures forall i :: 0 <= i < |t.cells| ==> |t.cells[i]| == |SampleProjects|
  {
    SampleRows(recs);
    SampleColumns(recs, t);
    AggregateShape(recs, t);
  }

  /** Each record's (Year-Quarter, Project) label, by row and column. */
  lemma SampleKeyPlaces(recs: seq<Record>, k: nat)
    requires IsSample(recs) && k < |recs|
    ensures AllValid(recs)
    ensures RecordRows[k] < |SamplePeriods| && RecordCols[k] < |SampleProjects|
    ensures Key(recs[k]) == (SamplePeriods[RecordRows[k]], SampleProjects[RecordCols[k]])
  {
    SampleValid(recs);
    SampleRecordFacts(recs, k);
    SamplePeriodLabel(RecordRows[k]);
  }

  /** No two records share a cell. */
  lemma SamplePlacesDistinct(a: nat, b: nat)
    requires a < b < |RecordRows|
    ensures RecordRows[a] != RecordRows[b] || RecordCols[a] != RecordCols[b]
  {
  }

  /** No two records of the data share a label. */
  lemma SampleKeysDistinct(recs: seq<Record>)
    requires IsSample(recs)
    ensures AllValid(recs) && KeysDistinct(recs)
  {
    SampleValid(recs);
    SamplePeriodsNoDup();
    SampleProjectsOrdered();
    forall a, b | 0 <= a < b < |recs| ensures Key(recs[a]) != Key(recs[b]) {
      SampleKeyPlaces(recs, a);
      SampleKeyPlaces(recs, b);
      SamplePlacesDistinct(a, b);
    }
  }

  /** The data has no repeated label, so the pipeline produces a table. */
  lemma SampleSucceeds(recs: seq<Record>)
    requires IsSample(recs)
    ensures Aggregate(recs).Success?
  {
    SampleKeysDistinct(recs);
    AggregateErrors(recs);
  }

  /** The expected cell at each record's place is that record's total. */
  lemma SamplePlaceFilled(k: nat)
    requires k < |RecordRows|
    ensures SampleCell(RecordRows[k], RecordCols[k]) == RecordTotals[k] != 0
  {
  }

  /**
   * What the cell lemmas need to know of the records: each one's label is
   * the row and column of its place, and its total is its expected total.
   */
  predicate Labelled(recs: seq<Record>) {
    && |recs| == |RecordRows|
    && AllValid(recs)
    && forall k :: 0 <= k < |recs| ==>
      && RecordRows[k] < |SamplePeriods| && RecordCols[k] < |SampleProjects|
      && Key(recs[k]) == (SamplePeriods[RecordRows[k]], SampleProjects[RecordCols[k]])
      && recs[k].number1 + recs[k].number2 == RecordTotals[k]
  }

  lemma SampleLabelled(recs: seq<Record>)
    requires IsSample(recs)
    ensures Labelled(recs)
  {
    SampleValid(recs);
    forall k | 0 <= k < |recs|
      ensures && RecordRows[k] < |SamplePeriods| && RecordCols[k] < |SampleProjects|
              && Key(recs[k]) == (SamplePeriods[RecordRows[k]], SampleProjects[RecordCols[k]])
              && recs[k].number1 + recs[k].number2 == RecordTotals[k]
    {
      SampleKeyPlaces(recs, k);
      SampleRecordFacts(recs, k);
    }
  }

  lemma SampleKeyMisses(recs: seq<Record>, i: nat, j: nat, k: nat)
    requires Labelled(recs) && k < |recs|
    requires i < |SamplePeriods| && j < |SampleProjects| && SampleCell(i, j) == 0
    ensures Key(recs[k]) != (SamplePeriods[i], SampleProjects[j])
  {
    SamplePeriodsNoDup();
    SampleProjectsOrdered();
    SamplePlaceFilled(k);
    if RecordRows[k] != i {
      assert SamplePeriods[RecordRows[k]] != SamplePeriods[i];
    } else {
      assert RecordCols[k] != j;
      assert SampleProjects[RecordCols[k]] != SampleProjects[j];
    }
  }

  /** Records placed as the data's are never labelled alike. */
  lemma LabelledKeysDistinct(recs: seq<Record>)
    requires Labelled(recs)
    ensures KeysDistinct(recs)
  {
    SamplePeriodsNoDup();
    SampleProjectsOrdered();
    forall a, b | 0 <= a < b < |recs| ensures Key(recs[a]) != Key(recs[b]) {
      SamplePlacesDistinct(a, b);
    }
  }

  /** A label that no record carries groups nothing: its sum is 0. */
  lemma SampleEmptyGroup(recs: seq<Record>, i: nat, j: nat)
    requires Labelled(recs)
    requires i < |SamplePeriods| && j < |SampleProjects| && SampleCell(i, j) == 0
    ensures GroupTotal(recs, (SamplePeriods[i], SampleProjects[j])) == 0
  {
    forall k | 0 <= k < |recs| ensures Key(recs[k]) != (SamplePeriods[i], SampleProjects[j]) {
      SampleKeyMisses(recs, i, j, k);
    }
    LookupAbsent(recs, (SamplePeriods[i], SampleProjects[j]));
  }

  /** Each non-zero expected cell is the total of the record placed there. */
  lemma SampleCellOwner(i: nat, j: nat)
    requires SampleCell(i, j) != 0
    ensures exists k ::
      && 0 <= k < |RecordRows|
      && i == RecordRows[k] && j == RecordCols[k]
      && RecordTotals[k] == SampleCell(i, j)
  {
    var k: nat := if i == 0 then 0 else if i == 5 then 1 else if i == 6 && j == 3 then 2
      else if i == 6 then 3 else if i == 7 then 4 else 5;
    assert k < 6 && i == RecordRows[k] && j == RecordCols[k];
    assert RecordTotals[k] == SampleCell(i, j);
  }

  /** A label that a record carries groups that record alone: its sum is the record's total. */
  lemma SampleFilledGroup(recs: seq<Record>, i: nat, j: nat)
    requires Labelled(recs)
    requires i < |SamplePeriods| && j < |SampleProjects| && SampleCell(i, j) != 0
    ensures GroupTotal(recs, (SamplePeriods[i], SampleProjects[j])) == SampleCell(i, j)
  {
    SampleCellOwner(i, j);
    var k :| 0 <= k < |RecordRows| && i == RecordRows[k] && j == RecordCols[k] && RecordTotals[k] == SampleCell(i, j);
    assert Key(recs[k]) == (SamplePeriods[i], SampleProjects[j]);
    LabelledKeysDistinct(recs);
    LookupIsGroupTotal(recs, Key(recs[k]));
    LookupPresent(recs, k);
  }

  /** The group-by sum of every (row, column) label of the data. */
  lemma SampleGroupTotal(recs: seq<Record>, i: nat, j: nat)
    requires Labelled(recs)
    requires i < |SamplePeriods| && j < |SampleProjects|
    ensures GroupTotal(recs, (SamplePeriods[i], SampleProjects[j])) == SampleCell(i, j)
  {
    if SampleCell(i, j) != 0 {
      SampleFilledGroup(recs, i, j);
    } else {
      SampleEmptyGroup(recs, i, j);
    }
  }

  lemma SampleCells(recs: seq<Record>, t: Table)
    requires Labelled(recs) && Aggregate(recs) == Success(t)
    requires t.periods == SamplePeriods && t.projects == SampleProjects
    requires |t.cells| == |SamplePeriods| && forall i :: 0 <= i < |t.cells| ==> |t.cells[i]| == |SampleProjects|
    ensures forall i, j :: 0 <= i < |SamplePeriods| && 0 <= j < |SampleProjects| ==> t.cells[i][j] == SampleCell(i, j)
  {
    forall i: nat, j: nat | i < |SamplePeriods| && j < |SampleProjects|
      ensures t.cells[i][j] == SampleCell(i, j)
    {
      AggregateCellsAreGroupTotals(recs, t, i, j);
      SampleGroupTotal(recs, i, j);
    }
  }

  /** The whole table: its rows, its columns and every cell. */
  lemma SampleTable(recs: seq<Record>, t: Table)
    requires IsSample(recs) && Aggregate(recs) == Success(t)
    ensures t.periods == SamplePeriods && t.projects == SampleProjects
    ensures |t.cells| == |SamplePeriods|
    ensures forall i :: 0 <= i < |t.cells| ==> |t.cells[i]| == |SampleProjects|
    ensures forall i, j :: 0 <= i < |SamplePeriods| && 0 <= j < |SampleProjects| ==> t.cells[i][j] == SampleCell(i, j)
  {
    SampleShape(recs, t);
    SampleLabelled(recs);
    SampleCells(recs, t);
  }

  lemma SumOfFour(s: seq<int>)
    requires |s| == 4
    ensures Sum(s) == s[0] + s[1] + s[2] + s[3]
  {
    assert s[3..][1..] == [];
    assert Sum(s[3..]) == s[3];
    assert s[2..][1..] == s[3..];
    assert Sum(s[2..]) == s[2] + s[3];
    assert s[1..][1..] == s[2..];
    assert Sum(s[1..]) == s[1] + s[2] + s[3];
  }

  lemma SampleBarHeight(i: nat)
    requires i < |SampleBars|
    ensures SampleCell(i, 0) + SampleCell(i, 1) + SampleCell(i, 2) + SampleCell(i, 3) == SampleBars[i]
  {
  }

  lemma SampleCellsBars(cells: seq<seq<int>>)
    requires |cells| == |SamplePeriods|
    requires forall i :: 0 <= i < |cells| ==> |cells[i]| == |SampleProjects|
    requires forall i, j :: 0 <= i < |SamplePeriods| && 0 <= j < |SampleProjects| ==> cells[i][j] == SampleCell(i, j)
    ensures BarTotals(cells) == SampleBars
  {
    var b := BarTotals(cells);
    forall i | 0 <= i < |b| ensures b[i] == SampleBars[i] {
      SumOfFour(cells[i]);
      SampleBarHeight(i);
    }
    assert |b| == |SampleBars|;
  }

  /** The bar heights the chart draws and labels. */
  lemma SampleBarTotals(recs: seq<Record>, t: Table)
    requires IsSample(recs) && Aggregate(recs) == Success(t)
    ensures BarTotals(t.cells) == SampleBars
  {
    SampleTable(recs, t);
    SampleCellsBars(t.cells);
  }

  lemma RecordsTotalOfSix(recs: seq<Record>)
    requires |recs| == 6
    ensures RecordsTotal(recs) == Total(recs[0]) + Total(recs[1]) + Total(recs[2]) + Total(recs[3]) + Total(recs[4]) + Total(recs[5])
  {
    assert recs[5..][1..] == [];
    assert recs[4..][1..] == recs[5..];
    assert recs[3..][1..] == recs[4..];
    assert recs[2..][1..] == recs[3..];
    assert recs[1..][1..] == recs[2..];
    assert RecordsTotal(recs[5..]) == Total(recs[5]);
    assert RecordsTotal(recs[4..]) == Total(recs[4]) + Total(recs[5]);
    assert RecordsTotal(recs[3..]) == Total(recs[3]) + Total(recs[4]) + Total(recs[5]);
    assert RecordsTotal(recs[2..]) == Total(recs[2]) + Total(recs[3]) + Total(recs[4]) + Total(recs[5]);
  }

  /** The bars add up to the `Total` column of the data, 249. */
  lemma SampleGrandTotal(recs: seq<Record>, t: Table)
    requires IsSample(recs) && Aggregate(recs) == Success(t)
    ensures Sum(BarTotals(t.cells)) == 249
  {
    BarTotalsConserve(recs, t);
    RecordsTotalOfSix(recs);
    SampleRecordFacts(recs, 0);
    SampleRecordFacts(recs, 1);
    SampleRecordFacts(recs, 2);
    SampleRecordFacts(recs, 3);
    SampleRecordFacts(recs, 4);
    SampleRecordFacts(recs, 5);
  }
}
