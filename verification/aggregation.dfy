/**
 * The quarterly aggregation: per-record totals and quarter labels, the
 * period range between the earliest and latest date, the zero-filled
 * (period, project) grid built by reindexing on their product, and the
 * group-by sum pivoted into a period-by-project table.
 */
module Aggregation {
  import opened Wrappers
  import opened Ordering
  import opened Dates
  import opened Quarters

  /** One row of the input table: Date, Project, Number1, Number2. */
  datatype Record = Record(date: Date, project: string, number1: int, number2: int)

  /** The `Total` column. */
  function Total(r: Record): int {
    r.number1 + r.number2
  }

  /** The (Year-Quarter, Project) index of a record. */
  function Key(r: Record): (string, string)
    requires Valid(r.date)
  {
    (DateLabel(r.date), r.project)
  }

  /** Why the pipeline stops without a table. */
  datatype Error =
    | InvalidDate(index: nat)  // a date that `to_datetime` rejects
    | EmptyInput               // no dates: the period range has no ends
    | DuplicateKey             // two records share a (Year-Quarter, Project) label: reindex refuses

  /** The pivoted result: `cells[i][j]` is the total of `periods[i]` and `projects[j]`. */
  datatype Table = Table(periods: seq<string>, projects: seq<string>, cells: seq<seq<int>>)

  predicate AllValid(recs: seq<Record>) {
    forall i :: 0 <= i < |recs| ==> Valid(recs[i].date)
  }

  /** The first record whose date does not parse, if any. */
  function FirstInvalid(recs: seq<Record>): (r: Option<nat>)
    ensures r.None? <==> AllValid(recs)
    ensures r.Some? ==> r.value < |recs| && !Valid(recs[r.value].date)
    ensures r.Some? ==> forall i :: 0 <= i < r.value ==> Valid(recs[i].date)
  {
    if recs == [] then None
    else if !Valid(recs[0].date) then Some(0)
    else match FirstInvalid(recs[1..])
      case None => None
      case Some(i) => Some(i + 1)
  }

  /** `df['Date'].min()`. */
  function Earliest(recs: seq<Record>): (d: Date)
    requires |recs| > 0 && AllValid(recs)
    ensures Valid(d)
    ensures exists i :: 0 <= i < |recs| && recs[i].date == d
    ensures forall i :: 0 <= i < |recs| ==> OnOrBefore(d, recs[i].date)
  {
    if |recs| == 1 then recs[0].date
    else
      var m := Earliest(recs[1..]);
      assert forall i :: 1 <= i < |recs| ==> recs[i] == recs[1..][i - 1];
      if OnOrBefore(recs[0].date, m) then recs[0].date else m
  }

  /** `df['Date'].max()`. */
  function Latest(recs: seq<Record>): (d: Date)
    requires |recs| > 0 && AllValid(recs)
    ensures Valid(d)
    ensures exists i :: 0 <= i < |recs| && recs[i].date == d
    ensures forall i :: 0 <= i < |recs| ==> OnOrBefore(recs[i].date, d)
  {
    if |recs| == 1 then recs[0].date
    else
      var m := Latest(recs[1..]);
      assert forall i :: 1 <= i < |recs| ==> recs[i] == recs[1..][i - 1];
      if OnOrBefore(m, recs[0].date) then recs[0].date else m
  }

  /** `all_periods`: every quarter from that of the earliest date to that of the latest. */
  function AllPeriods(recs: seq<Record>): seq<string>
    requires |recs| > 0 && AllValid(recs)
  {
    PeriodRange(DateQuarter(Earliest(recs)), DateQuarter(Latest(recs)))
  }

  /** The period range has one label per quarter from the earliest date's to the latest date's. */
  lemma AllPeriodsLength(recs: seq<Record>)
    requires |recs| > 0 && AllValid(recs)
    ensures DateQuarter(Earliest(recs)) <= DateQuarter(Latest(recs))
    ensures |AllPeriods(recs)| == DateQuarter(Latest(recs)) - DateQuarter(Earliest(recs)) + 1
  {
    DateQuarterMonotone(Earliest(recs), Latest(recs));
  }

  /** The period range starts with the earliest date's label and ends with the latest date's. */
  lemma AllPeriodsEnds(recs: seq<Record>)
    requires |recs| > 0 && AllValid(recs)
    ensures |AllPeriods(recs)| > 0
    ensures AllPeriods(recs)[0] == DateLabel(Earliest(recs))
    ensures AllPeriods(recs)[|AllPeriods(recs)| - 1] == DateLabel(Latest(recs))
  {
    var first, last := Earliest(recs), Latest(recs);
    AllPeriodsLength(recs);
    assert AllPeriods(recs) == PeriodRange(DateQuarter(first), DateQuarter(last));
    RangeEndLabels(first, last);
  }

  lemma RangeEndLabels(first: Date, last: Date)
    requires Valid(first) && Valid(last) && DateQuarter(first) <= DateQuarter(last)
    ensures var r := PeriodRange(DateQuarter(first), DateQuarter(last));
      r[0] == DateLabel(first) && r[|r| - 1] == DateLabel(last)
  {
    PeriodRangeEnds(DateQuarter(first), DateQuarter(last));
  }

  /** The period range steps one quarter at a time: no quarter in between is missing. */
  lemma AllPeriodsConsecutive(recs: seq<Record>, i: nat)
    requires |recs| > 0 && AllValid(recs) && i < |AllPeriods(recs)|
    ensures MinIndex <= DateQuarter(Earliest(recs)) + i <= MaxIndex
    ensures AllPeriods(recs)[i] == PeriodLabel(DateQuarter(Earliest(recs)) + i)
  {
    var lo, hi := DateQuarter(Earliest(recs)), DateQuarter(Latest(recs));
    assert AllPeriods(recs) == PeriodRange(lo, hi);
    PeriodRangeAt(lo, hi, i);
  }

  /** The period range repeats no label and is in text order. */
  lemma AllPeriodsOrdered(recs: seq<Record>)
    requires |recs| > 0 && AllValid(recs)
    ensures NoDup(AllPeriods(recs)) && Sorted(AllPeriods(recs))
  {
    var lo, hi := DateQuarter(Earliest(recs)), DateQuarter(Latest(recs));
    PeriodRangeNoDup(lo, hi);
    PeriodRangeSorted(lo, hi);
  }

  /** Every record's quarter label is in the period range. */
  lemma AllPeriodsCover(recs: seq<Record>, k: nat)
    requires |recs| > 0 && AllValid(recs) && k < |recs|
    ensures DateLabel(recs[k].date) in AllPeriods(recs)
  {
    var lo, hi := DateQuarter(Earliest(recs)), DateQuarter(Latest(recs));
    DateQuarterMonotone(Earliest(recs), recs[k].date);
    DateQuarterMonotone(recs[k].date, Latest(recs));
    PeriodRangeMembers(lo, hi, DateQuarter(recs[k].date));
  }

  /**
   * `df['Project'].unique()`: each project once. The body keeps the order of
   * first appearance; only membership is promised, because the group-by sorts
   * the columns afterwards and `SortedUnique` shows the sorted result depends
   * on the members alone.
   */
  function UniqueProjects(recs: seq<Record>): (u: seq<string>)
    ensures NoDup(u)
    ensures forall c :: c in u <==> exists i :: 0 <= i < |recs| && recs[i].project == c
  {
    if recs == [] then []
    else
      var init := recs[..|recs| - 1];
      var prev := UniqueProjects(init);
      var c := recs[|recs| - 1].project;
      assert forall i :: 0 <= i < |init| ==> init[i] == recs[i];
      if c in prev then prev else prev + [c]
  }

  /** No two records share a (Year-Quarter, Project) label. */
  predicate KeysDistinct(recs: seq<Record>)
    requires AllValid(recs)
  {
    forall i, j :: 0 <= i < j < |recs| ==> Key(recs[i]) != Key(recs[j])
  }

  /** What `reindex(..., fill_value=0)` puts in the Total column at `key`. */
  function Lookup(recs: seq<Record>, key: (string, string)): int
    requires AllValid(recs)
  {
    if recs == [] then 0
    else if Key(recs[0]) == key then Total(recs[0])
    else Lookup(recs[1..], key)
  }

  /** The sum of the totals of every record labelled `key`: what a group-by sum computes. */
  function GroupTotal(recs: seq<Record>, key: (string, string)): int
    requires AllValid(recs)
  {
    if recs == [] then 0
    else (if Key(recs[0]) == key then Total(recs[0]) else 0) + GroupTotal(recs[1..], key)
  }

  /** A label no record carries is filled with 0. */
  lemma {:induction false} LookupAbsent(recs: seq<Record>, key: (string, string))
    requires AllValid(recs)
    requires forall i :: 0 <= i < |recs| ==> Key(recs[i]) != key
    ensures Lookup(recs, key) == 0 && GroupTotal(recs, key) == 0
  {
    if recs != [] {
      LookupAbsent(recs[1..], key);
    }
  }

  /** With distinct labels, the reindexed value at a record's label is that record's total. */
  lemma {:induction false} LookupPresent(recs: seq<Record>, k: nat)
    requires AllValid(recs) && KeysDistinct(recs) && k < |recs|
    ensures Lookup(recs, Key(recs[k])) == recs[k].number1 + recs[k].number2
  {
    if k > 0 {
      LookupPresent(recs[1..], k - 1);
    }
  }

  /** With distinct labels, reindexing and then summing gives the group-by sum of the records. */
  lemma {:induction false} LookupIsGroupTotal(recs: seq<Record>, key: (string, string))
    requires AllValid(recs) && KeysDistinct(recs)
    ensures Lookup(recs, key) == GroupTotal(recs, key)
  {
    if recs != [] {
      if Key(recs[0]) == key {
        LookupAbsent(recs[1..], key);
      } else {
        LookupIsGroupTotal(recs[1..], key);
      }
    }
  }

  /**
   * `set_index(['Year-Quarter', 'Project']).reindex(product, fill_value=0)`:
   * exactly one entry per (period, project) pair of the product.
   */
  function Reindex(recs: seq<Record>, periods: seq<string>, projects: seq<string>): (grid: map<(string, string), int>)
    requires AllValid(recs)
    ensures grid.Keys == set p, c | p in periods && c in projects :: (p, c)
    ensures forall key :: key in grid ==> grid[key] == Lookup(recs, key)
  {
    map p, c | p in periods && c in projects :: (p, c) := Lookup(recs, (p, c))
  }

  /** `unstack()`: row `i`, column `j` holds the grid's value for `(periods[i], projects[j])`. */
  function Pivot(grid: map<(string, string), int>, periods: seq<string>, projects: seq<string>): (cells: seq<seq<int>>)
    requires forall p, c :: p in periods && c in projects ==> (p, c) in grid
    ensures |cells| == |periods|
    ensures forall i :: 0 <= i < |periods| ==> |cells[i]| == |projects|
    ensures forall i, j :: 0 <= i < |periods| && 0 <= j < |projects| ==> cells[i][j] == grid[(periods[i], projects[j])]
  {
    seq(|periods|, i requires 0 <= i < |periods| =>
      seq(|projects|, j requires 0 <= j < |projects| => grid[(periods[i], projects[j])]))
  }

  /**
   * The whole pipeline: parse check, period range, distinct projects,
   * zero-filled reindex, then the group-by with its keys sorted as text.
   */
  function Aggregate(recs: seq<Record>): Result<Table, Error> {
    match FirstInvalid(recs)
    case Some(i) => Failure(InvalidDate(i))
    case None =>
      if recs == [] then Failure(EmptyInput)
      else if !KeysDistinct(recs) then Failure(DuplicateKey)
      else Success(Summarize(recs))
  }

  /** The table a run without errors produces. */
  function Summarize(recs: seq<Record>): Table
    requires |recs| > 0 && AllValid(recs) && KeysDistinct(recs)
  {
    var periods, projects := AllPeriods(recs), UniqueProjects(recs);
    var grid := Reindex(recs, periods, projects);
    var rows, columns := Sort(periods), Sort(projects);
    SortKeepsElements(periods);
    SortKeepsElements(projects);
    Table(rows, columns, Pivot(grid, rows, columns))
  }

  /** The pipeline fails exactly on an unparseable date, an empty input or a repeated label. */
  lemma AggregateErrors(recs: seq<Record>)
    ensures Aggregate(recs).Success? <==> |recs| > 0 && AllValid(recs) && KeysDistinct(recs)
    ensures forall i: nat :: Aggregate(recs) == Failure(InvalidDate(i)) <==> FirstInvalid(recs) == Some(i)
    ensures Aggregate(recs) == Failure(EmptyInput) <==> recs == []
    ensures Aggregate(recs) == Failure(DuplicateKey) <==> |recs| > 0 && AllValid(recs) && !KeysDistinct(recs)
  {
  }

  /** What a successful run builds, step by step. */
  lemma AggregateSteps(recs: seq<Record>, t: Table)
    requires Aggregate(recs) == Success(t)
    ensures |recs| > 0 && AllValid(recs) && KeysDistinct(recs)
    ensures t == Summarize(recs)
  {
  }

  /**
   * Rows: the full chronological run of quarters (the group-by's text sort
   * leaves it as it is). Columns: every distinct project once, in text order.
   * Every row has one cell per column.
   */
  lemma AggregateShape(recs: seq<Record>, t: Table)
    requires Aggregate(recs) == Success(t)
    ensures t.periods == AllPeriods(recs)
    ensures Sorted(t.projects) && NoDup(t.projects)
    ensures forall c :: c in t.projects <==> exists i :: 0 <= i < |recs| && recs[i].project == c
    ensures |t.cells| == |t.periods|
    ensures forall i :: 0 <= i < |t.cells| ==> |t.cells[i]| == |t.projects|
  {
    AggregateSteps(recs, t);
    AllPeriodsOrdered(recs);
    SortOfSorted(AllPeriods(recs));
    SortKeepsElements(AllPeriods(recs));
    SortKeepsElements(UniqueProjects(recs));
  }

  /** Every cell is the sum of the totals of the records with its label. */
  lemma AggregateCellsAreGroupTotals(recs: seq<Record>, t: Table, i: nat, j: nat)
    requires Aggregate(recs) == Success(t)
    requires i < |t.periods| && j < |t.projects|
    ensures |t.cells| == |t.periods| && |t.cells[i]| == |t.projects|
    ensures t.cells[i][j] == GroupTotal(recs, (t.periods[i], t.projects[j]))
  {
    AggregateSteps(recs, t);
    var periods, projects := AllPeriods(recs), UniqueProjects(recs);
    SortKeepsElements(periods);
    SortKeepsElements(projects);
    var grid := Reindex(recs, periods, projects);
    assert t.cells == Pivot(grid, t.periods, t.projects);
    LookupIsGroupTotal(recs, (t.periods[i], t.projects[j]));
  }

  /** A (period, project) cell that no record is labelled with holds 0. */
  lemma AggregateZeroFill(recs: seq<Record>, t: Table, i: nat, j: nat)
    requires Aggregate(recs) == Success(t)
    requires i < |t.periods| && j < |t.projects|
    requires forall k :: 0 <= k < |recs| ==> Key(recs[k]) != (t.periods[i], t.projects[j])
    ensures |t.cells| == |t.periods| && |t.cells[i]| == |t.projects|
    ensures t.cells[i][j] == 0
  {
    AggregateCellsAreGroupTotals(recs, t, i, j);
    LookupAbsent(recs, (t.periods[i], t.projects[j]));
  }

  /** Every record has a row, its quarter's, and a column, its project's. */
  lemma AggregateRecordPlaced(recs: seq<Record>, t: Table, k: nat)
    requires Aggregate(recs) == Success(t) && k < |recs|
    ensures DateLabel(recs[k].date) in t.periods && recs[k].project in t.projects
  {
    AggregateShape(recs, t);
    AllPeriodsCover(recs, k);
  }

  /** The cell at a record's row and column holds that record's Number1 + Number2. */
  lemma AggregateRecordCell(recs: seq<Record>, t: Table, k: nat, i: nat, j: nat)
    requires Aggregate(recs) == Success(t) && k < |recs|
    requires i < |t.periods| && j < |t.projects|
    requires t.periods[i] == DateLabel(recs[k].date) && t.projects[j] == recs[k].project
    ensures |t.cells| == |t.periods| && |t.cells[i]| == |t.projects|
    ensures t.cells[i][j] == recs[k].number1 + recs[k].number2
  {
    AggregateCellsAreGroupTotals(recs, t, i, j);
    LookupIsGroupTotal(recs, Key(recs[k]));
    LookupPresent(recs, k);
  }

  function Sum(s: seq<int>): int {
    if s == [] then 0 else s[0] + Sum(s[1..])
  }

  /** The sum of every cell of a table. */
  function CellsTotal(cells: seq<seq<int>>): int {
    if cells == [] then 0 else Sum(cells[0]) + CellsTotal(cells[1..])
  }

  /** The sum of the `Total` column of the input. */
  function RecordsTotal(recs: seq<Record>): int {
    if recs == [] then 0 else Total(recs[0]) + RecordsTotal(recs[1..])
  }

  /** The group-by sums along one row, over the columns `projects`. */
  function RowGroupTotal(recs: seq<Record>, period: string, projects: seq<string>): int
    requires AllValid(recs)
  {
    if projects == [] then 0
    else GroupTotal(recs, (period, projects[0])) + RowGroupTotal(recs, period, projects[1..])
  }

  /** The group-by sums over every (period, project) pair of the grid. */
  function GridGroupTotal(recs: seq<Record>, periods: seq<string>, projects: seq<string>): int
    requires AllValid(recs)
  {
    if periods == [] then 0
    else RowGroupTotal(recs, periods[0], projects) + GridGroupTotal(recs, periods[1..], projects)
  }

  /** Along a row of distinct columns, the first record adds its total once if its label is in the row. */
  lemma {:induction false} RowGroupTotalFirst(recs: seq<Record>, period: string, projects: seq<string>)
    requires |recs| > 0 && AllValid(recs) && NoDup(projects)
    ensures RowGroupTotal(recs, period, projects)
      == (if Key(recs[0]).0 == period && recs[0].project in projects then Total(recs[0]) else 0)
         + RowGroupTotal(recs[1..], period, projects)
  {
    if projects != [] {
      assert NoDup(projects[1..]) by {
        forall i, j | 0 <= i < j < |projects[1..]| ensures projects[1..][i] != projects[1..][j] {
          assert projects[1..][i] == projects[i + 1] && projects[1..][j] == projects[j + 1];
        }
      }
      assert projects[0] !in projects[1..] by {
        forall k | 0 <= k < |projects[1..]| ensures projects[1..][k] != projects[0] {
          assert projects[1..][k] == projects[k + 1];
        }
      }
      RowGroupTotalFirst(recs, period, projects[1..]);
    }
  }

  /** Over a grid of distinct rows and columns, the first record adds its total once if its label is in the grid. */
  lemma {:induction false} GridGroupTotalFirst(recs: seq<Record>, periods: seq<string>, projects: seq<string>)
    requires |recs| > 0 && AllValid(recs) && NoDup(periods) && NoDup(projects)
    ensures GridGroupTotal(recs, periods, projects)
      == (if Key(recs[0]).0 in periods && recs[0].project in projects then Total(recs[0]) else 0)
         + GridGroupTotal(recs[1..], periods, projects)
  {
    if periods != [] {
      assert NoDup(periods[1..]) by {
        forall i, j | 0 <= i < j < |periods[1..]| ensures periods[1..][i] != periods[1..][j] {
          assert periods[1..][i] == periods[i + 1] && periods[1..][j] == periods[j + 1];
        }
      }
      assert periods[0] !in periods[1..] by {
        forall k | 0 <= k < |periods[1..]| ensures periods[1..][k] != periods[0] {
          assert periods[1..][k] == periods[k + 1];
        }
      }
      RowGroupTotalFirst(recs, periods[0], projects);
      GridGroupTotalFirst(recs, periods[1..], projects);
    }
  }

  /** When every record's label lies in a grid of distinct rows and columns, the grid holds every total exactly once. */
  lemma {:induction false} GridGroupTotalConserves(recs: seq<Record>, periods: seq<string>, projects: seq<string>)
    requires AllValid(recs) && NoDup(periods) && NoDup(projects)
    requires forall k :: 0 <= k < |recs| ==> Key(recs[k]).0 in periods && recs[k].project in projects
    ensures GridGroupTotal(recs, periods, projects) == RecordsTotal(recs)
  {
    if recs == [] {
      if periods != [] {
        GridGroupTotalEmpty(periods, projects);
      }
    } else {
      GridGroupTotalFirst(recs, periods, projects);
      GridGroupTotalConserves(recs[1..], periods, projects);
    }
  }

  lemma {:induction false} GridGroupTotalEmpty(periods: seq<string>, projects: seq<string>)
    ensures GridGroupTotal([], periods, projects) == 0
  {
    if periods != [] {
      RowGroupTotalEmpty(periods[0], projects);
      GridGroupTotalEmpty(periods[1..], projects);
    }
  }

  lemma {:induction false} RowGroupTotalEmpty(period: string, projects: seq<string>)
    ensures RowGroupTotal([], period, projects) == 0
  {
    if projects != [] {
      RowGroupTotalEmpty(period, projects[1..]);
    }
  }

  /** A row whose cells are the group-by sums adds up to the row's group-by total. */
  lemma {:induction false} SumOfGroupRow(row: seq<int>, recs: seq<Record>, period: string, projects: seq<string>)
    requires AllValid(recs) && |row| == |projects|
    requires forall j :: 0 <= j < |row| ==> row[j] == GroupTotal(recs, (period, projects[j]))
    ensures Sum(row) == RowGroupTotal(recs, period, projects)
  {
    if row != [] {
      SumOfGroupRow(row[1..], recs, period, projects[1..]);
    }
  }

  /** A table whose cells are the group-by sums adds up to the grid's group-by total. */
  lemma {:induction false} CellsTotalOfGroupGrid(cells: seq<seq<int>>, recs: seq<Record>, periods: seq<string>, projects: seq<string>)
    requires AllValid(recs) && |cells| == |periods|
    requires forall i :: 0 <= i < |cells| ==> |cells[i]| == |projects|
    requires forall i, j :: 0 <= i < |cells| && 0 <= j < |projects| ==>
      cells[i][j] == GroupTotal(recs, (periods[i], projects[j]))
    ensures CellsTotal(cells) == GridGroupTotal(recs, periods, projects)
  {
    if cells != [] {
      SumOfGroupRow(cells[0], recs, periods[0], projects);
      CellsTotalOfGroupGrid(cells[1..], recs, periods[1..], projects);
    }
  }

  /** Nothing is lost or counted twice: the table's cells add up to the sum of all record totals. */
  lemma AggregateConservesTotal(recs: seq<Record>, t: Table)
    requires Aggregate(recs) == Success(t)
    ensures CellsTotal(t.cells) == RecordsTotal(recs)
  {
    AggregateShape(recs, t);
    AllPeriodsOrdered(recs);
    forall i, j | 0 <= i < |t.cells| && 0 <= j < |t.projects|
      ensures t.cells[i][j] == GroupTotal(recs, (t.periods[i], t.projects[j]))
    {
      AggregateCellsAreGroupTotals(recs, t, i, j);
    }
    CellsTotalOfGroupGrid(t.cells, recs, t.periods, t.projects);
    forall k | 0 <= k < |recs| ensures Key(recs[k]).0 in t.periods && recs[k].project in t.projects {
      AggregateRecordPlaced(recs, t, k);
    }
    GridGroupTotalConserves(recs, t.periods, t.projects);
  }
}
