# Quarterly project totals — a Dafny model

`projectschart.py` reads a small table of work records (a date, a project
name and two numbers), adds the two numbers into a `Total`, labels every
record with its calendar quarter (`2024-Q2`), builds the full run of quarter
labels from the earliest to the latest date, fills every (quarter, project)
pair that has no record with 0, and pivots the result into a
quarter-by-project table. It then draws that table as a stacked bar chart
and writes each bar's height above the bar when the height is positive.

This project models that pipeline and proves what it computes:

- `Dates`: the dates `pd.to_datetime` accepts. A date is a real calendar
  day whose midnight is a nanosecond timestamp: 1677-09-22 to 2262-04-11
  inclusive. The fixed-width
  `YYYY-MM-DD` text of the data parses to a date and formats back to itself.
- `Digits`: decimal digits, zero-padded two- and four-digit fields, and
  Python's `str` of a non-negative integer.
- `Quarters`: the quarter of a month and the two label formatters. The first
  is `str(year) + '-Q' + str(quarter)`, used for records. The second is
  `strftime('%Y-Q%q')`, used for the period range. They agree on every valid
  date, and the text order of labels is their chronological order.
- `Ordering`: Python's string order, and the key sort a group-by applies to
  its labels. A sorted sequence without duplicates is determined by its
  elements.
- `Aggregation`: the pipeline as a function from records to a table or an
  error, and the lemmas about its shape, its cells and its grand total.
- `Chart`: the bar heights, and the labelling `for` loop, modelled as a
  method with a `while` loop.
- `Sample`: the script's own six records and the table they produce.

The script stops on three kinds of input, and the model returns an `Error`
for each:
- a date that does not parse (`InvalidDate`, line 23);
- no records at all (`EmptyInput`): the period range has no ends (line 33);
- two records with the same (quarter, project) label (`DuplicateKey`):
  `reindex` refuses an index with repeated labels (lines 36-39).

The comment at line 41 says the group-by sums the totals. With a repeated
(quarter, project) label the code never gets there, because `reindex`
raises first (lines 36-39). The model follows the code.

## Model

| member | source | states |
|---|---|---|
| Dates.ParseDate | projectschart.py:23 | a string parses only to a real calendar day inside the timestamp range |
| Dates.ParseFormatted | projectschart.py:10-23 | every valid date's `YYYY-MM-DD` text parses back to that date |
| Dates.FormatParsed | projectschart.py:10-23 | the parser accepts only the canonical text of the date it returns |
| Digits.DecimalStringFourDigits | projectschart.py:29-33 | `str(year)` and `%Y` give the same text for a four-digit year |
| Quarters.QuarterOf | projectschart.py:29 | months 1-3 are quarter 1, 4-6 quarter 2, 7-9 quarter 3 and 10-12 quarter 4 |
| Quarters.QuarterIndex | projectschart.py:33 | the running quarter index gives back the year and the quarter |
| Quarters.DateQuarterMonotone | projectschart.py:33 | a date on or before another falls in the same or an earlier quarter |
| Quarters.RecordLabelIsPeriodLabel | projectschart.py:29-33 | `str(year)+'-Q'+str(q)` equals `strftime('%Y-Q%q')` for every quarter of a four-digit year |
| Quarters.DateLabel | projectschart.py:29 | a record's label is the period-range label of its date's quarter |
| Quarters.PeriodLabelOrder | projectschart.py:33-42 | one label sorts before another as text exactly when its quarter comes first |
| Quarters.PeriodLabelInjective | projectschart.py:33 | different quarters never share a label |
| Quarters.PeriodRangeAt | projectschart.py:33 | the i-th label of the range is that of the i-th quarter after the start |
| Quarters.PeriodRangeMembers | projectschart.py:33 | a quarter's label is in the range exactly when the quarter lies between the two ends |
| Quarters.PeriodRangeNoDup | projectschart.py:33 | the range repeats no label |
| Quarters.PeriodRangeSorted | projectschart.py:33-42 | the range is already in the text order the group-by sorts into |
| Ordering.LexLeTotal | projectschart.py:42 | any two strings are comparable |
| Ordering.LexLeAntisymmetric | projectschart.py:42 | two strings that sort before each other are equal |
| Ordering.LexLeTransitive | projectschart.py:42 | string order is transitive |
| Ordering.Sort | projectschart.py:42 | the sorted keys are in text order and are a permutation of the input |
| Ordering.SortOfSorted | projectschart.py:42 | sorting keys that are already in order changes nothing |
| Ordering.SortedUnique | projectschart.py:42 | two sorted sequences without duplicates that have the same elements are equal |
| Ordering.SortKeepsElements | projectschart.py:42 | sorting keeps every key and adds no duplicate |
| Aggregation.FirstInvalid | projectschart.py:23 | no index exactly when every date parses; otherwise the first date that fails |
| Aggregation.Earliest | projectschart.py:33 | `min()` is a record's date and is on or before every record's date |
| Aggregation.Latest | projectschart.py:33 | `max()` is a record's date and is on or after every record's date |
| Aggregation.AllPeriodsLength | projectschart.py:33 | the range has one label per quarter from the earliest to the latest date |
| Aggregation.AllPeriodsEnds | projectschart.py:33 | the range starts with the earliest date's label and ends with the latest date's |
| Aggregation.AllPeriodsConsecutive | projectschart.py:33 | the range has no gaps: label i is that of the earliest quarter plus i |
| Aggregation.AllPeriodsOrdered | projectschart.py:33-42 | the range repeats no label and is in text order |
| Aggregation.AllPeriodsCover | projectschart.py:29-37 | every record's own label lies in the range |
| Aggregation.UniqueProjects | projectschart.py:37 | each project once, and exactly the projects that some record names |
| Aggregation.LookupAbsent | projectschart.py:36-38 | a label no record carries is filled with 0 |
| Aggregation.LookupPresent | projectschart.py:36-38 | with distinct labels, a record's label holds that record's Number1 + Number2 |
| Aggregation.LookupIsGroupTotal | projectschart.py:36-42 | with distinct labels, the reindexed value equals the group-by sum for that label |
| Aggregation.Reindex | projectschart.py:36-39 | exactly one entry per (period, project) pair of the product, holding the reindexed value |
| Aggregation.Pivot | projectschart.py:42 | `unstack()` puts the value of (row label, column label) at that row and column |
| Aggregation.AggregateErrors | projectschart.py:23-39 | the run fails exactly on an unparseable date (reporting the first), on empty input, or on a repeated label |
| Aggregation.AggregateShape | projectschart.py:33-42 | rows are the full period range; columns are the record projects, sorted and without duplicates; one cell per pair |
| Aggregation.AggregateCellsAreGroupTotals | projectschart.py:36-42 | every cell is the sum of the totals of the records with that row's and column's labels |
| Aggregation.AggregateZeroFill | projectschart.py:36-42 | a cell that no record's label reaches holds 0 |
| Aggregation.AggregateRecordPlaced | projectschart.py:29-42 | every record's quarter is a row and its project a column |
| Aggregation.AggregateRecordCell | projectschart.py:26-42 | the cell at a record's labels holds that record's Number1 + Number2 |
| Aggregation.AggregateConservesTotal | projectschart.py:26-42 | the cells add up to the sum of every record's Number1 + Number2 |
| Chart.SumOfBarTotals | projectschart.py:60 | the bar heights add up to the sum of all cells |
| Chart.BarTotalsConserve | projectschart.py:60 | there is one bar per period, and the bars add up to the records' grand total |
| Chart.AnnotateBars | projectschart.py:61-63 | a note `str(total)` at height total for exactly the bars whose total is positive, in bar order |
| Sample.SampleDatesParse | projectschart.py:10-23 | each of the six `Date` strings of the data reads as that record's date |
| Sample.SampleValid | projectschart.py:9-23 | every date of the data parses |
| Sample.SampleEarliest | projectschart.py:10-33 | the earliest date of the data falls in 2022-Q4 |
| Sample.SampleLatest | projectschart.py:10-33 | the latest date of the data falls in 2025-Q4 |
| Sample.SampleKeyPlaces | projectschart.py:10-29 | each record's (quarter, project) label, as a row and a column of the table |
| Sample.SampleKeysDistinct | projectschart.py:9-39 | no two records of the data share a label |
| Sample.SampleSucceeds | projectschart.py:9-39 | the data has no repeated label, so the run produces a table |
| Sample.SampleRows | projectschart.py:10-33 | the period range runs from 2022-Q4 to 2025-Q4, empty quarters included |
| Sample.SampleColumns | projectschart.py:11-42 | the columns are the four projects in text order, not in order of first appearance |
| Sample.SampleGroupTotal | projectschart.py:26-42 | the group-by sum of each (row, column) label: the one record's total where a record sits, otherwise 0 |
| Sample.SampleTable | projectschart.py:9-42 | the whole table: rows, columns and every cell |
| Sample.SampleBarTotals | projectschart.py:60 | the bar heights are 66, 0, 0, 0, 0, 23, 103, 26, 0, 0, 0, 0, 31 |
| Sample.SampleGrandTotal | projectschart.py:12-60 | the bars add up to 249 |

## Left out

- Drawing: the palette, figure, bar plot, titles, ticks, legend, spines, `savefig` and `show` (lines 44-80, apart from the totals and the labelling loop). They only render the table.
- `print(df.head(5))` (line 18): console output only.
- Chart.AnnotateBars: records the label's position and text, not its alignment, font size or colour.
- Dates.ParseDate: reads only the fixed-width `YYYY-MM-DD` form the data uses. The other formats `pd.to_datetime` guesses, and times of day and time zones, are not modelled.
- Aggregation.Aggregate: integers are unbounded. An int64 overflow of `Total` or of a sum is not modelled.
- Aggregation.Aggregate: pandas' exception types and messages are reduced to the three `Error` cases.
- Aggregation.Aggregate: missing values (NaN) in the input columns are not modelled. Every record has a date, a project and two integers.
- Ordering.Sort: an insertion sort stands in for pandas' own sort of group-by keys. Only the result matters, and `SortedUnique` shows the result is fixed by the keys.
