/**
 * What the chart is told about the table: the height of each stacked bar
 * and the value labels written above the bars.
 */
module Chart {
  import opened Wrappers
  import opened Digits
  import opened Aggregation

  /** `grouped.sum(axis=1)`: the height of each period's stacked bar. */
  function BarTotals(cells: seq<seq<int>>): (totals: seq<int>)
    ensures |totals| == |cells|
    ensures forall i :: 0 <= i < |cells| ==> totals[i] == Sum(cells[i])
  {
    seq(|cells|, i requires 0 <= i < |cells| => Sum(cells[i]))
  }

  lemma {:induction false} SumOfBarTotals(cells: seq<seq<int>>)
    ensures Sum(BarTotals(cells)) == CellsTotal(cells)
  {
    if cells != [] {
      SumOfBarTotals(cells[1..]);
      assert BarTotals(cells)[1..] == BarTotals(cells[1..]);
    }
  }

  /** The bars of a successful run add up to the sum of every record's Number1 + Number2. */
  lemma BarTotalsConserve(recs: seq<Record>, t: Table)
    requires Aggregate(recs) == Success(t)
    ensures |BarTotals(t.cells)| == |t.periods|
    ensures Sum(BarTotals(t.cells)) == RecordsTotal(recs)
  {
    AggregateShape(recs, t);
    SumOfBarTotals(t.cells);
    AggregateConservesTotal(recs, t);
  }

  /** A value label: `str(total)` written at bar `x`, height `y`. */
  datatype Annotation = Annotation(x: nat, y: int, text: string)

  /**
   * The labelling loop: walks the bars in order and writes the total above
   * each bar whose total is positive; empty and negative bars get no label.
   */
  method AnnotateBars(totals: seq<int>) returns (notes: seq<Annotation>)
    ensures forall n :: n in notes ==>
      n.x < |totals| && n.y == totals[n.x] && n.y > 0 && n.text == DecimalString(n.y)
    ensures forall i :: 0 <= i < |totals| && totals[i] > 0 ==> exists n :: n in notes && n.x == i
    ensures forall a, b :: 0 <= a < b < |notes| ==> notes[a].x < notes[b].x
  {
    notes := [];
    var i := 0;
    while i < |totals|
      invariant 0 <= i <= |totals|
      invariant forall n :: n in notes ==>
        n.x < i && n.y == totals[n.x] && n.y > 0 && n.text == DecimalString(n.y)
      invariant forall k :: 0 <= k < i && totals[k] > 0 ==> exists n :: n in notes && n.x == k
      invariant forall a, b :: 0 <= a < b < |notes| ==> notes[a].x < notes[b].x
    {
      var total := totals[i];
      if total > 0 {
        notes := notes + [Annotation(i, total, DecimalString(total))];
      }
      i := i + 1;
    }
  }
}
