/**
 * What the heatmap promises, proved about its specification `HeatmapSpec`
 * (and so, through `GenerateHeatmap`'s postcondition, about the day walk):
 * the shape of the grid, where each day lands, what each cell holds, that
 * dates outside the range play no part, what the default density map
 * gives, and where the month labels go.
 */
module HeatmapProperties {
  import opened Wrappers
  import opened Calendar
  import opened Density
  import opened Layout

  /** The number of days in [start, end]. */
  function DayCount(start: int, end: int): nat
  {
    if start <= end then end - start + 1 else 0
  }

  // ---------------------------------------------------------------------------
  // Shape
  // ---------------------------------------------------------------------------

  lemma {:induction false} RowDaysBelowStart(start: int, end: int, row: int)
    requires end < start
    ensures RowDays(start, end, row) == []
  {
  }

  /** Seven rows; row `row` holds ceil((p + n - row) / 7) cells, p the start date's weekday and n the number of days. */
  lemma GridShape(stream: seq<int>, densityMap: DensityMap, start: int, end: int, row: int)
    requires AllClassified(stream, densityMap, start, end) && 0 <= row < 7
    ensures |Grid(stream, densityMap, start, end)| == 7
    ensures |Grid(stream, densityMap, start, end)[row]| == (DayOfWeek(start) + DayCount(start, end) - row + 6) / 7
  {
    if start <= end {
      RowLength(start, end, row);
    } else {
      RowDaysBelowStart(start, end, row);
      RowLength(start, start - 1, row);
    }
  }

  /** Row lengths never grow with the row index and differ by at most one: only the last week may be partial. */
  lemma RaggedRows(stream: seq<int>, densityMap: DensityMap, start: int, end: int, i: int, j: int)
    requires AllClassified(stream, densityMap, start, end) && 0 <= i <= j < 7
    ensures var grid := Grid(stream, densityMap, start, end);
      |grid[j]| <= |grid[i]| <= |grid[j]| + 1
  {
    GridShape(stream, densityMap, start, end, i);
    GridShape(stream, densityMap, start, end, j);
  }

  /** The grid holds the padding cells and one cell per day of the range, nothing else. */
  lemma TotalCells(stream: seq<int>, densityMap: DensityMap, start: int, end: int)
    requires AllClassified(stream, densityMap, start, end)
    ensures var grid := Grid(stream, densityMap, start, end);
      |grid[0]| + |grid[1]| + |grid[2]| + |grid[3]| + |grid[4]| + |grid[5]| + |grid[6]|
      == DayOfWeek(start) + DayCount(start, end)
  {
    var x := DayOfWeek(start) + DayCount(start, end);
    forall row | 0 <= row < 7
      ensures |Grid(stream, densityMap, start, end)[row]| == (x - row + 6) / 7
    {
      GridShape(stream, densityMap, start, end, row);
    }
    var q, r := x / 7, x % 7;
    assert x == 7 * q + r;
    assert (x + 6) / 7 == q + (if 0 < r then 1 else 0);
    assert (x + 5) / 7 == q + (if 1 < r then 1 else 0);
    assert (x + 4) / 7 == q + (if 2 < r then 1 else 0);
    assert (x + 3) / 7 == q + (if 3 < r then 1 else 0);
    assert (x + 2) / 7 == q + (if 4 < r then 1 else 0);
    assert (x + 1) / 7 == q + (if 5 < r then 1 else 0);
    assert x / 7 == q;
  }

  // ---------------------------------------------------------------------------
  // Placement
  // ---------------------------------------------------------------------------

  lemma {:induction false} RowDaysSplit(start: int, mid: int, end: int, row: int)
    requires start <= mid <= end + 1
    ensures RowDays(start, end, row) == RowDays(start, mid - 1, row) + RowDays(mid, end, row)
    decreases end - start
  {
    if end >= mid {
      RowDaysSplit(start, mid, end - 1, row);
      var tail := if DayOfWeek(end) == row then [end] else [];
      assert RowDays(start, end, row) == RowDays(start, end - 1, row) + tail;
      assert RowDays(mid, end, row) == RowDays(mid, end - 1, row) + tail;
      assert (RowDays(start, mid - 1, row) + RowDays(mid, end - 1, row)) + tail
          == RowDays(start, mid - 1, row) + (RowDays(mid, end - 1, row) + tail);
    } else {
      RowDaysBelowStart(mid, end, row);
      assert RowDays(start, end, row) + [] == RowDays(start, end, row);
    }
  }

  /** Day `d` of the range lands in the row of its weekday, at column (p + d - start) / 7, with its own level. */
  lemma CellOfDay(stream: seq<int>, densityMap: DensityMap, start: int, end: int, d: int)
    requires AllClassified(stream, densityMap, start, end) && start <= d <= end
    ensures var row := Grid(stream, densityMap, start, end)[DayOfWeek(d)];
      0 <= Column(start, d) < |row| && row[Column(start, d)] == Level(stream, densityMap, d)
  {
    var i := DayOfWeek(d);
    var before := RowDays(start, d - 1, i);
    RowDaysSplit(start, d, end, i);
    RowDaysSplit(d, d + 1, end, i);
    assert RowDays(d, d, i) == [d];
    assert RowDays(start, end, i) == before + ([d] + RowDays(d + 1, end, i));
    assert RowDays(start, end, i)[|before|] == d;
    RowLengthIsColumn(start, d);
  }

  /** The day whose cell is at column `col` of row `row`, counting the padding p = DayOfWeek(start). */
  function DayAt(start: int, row: int, col: int): int
  {
    start - DayOfWeek(start) + 7 * col + row
  }

  /** Outside the leading padding, the day of a position lands at that position. */
  lemma DayAtPosition(start: int, row: int, col: int)
    requires 0 <= row < 7 && 0 <= col && !(row < DayOfWeek(start) && col == 0)
    ensures start <= DayAt(start, row, col)
    ensures DayOfWeek(DayAt(start, row, col)) == row && Column(start, DayAt(start, row, col)) == col
  {
    var d := DayAt(start, row, col);
    assert DayOfWeek(start) + (d - start) == 7 * col + row;
    assert (7 * col + row) / 7 == col && (7 * col + row) % 7 == row;
    DayOfWeekAfter(start, d);
  }

  /** A position within its row's length and outside the padding belongs to a day of the range. */
  lemma PositionOfDay(start: int, end: int, row: int, col: int)
    requires 0 <= row < 7 && 0 <= col
    requires col < (DayOfWeek(start) + DayCount(start, end) - row + 6) / 7
    requires !(row < DayOfWeek(start) && col == 0)
    ensures start <= DayAt(start, row, col) <= end
    ensures DayOfWeek(DayAt(start, row, col)) == row && Column(start, DayAt(start, row, col)) == col
  {
    DayAtPosition(start, row, col);
    assert 7 * (col + 1) <= DayOfWeek(start) + DayCount(start, end) - row + 6;
  }

  /** A row before the start date's weekday begins with a zero placeholder. */
  lemma PaddingCell(stream: seq<int>, densityMap: DensityMap, start: int, end: int, row: int)
    requires AllClassified(stream, densityMap, start, end) && 0 <= row < DayOfWeek(start)
    ensures |Grid(stream, densityMap, start, end)[row]| >= 1 && Grid(stream, densityMap, start, end)[row][0] == 0
  {
    var grid := Grid(stream, densityMap, start, end);
    assert grid[row] == [0] + Cells(stream, densityMap, RowDays(start, end, row));
  }

  /** Conversely, every cell is either a leading zero or the level of the one day whose position it is. */
  lemma CellIsPaddingOrDay(stream: seq<int>, densityMap: DensityMap, start: int, end: int, row: int, col: int)
    requires AllClassified(stream, densityMap, start, end)
    requires 0 <= row < 7 && 0 <= col < |Grid(stream, densityMap, start, end)[row]|
    ensures var cell, d := Grid(stream, densityMap, start, end)[row][col], DayAt(start, row, col);
      if row < DayOfWeek(start) && col == 0 then cell == 0
      else (start <= d <= end && DayOfWeek(d) == row && Column(start, d) == col
        && cell == Level(stream, densityMap, d))
  {
    GridShape(stream, densityMap, start, end, row);
    if row < DayOfWeek(start) && col == 0 {
      PaddingCell(stream, densityMap, start, end, row);
    } else {
      var d := DayAt(start, row, col);
      PositionOfDay(start, end, row, col);
      CellOfDay(stream, densityMap, start, end, d);
    }
  }

  /**
   * Leading padding: a row before the start date's weekday p begins with one zero
   * cell and then its first day, DayAt(start, row, 1) = start + 7 + row - p; a row
   * from p on begins with its first day, DayAt(start, row, 0) = start + row - p.
   */
  lemma LeadingPadding(stream: seq<int>, densityMap: DensityMap, start: int, end: int, row: int)
    requires AllClassified(stream, densityMap, start, end) && 0 <= row < 7
    ensures var grid := Grid(stream, densityMap, start, end);
      row < DayOfWeek(start) ==> |grid[row]| >= 1 && grid[row][0] == 0
    ensures var grid, d := Grid(stream, densityMap, start, end), DayAt(start, row, 1);
      row < DayOfWeek(start) && d <= end ==> |grid[row]| >= 2 && grid[row][1] == Level(stream, densityMap, d)
    ensures var grid, d := Grid(stream, densityMap, start, end), DayAt(start, row, 0);
      DayOfWeek(start) <= row && d <= end ==> |grid[row]| >= 1 && grid[row][0] == Level(stream, densityMap, d)
  {
    if row < DayOfWeek(start) {
      PaddingCell(stream, densityMap, start, end, row);
      DayAtPosition(start, row, 1);
      if DayAt(start, row, 1) <= end {
        CellOfDay(stream, densityMap, start, end, DayAt(start, row, 1));
      }
    } else {
      DayAtPosition(start, row, 0);
      if DayAt(start, row, 0) <= end {
        CellOfDay(stream, densityMap, start, end, DayAt(start, row, 0));
      }
    }
  }

  // ---------------------------------------------------------------------------
  // Cell values
  // ---------------------------------------------------------------------------

  lemma {:induction false} CellsAgree(a: seq<int>, b: seq<int>, densityMap: DensityMap, days: seq<int>)
    requires forall k :: 0 <= k < |days| ==> Occurrences(a, days[k]) == Occurrences(b, days[k])
    requires forall k :: 0 <= k < |days| ==> Classified(a, densityMap, days[k])
    ensures forall k :: 0 <= k < |days| ==> Classified(b, densityMap, days[k])
    ensures Cells(a, densityMap, days) == Cells(b, densityMap, days)
  {
  }

  /** Dates outside [start, end] never influence the result: streams that agree on the range give the same outcome. */
  lemma OutsideRangeIgnored(a: seq<int>, b: seq<int>, densityMap: DensityMap, start: Ordinal, end: Ordinal)
    requires forall d :: start <= d <= end ==> Occurrences(a, d) == Occurrences(b, d)
    ensures HeatmapSpec(a, densityMap, start, end) == HeatmapSpec(b, densityMap, start, end)
  {
    forall d | start <= d <= end
      ensures Classified(a, densityMap, d) <==> Classified(b, densityMap, d)
    {
      assert Occurrences(a, d) == Occurrences(b, d);
    }
    if AllClassified(a, densityMap, start, end) {
      var ga, gb := Grid(a, densityMap, start, end), Grid(b, densityMap, start, end);
      forall row | 0 <= row < 7
        ensures ga[row] == gb[row]
      {
        CellsAgree(a, b, densityMap, RowDays(start, end, row));
      }
      assert ga == gb;
    }
  }

  /** In particular one more commit dated outside the range changes nothing. */
  lemma CommitOutsideRange(stream: seq<int>, x: int, densityMap: DensityMap, start: Ordinal, end: Ordinal)
    requires x < start || end < x
    ensures HeatmapSpec(stream + [x], densityMap, start, end) == HeatmapSpec(stream, densityMap, start, end)
  {
    assert multiset(stream + [x]) == multiset(stream) + multiset{x};
    OutsideRangeIgnored(stream + [x], stream, densityMap, start, end);
  }

  /**
   * With the default density map classification never fails: the outcome is the
   * grid unless the range ends on 9999-12-31, and every real cell holds the default
   * level of the day's commit count.
   */
  lemma DefaultMapOutcome(stream: seq<int>, start: Ordinal, end: Ordinal)
    ensures AllClassified(stream, DefaultDensityMap(), start, end)
    ensures HeatmapSpec(stream, DefaultDensityMap(), start, end)
         == if end == MaxOrdinal then Failure(DateOverflow)
            else Success(Heatmap(Grid(stream, DefaultDensityMap(), start, end), MonthStarts(start, end)))
    ensures forall d :: start <= d <= end ==>
      Level(stream, DefaultDensityMap(), d) == DefaultLevel(Occurrences(stream, d))
  {
    forall d | start <= d <= end
      ensures Classified(stream, DefaultDensityMap(), d)
      ensures Level(stream, DefaultDensityMap(), d) == DefaultLevel(Occurrences(stream, d))
    {
      DefaultClassification(Occurrences(stream, d));
    }
  }

  /** With the default density map every value in the grid is a level between 0 and 4. */
  lemma DefaultLevelsInRange(stream: seq<int>, start: Ordinal, end: Ordinal, row: int, col: int)
    requires 0 <= row < 7
    ensures AllClassified(stream, DefaultDensityMap(), start, end)
    ensures 0 <= col < |Grid(stream, DefaultDensityMap(), start, end)[row]|
      ==> Grid(stream, DefaultDensityMap(), start, end)[row][col] <= 4
  {
    DefaultMapOutcome(stream, start, end);
    var grid := Grid(stream, DefaultDensityMap(), start, end);
    if 0 <= col < |grid[row]| {
      CellIsPaddingOrDay(stream, DefaultDensityMap(), start, end, row, col);
    }
  }

  // ---------------------------------------------------------------------------
  // Month starts
  // ---------------------------------------------------------------------------

  /** The first entry is column 0 with the start date's month. */
  lemma MonthStartsBegin(start: Ordinal, end: Ordinal)
    requires start <= end
    ensures |MonthStarts(start, end)| >= 1 && MonthStarts(start, end)[0] == MonthStart(0, Month(start))
  {
    MonthStartDaysMembers(start, end, start);
    var days := MonthStartDays(start, end);
    var j :| 0 <= j < |days| && days[j] == start;
    if j > 0 {
      MonthStartDaysInOrder(start, end, 0, j);
    }
    DayOfWeekIsResidue(start);
    assert days[0] == start;
  }

  /** Every entry after the first belongs to a first of a month after the start date. */
  lemma LaterMonthStartsAreFirstDays(start: Ordinal, end: Ordinal, k: int)
    requires 1 <= k < |MonthStartDays(start, end)|
    ensures var d := MonthStartDays(start, end)[k];
      start < d <= end && Day(d) == 1
  {
    var days := MonthStartDays(start, end);
    MonthStartDaysInOrder(start, end, 0, k);
    MonthStartDaysMembers(start, end, days[k]);
  }

  /** Every first of a month in (start, end] gets an entry after the first one: its column and its month. */
  lemma FirstDaysHaveMonthStarts(start: Ordinal, end: Ordinal, d: Ordinal)
    requires start < d <= end && Day(d) == 1
    ensures var days, starts := MonthStartDays(start, end), MonthStarts(start, end);
      exists k :: 1 <= k < |starts| && days[k] == d && starts[k] == MonthStart(Column(start, d), Month(d))
  {
    var days := MonthStartDays(start, end);
    MonthStartDaysMembers(start, end, d);
    MonthStartDaysMembers(start, end, start);
    var k :| 0 <= k < |days| && days[k] == d;
    var j :| 0 <= j < |days| && days[j] == start;
    if k < j {
      MonthStartDaysInOrder(start, end, k, j);
    }
    assert j < k;
    assert MonthStarts(start, end)[k] == MonthStart(Column(start, d), Month(d));
  }

  /**
   * Entries follow date order: their columns never decrease, and from the second
   * entry on (firsts of months, at least 28 days apart) they grow by at least 4.
   */
  lemma MonthStartColumnsIncrease(start: Ordinal, end: Ordinal, k: int, l: int)
    requires 0 <= k < l < |MonthStarts(start, end)|
    ensures MonthStarts(start, end)[k].column <= MonthStarts(start, end)[l].column
    ensures 1 <= k ==> MonthStarts(start, end)[k].column + 4 <= MonthStarts(start, end)[l].column
  {
    var days := MonthStartDays(start, end);
    var a, b := days[k], days[l];
    MonthStartDaysInOrder(start, end, k, l);
    if 1 <= k {
      LaterMonthStartsAreFirstDays(start, end, k);
      LaterMonthStartsAreFirstDays(start, end, l);
      FirstDaysApart(a, b);
    }
  }

  /** The column of a later entry is where that month's first day stands in its row of the finished grid. */
  lemma MonthStartMarksFirstCell(stream: seq<int>, densityMap: DensityMap, start: Ordinal, end: Ordinal, k: int)
    requires AllClassified(stream, densityMap, start, end) && 0 <= k < |MonthStarts(start, end)|
    ensures var d, entry := MonthStartDays(start, end)[k], MonthStarts(start, end)[k];
      var row := Grid(stream, densityMap, start, end)[DayOfWeek(d)];
      entry.column < |row| && row[entry.column] == Level(stream, densityMap, d) && entry.month == Month(d)
  {
    var d := MonthStartDays(start, end)[k];
    CellOfDay(stream, densityMap, start, end, d);
  }
}
