/**
 * The calendar layout of `generate_heatmap`: seven rows, Sunday (0) to
 * Saturday (6); a zero cell in front of each row that comes before the
 * start date's row in its first week; then one density level per day of
 * [start, end], appended to the row of that day's weekday. Beside the grid
 * the walk records the column where each month begins.
 *
 * The first half states the result declaratively (`HeatmapSpec`); the second
 * half is the day walk itself (`GenerateHeatmap`), proved to compute it.
 */
module Layout {
  import opened Wrappers
  import opened Calendar
  import opened Density
  import opened Counting

  /** An entry of `month_start_columns`: a column and the month (1..12) its label names. */
  datatype MonthStart = MonthStart(column: nat, month: int)

  /** The grid generate_heatmap returns, with the month-start columns it builds beside it. */
  datatype Heatmap = Heatmap(grid: seq<seq<nat>>, monthStarts: seq<MonthStart>)

  /**
   * What generate_heatmap can raise once the date stream is given: StopIteration from
   * `next` when no predicate accepts a count, OverflowError when the walk steps past
   * 9999-12-31.
   */
  datatype HeatmapError = NoDensityMatch | DateOverflow

  // ---------------------------------------------------------------------------
  // The specification
  // ---------------------------------------------------------------------------

  /** How often date `d` occurs in the commit-date stream. */
  function Occurrences(stream: seq<int>, d: int): nat
  {
    multiset(stream)[d]
  }

  predicate Classified(stream: seq<int>, densityMap: DensityMap, d: int)
  {
    FirstMatch(densityMap, Occurrences(stream, d)).Some?
  }

  /** Some predicate of the density map accepts the count of every day of [start, end]. */
  predicate AllClassified(stream: seq<int>, densityMap: DensityMap, start: int, end: int)
  {
    forall d :: start <= d <= end ==> Classified(stream, densityMap, d)
  }

  /** Classifying day `d` after the days before it classifies the range up to `d`. */
  lemma ClassifiedUpTo(stream: seq<int>, densityMap: DensityMap, start: int, d: int)
    requires AllClassified(stream, densityMap, start, d - 1) && Classified(stream, densityMap, d)
    ensures AllClassified(stream, densityMap, start, d)
  {
    forall e | start <= e <= d
      ensures Classified(stream, densityMap, e)
    {
      if e < d {
        assert start <= e <= d - 1;
      }
    }
  }

  /** The density level of day `d`. */
  function Level(stream: seq<int>, densityMap: DensityMap, d: int): nat
    requires Classified(stream, densityMap, d)
  {
    FirstMatch(densityMap, Occurrences(stream, d)).value
  }

  /** The placeholder cells in front of row `row` when the first day falls in row `p`. */
  function Padding(p: int, row: int): seq<nat>
  {
    if row < p then [0] else []
  }

  /** The days of [start, end] whose Sunday-based day of week is `row`, in date order. */
  function RowDays(start: int, end: int, row: int): (days: seq<int>)
    ensures forall k :: 0 <= k < |days| ==> start <= days[k] <= end && DayOfWeek(days[k]) == row
    decreases end - start
  {
    if end < start then [] else RowDays(start, end - 1, row) + (if DayOfWeek(end) == row then [end] else [])
  }

  /** A day is in row `row` exactly when it lies in [start, end] and falls on that weekday. */
  lemma {:induction false} RowDaysMembers(start: int, end: int, row: int, d: int)
    ensures d in RowDays(start, end, row) <==> start <= d <= end && DayOfWeek(d) == row
    decreases end - start
  {
    if end >= start {
      RowDaysMembers(start, end - 1, row, d);
    }
  }

  /** The density levels of the given days, in the same order. */
  function Cells(stream: seq<int>, densityMap: DensityMap, days: seq<int>): (cells: seq<nat>)
    requires forall k :: 0 <= k < |days| ==> Classified(stream, densityMap, days[k])
    ensures |cells| == |days|
    ensures forall k :: 0 <= k < |days| ==> cells[k] == Level(stream, densityMap, days[k])
  {
    if days == [] then []
    else Cells(stream, densityMap, days[..|days| - 1]) + [Level(stream, densityMap, days[|days| - 1])]
  }

  /** The finished grid: row `row` is its padding followed by the levels of its days. */
  function Grid(stream: seq<int>, densityMap: DensityMap, start: int, end: int): (grid: seq<seq<nat>>)
    requires AllClassified(stream, densityMap, start, end)
    ensures |grid| == 7
  {
    seq(7, row => Padding(DayOfWeek(start), row) + Cells(stream, densityMap, RowDays(start, end, row)))
  }

  /** The column of day `d` (d >= start): its index within its row. */
  function Column(start: int, d: int): int
  {
    (DayOfWeek(start) + (d - start)) / 7
  }

  /** The days of [start, end] that get a month label: the start date and every later first of a month. */
  function MonthStartDays(start: Ordinal, end: int): (days: seq<int>)
    requires end <= MaxOrdinal
    ensures forall k :: 0 <= k < |days| ==> start <= days[k] <= end
    decreases end - start
  {
    if end < start then []
    else MonthStartDays(start, end - 1) + (if end == start || Day(end) == 1 then [end] else [])
  }

  /** A day gets a month label exactly when it is the start date or a later first of a month. */
  lemma {:induction false} MonthStartDaysMembers(start: Ordinal, end: int, d: int)
    requires end <= MaxOrdinal
    ensures d in MonthStartDays(start, end) <==> start <= d <= end && (d == start || Day(d) == 1)
    decreases end - start
  {
    if end >= start {
      MonthStartDaysMembers(start, end - 1, d);
      var labelled := end == start || Day(end) == 1;
      assert MonthStartDays(start, end) == MonthStartDays(start, end - 1) + (if labelled then [end] else []);
    }
  }

  /** The labelled days come in date order. */
  lemma {:induction false} MonthStartDaysInOrder(start: Ordinal, end: int, k: int, l: int)
    requires end <= MaxOrdinal && 0 <= k < l < |MonthStartDays(start, end)|
    ensures MonthStartDays(start, end)[k] < MonthStartDays(start, end)[l]
    decreases end - start
  {
    var prefix := MonthStartDays(start, end - 1);
    var labelled := end == start || Day(end) == 1;
    assert MonthStartDays(start, end) == prefix + (if labelled then [end] else []);
    if l < |prefix| {
      MonthStartDaysInOrder(start, end - 1, k, l);
    }
  }

  /** `month_start_columns` as it stands after the walk has processed the days up to `end`. */
  function MonthStarts(start: Ordinal, end: int): (starts: seq<MonthStart>)
    requires end <= MaxOrdinal
  {
    var days := MonthStartDays(start, end);
    seq(|days|, k requires 0 <= k < |days| => MonthStart(Column(start, days[k]), Month(days[k])))
  }

  /** generate_heatmap's outcome for a commit-date stream, a density map and a date range. */
  function HeatmapSpec(stream: seq<int>, densityMap: DensityMap, start: Ordinal, end: Ordinal): Result<Heatmap, HeatmapError>
  {
    if !AllClassified(stream, densityMap, start, end) then Failure(NoDensityMatch)
    else if end == MaxOrdinal then Failure(DateOverflow)
    else Success(Heatmap(Grid(stream, densityMap, start, end), MonthStarts(start, end)))
  }

  // ---------------------------------------------------------------------------
  // Row lengths (used by the walk for the month-start columns)
  // ---------------------------------------------------------------------------

  /** Counting `d - start` days on from the start date's weekday gives the weekday of `d`. */
  lemma DayOfWeekAfter(start: int, d: int)
    ensures (DayOfWeek(start) + (d - start)) % 7 == DayOfWeek(d)
  {
    DayOfWeekIsResidue(start);
    DayOfWeekIsResidue(d);
    var a, b := start / 7, d / 7;
    assert start == 7 * a + DayOfWeek(start);
    assert d == 7 * b + DayOfWeek(d);
    assert DayOfWeek(start) + (d - start) == 7 * (b - a) + DayOfWeek(d);
  }

  /** ceil((x + 1) / 7) exceeds ceil(x / 7) exactly when 7 divides x. */
  lemma CeilingStep(x: int)
    ensures (x + 7) / 7 - (x + 6) / 7 == if x % 7 == 0 then 1 else 0
  {
    assert x == 7 * (x / 7) + x % 7;
  }

  /** After the days of [start, end], row `row` holds ceil((p + n - row) / 7) cells, n the number of days. */
  lemma {:induction false} RowLength(start: int, end: int, row: int)
    requires start <= end + 1 && 0 <= row < 7
    ensures |Padding(DayOfWeek(start), row)| + |RowDays(start, end, row)|
         == (DayOfWeek(start) + (end - start + 1) - row + 6) / 7
    decreases end - start
  {
    var p := DayOfWeek(start);
    if end >= start {
      RowLength(start, end - 1, row);
      var x := p + (end - start) - row;
      CeilingStep(x);
      DayOfWeekAfter(start, end);
      var c := (p + (end - start)) / 7;
      assert p + (end - start) == 7 * c + DayOfWeek(end);
      assert x == 7 * c + (DayOfWeek(end) - row);
      assert x % 7 == 0 <==> DayOfWeek(end) == row;
    }
  }

  /** The length of a day's row just before the day is appended is the day's column. */
  lemma RowLengthIsColumn(start: int, d: int)
    requires start <= d
    ensures |Padding(DayOfWeek(start), DayOfWeek(d))| + |RowDays(start, d - 1, DayOfWeek(d))| == Column(start, d)
  {
    var p, i := DayOfWeek(start), DayOfWeek(d);
    RowLength(start, d - 1, i);
    DayOfWeekAfter(start, d);
    var c := (p + (d - start)) / 7;
    assert p + (d - start) == 7 * c + i;
    assert p + (d - start - 1 + 1) - i + 6 == 7 * c + 6;
  }

  /** Processing day `d` adds d's entry to the month starts when d is the start date or a first of a month. */
  lemma MonthStartsStep(start: Ordinal, d: Ordinal)
    requires start <= d
    ensures MonthStarts(start, d) == MonthStarts(start, d - 1)
      + (if d == start then [MonthStart(0, Month(d))]
         else if Day(d) == 1 then [MonthStart(Column(start, d), Month(d))]
         else [])
  {
    DayOfWeekIsResidue(start);
    assert MonthStartDays(start, d)
        == MonthStartDays(start, d - 1) + (if d == start || Day(d) == 1 then [d] else []);
  }

  /** Processing day `d` appends d's level to the row of its weekday and leaves the other rows alone. */
  lemma RowsStep(stream: seq<int>, densityMap: DensityMap, start: int, d: int, row: int)
    requires start <= d && AllClassified(stream, densityMap, start, d) && 0 <= row < 7
    ensures Cells(stream, densityMap, RowDays(start, d, row))
         == Cells(stream, densityMap, RowDays(start, d - 1, row))
            + (if row == DayOfWeek(d) then [Level(stream, densityMap, d)] else [])
  {
    var days := RowDays(start, d - 1, row);
    if row == DayOfWeek(d) {
      assert RowDays(start, d, row) == days + [d];
      assert (days + [d])[..|days|] == days;
    }
  }

  /** The rows as they stand after day `d`: each its padding followed by the levels of its days up to `d`. */
  predicate RowsUpTo(stream: seq<int>, densityMap: DensityMap, start: int, d: int, rows: seq<seq<nat>>)
    requires AllClassified(stream, densityMap, start, d)
  {
    |rows| == 7 &&
    forall row :: 0 <= row < 7 ==>
      rows[row] == Padding(DayOfWeek(start), row) + Cells(stream, densityMap, RowDays(start, d, row))
  }

  /** Appending the level of day `d` to the row of its weekday, and nothing to the others, advances one row from `d - 1` to `d`. */
  lemma AppendToRow(stream: seq<int>, densityMap: DensityMap, start: int, d: int, row: int, before: seq<nat>)
    requires start <= d && AllClassified(stream, densityMap, start, d) && 0 <= row < 7
    requires before == Padding(DayOfWeek(start), row) + Cells(stream, densityMap, RowDays(start, d - 1, row))
    ensures (if row == DayOfWeek(d) then before + [Level(stream, densityMap, d)] else before)
         == Padding(DayOfWeek(start), row) + Cells(stream, densityMap, RowDays(start, d, row))
  {
    RowsStep(stream, densityMap, start, d, row);
    var pad, cells := Padding(DayOfWeek(start), row), Cells(stream, densityMap, RowDays(start, d - 1, row));
    if row == DayOfWeek(d) {
      assert (pad + cells) + [Level(stream, densityMap, d)] == pad + (cells + [Level(stream, densityMap, d)]);
    } else {
      assert cells + [] == cells;
    }
  }

  /** Appending the level of day `d` to the row of its weekday advances the rows from `d - 1` to `d`. */
  lemma AppendDay(stream: seq<int>, densityMap: DensityMap, start: int, d: int, before: seq<seq<nat>>, after: seq<seq<nat>>)
    requires start <= d && AllClassified(stream, densityMap, start, d)
    requires RowsUpTo(stream, densityMap, start, d - 1, before)
    requires after == before[DayOfWeek(d) := before[DayOfWeek(d)] + [Level(stream, densityMap, d)]]
    ensures RowsUpTo(stream, densityMap, start, d, after)
  {
    forall row | 0 <= row < 7
      ensures after[row] == Padding(DayOfWeek(start), row) + Cells(stream, densityMap, RowDays(start, d, row))
    {
      AppendToRow(stream, densityMap, start, d, row, before[row]);
    }
  }

  /** Once every day is processed the rows are the grid. */
  lemma RowsUpToIsGrid(stream: seq<int>, densityMap: DensityMap, start: int, end: int, rows: seq<seq<nat>>)
    requires AllClassified(stream, densityMap, start, end)
    requires RowsUpTo(stream, densityMap, start, end, rows)
    ensures rows == Grid(stream, densityMap, start, end)
  {
  }

  /** Before any day of an empty range is processed the rows and month starts are those of the range. */
  lemma EmptyRange(stream: seq<int>, densityMap: DensityMap, start: Ordinal, done: int, end: int, rows: seq<seq<nat>>)
    requires done < start && end < start && end <= MaxOrdinal
    requires RowsUpTo(stream, densityMap, start, done, rows)
    ensures RowsUpTo(stream, densityMap, start, end, rows)
    ensures MonthStarts(start, done) == MonthStarts(start, end)
  {
    forall row | 0 <= row < 7
      ensures RowDays(start, done, row) == RowDays(start, end, row)
    {
    }
  }

  // ---------------------------------------------------------------------------
  // The day walk
  // ---------------------------------------------------------------------------

  /**
   * generate_heatmap once the commit-date stream is known: counts the
   * stream, pads the rows before the start date's row, then walks the days
   * from start to end, recording month starts and appending each day's
   * density level to its weekday's row.
   */
  method GenerateHeatmap(stream: seq<int>, start: Ordinal, end: Ordinal, densityMap: DensityMap)
    returns (r: Result<Heatmap, HeatmapError>)
    ensures r == HeatmapSpec(stream, densityMap, start, end)
  {
    var grouped := Tally(stream);
    var heatmap: seq<seq<nat>> := [[], [], [], [], [], [], []];
    var monthStarts: seq<MonthStart> := [];
    var current: int := start;
    var dayOfWeek := DayOfWeek(start);
    ghost var p := dayOfWeek;
    ghost var done := start - 1;

    if dayOfWeek != 0 {
      for i := 0 to dayOfWeek
        invariant |heatmap| == 7
        invariant forall row :: 0 <= row < 7 ==> heatmap[row] == if row < i then [0] else []
      {
        heatmap := heatmap[i := heatmap[i] + [0]];
      }
    }

    assert RowsUpTo(stream, densityMap, start, start - 1, heatmap) by {
      forall row | 0 <= row < 7
        ensures heatmap[row] == Padding(p, row) + Cells(stream, densityMap, RowDays(start, start - 1, row))
      {
        assert RowDays(start, start - 1, row) == [];
        assert Padding(p, row) + [] == Padding(p, row);
      }
    }

    while current <= end
      invariant start <= current && (current <= end + 1 || current == start)
      invariant done == current - 1 && current <= MaxOrdinal
      invariant dayOfWeek == DayOfWeek(current)
      invariant AllClassified(stream, densityMap, start, done)
      invariant RowsUpTo(stream, densityMap, start, done, heatmap)
      invariant monthStarts == MonthStarts(start, done)
      decreases end - current
    {
      var month := Month(current);
      MonthStartsStep(start, current);
      if current == start {
        monthStarts := monthStarts + [MonthStart(0, month)];
      } else if Day(current) == 1 {
        RowLengthIsColumn(start, current);
        assert |heatmap[dayOfWeek]| == Column(start, current);
        monthStarts := monthStarts + [MonthStart(|heatmap[dayOfWeek]|, month)];
      }
      assert monthStarts == MonthStarts(start, current);

      var value := Get(grouped, current);
      TallyGet(stream, current);
      assert value == Occurrences(stream, current);
      var density := FirstMatch(densityMap, value);
      if density.None? {
        assert !Classified(stream, densityMap, current);
        return Failure(NoDensityMatch);
      }
      ClassifiedUpTo(stream, densityMap, start, current);
      ghost var previous := heatmap;
      heatmap := heatmap[dayOfWeek := heatmap[dayOfWeek] + [density.value]];
      assert density.value == Level(stream, densityMap, current);
      AppendDay(stream, densityMap, start, current, previous, heatmap);
      if current == MaxOrdinal {
        assert end == MaxOrdinal;
        return Failure(DateOverflow);
      }
      done := current;
      current := current + 1;
      dayOfWeek := DayOfWeek(current);
    }

    if done != end {
      EmptyRange(stream, densityMap, start, done, end, heatmap);
    }
    assert end != MaxOrdinal && AllClassified(stream, densityMap, start, end);
    RowsUpToIsGrid(stream, densityMap, start, end, heatmap);
    r := Success(Heatmap(heatmap, monthStarts));
  }
}
