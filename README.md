# git-heatmap: a verified model of `generate_heatmap`

git-heatmap draws a GitHub-style contribution heatmap in the terminal. Its
core, `generate_heatmap` in `src/main.py`, does four things:

- It counts the commit dates of an author with `collections.Counter`.
- It lays the days from `start` to `end` out in seven rows, Sunday to Saturday.
  Each row is a list of weekly columns. The first week is padded with zero
  cells up to the start date's weekday.
- It turns each day's commit count into a density level. The level is the
  index of the first predicate of the density map that accepts the count.
- It records where each month's label column starts (`month_start_columns`).

This project models that function and the default density map the command
line passes to it. It then proves what the function promises about its result.

How the model is built:

- A date is its Python ordinal (`date.toordinal()`): 0001-01-01 is 1 and
  9999-12-31 is 3652059.
  - The Sunday-based day of week is `(weekday() + 1) % 7`, which is the ordinal modulo 7.
  - Day of month and month come from a verified conversion back to a civil
    date (`Calendar.Civil`, with `Calendar.OrdinalRoundTrip`).
- The commits are an input sequence of ordinals: the dates `generate_for_repos`
  yields, including repeats.
- A density map is a sequence of predicates on counts.
- Python's two exceptions on this path become error results:
  - `next` finds no predicate that accepts a count: `StopIteration` becomes
    `NoDensityMatch`.
  - The walk steps past 9999-12-31: `OverflowError` becomes `DateOverflow`.

Python raises `OverflowError` only after it has appended the last day, so a range
ending on 9999-12-31 never returns a grid. The model keeps that behaviour.

In the table below, p is the start date's Sunday-based weekday and n is the
number of days in [start, end].

Modules:

- `Wrappers`: `Option` and `Result`.
- `Calendar`: ordinals and weekdays, the Gregorian calendar, `Civil`, `Day` and `Month`.
- `Counting`: `Counter` as `Tally`, with `.get(d, 0)`.
- `Density`: first-match classification and the default density map.
- `Layout`:
  - the declarative specification `HeatmapSpec`;
  - the imperative `GenerateHeatmap`, which follows the source step by step
    (padding loop, day walk, appends to rows and to the month-start list);
  - the proof that the two agree.
- `HeatmapProperties`: the properties of the result, proved on `HeatmapSpec`.

`generate_heatmap` builds `month_start_columns` but returns only the grid; the
model returns both, so that the month-start positions can be stated. Each
month label is modelled by its month number.

## Model

| member | source | states |
|---|---|---|
| Layout.GenerateHeatmap | src/main.py:63-94 | The padding loop and the day walk produce exactly `HeatmapSpec`: the seven rows of padding plus classified days, the month-start list, `NoDensityMatch` when some day's count matches no predicate, else `DateOverflow` when the range ends on 9999-12-31 |
| Layout.RowDaysMembers | src/main.py:78-92 | A day is in row `row` exactly when it lies in [start, end] and its Sunday-based weekday is `row` |
| Layout.RowLength | src/main.py:74-92 | Padding plus the days of row `row` number ceil((p + n - row) / 7) for n days |
| Layout.RowLengthIsColumn | src/main.py:86 | When day d is appended, its row already holds (p + d - start) / 7 cells, so that is its column |
| Layout.MonthStartDaysMembers | src/main.py:83-86 | A day gets a month entry exactly when it is the start date or a later first of a month within the range |
| Layout.MonthStartDaysInOrder | src/main.py:78-86 | The days that get a month entry are recorded in date order |
| Layout.MonthStartsStep | src/main.py:83-86 | Processing day d appends (0, month) for the start date, (current row length, month) for a later first of a month, and nothing otherwise |
| Layout.AppendDay | src/main.py:88-90 | Appending day d's level to row DayOfWeek(d) keeps every row equal to padding plus the levels of its days so far |
| Calendar.DayOfWeekIsResidue | src/main.py:68 | `(weekday() + 1) % 7` is the ordinal modulo 7, so it advances by one modulo 7 per day (line 92) |
| Calendar.NextDayOrdinal | src/main.py:91 | Adding one day to a valid date other than 9999-12-31 gives a valid date one ordinal later |
| Calendar.CivilIsInverse | src/main.py:82-85 | The civil date of an ordinal is valid and converts back to that ordinal |
| Calendar.OrdinalRoundTrip | src/main.py:82-85 | Every valid date has a representable ordinal, and converting back gives the same year, month and day |
| Calendar.FirstDaysApart | src/main.py:85 | Two different firsts of a month are at least 28 days apart |
| Counting.Tally | src/main.py:63 | The counter's keys are exactly the dates in the stream, and each count is the date's multiplicity |
| Counting.TallyGet | src/main.py:88 | `.get(d, 0)` on the counter is the multiplicity of d, zero for a date without commits |
| Counting.TallyConservation | src/main.py:63 | The counts of the dates in [lo, hi) add up to the number of stream entries in [lo, hi) |
| Density.FirstMatch | src/main.py:89 | The result is the index of a predicate that accepts the value and no earlier predicate does; there is no result exactly when no predicate accepts it |
| Density.DefaultClassification | src/main.py:146-152 | The default map classifies 0 as 0, 1..2 as 1, 3..5 as 2, 6..7 as 3 and 8 or more as 4 |
| Density.DefaultMapExhaustive | src/main.py:146-152 | Some default predicate accepts a count exactly when the count is not negative |
| Density.DefaultMapDisjoint | src/main.py:146-152 | At most one default predicate accepts any count |
| HeatmapProperties.GridShape | src/main.py:65-92 | The grid has seven rows, and row `row` holds ceil((p + n - row) / 7) cells |
| HeatmapProperties.RaggedRows | src/main.py:74-92 | Row lengths never grow with the row index and differ by at most one |
| HeatmapProperties.TotalCells | src/main.py:74-92 | The seven rows hold p + n cells in all: the padding and one cell per day |
| HeatmapProperties.CellOfDay | src/main.py:88-90 | Each day of the range sits in the row of its weekday, at column (p + d - start) / 7, holding its density level |
| HeatmapProperties.CellIsPaddingOrDay | src/main.py:74-90 | Every cell is either a leading zero (row < p, column 0) or the level of the day start - p + 7 * column + row, which lies in the range |
| HeatmapProperties.LeadingPadding | src/main.py:74-76 | Rows before p start with a zero followed by their first day; the other rows start with their first day |
| HeatmapProperties.OutsideRangeIgnored | src/main.py:88 | Two commit streams with the same counts on every day of [start, end] give the same outcome |
| HeatmapProperties.CommitOutsideRange | src/main.py:88 | One more commit dated outside [start, end] leaves the outcome unchanged |
| HeatmapProperties.DefaultMapOutcome | src/main.py:146-152 | With the default map every day is classified, the outcome is the grid unless the range ends on 9999-12-31, and each day's level is its default level |
| HeatmapProperties.DefaultLevelsInRange | src/main.py:45-47 | With the default map every grid value is between 0 and 4 |
| HeatmapProperties.MonthStartsBegin | src/main.py:83-84 | For a non-empty range the first month entry is (0, month of start) |
| HeatmapProperties.LaterMonthStartsAreFirstDays | src/main.py:85-86 | Every later month entry belongs to a first of a month after the start date and within the range |
| HeatmapProperties.FirstDaysHaveMonthStarts | src/main.py:85-86 | Every first of a month after the start date and within the range has an entry with its column and month |
| HeatmapProperties.MonthStartColumnsIncrease | src/main.py:83-86 | Month-entry columns never decrease, and after the first entry they grow by at least 4 |
| HeatmapProperties.MonthStartMarksFirstCell | src/main.py:86 | A month entry's column is where its day stands in that day's row of the finished grid |

## Left out

- `generate_unique_commits` and `generate_for_repos` (src/main.py:14-37) are not
  modelled. They read git repositories through GitPython and exit when a path is
  not a repository. The dates they yield are the input sequence of the model.
- The laziness of the commit generator is not modelled: the stream is a finished sequence.
- `visualize`, `vali_date`, `amplify` and the click command line with its
  `Year` defaults from `date.today()` are not modelled. They are terminal
  output, argument parsing and the wall clock.
- `strftime("%b")` is not modelled: month names depend on the locale. A month
  label is the month number 1..12.
- Deduplication is not modelled, because the source has none. Despite its name,
  `generate_unique_commits` yields one date per commit, and all of them are counted.
- Timezones are not modelled: a commit date is whatever `authored_datetime.date()` gives.
- Density predicates are modelled as total functions on integers. A predicate
  that raises an exception, or returns a truthy value other than a boolean, is not modelled.
- `Layout.GenerateHeatmap`: a Python exception is modelled as an error result.
  The model does not capture that the exception unwinds the caller.
