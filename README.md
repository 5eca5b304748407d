# Radar chart data preparation

A model in Dafny of the data-shaping core of `radar.py`, a script that draws a
radar (spider) chart of one person's skill levels with three proficiency bands.

The script builds a table with one row per skill (`Skills`, `MyLevel`) from a
skill→level mapping. It sorts the rows by level and adds one constant column
per proficiency boundary (`Basic`, `Full`, `Advanced`). Then it appends a copy
of the first row so that every polar trace closes into a loop. Finally it adds
one trace per boundary and one for `MyLevel`. Each trace gets one of two fixed
style bundles.

Everything is in `radar.dfy`, module `Radar`:

- `Skill`, `Boundary` and `Row` are the mapping entries and the table rows. A
  row holds its `Skills` and `MyLevel` cells and a map from boundary name to
  cell value.
- `SortByLevel` (an insertion sort) stands for the library sort.
  `WithBoundaryColumns` is the boundary loop as a function, and
  `AddBoundaryColumns` is the same loop as a method proved equal to it.
  `CloseLoop` appends the first row. `Prepare` is the whole preparation.
- `OptionsFor` is the style rule. `PlotTraces` is the trace loop, and
  `RadarTraces` is the script from mapping to traces.

The empty mapping is an error path (`Err(EmptySkills)`): the script takes row 0
by position, and that fails on an empty table.

Three points of the code decide what the model promises:

- `sort_values` (radar.py:50) uses the library's default sort, which is not
  stable. The model states only that the rows are sorted and a permutation of
  the input. Among skills with equal levels the order is left open, and so is
  which of the tied lowest skills is repeated as the closing row.
- The script builds the two-column table and then sorts it (radar.py:47-50).
  The model sorts the (skill, level) pairs first and then builds the rows
  from them (`Widen`). The two orders give the same rows, because the sort
  reads only the level and the order among ties is left open.
- `iloc[[0]]` on an empty table raises an index error (radar.py:60), so for an
  empty mapping the model returns `Err(EmptySkills)`.

## Model

| member | source | states |
|---|---|---|
| `Radar.Insert` | radar.py:50 | inserting a row into a table sorted by `MyLevel` keeps it sorted and adds exactly that row to its multiset of rows |
| `Radar.SortByLevel` | radar.py:47-51 | the sorted table is in non-decreasing order of `MyLevel` and is a permutation of the mapping's (skill, level) entries |
| `Radar.Widen` | radar.py:47-49 | one row per mapping entry, in order, with the entry's skill and level and no boundary cells yet |
| `Radar.SetColumn` | radar.py:55 | assigning a column changes no `Skills`/`MyLevel` cell and no row order, and sets that column to the same value in every row |
| `Radar.WithBoundaryColumns` | radar.py:54-55 | after one column per boundary, every row holds each boundary's threshold under that boundary's name. The `Skills`/`MyLevel` cells and the row order are unchanged |
| `Radar.BoundaryColumnKeys` | radar.py:54-55 | the boundary loop adds exactly the boundary names as new columns to every row |
| `Radar.AddBoundaryColumns` | radar.py:54-55 | the loop that sets one boundary column per iteration yields exactly the table `WithBoundaryColumns` describes |
| `Radar.CloseLoop` | radar.py:59-62 | an empty table is an error. Otherwise the result is the table followed by one extra row equal to its first row |
| `Radar.Prepare` | radar.py:47-62 | error exactly when the mapping is empty. Otherwise the result has (skills + 1) rows, and rows 0..n-1 are sorted by level and hold a permutation of the input entries. The last row equals row 0, and every row's boundary columns are exactly the boundary names, each holding its threshold |
| `Radar.PreparedColumns` | radar.py:54-62 | in the prepared table every boundary column is its threshold in every row, and the `MyLevel` and `Skills` columns end with their first value |
| `Radar.SingleSkill` | radar.py:47-62 | a one-skill mapping gives two identical rows holding that skill and level |
| `Radar.ClosingRowIsLowest` | radar.py:50-60 | the repeated closing row is one of the input entries, and no input level is below it |
| `Radar.ThreeSkillScenario` | radar.py:47-62 | with three skills, two of them below the third, the highest comes third. The other two fill rows 0 and 1 in some order, the closing row repeats row 0, and every row holds the single band's threshold |
| `Radar.TraceNames` | radar.py:94 | the traced names are the boundary names in insertion order followed by `MyLevel`; for usable boundaries `MyLevel` occurs exactly once, last, and the trace names are distinct |
| `Radar.OptionsFor` | radar.py:97-100 | a trace is unfilled exactly when it is the `MyLevel` trace. That trace has line width 4 and every other has width 1 |
| `Radar.ChartTraceOrder` | radar.py:39-43 | the chart's three bands have distinct names that are not table columns, and the traces are drawn in the order Basic, Full, Advanced, MyLevel |
| `Radar.PlotTraces` | radar.py:94-112 | one trace per boundary in insertion order, then the `MyLevel` trace. Each draws its own column against `Skills`: boundaries with the filled width-1 options, `MyLevel` with the unfilled width-4 options |
| `Radar.RadarTraces` | radar.py:47-112 | error exactly for an empty mapping. Otherwise the traces are named in boundary order then `MyLevel` and carry the options the style rule picks. Each has skills + 1 points and is closed, and each boundary trace has its threshold at every point. The `MyLevel` trace's radii are the `MyLevel` column of the prepared table, and every trace's angles are its `Skills` column |

## Left out

- Figure construction, layout size and margins, legend title, hover suppression and the PNG export to `radar_chart.png` (radar.py:79-91, 114-121). These are rendering and file I/O in the plotting library, with no logic of the script's own.
- The trace `mode = "lines"` (radar.py:107) is the same constant for every trace and is not a field of `Trace`.
- Levels and thresholds are `real` values that are only copied and compared. The script's float threshold 7.5 and the style opacities 0.5 and 1 are exact here. Floating-point behaviour is not modelled.
- The order among skills with equal levels is not modelled. The library's default sort does not promise stability, and the insertion sort standing in for it is used only through its sortedness and permutation contracts.
- The column order of the table (`Skills`, `MyLevel`, then the boundaries in insertion order) is not modelled: a row keeps its boundary cells in a map keyed by name, and nothing in the script depends on the column order.
- The table index and its reset after the append (radar.py:61) are not modelled: the table is a plain sequence of rows.
- The boundary names are required to be distinct and different from `Skills` and `MyLevel`. Dictionary keys are distinct anyway, and a boundary named like a skill-table column would overwrite that column. That overwrite is not modelled.
- The fourteen hard-coded skill entries (radar.py:21-36) are not instantiated. The mapping is a parameter, and every property holds for any mapping. The three hard-coded bands are instantiated in `ChartBoundaries`.
- The unused imports of `plotly.express` and `math` (radar.py:14, 17).
