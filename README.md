# APEX engineering sun avoidance — a Dafny model

Two scripts, `show_sun_avoidance.py` and `sun_avoidance.py`, compute the same thing for one UTC date at the APEX telescope site.
1. They build a table of the 1440 minutes of the day, starting at 00:00 UTC.
2. They ask the solar ephemeris for the Sun's elevation and azimuth at each minute.
3. They move azimuths above 180° into the negative half-turn.
4. They label each row with local civil time. The offset from UTC is an input in `show_sun_avoidance.py` and is fixed at −3 h in `sun_avoidance.py`.
5. They derive the maximum telescope elevation `max_El = 150 − elevation − 0`, where 0 is the tolerance.
6. They drop every row whose `max_El` exceeds 90°, by index label.

If no row is left, the scripts print that there is no elevation limit that day. Otherwise they plot the surviving `max_El` values and show the first and last local times left, and the smallest `max_El`:
- `show_sun_avoidance.py` truncates that value with `int()`. It draws the start, end and value on the figure and prints them, together with the UTC start and end.
- `sun_avoidance.py` draws the start, the end and the value, rounded to one decimal (`{:.1f}`), as text on the figure. It prints only the path of the saved plot.

The model has five modules, one file each:

- `Timeline` (`timeline.dfy`): instants are whole minutes since the epoch (UTC). Dates are day numbers. It holds the minute-frequency date range that starts a day.
- `Avoidance` (`avoidance.dfy`): the shared pipeline as pure definitions, with the lemmas about it:
  - `NormalizeAzimuth` and `MaxEl`;
  - the day's table before the drop (`Samples`);
  - the drop by label (`MaskedLabels`, `DropLabels`);
  - the rows that survive (`Window`);
  - the extrema (`MinMaxEl`, `MaxElevation`).
- `Frame` (`frame.dfy`): the table both scripts mutate, as a class `SunFrame`. Its columns (`utc`, `elevation`, `azimuth`, `clt`, `maxEl`) are `seq` fields. Each pandas step is proved against the pure definitions. The steps that walk a column are methods with a loop. `empty`, `first_valid_index` and `last_valid_index` are loop-free functions of the table:
  - column assignment;
  - the masked in-place azimuth update;
  - the masked index;
  - the in-place drop;
  - `empty`, `min`, `first_valid_index` and `last_valid_index`.
- `ShowSunAvoidance` (`show_sun_avoidance.dfy`) and `SunAvoidance` (`sun_avoidance.dfy`): each script's `main` as a method `Run`, its report as a datatype, and lemmas about what the report says about the day.

The solar ephemeris (`sun_pos`, backed by `ephem`) is a parameter `eph: Instant -> Position` in degrees. The model assumes its azimuth is in the [0, 360) convention that `az.norm` produces, but the type does not enforce it. Only the conditional ensures of `NormalizeAzimuth` and `SampleAtLimits` rely on that convention. Because it is a function, two queries at the same instant give the same position.

## Model

| member | source | states |
|---|---|---|
| `Timeline.DateRange` | show_sun_avoidance.py:74 | the range has exactly `periods` entries, starts at the given instant, and each later entry is one minute after its predecessor |
| `Timeline.OneMinuteStepsIncrease` | show_sun_avoidance.py:74 | a sequence that advances one minute per entry strictly increases, and its last entry is `|ts| − 1` minutes after its first |
| `Timeline.DayRangeIsDay` | sun_avoidance.py:56 | the 1440-entry range built for a date strictly increases, ends at 23:59, and holds exactly the minutes of that UTC day |
| `Avoidance.NormalizeAzimuth` | show_sun_avoidance.py:80 | the result is the azimuth or the azimuth minus 360 (the same direction); a raw azimuth in [0, 360) lands in (−180, 180]; values already in (−180, 180] are unchanged |
| `Avoidance.MaxEl` | show_sun_avoidance.py:84 | the limit is exactly 150 − elevation because the tolerance is 0; it is at most 90 exactly when the elevation is at least 60 |
| `Avoidance.Window` | sun_avoidance.py:68-69 | the surviving rows are never more numerous than the table's rows |
| `Avoidance.WindowSound` | show_sun_avoidance.py:87 | every surviving row is a row of the table and has `max_El ≤ 90` |
| `Avoidance.WindowComplete` | sun_avoidance.py:69 | every row of the table with `max_El ≤ 90` survives |
| `Avoidance.WindowKeepsOrder` | show_sun_avoidance.py:86-87 | if the table's local labels strictly increase, so do those of the surviving rows (relative order is kept) |
| `Avoidance.MaskedLabels` | show_sun_avoidance.py:87 | the dropped label set holds the label of every row with `max_El > 90`, and only such labels |
| `Avoidance.DropMaskedIsWindow` | show_sun_avoidance.py:86-87 | if labels are distinct (strictly increasing), dropping by the masked labels removes exactly the masked rows and leaves the window |
| `Avoidance.DropSeparatingLabels` | sun_avoidance.py:68-69 | dropping by any label set that contains the label of every masked row and of no retained row leaves exactly the window |
| `Avoidance.DropLabelsMembers` | show_sun_avoidance.py:87 | a row survives the drop by label exactly when it is a row of the table whose label is not in the set; every row carrying a dropped label goes, even when labels repeat |
| `Avoidance.MinMaxEl` | show_sun_avoidance.py:93 | the value is some row's `max_El` and no row's `max_El` is smaller |
| `Avoidance.MaxElevation` | sun_avoidance.py:86 | the value is some row's elevation and no row's elevation is larger |
| `Avoidance.SampleAtLimits` | show_sun_avoidance.py:78-84 | a row's local label is its UTC instant plus the offset; the limit applies to the row exactly when the Sun is at or above 60° then; an ephemeris azimuth in [0, 360) becomes one in (−180, 180] |
| `Avoidance.Samples` | show_sun_avoidance.py:74-84 | the day's table before the drop has one row per minute of the day, 1440 rows (`SamplesShape` states each row's contents) |
| `Avoidance.SamplesShape` | show_sun_avoidance.py:74-84 | the day's table has 1440 rows: it starts at 00:00 UTC of the date, rows are one minute apart and within the day, each local label is UTC plus the offset, each `max_El` is 150 − elevation from the ephemeris, and local labels strictly increase |
| `Avoidance.LabelsIncreaseOverDay` | show_sun_avoidance.py:82 | the local labels of the day's table strictly increase, so they are pairwise distinct |
| `Avoidance.WindowBounds` | show_sun_avoidance.py:100-101 | for a non-empty window with increasing labels, the first label is ≤ the last, and every row with `max_El ≤ 90` lies between them |
| `Avoidance.WindowMinimum` | sun_avoidance.py:86 | for a non-empty window, the smallest surviving `max_El` is 150 − the largest elevation of the whole table, and is ≤ 90 |
| `Avoidance.EmptyWindowIffSunLow` | show_sun_avoidance.py:89-90 | no row survives exactly when the Sun stays below 60° for every minute of the day (both directions) |
| `Avoidance.DayWindowInterval` | sun_avoidance.py:80-81 | a non-empty window's first and last rows are the first and last minutes of the day with the Sun at or above 60°, and their local labels are their UTC instants plus the offset |
| `Avoidance.DayWindowMinimum` | show_sun_avoidance.py:93 | for a non-empty window of the day, the smallest `max_El` is 150 − the day's highest solar elevation and is ≤ 90 |
| `Frame.SunFrame.constructor` | show_sun_avoidance.py:74-76 | the new table's `utc` column is the 1440-minute range of the date; no other column holds values yet |
| `Frame.SunFrame.ApplySunPos` | show_sun_avoidance.py:78-79 | each row's elevation and azimuth are the ephemeris values at that row's UTC instant; other columns are unchanged |
| `Frame.SunFrame.NormalizeAzimuths` | show_sun_avoidance.py:80 | the azimuth column is updated in place: each value becomes its normalised azimuth; other columns are unchanged |
| `Frame.SunFrame.AssignLocalTime` | show_sun_avoidance.py:82 | each row's local label is its UTC instant plus the offset in minutes; other columns are unchanged |
| `Frame.SunFrame.AssignMaxEl` | show_sun_avoidance.py:84 | each row's `max_El` is `MaxEl` of its elevation; other columns are unchanged |
| `Frame.SunFrame.Tabulate` | sun_avoidance.py:56-66 | after the columns are assigned in order, the table is exactly the day's samples for the date, offset and ephemeris |
| `Frame.SunFrame.MaskedIndex` | show_sun_avoidance.py:87 | returns the index labels of the rows with `max_El > 90`, all of which are in the index |
| `Frame.SunFrame.Drop` | show_sun_avoidance.py:87 | given labels that are all in the index, keeps exactly the rows whose label is not in the given set, in their order, in place |
| `Frame.SunFrame.DropUnlimited` | sun_avoidance.py:68-69 | given increasing labels, the table after the masked drop is exactly the window of the table before it |
| `Frame.SunFrame.IsEmpty` | show_sun_avoidance.py:89 | the table is empty exactly when it has no rows |
| `Frame.SunFrame.MaxElMin` | show_sun_avoidance.py:93 | returns a value of the `max_El` column that no other value is below, i.e. the window's `MinMaxEl` |
| `Frame.SunFrame.FirstValidIndex` | show_sun_avoidance.py:100 | returns a label of the table, and the earliest one when labels increase |
| `Frame.SunFrame.LastValidIndex` | show_sun_avoidance.py:101 | returns a label of the table, and the latest one when labels increase |
| `ShowSunAvoidance.Truncate` | show_sun_avoidance.py:93 | Python's `int()` on a real: truncation toward zero, the result within one unit of the input on the zero side |
| `ShowSunAvoidance.Summary` | show_sun_avoidance.py:89-120 | the "no elevation limit" report for the date is given exactly when nothing survives; otherwise the local start is not after the local end, and the reported maximum elevation does not exceed any non-negative surviving `max_El` |
| `ShowSunAvoidance.Run` | show_sun_avoidance.py:60-124 | the table returned is the window of the day's samples for the given offset, and the report is the summary of it; the first/last/min are read only when the table is non-empty |
| `ShowSunAvoidance.NoLimitIffSunLow` | show_sun_avoidance.py:89-90 | "No elevation limit" is reported exactly when the Sun stays below 60° all UTC day |
| `ShowSunAvoidance.ReportedInterval` | show_sun_avoidance.py:100-115 | the reported local start and end equal the reported UTC start and end plus the offset, and the UTC start and end are the first and last minutes of the day with the Sun at or above 60° |
| `ShowSunAvoidance.ReportedMaxEl` | show_sun_avoidance.py:93 | the reported maximum elevation is `int()` of 150 − the day's highest solar elevation, and is ≤ 90 |
| `SunAvoidance.Summary` | sun_avoidance.py:71-86 | the "no elevation limit" report is given exactly when nothing survives; otherwise the local start is not after the local end, and the reported maximum elevation is the exact minimum surviving `max_El` |
| `SunAvoidance.Run` | sun_avoidance.py:42-94 | the report is the summary of the window of the day's samples labelled three hours behind UTC; the first/last/min are read only when the table is non-empty |
| `SunAvoidance.LocalTimeThreeHoursBehind` | sun_avoidance.py:64 | every row's local label is its UTC instant minus 180 minutes |
| `SunAvoidance.NoLimitIffSunLow` | sun_avoidance.py:71-72 | "No elevation limit" is reported exactly when the Sun stays below 60° all UTC day |
| `SunAvoidance.ReportedInterval` | sun_avoidance.py:80-81 | the reported local start and end, moved three hours forward, are the first and last minutes of the UTC day with the Sun at or above 60° |
| `SunAvoidance.ReportedMaxEl` | sun_avoidance.py:86 | the reported maximum elevation is exactly 150 − the day's highest solar elevation, not truncated, and is ≤ 90 |

## Left out

- The `ephem` solar ephemeris is not modelled: refraction, pressure from altitude, the observer's site constants and the radian-to-degree scaling by `np.pi`. It is a parameter that gives positions in degrees. Nothing constrains it beyond its type.
- `sun_pos` sets `observer.date` on the shared observer. Each query passes its own instant, so the model omits that mutation.
- `get_utc_offset`, which scrapes a web page, is not modelled. Neither is `parse_inputs` with argparse, nor the parsing of the `YYYY-MM-DD` date and of the offset string by pandas. The model takes the date as a day number and the offset as a signed whole number of minutes, so offsets finer than a minute are not representable.
- Plotting, `ensure_dir`, `savefig`, `os.system('display …')`, console printing and `strftime("%H:%M")` formatting are not modelled. A report carries instants and the elevation value, not the printed strings.
- SunAvoidance.Summary: it carries the exact minimum. It does not model the `{:.1f}` rounding to one decimal that is applied when the value is drawn as text on the figure.
- Floating point is not modelled: angles are Dafny reals. pandas NaN values cannot arise in the model, so `first_valid_index`/`last_valid_index` are the first and last labels.
- After `reset_index`, the table's implicit integer index is not a separate column. The local-time column plays the role of the index once it is set.
- `show_sun_avoidance.py` returns the DataFrame; `ShowSunAvoidance.Run` returns the table object. `sun_avoidance.py` returns nothing. `SunAvoidance.Run` returns what the script displays: the no-limit outcome it prints, or the start, end and minimum it draws on the figure, with the minimum not rounded.
- Frame.SunFrame.Drop: requires every label to drop to be in the index. pandas `drop` raises `KeyError` for an absent label, and the model does not represent that exception. The only caller passes labels taken from the table itself (`MaskedIndex`).
- Timeline.DateRange: dates are unbounded day numbers. `show_sun_avoidance.py:74` builds the range at pandas' default nanosecond resolution, which raises `OutOfBoundsDatetime` for dates outside about 1677 to 2262. The model does not represent that failure. `sun_avoidance.py:56` builds it at second resolution, whose range is far wider.
- Other versions of the script use a zenith-distance limit formula, `90 − (30 − zenith distance)`. It is not part of this model: both files here use `150 − elevation`.
- For a day with a single elevation peak, the surviving minutes form one contiguous block. That is not proved here. The lemmas show only that every minute with the Sun at or above 60° lies between the reported start and end, and that both ends are such minutes.
