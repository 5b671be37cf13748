# ERCOT real-time price text bot — a Dafny model of its pipeline

The bot fetches the day's ERCOT real-time settlement point price (SPP) page.
It keeps the table rows stamped between 06:15 and 22:00. It averages the
prices of seven curated hub zones and texts the report to its subscribers.
This project models the pure part of that pipeline:

- `SourceLocator` (`source_locator.dfy`): the day's page address. The date is a
  parameter and is rendered as zero-padded `YYYYMMDD` between a fixed prefix
  and `_real_time_spp.html`. `ParseStamp` reads the stamp back.
- `Clock` (`clock.dfy`): the `%H:%M` time format, written out from the grammar
  Python's `strptime` uses for it. An hour is one digit, or two digits up to
  23. A minute is one digit, or two digits whose first is 0–5. The whole cell
  must be consumed. Also the closed window [06:15, 22:00], held as minutes
  since midnight ([375, 1320]).
- `Series` (`series.dfy`): the row filter and series builder of `fetch_spp`,
  starting from header cells and per-row cell strings. `BuildSeries` is the
  fold over the body rows. `CollectSeries` is the source's loop, statement by
  statement. `ZoneValues` and `ColumnValues` read the same data column by
  column and serve as the reference definitions. The cell-to-number
  conversion (`float`) is a parameter `parse: string -> Option<real>`.
- `Formatter` (`formatter.dfy`): `format_message`. The report is a sequence of
  `Line` values: `Header`, `ZoneAvg`, `ZoneNoData`, `Blank`, `Overall` or
  `Warning`. `FormatMessage` is the source's loop. `BuildReport` is the
  specification it meets.
- `Bot` (`bot.dfy`): one run. The fetch is a parameter that returns either
  the table's cells or one of three errors: transport failure, HTTP status,
  or table missing. Any error gives the fallback apology with the day's
  address.
- `Stats`, `Digits` and `Wrappers` hold sums and means, zero-padded digit
  strings, and `Option`/`Result`.

Duplicate zone headers behave as in the source. Both columns append to the
one shared series. The lemmas that read a single column (`KeptRowCell`,
`SeriesIsColumn`) assume distinct zone names. The general per-zone lemma
(`SeriesAreZoneValues`) does not.

A page without the price table raises no error of its own in the code.
`find` returns `None`, the next call on it fails, and the broad handler in
`main` catches that. The model gives the fetch a `TableMissing` outcome, and it
ends in the same fallback.

A row with no cells never contributes, even when the header row is empty too.
Its cell count then matches, but reading its first cell fails inside the
`try`, so the row is skipped. `Series.Kept` requires a non-empty row for that
reason.

## Model

| member | source | states |
|---|---|---|
| SourceLocator.TodayUrl | main.py:10-12 | The address is the fixed prefix, then 8 characters that read back as the given date, then `_real_time_spp.html`; nothing else. |
| SourceLocator.Stamp | main.py:11 | The `%Y%m%d` stamp is 8 decimal digits: the first four denote the year, the next two the month, the last two the day. |
| SourceLocator.StampRoundTrip | main.py:11 | The `%Y%m%d` stamp of every valid date parses back to that same date. |
| SourceLocator.ParseStampSound | main.py:11 | Any 8-character string that parses as a date is exactly that date's zero-padded stamp, so a stamp has one spelling. |
| SourceLocator.TodayUrlInjective | main.py:10-12 | Different days always get different addresses. |
| Digits.ValueOfPad | main.py:11 | Zero-padding a number that fits the width and reading it back gives the number. |
| Digits.PadOfValue | main.py:11 | Re-padding the value of a digit string to its own length gives the same string back. |
| Clock.ParseClock | main.py:27-30 | A cell accepted as `%H:%M` has 3 to 5 characters and denotes a minute of the day (below 1440). Which cells it accepts, and as which time, is stated by `Clock.ClockFields`. |
| Clock.ClockFields | main.py:28 | A cell of any length is accepted as time t exactly when t is a minute of the day and the cell is an hour field and a minute field of one or two digits around a colon, whose values are t's hour and minute. |
| Clock.ClockRoundTrip | main.py:28 | Every time of day written as `HH:MM` is accepted and read as that time. |
| Clock.CanonicalClock | main.py:28 | A 5-character cell is accepted as time t exactly when it is the two-digit `HH:MM` rendering of t. |
| Clock.WindowStartIsClosed | main.py:31 | 06:15 is accepted and lies inside the window; 06:14 is accepted and lies outside it. |
| Clock.WindowEndIsClosed | main.py:31 | 22:00 is accepted and lies inside the window; 22:01 is accepted and lies outside it. |
| Series.EmptySeries | main.py:21-22 | Before any row, there is exactly one series per zone header, and every series is empty. |
| Series.InitialSeries | main.py:20-22 | With no rows, the keys are exactly the headers after the first, and each series is empty. |
| Series.ZoneIsHeader | main.py:21 | A name is a zone exactly when it is one of the headers after the first. |
| Series.BodyRows | main.py:23 | The body rows are all table rows except the first, the header row. |
| Series.KeptSpelledTime | main.py:25-31 | A row is kept exactly when it has one cell per header and its first cell spells, as `%H:%M`, a time from 06:15 through 22:00. |
| Series.ProcessRow | main.py:24-34 | A row with the wrong cell count, a first cell that is not a time, or a time outside the window leaves the map unchanged; no row adds or removes keys. |
| Series.AppendCells | main.py:32-34 | Walking zones and cells pairwise adds no key and extends each zone's series by exactly that row's parsed cells for the zone, after what it held before. |
| Series.KeptRowCell | main.py:32-34 | In a kept row, zone j gains cell j's number when it parses and nothing when it does not; the other cells are appended regardless. |
| Series.BuildSeries | main.py:20-35 | The finished map has exactly the zone headers as keys, whatever the rows. |
| Series.SeriesAreZoneValues | main.py:20-35 | For every zone, the map-building loop yields the column-wise reference: the contributions of the kept rows, in row order. |
| Series.SeriesIsColumn | main.py:23-34 | With distinct zone names, zone j's series is the parsed cells of column j over the kept rows, in document order. |
| Series.ZoneValuesConcat | main.py:23 | Reading rows in two batches concatenates the two batches' values in order. |
| Series.SkippedRowAddsNothing | main.py:25-31 | Inserting a skipped row anywhere in the table changes no series. |
| Series.SeriesKeepRowOrder | main.py:23-34 | Later rows only extend a series: what earlier rows contributed stays as its prefix. |
| Series.AppendRow | main.py:32-34 | The inner loop over zones and cells, stopping at the shorter as `zip` does, appends exactly what the pairwise walk specifies. |
| Series.CollectSeries | main.py:20-35 | The source's nested loop computes the same map as the row fold, with the zone headers as its keys. |
| Series.FetchSeries | main.py:14-35 | The fetch step's map has the zone keys, and each zone holds its column-wise values over the body rows. |
| Series.ExampleTable | main.py:23-34 | In a table with a 10:00, a 23:00 and an 11:30 row, HB_NORTH gets [50.0] and HB_SOUTH gets [60.0, 40.0]: the 23:00 row is dropped and an `N/A` cell drops alone. |
| Stats.Mean | main.py:48 | The mean times the count is the sum. |
| Stats.SumConcat | main.py:50 | The sum of a concatenation is the sum of its parts. |
| Stats.MeanBounds | main.py:48 | A mean lies within the range of the values it averages. |
| Formatter.BuildReport | main.py:39-57 | A report is the header, one line per zone in table order, a blank line, then one final line. A zone gets no-data exactly when its series is missing or empty; otherwise it gets its mean. The final line is the warning exactly when every zone is empty; otherwise it is the mean of the pooled values. |
| Formatter.ReportLines | main.py:39-57 | The report for the curated table always has 7 + 3 lines. |
| Formatter.ZoneLinesAt | main.py:45-52 | The i-th zone line is the line of the i-th zone in the table. |
| Formatter.FormatLines | main.py:39-57 | The report loop over a zone table, with its all-values accumulator, produces exactly the specified report for that table. |
| Formatter.FormatMessage | main.py:37-58 | The source's loop and the all-values accumulator produce exactly the specified report for the seven curated zones, in the source's order. |
| Formatter.PoolEmptyIff | main.py:50-53 | The pooled values are empty exactly when every pooled zone's series is empty, so no division by zero can happen. |
| Formatter.PoolSnoc | main.py:50 | Pooling one more zone appends its values at the end. |
| Formatter.PoolIsWeighted | main.py:50-54 | The pool's sum is the sum of each zone's mean times its count, and the pool's length is the sum of the counts. |
| Formatter.OverallIsValueWeighted | main.py:53-55 | The overall figure is the count-weighted mean of the curated zones' means. |
| Formatter.OverallIsNotMeanOfMeans | main.py:44-55 | With one value of 0 for SOUTH and two values of 3 for NORTH, the overall line is 2 and differs from the overall line the mean of the two zone means would give. |
| Formatter.OnlyCuratedZonesMatter | main.py:40-46 | Two series maps that agree on the curated zones give identical reports. |
| Formatter.NonCuratedColumnIgnored | main.py:40-46 | Adding or replacing a non-curated zone's series leaves the report unchanged. |
| Formatter.PoolBounds | main.py:50 | Every pooled value is bounded by the bounds of the curated series. |
| Formatter.OverallWithinBounds | main.py:53-55 | When every curated price lies in [lo, hi], so does the overall figure. |
| Bot.FallbackText | main.py:75-76 | The fallback text is the apology followed by the day's address, whose embedded stamp reads back as the run's date. |
| Bot.Run | main.py:69-76 | The fallback is sent exactly when fetching the day's address fails, and it is that day's fallback text. Otherwise the message is the report specified for the series built from the fetched table: 10 lines, opening with the run's date. |
| Bot.RunReportsColumnMean | main.py:14-52 | End to end, with distinct columns: a curated zone's line is the mean of its column's parsed cells over the kept body rows, or no-data when there are none. |
| Bot.RunWithoutCuratedColumns | main.py:46-57 | End to end: a table with no curated column yields no-data for all seven zones and the warning line. |

## Left out

- HTTP fetch, the 10-second timeout, `raise_for_status` and locating the table with BeautifulSoup (main.py:15-20, 23-24). These are network calls and a foreign library. `Bot.Run` takes the fetch as a parameter returning the header and row cells, already stripped, or an error.
- Sending through Twilio, credentials from environment variables, and loading the subscribers file (main.py:5-8, 60-67, 77-78). These are external I/O. The model ends at the message a run would send to every subscriber.
- Reading the process clock (main.py:11, 38). The run's date is a parameter. The source reads the clock separately for the address, the report header and the fallback link. A run that crosses midnight can therefore mix two dates; the model uses one.
- Formatter.BuildReport: the zone and overall means are exact reals. The source rounds each to two decimals with `round` and renders `:.2f` with the display name padded to 7 characters. That floating-point and text formatting is not modelled.
- Series.BuildSeries: the cell-to-number conversion is an abstract parameter. Python's `float` grammar (signs, exponents, `nan`, `inf`, surrounding whitespace) is not modelled.
- Clock.ParseClock: only ASCII digits are modelled. Python's `\d` in `strptime` also matches other Unicode decimal digits.
- SourceLocator.Stamp: years below 1000 are padded to four digits, as current CPython does on Linux. Older platform `strftime` implementations print such years unpadded. Dates the bot can run on are not affected.
- The generic `except Exception` in `main` (main.py:74) also catches failures of float formatting and of the report itself. The model routes only the three fetch outcomes to the fallback, since nothing else in the modelled pipeline can fail.
