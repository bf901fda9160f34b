# Power and heart-rate zone analysis of a cycling activity

This project models the data-processing core of a small dashboard that reads
a cycling activity file (FIT format) and reports how long the rider spent in
each training zone. `process_fit_file` in `data_processing.py` does the work:

1. It flattens every decoded `record` message into a name→value dictionary, keeping file order.
2. It classifies each sample's power against five thresholds: 55%, 75%, 90%,
   105% and 120% of the functional threshold power (FTP). It does the same for
   heart rate against 50%, 65%, 80%, 85% and 92% of a maximum heart rate. Both
   use numpy's `digitize`.
3. It counts the samples per zone and reindexes the counts onto the full list
   of zones, with zero for empty zones.
4. It builds the chart descriptors:
   - a power bar chart;
   - a heart-rate bar chart without its `Resting` zone;
   - a power / heart-rate / cadence line chart whose power fill is coloured
     point by point by power zone.

Modules, one per component:

- `Records` (`records.dfy`) holds the record flattening loop as a method over
  already-decoded messages. It also defines the `Sample` row the rest reads.
- `Zones` (`zones.dfy`) defines `digitize` in both numpy modes:
  - For non-decreasing bins it returns the number of bins at or below the value.
  - For non-increasing bins (a negative FTP) it returns the number of bins above the value.

  It also holds the two threshold tables and the zone labels. Fractions are
  whole percentages. A threshold `f * ref` is the integer `pct * ref`, and a
  value `x` is compared as `100 * x`, so everything is integer arithmetic.
- `Aggregation` (`aggregation.dfy`) models `value_counts` and
  `reindex(..., fill_value=0)`. One sample counts as one second.
- `DurationText` (`duration_text.dfy`) models `str(timedelta(seconds=n))` for
  whole seconds, with a parser that reads the text back.
- `Charts` (`charts.dfy`) models `generate_bar_chart` as a method. Its loop
  fills the label-position list. The combined chart's colour list is a function.
- `Pipeline` (`pipeline.dfy`) models `process_fit_file` from the sample table
  to the three chart descriptors.

Three behaviours of the code worth knowing:

- **Values on a bound.** `digitize` with `right=False` puts a value that sits
  exactly on a bound in the higher zone
  (`Zones.PowerZoneAtBound`, `Zones.DigitizeAtBound`). This holds for the
  exact bounds. The floating-point bounds the code computes can sit just
  above them (see "## Left out").
- **Maximum heart rate.** Line 48 rebinds `max_heart_rate` to 186, so the
  caller's maximum heart rate has no effect (`Zones.HeartRateZoneTable` holds
  for every argument).
- **Bar colours.** The bar charts always get the six-colour list. The
  five-bar heart-rate chart therefore shows its `Zone 1 ` in the first colour,
  gray (`Charts.GenerateBarChart`).

## Model

| member | source | states |
|---|---|---|
| `Records.ExtractRecords` | data_processing.py:18-23 | one dictionary per message, in message order, each the result of assigning that message's fields in turn |
| `Records.RecordOf` | data_processing.py:20-22 | a record's keys are exactly the field names of its message |
| `Records.RecordOfLastWins` | data_processing.py:21-22 | a name maps to the value of the last field with that name (a later field overwrites an earlier one) |
| `Zones.Digitize` | data_processing.py:35 | the index is at most `len(bins)`; for non-decreasing bins (all-equal included) it is the increasing bracket `bins[i-1] <= x < bins[i]`, for other (non-increasing) bins the decreasing bracket `bins[i-1] > x >= bins[i]`, numpy's two modes |
| `Zones.DigitizeIsBracket` | data_processing.py:35 | for increasing bins, the digitize index `i` satisfies `bins[i-1] <= x < bins[i]`; it is the only index that does |
| `Zones.DigitizeIsDescendingBracket` | data_processing.py:35 | for decreasing (not all-equal) bins, the decreasing bracket holds at exactly one index, the digitize index |
| `Zones.DigitizeAtBound` | data_processing.py:35 | a value equal to a strictly increasing bin `k` gets index `k + 1` (right=False) |
| `Zones.Thresholds` | data_processing.py:31 | `np.array(fractions) * reference`: one bin per fraction, the k-th being fraction k (as a percentage) times the reference |
| `Zones.ThresholdsOrdered` | data_processing.py:31 | fractions times a positive FTP are strictly increasing; times zero they are equal; times a negative FTP they strictly decrease, which is numpy's other mode |
| `Zones.PowerThresholds` | data_processing.py:31 | the power bins number five and are monotone for every FTP, so digitize accepts them |
| `Zones.PowerZoneIndex` | data_processing.py:31-35 | the power zone index is below 6, so it always names one of the six power zone labels |
| `Zones.PowerZoneOfBracket` | data_processing.py:31-35 | with FTP >= 0, a power is in zone k exactly when `pct[k-1]*FTP <= 100*power < pct[k]*FTP` (open at both ends) |
| `Zones.PowerZoneAtBound` | data_processing.py:31-35 | with FTP > 0, a power exactly on the k-th bound is in zone k + 1 |
| `Zones.PowerZoneMonotone` | data_processing.py:31-35 | with FTP >= 0, a larger power never gets a lower zone |
| `Zones.PowerZoneAntitoneBelowZero` | data_processing.py:31-35 | with a negative FTP (decreasing bins), a larger power never gets a higher zone |
| `Zones.HeartRateThresholds` | data_processing.py:48-49 | the heart-rate bins number five and strictly increase |
| `Zones.HeartRateZoneIndex` | data_processing.py:48-53 | the heart-rate zone index is below 6, so it names one of the six heart-rate labels |
| `Zones.HeartRateZoneTable` | data_processing.py:48-53 | for every maximum-heart-rate argument, the zone is the count of the bounds 93, 121, 149, 159, 172 bpm that the heart rate reaches (the 186 bpm table) |
| `Aggregation.Occurrences` | data_processing.py:40 | a label's count is at most the number of labels, and zero exactly when the label is absent |
| `Aggregation.ValueCounts` | data_processing.py:40 | `value_counts` has a key for exactly the labels that occur, each with its number of occurrences (> 0) |
| `Aggregation.Reindex` | data_processing.py:41 | `reindex(zones, fill_value=0)`: one entry per zone in the given order, the zone's count when it has one and 0 otherwise |
| `Aggregation.ZoneSummary` | data_processing.py:39-41 | the summary has one entry per canonical zone, in canonical order, equal to that zone's number of labels (0 for unused zones) |
| `Aggregation.SumOfSummary` | data_processing.py:40-41 | the summary's total is the number of labels that are canonical zones, zone by zone |
| `Aggregation.SummaryTotal` | data_processing.py:35-41 | if every label is one of the distinct zones, the summary adds up to the number of samples: nothing is lost or counted twice |
| `DurationText.FormatDuration` | data_processing.py:99 | `str(timedelta(seconds=n))` for whole seconds: `H:MM:SS`, with a `N day, ` or `N days, ` prefix from one day on; the text is at least `0:00:00` long, and `ParseFormatDuration` reads it back |
| `DurationText.DayPrefixIffOneDay` | data_processing.py:99 | the text holds a space, the one in its day prefix, exactly when the duration reaches one day |
| `DurationText.ParseDigitsOfDigits` | data_processing.py:99 | the hour and day numbers printed in decimal read back as themselves |
| `DurationText.ParseClockOfClock` | data_processing.py:99 | the `H:MM:SS` part of a duration below one day reads back as that number of seconds |
| `DurationText.ParseFormatDuration` | data_processing.py:99 | the bar text of any whole number of seconds, with its day prefix, reads back as exactly that number |
| `DurationText.FormatDurationInjective` | data_processing.py:99 | two different durations never print the same text |
| `Charts.Max` | data_processing.py:87 | `max` of the bar lengths is one of them and no bar is longer |
| `Charts.GenerateBarChart` | data_processing.py:80-115 | bars and zones are passed through and the six-colour list is attached; the position list follows the one-eighth rule (`PlacedByEighth`): one entry per bar, `outside` exactly when the bar is below one eighth of the longest bar; each text reads back as its bar's duration |
| `Charts.LongestLabelInside` | data_processing.py:85-88 | for any position list placed by the one-eighth rule, a chart with some time in it keeps the longest bar's label inside |
| `Charts.InsideIsUpwardClosed` | data_processing.py:85-88 | for any position list placed by the one-eighth rule, a bar at least as long as a bar with an inside label has its label inside too |
| `Charts.GenerateCombinedChart` | data_processing.py:117-136 | point i of the lines carries sample i's timestamp, power, heart rate and cadence; there is one power colour per sample, each from the zone colour list |
| `Pipeline.PowerZoneColumn` | data_processing.py:35 | one power zone label per sample, each a canonical power zone |
| `Pipeline.HeartRateZoneColumn` | data_processing.py:53 | one heart-rate zone label per sample, each a canonical heart-rate zone |
| `Pipeline.ProcessFitFile` | data_processing.py:10-78 | the power chart is titled "Time Spent in Each Power Zone" and the heart-rate chart "Time Spent in Each Heart Rate Zone", both with axis label "Minutes". The power chart has the six canonical zones and the zone summary, whose total is the number of samples. The heart-rate chart has the summary without `Resting`, and that total plus the `Resting` count is the number of samples. Both bar charts carry the six-colour list, follow the one-eighth placement rule, and print each bar as `FormatDuration` of its seconds. Point i of the combined chart carries sample i's timestamp, power, heart rate and cadence, and its power colour is the colour at i's power zone index |
| `Pipeline.ColorMatchesZone` | data_processing.py:121-128 | a sample is in power zone k exactly when its combined-chart point gets colour k |

## Left out

- Decoding the FIT file (`FitFile`, `get_messages`, lines 15 and 19) is a
  foreign library. A message is given as its already-decoded (name, value) fields.
- Turning the record dictionaries into a table (`pd.DataFrame`, line 26) and
  `pd.to_datetime` (line 27) are library behaviour. `Pipeline.ProcessFitFile`
  takes the table as a sequence of `Sample` rows, with timestamps as integers.
- Missing metric values are not modelled. pandas fills an absent power or heart
  rate with NaN, and a column absent from every record raises `KeyError`. Every
  `Sample` here carries all its metrics. The code has no step that drops missing
  values (line 54 is commented out), so what `digitize` makes of a NaN is not
  captured.
- Floating-point thresholds are replaced by exact arithmetic. The source
  multiplies binary fractions by FTP in floating point. The model compares
  `100 * value` with `pct * reference` exactly, so a float product that rounds
  just off a whole value classifies a boundary sample differently. For example,
  `0.55 * 100` evaluates to `55.00000000000001`. With FTP 100, a 55 W sample is
  therefore `Zone 1 ` in the code. The model puts it in `Zone 2 `
  (`Zones.PowerZoneAtBound(55, 100, 0)`). FTP 180, 200, 220 and 340 do the same
  at the 55% bound. `Zones.PowerZoneAtBound` and the "Values on a bound" note
  describe exact bounds.
- Power, heart rate and FTP are integers here. The form inputs could be
  fractional.
- Durations are whole seconds. The source divides counts by 60 to plot minutes
  and multiplies by 60 again for the text. The model keeps seconds. Comparing
  `count/60` with `max/60/8` becomes the exact `8 * count < max`. Sub-second
  text (`.000001`) that float rounding could add to `str(timedelta)` is not modelled.
- `value_counts().sort_index()` sorts the labels first. That order is
  discarded by the `reindex` that follows, so it is not modelled.
- The cadence histogram (lines 61-73) only passes the cadence column to the
  plotting library.
- Plotly titles' fonts, themes, axis settings, bar outline styling and the
  gradient rendering (lines 90-114 and 123-147) are rendering only. The chart
  descriptors keep the data, titles, texts, positions and colours.
- The Dash page and server (`app.py`) and the upload callback with its base64
  decoding and catch-all error message (`callbacks.py`) are UI plumbing.
- `Charts.GenerateCombinedChart`: it states that every colour comes from the
  colour list. Which colour each point gets is stated by
  `Pipeline.ProcessFitFile` and `Pipeline.ColorMatchesZone` for the power
  thresholds the source passes.
- `Pipeline.ProcessFitFile`: does not model the failure on a file with no
  `record` messages. There `pd.DataFrame([])` has no columns, so
  `df['timestamp']` at line 27 raises `KeyError`. The model takes that file as
  an empty sample table and returns three charts whose durations are all zero.
