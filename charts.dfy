/** Chart descriptors: the data the source hands to the plotting library,
    without themes, fonts or axis ranges. Line numbers in the comments
    below are those of `data_processing.py`. */
module Charts {
  import opened Zones
  import opened Records
  import opened DurationText

  datatype TextPosition = Inside | Outside

  /** The zone colour list, written out both for the bar charts (line 84)
      and for the combined chart (line 121). */
  const ZoneColors: seq<string> := ["gray", "blue", "green", "yellow", "orange", "red"]

  /** A horizontal bar chart: one bar per zone, its length a duration in
      seconds, its text that duration printed, and where the text goes. */
  datatype BarChart = BarChart(
    title: string,
    axisLabel: string,
    zones: seq<string>,
    durations: seq<nat>,
    text: seq<string>,
    positions: seq<TextPosition>,
    colors: seq<string>)

  /** The three lines over time; the power line is filled with one colour
      per point. */
  datatype CombinedChart = CombinedChart(
    timestamps: seq<int>,
    power: seq<int>,
    heartRate: seq<int>,
    cadence: seq<int>,
    powerColors: seq<string>)

  /** Python's `max` over a non-empty list. */
  function Max(s: seq<nat>): (m: nat)
    requires |s| > 0
    ensures m in s
    ensures forall k :: 0 <= k < |s| ==> s[k] <= m
  {
    if |s| == 1 then s[0]
    else
      var r := Max(s[1..]);
      if s[0] >= r then s[0] else r
  }

  /** Lines 85-88: one position per bar, `Outside` exactly when the bar is
      shorter than an eighth of the longest bar. */
  predicate PlacedByEighth(durations: seq<nat>, positions: seq<TextPosition>) {
    && |positions| == |durations|
    && forall i :: 0 <= i < |durations| ==>
         (positions[i] == Outside <==> 8 * durations[i] < Max(durations))
  }

  /** Lines 80-115. The label of a bar goes outside exactly when the bar is
      shorter than an eighth of the longest one (lines 85-88), and its text
      reads back as the bar's duration (line 99). */
  method GenerateBarChart(durations: seq<nat>, zones: seq<string>, title: string, axisLabel: string)
    returns (chart: BarChart)
    ensures chart.title == title && chart.axisLabel == axisLabel
    ensures chart.zones == zones && chart.durations == durations
    ensures PlacedByEighth(durations, chart.positions)
    ensures |chart.text| == |durations|
    ensures forall i :: 0 <= i < |durations| ==>
      ParseDuration(chart.text[i]) == Some(durations[i]) && chart.text[i] == FormatDuration(durations[i])
    ensures chart.colors == ZoneColors
  {
    var positions := seq(|durations|, _ => Inside);
    for i := 0 to |durations|
      invariant |positions| == |durations|
      invariant forall k :: 0 <= k < i ==> (positions[k] == Outside <==> 8 * durations[k] < Max(durations))
      invariant forall k :: i <= k < |durations| ==> positions[k] == Inside
    {
      if 8 * durations[i] < Max(durations) {
        positions := positions[i := Outside];
      }
    }
    var text := seq(|durations|, i requires 0 <= i < |durations| => FormatDuration(durations[i]));
    forall i | 0 <= i < |durations| ensures ParseDuration(text[i]) == Some(durations[i]) {
      ParseFormatDuration(durations[i]);
    }
    chart := BarChart(title, axisLabel, zones, durations, text, positions, ZoneColors);
  }

  /** A chart with any time in it has at least one label inside its bar:
      the longest bar's. */
  lemma LongestLabelInside(durations: seq<nat>, positions: seq<TextPosition>)
    requires PlacedByEighth(durations, positions)
    requires |durations| > 0 && Max(durations) > 0
    ensures exists k :: 0 <= k < |positions| && positions[k] == Inside && durations[k] == Max(durations)
  {
    var k :| 0 <= k < |durations| && durations[k] == Max(durations);
    assert positions[k] == Inside;
  }

  /** Placement follows bar length: a bar at least as long as a bar whose
      label is inside has its label inside too. */
  lemma InsideIsUpwardClosed(durations: seq<nat>, positions: seq<TextPosition>, i: nat, j: nat)
    requires PlacedByEighth(durations, positions)
    requires i < |durations| && j < |durations|
    requires durations[i] <= durations[j] && positions[i] == Inside
    ensures positions[j] == Inside
  {
  }

  /** Lines 117-136: the power line's colour at each point is the colour at
      the digitize index of its power against the power thresholds (the
      thresholds here are scaled by 100, so the power is too). */
  function GenerateCombinedChart(samples: seq<Sample>, thresholds: seq<int>): (chart: CombinedChart)
    requires |thresholds| < |ZoneColors|
    requires NonDecreasing(thresholds) || NonIncreasing(thresholds)
    ensures |chart.timestamps| == |chart.power| == |chart.heartRate| == |chart.cadence| == |samples|
    ensures |chart.powerColors| == |samples|
    ensures forall i :: 0 <= i < |samples| ==>
      && chart.timestamps[i] == samples[i].timestamp
      && chart.power[i] == samples[i].power
      && chart.heartRate[i] == samples[i].heartRate
      && chart.cadence[i] == samples[i].cadence
      && chart.powerColors[i] in ZoneColors
  {
    CombinedChart(
      seq(|samples|, i requires 0 <= i < |samples| => samples[i].timestamp),
      seq(|samples|, i requires 0 <= i < |samples| => samples[i].power),
      seq(|samples|, i requires 0 <= i < |samples| => samples[i].heartRate),
      seq(|samples|, i requires 0 <= i < |samples| => samples[i].cadence),
      seq(|samples|, i requires 0 <= i < |samples| => ZoneColors[Digitize(thresholds, 100 * samples[i].power)]))
  }
}
