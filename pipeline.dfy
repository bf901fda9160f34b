/** `process_fit_file`: classify every sample twice, aggregate time in zone
    for each scheme, and build the power bar chart, the heart-rate bar chart
    without its `Resting` zone, and the combined chart. The input is the
    sample table the source builds from the extracted records. Line
    numbers in the comments below are those of `data_processing.py`. */
module Pipeline {
  import opened Zones
  import opened Records
  import opened Aggregation
  import opened Charts
  import opened DurationText

  /** The `zone` column (line 35). */
  function PowerZoneColumn(samples: seq<Sample>, ftp: int): (labels: seq<string>)
    ensures |labels| == |samples|
    ensures forall i :: 0 <= i < |samples| ==> labels[i] in PowerZones
  {
    seq(|samples|, i requires 0 <= i < |samples| => PowerZones[PowerZoneIndex(samples[i].power, ftp)])
  }

  /** The `HR_zone` column (line 53). */
  function HeartRateZoneColumn(samples: seq<Sample>, maxHeartRate: int): (labels: seq<string>)
    ensures |labels| == |samples|
    ensures forall i :: 0 <= i < |samples| ==> labels[i] in HeartRateZones
  {
    seq(|samples|, i requires 0 <= i < |samples| =>
      HeartRateZones[HeartRateZoneIndex(samples[i].heartRate, maxHeartRate)])
  }

  lemma ZoneListsDistinct()
    ensures Distinct(PowerZones) && Distinct(HeartRateZones)
  {
  }

  /** Lines 10-78, without the cadence histogram. */
  method ProcessFitFile(samples: seq<Sample>, ftp: int, maxHeartRate: int)
    returns (fig: BarChart, figHR: BarChart, figAll: CombinedChart)
    // power: one bar per canonical zone, every sample counted exactly once
    ensures fig.title == "Time Spent in Each Power Zone" && fig.axisLabel == "Minutes"
    ensures fig.zones == PowerZones
    ensures fig.durations == ZoneSummary(PowerZoneColumn(samples, ftp), PowerZones)
    ensures Sum(fig.durations) == |samples|
    ensures fig.colors == ZoneColors && PlacedByEighth(fig.durations, fig.positions)
    ensures |fig.text| == |fig.durations| &&
      forall i :: 0 <= i < |fig.durations| ==> fig.text[i] == FormatDuration(fig.durations[i])
    // heart rate: the summary without its first (Resting) entry
    ensures figHR.title == "Time Spent in Each Heart Rate Zone" && figHR.axisLabel == "Minutes"
    ensures figHR.zones == HeartRateZones[1..] && "Resting " !in figHR.zones
    ensures figHR.durations == ZoneSummary(HeartRateZoneColumn(samples, maxHeartRate), HeartRateZones)[1..]
    ensures Sum(figHR.durations) + Occurrences(HeartRateZoneColumn(samples, maxHeartRate), "Resting ") == |samples|
    ensures figHR.colors == ZoneColors && PlacedByEighth(figHR.durations, figHR.positions)
    ensures |figHR.text| == |figHR.durations| &&
      forall i :: 0 <= i < |figHR.durations| ==> figHR.text[i] == FormatDuration(figHR.durations[i])
    // combined: the samples' lines, each power point coloured by its power zone
    ensures |figAll.powerColors| == |samples| && |figAll.power| == |samples|
    ensures |figAll.timestamps| == |figAll.heartRate| == |figAll.cadence| == |samples|
    ensures forall i :: 0 <= i < |samples| ==>
      && figAll.timestamps[i] == samples[i].timestamp
      && figAll.power[i] == samples[i].power
      && figAll.heartRate[i] == samples[i].heartRate
      && figAll.cadence[i] == samples[i].cadence
    ensures forall i :: 0 <= i < |samples| ==>
      figAll.powerColors[i] == ZoneColors[PowerZoneIndex(samples[i].power, ftp)]
  {
    ZoneListsDistinct();

    var zone := PowerZoneColumn(samples, ftp);
    var zoneCounts := ZoneSummary(zone, PowerZones);
    SummaryTotal(zone, PowerZones);
    fig := GenerateBarChart(zoneCounts, PowerZones, "Time Spent in Each Power Zone", "Minutes");

    var hrZone := HeartRateZoneColumn(samples, maxHeartRate);
    var hrZoneCounts := ZoneSummary(hrZone, HeartRateZones);
    SummaryTotal(hrZone, HeartRateZones);
    assert hrZoneCounts[0] == Occurrences(hrZone, HeartRateZones[0]);
    figHR := GenerateBarChart(hrZoneCounts[1..], HeartRateZones[1..], "Time Spent in Each Heart Rate Zone", "Minutes");

    figAll := GenerateCombinedChart(samples, PowerThresholds(ftp));
  }

  /** The zone column and the combined chart's colours agree point by point:
      a sample is in the k-th power zone exactly when its point gets the
      k-th colour. */
  lemma ColorMatchesZone(samples: seq<Sample>, ftp: int, i: nat, k: nat)
    requires i < |samples| && k < |PowerZones|
    ensures PowerZoneColumn(samples, ftp)[i] == PowerZones[k] <==>
            GenerateCombinedChart(samples, PowerThresholds(ftp)).powerColors[i] == ZoneColors[k]
  {
  }
}
