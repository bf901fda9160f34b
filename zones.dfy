/** Zone classification of power and heart-rate samples.

    The source classifies a whole column at once with numpy's `digitize`
    (with its default `right=False`) against a threshold array that is a list
    of fractions times a reference value (FTP for power, a maximum heart rate
    for heart rate). Here every fraction is written as a whole percentage, so
    a threshold `f * ref` becomes the integer `pct * ref` and a metric value
    `x` is compared as `100 * x`: both sides are scaled by 100 and no
    floating point is needed. Line numbers in the comments below are those
    of `data_processing.py`.
 */
module Zones {

  /** Strictly increasing, as the source's fraction lists are. */
  predicate Ascending(s: seq<int>) {
    forall i, j :: 0 <= i < j < |s| ==> s[i] < s[j]
  }

  /** numpy accepts bins that are non-decreasing ... */
  predicate NonDecreasing(bins: seq<int>) {
    forall i, j :: 0 <= i < j < |bins| ==> bins[i] <= bins[j]
  }

  /** ... or non-increasing, and refuses any other bins. */
  predicate NonIncreasing(bins: seq<int>) {
    forall i, j :: 0 <= i < j < |bins| ==> bins[i] >= bins[j]
  }

  /** How many bins lie at or below `x`. */
  function CountAtOrBelow(bins: seq<int>, x: int): (n: nat)
    ensures n <= |bins|
  {
    if bins == [] then 0
    else (if bins[0] <= x then 1 else 0) + CountAtOrBelow(bins[1..], x)
  }

  /** How many bins lie strictly above `x`. */
  function CountAbove(bins: seq<int>, x: int): (n: nat)
    ensures n <= |bins|
  {
    if bins == [] then 0
    else (if bins[0] > x then 1 else 0) + CountAbove(bins[1..], x)
  }

  /** The index numpy documents for increasing bins:
      `bins[i-1] <= x < bins[i]`, with the open ends at 0 and `len(bins)`. */
  predicate Brackets(bins: seq<int>, x: int, i: nat)
    requires i <= |bins|
  {
    (i == 0 || bins[i - 1] <= x) && (i == |bins| || x < bins[i])
  }

  lemma {:induction false} CountAtOrBelowBrackets(bins: seq<int>, x: int)
    requires NonDecreasing(bins)
    ensures Brackets(bins, x, CountAtOrBelow(bins, x))
  {
    if bins != [] {
      var rest := bins[1..];
      assert NonDecreasing(rest);
      CountAtOrBelowBrackets(rest, x);
      var j := CountAtOrBelow(rest, x);
      if bins[0] <= x {
        assert j == 0 || rest[j - 1] == bins[j];
        assert j == |rest| || rest[j] == bins[j + 1];
      } else {
        assert forall m :: 0 <= m < |rest| ==> bins[0] <= rest[m];
      }
    }
  }

  /** `np.digitize(x, bins)` with `right=False`. For non-decreasing bins
      numpy returns `searchsorted(bins, x, side='right')`, the number of bins
      at or below `x`; for other (non-increasing) bins it returns
      `len(bins) - searchsorted(bins[::-1], x, side='right')`, the number of
      bins above `x`. Bins that are all equal count as non-decreasing. Either
      way the index is the bracket numpy documents for that direction. */
  function Digitize(bins: seq<int>, x: int): (i: nat)
    requires NonDecreasing(bins) || NonIncreasing(bins)
    ensures i <= |bins|
    ensures NonDecreasing(bins) ==> Brackets(bins, x, i)
    ensures !NonDecreasing(bins) ==> DescendingBrackets(bins, x, i)
  {
    if NonDecreasing(bins) then
      CountAtOrBelowBrackets(bins, x);
      CountAtOrBelow(bins, x)
    else
      CountAboveBrackets(bins, x);
      CountAbove(bins, x)
  }

  /** The index numpy documents for decreasing bins:
      `bins[i-1] > x >= bins[i]`, with the open ends at 0 and `len(bins)`. */
  predicate DescendingBrackets(bins: seq<int>, x: int, i: nat)
    requires i <= |bins|
  {
    (i == 0 || x < bins[i - 1]) && (i == |bins| || bins[i] <= x)
  }

  lemma {:induction false} CountAboveBrackets(bins: seq<int>, x: int)
    requires NonIncreasing(bins)
    ensures DescendingBrackets(bins, x, CountAbove(bins, x))
  {
    if bins != [] {
      var rest := bins[1..];
      assert NonIncreasing(rest);
      CountAboveBrackets(rest, x);
      var j := CountAbove(rest, x);
      if bins[0] > x {
        assert j == 0 || rest[j - 1] == bins[j];
        assert j == |rest| || rest[j] == bins[j + 1];
      } else {
        assert forall m :: 0 <= m < |rest| ==> rest[m] <= bins[0];
      }
    }
  }

  /** Against decreasing bins the descending bracket is the only index that
      holds, so numpy's second mode is that bracket and nothing else. */
  lemma DigitizeIsDescendingBracket(bins: seq<int>, x: int, k: nat)
    requires NonIncreasing(bins) && !NonDecreasing(bins) && k <= |bins|
    ensures DescendingBrackets(bins, x, k) <==> k == Digitize(bins, x)
  {
    var i := Digitize(bins, x);
    if k < i {
      assert bins[k] >= bins[i - 1];
    } else if i < k {
      assert bins[i] >= bins[k - 1];
    }
  }

  /** Digitize against increasing bins lands on the numpy-documented bracket,
      and that bracket is the only index that does: the two definitions agree. */
  lemma DigitizeIsBracket(bins: seq<int>, x: int, k: nat)
    requires NonDecreasing(bins) && k <= |bins|
    ensures Brackets(bins, x, Digitize(bins, x))
    ensures Brackets(bins, x, k) <==> k == Digitize(bins, x)
  {
    var i := Digitize(bins, x);
    CountAtOrBelowBrackets(bins, x);
    if k < i {
      assert bins[k] <= bins[i - 1];
    } else if i < k {
      assert bins[i] <= bins[k - 1];
    }
  }

  /** A value exactly on a strictly increasing bound goes to the zone above it. */
  lemma DigitizeAtBound(bins: seq<int>, k: nat)
    requires Ascending(bins) && k < |bins|
    ensures Digitize(bins, bins[k]) == k + 1
  {
    assert NonDecreasing(bins);
    DigitizeIsBracket(bins, bins[k], k + 1);
  }

  lemma {:induction false} CountAtOrBelowMonotone(bins: seq<int>, x: int, y: int)
    requires x <= y
    ensures CountAtOrBelow(bins, x) <= CountAtOrBelow(bins, y)
  {
    if bins != [] {
      CountAtOrBelowMonotone(bins[1..], x, y);
    }
  }

  lemma {:induction false} CountAboveAntitone(bins: seq<int>, x: int, y: int)
    requires x <= y
    ensures CountAbove(bins, x) >= CountAbove(bins, y)
  {
    if bins != [] {
      CountAboveAntitone(bins[1..], x, y);
    }
  }

  /** `np.array(fractions) * reference`, with fractions as percentages. */
  function Thresholds(percents: seq<int>, reference: int): (t: seq<int>)
    ensures |t| == |percents|
    ensures forall k :: 0 <= k < |t| ==> t[k] == percents[k] * reference
  {
    seq(|percents|, i requires 0 <= i < |percents| => percents[i] * reference)
  }

  /** Increasing fractions of a positive reference give increasing bins; of a
      zero reference, equal bins; of a negative one, strictly decreasing bins,
      which numpy handles in its second mode. */
  lemma ThresholdsOrdered(percents: seq<int>, reference: int)
    requires Ascending(percents)
    ensures reference > 0 ==> Ascending(Thresholds(percents, reference))
    ensures reference >= 0 ==> NonDecreasing(Thresholds(percents, reference))
    ensures reference == 0 ==> forall i, j :: 0 <= i < j < |percents| ==>
      Thresholds(percents, reference)[i] == Thresholds(percents, reference)[j]
    ensures reference < 0 ==> NonIncreasing(Thresholds(percents, reference))
    ensures reference < 0 ==> forall i, j :: 0 <= i < j < |percents| ==>
      Thresholds(percents, reference)[i] > Thresholds(percents, reference)[j]
    ensures reference < 0 && |percents| > 1 ==> !NonDecreasing(Thresholds(percents, reference))
  {
    var t := Thresholds(percents, reference);
    forall i, j | 0 <= i < j < |t|
      ensures reference > 0 ==> t[i] < t[j]
      ensures reference == 0 ==> t[i] == t[j]
      ensures reference < 0 ==> t[i] > t[j]
    {
      ScaleOrder(percents[i], percents[j], reference);
    }
    if reference < 0 && |t| > 1 {
      assert t[0] > t[1];
    }
  }

  lemma ScaleOrder(a: int, b: int, r: int)
    requires a < b
    ensures r > 0 ==> a * r < b * r
    ensures r == 0 ==> a * r == b * r
    ensures r < 0 ==> a * r > b * r
  {
  }

  /** Power zone bounds: 0.55, 0.75, 0.9, 1.05 and 1.2 of FTP. */
  const PowerPercents: seq<int> := [55, 75, 90, 105, 120]

  /** Heart-rate zone bounds: 0.5, 0.65, 0.8, 0.85 and 0.92 of the maximum. */
  const HeartRatePercents: seq<int> := [50, 65, 80, 85, 92]

  /** The maximum heart rate the classification uses, whatever the caller passes. */
  const FixedMaxHeartRate: int := 186

  /** Canonical power zone labels, trailing space included. */
  const PowerZones: seq<string> := ["Zone 1 ", "Zone 2 ", "Zone 3 ", "Zone 4 ", "Zone 5 ", "Zone 6 "]

  /** Canonical heart-rate zone labels, trailing space included. */
  const HeartRateZones: seq<string> := ["Resting ", "Zone 1 ", "Zone 2 ", "Zone 3 ", "Zone 4 ", "Zone 5 "]

  function PowerThresholds(ftp: int): (t: seq<int>)
    ensures |t| == 5 && (NonDecreasing(t) || NonIncreasing(t))
  {
    assert Ascending(PowerPercents);
    ThresholdsOrdered(PowerPercents, ftp);
    Thresholds(PowerPercents, ftp)
  }

  function HeartRateThresholds(): (t: seq<int>)
    ensures |t| == 5 && Ascending(t) && NonDecreasing(t)
  {
    assert Ascending(HeartRatePercents);
    ThresholdsOrdered(HeartRatePercents, FixedMaxHeartRate);
    Thresholds(HeartRatePercents, FixedMaxHeartRate)
  }

  /** Index of the power zone of one sample (line 35). */
  function PowerZoneIndex(power: int, ftp: int): (i: nat)
    ensures i < |PowerZones|
  {
    Digitize(PowerThresholds(ftp), 100 * power)
  }

  /** Index of the heart-rate zone of one sample (lines 48-53): the
      `maxHeartRate` argument is rebound to 186 before it is used. */
  function HeartRateZoneIndex(heartRate: int, maxHeartRate: int): (i: nat)
    ensures i < |HeartRateZones|
  {
    Digitize(HeartRateThresholds(), 100 * heartRate)
  }

  /** With a non-negative FTP, a larger power never lands in a lower zone. */
  lemma PowerZoneMonotone(p: int, q: int, ftp: int)
    requires ftp >= 0 && p <= q
    ensures PowerZoneIndex(p, ftp) <= PowerZoneIndex(q, ftp)
  {
    assert NonDecreasing(PowerThresholds(ftp));
    CountAtOrBelowMonotone(PowerThresholds(ftp), 100 * p, 100 * q);
  }

  /** With a negative FTP the bins decrease and numpy's other mode applies:
      a larger power never lands in a higher zone. */
  lemma PowerZoneAntitoneBelowZero(p: int, q: int, ftp: int)
    requires ftp < 0 && p <= q
    ensures PowerZoneIndex(p, ftp) >= PowerZoneIndex(q, ftp)
  {
    assert Ascending(PowerPercents);
    ThresholdsOrdered(PowerPercents, ftp);
    CountAboveAntitone(PowerThresholds(ftp), 100 * p, 100 * q);
  }

  /** A power gets zone k exactly when it has passed the k-th lower bound
      and not the next one. */
  lemma PowerZoneOfBracket(power: int, ftp: int, k: nat)
    requires ftp >= 0 && k <= 5
    ensures PowerZoneIndex(power, ftp) == k <==>
      (k == 0 || PowerPercents[k - 1] * ftp <= 100 * power) &&
      (k == 5 || 100 * power < PowerPercents[k] * ftp)
  {
    var t := PowerThresholds(ftp);
    assert NonDecreasing(t);
    DigitizeIsBracket(t, 100 * power, k);
  }

  /** A power exactly on the k-th bound lands in zone k + 1, the higher of
      the two zones that bound separates. */
  lemma PowerZoneAtBound(power: int, ftp: int, k: nat)
    requires ftp > 0 && k < 5 && 100 * power == PowerPercents[k] * ftp
    ensures PowerZoneIndex(power, ftp) == k + 1
  {
    var t := PowerThresholds(ftp);
    assert Ascending(t) && t[k] == 100 * power;
    DigitizeAtBound(t, k);
  }

  /** Heart-rate classification, whatever maximum the caller passes, is the
      table for a maximum of 186 bpm: thresholds 93, 120.9, 148.8, 158.1 and
      171.12, so on whole beats per minute the zones start at 93, 121, 149,
      159 and 172. */
  lemma HeartRateZoneTable(heartRate: int, maxHeartRate: int)
    ensures HeartRateZoneIndex(heartRate, maxHeartRate) ==
      (if heartRate >= 93 then 1 else 0) + (if heartRate >= 121 then 1 else 0) +
      (if heartRate >= 149 then 1 else 0) + (if heartRate >= 159 then 1 else 0) +
      (if heartRate >= 172 then 1 else 0)
  {
    var t := HeartRateThresholds();
    assert t == [9300, 12090, 14880, 15810, 17112];
    var x := 100 * heartRate;
    assert CountAtOrBelow(t, x) ==
      (if 9300 <= x then 1 else 0) + CountAtOrBelow([12090, 14880, 15810, 17112], x);
    assert CountAtOrBelow([12090, 14880, 15810, 17112], x) ==
      (if 12090 <= x then 1 else 0) + CountAtOrBelow([14880, 15810, 17112], x);
    assert CountAtOrBelow([14880, 15810, 17112], x) ==
      (if 14880 <= x then 1 else 0) + CountAtOrBelow([15810, 17112], x);
    assert CountAtOrBelow([15810, 17112], x) ==
      (if 15810 <= x then 1 else 0) + CountAtOrBelow([17112], x);
  }
}
