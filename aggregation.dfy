/** Time-in-zone aggregation: `value_counts()` on the zone label column,
    then `reindex` onto the canonical zone list with 0 for the zones no
    sample fell in. One sample stands for one second, so a count is a
    duration in seconds (the source divides by 60 to plot minutes and
    multiplies by 60 again to print the duration). Line numbers in the
    comments below are those of `data_processing.py`. */
module Aggregation {

  /** How many times `z` occurs in `labels`. */
  function Occurrences<T(==)>(labels: seq<T>, z: T): (n: nat)
    ensures n <= |labels|
    ensures n == 0 <==> z !in labels
  {
    if labels == [] then 0
    else (if labels[0] == z then 1 else 0) + Occurrences(labels[1..], z)
  }

  /** `Series.value_counts()`: one entry per label that occurs, with its
      number of occurrences, built one label at a time. */
  function ValueCounts<T(==)>(labels: seq<T>): (m: map<T, nat>)
    ensures m.Keys == set k | 0 <= k < |labels| :: labels[k]
    ensures forall z :: z in m ==> m[z] == Occurrences(labels, z) && m[z] > 0
  {
    if labels == [] then map[]
    else
      var m := ValueCounts(labels[1..]);
      var z := labels[0];
      assert forall k :: 1 <= k < |labels| ==> labels[1..][k - 1] == labels[k];
      m[z := (if z in m then m[z] else 0) + 1]
  }

  /** `Series.reindex(zones, fill_value=0)`. */
  function Reindex<T>(counts: map<T, nat>, zones: seq<T>): (r: seq<nat>)
    ensures |r| == |zones|
    ensures forall k :: 0 <= k < |zones| ==>
      (zones[k] in counts ==> r[k] == counts[zones[k]]) && (zones[k] !in counts ==> r[k] == 0)
  {
    seq(|zones|, k requires 0 <= k < |zones| => if zones[k] in counts then counts[zones[k]] else 0)
  }

  /** Lines 40-41 and 55-56: per-zone seconds in canonical zone order. */
  function ZoneSummary<T(==)>(labels: seq<T>, zones: seq<T>): (r: seq<nat>)
    ensures |r| == |zones|
    ensures forall k :: 0 <= k < |zones| ==> r[k] == Occurrences(labels, zones[k])
  {
    Reindex(ValueCounts(labels), zones)
  }

  function Sum(s: seq<nat>): nat {
    if s == [] then 0 else s[0] + Sum(s[1..])
  }

  /** How many labels equal some zone, zone by zone. */
  function Covered<T(==)>(labels: seq<T>, zones: seq<T>): nat {
    if zones == [] then 0 else Occurrences(labels, zones[0]) + Covered(labels, zones[1..])
  }

  predicate Distinct<T(==)>(s: seq<T>) {
    forall i, j :: 0 <= i < j < |s| ==> s[i] != s[j]
  }

  lemma {:induction false} SumOfSummary<T>(labels: seq<T>, zones: seq<T>)
    ensures Sum(ZoneSummary(labels, zones)) == Covered(labels, zones)
  {
    if zones != [] {
      SumOfSummary(labels, zones[1..]);
      var r := ZoneSummary(labels, zones);
      assert r[1..] == ZoneSummary(labels, zones[1..]);
    }
  }

  lemma {:induction false} CoveredCons<T>(l: T, rest: seq<T>, zones: seq<T>)
    ensures Covered([l] + rest, zones) == Occurrences(zones, l) + Covered(rest, zones)
  {
    if zones != [] {
      CoveredCons(l, rest, zones[1..]);
      assert ([l] + rest)[1..] == rest;
    }
  }

  lemma {:induction false} OccursOnce<T>(zones: seq<T>, l: T)
    requires Distinct(zones) && l in zones
    ensures Occurrences(zones, l) == 1
  {
    if zones[0] != l {
      OccursOnce(zones[1..], l);
    } else {
      assert l !in zones[1..];
    }
  }

  /** When every label is one of the (distinct) zones, the summary loses and
      double-counts nothing: its entries add up to the number of labels. */
  lemma {:induction false} SummaryTotal<T>(labels: seq<T>, zones: seq<T>)
    requires Distinct(zones)
    requires forall k :: 0 <= k < |labels| ==> labels[k] in zones
    ensures Sum(ZoneSummary(labels, zones)) == |labels|
  {
    SumOfSummary(labels, zones);
    CoveredAll(labels, zones);
  }

  lemma {:induction false} CoveredAll<T>(labels: seq<T>, zones: seq<T>)
    requires Distinct(zones)
    requires forall k :: 0 <= k < |labels| ==> labels[k] in zones
    ensures Covered(labels, zones) == |labels|
  {
    if labels == [] {
      CoveredEmpty(zones);
    } else {
      var rest := labels[1..];
      assert labels == [labels[0]] + rest;
      CoveredCons(labels[0], rest, zones);
      OccursOnce(zones, labels[0]);
      CoveredAll(rest, zones);
    }
  }

  lemma {:induction false} CoveredEmpty<T>(zones: seq<T>)
    ensures Covered([], zones) == 0
  {
    if zones != [] {
      CoveredEmpty(zones[1..]);
    }
  }
}
