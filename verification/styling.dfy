/**
  How one earthquake is styled on the map: the circle radius derived from its
  magnitude (`markerSize`), the fill colour derived from its depth
  (`chooseColor`), and the legend that explains the colour scale.
 */
module Styling {
  import opened GeoJson

  /** Metres of circle radius per unit of magnitude. */
  const RadiusPerMagnitude: real := 10000.0

  /** The radius used when the magnitude is missing, zero or negative. */
  const FallbackRadius: real := 1.0

  /** True when the JavaScript test `mag > 0` succeeds; a missing (null or
      undefined) magnitude compares false. */
  predicate PositiveMagnitude(mag: Option<real>)
  {
    mag.Some? && mag.value > 0.0
  }

  /** Circle radius for a magnitude: proportional to a positive magnitude,
      otherwise the fixed fallback. The radius of a positive magnitude gives
      the magnitude back. */
  function MarkerSize(mag: Option<real>): (radius: real)
    ensures radius > 0.0
    ensures PositiveMagnitude(mag) ==> radius / RadiusPerMagnitude == mag.value
  {
    if PositiveMagnitude(mag) then mag.value * RadiusPerMagnitude else FallbackRadius
  }

  /** A positive magnitude is scaled by 10000. */
  lemma MarkerSizeScales(m: real)
    requires m > 0.0
    ensures MarkerSize(Some(m)) == m * 10000.0
  {
  }

  /** Zero, negative and missing magnitudes all collapse to radius 1. */
  lemma MarkerSizeFallback(mag: Option<real>)
    requires mag.None? || mag.value <= 0.0
    ensures MarkerSize(mag) == 1.0
  {
  }

  /** Among positive magnitudes, a larger quake never gets a smaller circle,
      and distinct magnitudes get distinct circles. */
  lemma MarkerSizeMonotoneOnPositive(m1: real, m2: real)
    requires 0.0 < m1 <= m2
    ensures MarkerSize(Some(m1)) <= MarkerSize(Some(m2))
    ensures m1 < m2 ==> MarkerSize(Some(m1)) < MarkerSize(Some(m2))
  {
  }

  /** The scale is not monotone across the fallback: a positive magnitude
      below 0.0001 is drawn smaller than a missing or non-positive one. */
  lemma MarkerSizeBelowFallback(m: real, other: Option<real>)
    requires 0.0 < m < 0.0001
    requires !PositiveMagnitude(other)
    ensures MarkerSize(Some(m)) < MarkerSize(other)
  {
  }

  /** The inclusive upper bounds, in kilometres, of the first five depth
      buckets, in the order `chooseColor` tests them. */
  const Thresholds: seq<real> := [10.0, 30.0, 50.0, 70.0, 90.0]

  /** The fill colour of each depth bucket, shallowest first. */
  const Palette: seq<string> := ["#98EE00", "#D4EE00", "#EECC00", "#EE9C00", "#EA822C", "#EA2C2C"]

  /** The colour `chooseColor` starts from and always overwrites. */
  const Unassigned: string := "black"

  /** Fill colour for a quake at `depth` km: the first test `depth <= t` that
      succeeds, over t = 10, 30, 50, 70, 90, picks the colour, and a depth
      beyond all of them gets the last colour. */
  function ChooseColor(depth: real): (color: string)
    ensures color in Palette
    ensures color != Unassigned
  {
    if depth <= 10.0 then "#98EE00"
    else if depth <= 30.0 then "#D4EE00"
    else if depth <= 50.0 then "#EECC00"
    else if depth <= 70.0 then "#EE9C00"
    else if depth <= 90.0 then "#EA822C"
    else "#EA2C2C"
  }

  /** How many of the thresholds `ts` lie strictly below `depth`. */
  function CountBelow(ts: seq<real>, depth: real): (n: nat)
    ensures n <= |ts|
  {
    if ts == [] then 0
    else (if ts[0] < depth then 1 else 0) + CountBelow(ts[1..], depth)
  }

  /** The bucket index of a depth, defined independently of `ChooseColor`
      as the number of thresholds the depth exceeds. */
  function Bucket(depth: real): (k: nat)
    ensures k < |Palette|
  {
    CountBelow(Thresholds, depth)
  }

  ghost predicate Ascending(ts: seq<real>)
  {
    forall i, j :: 0 <= i < j < |ts| ==> ts[i] <= ts[j]
  }

  /** Over ascending thresholds, `depth` lands in bucket k exactly when it is
      at most the k-th threshold (if any) and above the one before it (if any). */
  lemma {:induction false} CountBelowFirstMatch(ts: seq<real>, depth: real, k: nat)
    requires Ascending(ts)
    requires k <= |ts|
    ensures CountBelow(ts, depth) == k <==>
              (k < |ts| ==> depth <= ts[k]) && (0 < k ==> ts[k - 1] < depth)
  {
    if ts != [] {
      var rest := ts[1..];
      assert Ascending(rest);
      if ts[0] < depth {
        if 0 < k {
          CountBelowFirstMatch(rest, depth, k - 1);
        }
      } else {
        CountBelowFirstMatch(rest, depth, 0);
        assert CountBelow(rest, depth) == 0 by {
          assert 0 < |rest| ==> ts[0] <= rest[0];
        }
        if 0 < k {
          assert ts[0] <= ts[k - 1];
        }
      }
    }
  }

  /** A deeper quake never falls in a shallower bucket. */
  lemma {:induction false} CountBelowMonotone(ts: seq<real>, d1: real, d2: real)
    requires d1 <= d2
    ensures CountBelow(ts, d1) <= CountBelow(ts, d2)
  {
    if ts != [] {
      CountBelowMonotone(ts[1..], d1, d2);
    }
  }

  /** `ChooseColor` picks exactly the palette colour of the depth's bucket. */
  lemma ChooseColorIsBucketColour(depth: real)
    ensures ChooseColor(depth) == Palette[Bucket(depth)]
  {
    var k: nat := if depth <= 10.0 then 0
                  else if depth <= 30.0 then 1
                  else if depth <= 50.0 then 2
                  else if depth <= 70.0 then 3
                  else if depth <= 90.0 then 4
                  else 5;
    CountBelowFirstMatch(Thresholds, depth, k);
  }

  /** First match wins: depth gets the k-th colour if and only if it is at
      most the k-th threshold and above the previous one. */
  lemma ChooseColorFirstMatch(depth: real, k: nat)
    requires k < |Palette|
    ensures ChooseColor(depth) == Palette[k] <==>
              (k < |Thresholds| ==> depth <= Thresholds[k]) && (0 < k ==> Thresholds[k - 1] < depth)
  {
    ChooseColorIsBucketColour(depth);
    CountBelowFirstMatch(Thresholds, depth, k);
  }

  /** The colour scale is monotone in depth: the bucket index of a deeper
      quake is at least that of a shallower one. */
  lemma ChooseColorMonotone(d1: real, d2: real)
    requires d1 <= d2
    ensures Bucket(d1) <= Bucket(d2)
    ensures ChooseColor(d1) == Palette[Bucket(d1)] && ChooseColor(d2) == Palette[Bucket(d2)]
  {
    CountBelowMonotone(Thresholds, d1, d2);
    ChooseColorIsBucketColour(d1);
    ChooseColorIsBucketColour(d2);
  }

  /** The thresholds are inclusive: a depth equal to a threshold takes the
      shallower colour. */
  lemma ChooseColorInclusiveBounds(k: nat)
    requires k < |Thresholds|
    ensures ChooseColor(Thresholds[k]) == Palette[k]
  {
  }

  /** Boundary values of the colour scale. */
  lemma ChooseColorExamples(negative: real)
    requires negative < 0.0
    ensures ChooseColor(negative) == "#98EE00"
    ensures ChooseColor(10.0) == "#98EE00" && ChooseColor(10.01) == "#D4EE00"
    ensures ChooseColor(12.0) == "#D4EE00"
    ensures ChooseColor(90.0) == "#EA822C" && ChooseColor(90.01) == "#EA2C2C"
  {
  }

  /** One line of the legend panel: a colour swatch and its depth range. */
  datatype LegendRow = LegendRow(color: string, depthRange: string)

  /** The legend, top to bottom, as the map shows it. */
  const Legend: seq<LegendRow> := [
    LegendRow("#98EE00", "-10-10"),
    LegendRow("#D4EE00", "10-30"),
    LegendRow("#EECC00", "30-50"),
    LegendRow("#EE9C00", "50-70"),
    LegendRow("#EA822C", "70-90"),
    LegendRow("#EA2C2C", "90+")
  ]

  /** The legend lists the bucket colours in bucket order, so the row of a
      depth's bucket shows the colour its circle is filled with. */
  lemma LegendMatchesChooseColor(depth: real)
    ensures |Legend| == |Palette|
    ensures forall k :: 0 <= k < |Legend| ==> Legend[k].color == Palette[k]
    ensures Legend[Bucket(depth)].color == ChooseColor(depth)
  {
    ChooseColorIsBucketColour(depth);
  }
}
