/**
  The per-feature loop of `createMap`: every earthquake that has a geometry
  yields one clustered marker, one heat point and one styled circle, all at
  the same `(latitude, longitude)` and, for the marker and the circle, with
  the same popup. Features without a geometry are skipped.

  `Build` is the loop's meaning written as a function over the input prefix,
  `Located` is an independent filter that says which features are drawn,
  and `PopulateArrays` is the loop itself.
 */
module Layers {
  import opened GeoJson
  import opened Styling

  /** Fixed circle styling: fill opacity, stroke colour and stroke weight. */
  const CircleFillOpacity: real := 0.6
  const CircleStrokeColor: string := "black"
  const CircleStrokeWeight: real := 0.8

  /** A clustered point marker with its popup. */
  datatype Marker = Marker(at: LatLng, popup: string)

  /** A circle shape with the options the loop passes to the mapping library. */
  datatype Circle = Circle(
    center: LatLng,
    fillOpacity: real,
    color: string,
    weight: real,
    fillColor: string,
    radius: real,
    popup: string)

  /** The three collections the loop fills: the circle array, the heat array
      and the markers added to the cluster group. */
  datatype Overlays = Overlays(circles: seq<Circle>, heat: seq<LatLng>, markers: seq<Marker>)

  /** GeoJSON stores `[longitude, latitude]`; the map wants `[latitude, longitude]`. */
  function PointOf(g: Geometry): LatLng
  {
    LatLng(g.lat, g.lon)
  }

  /** The popup label of a quake. */
  function Popup(title: string): string
  {
    "<h1>" + title + "</h1>"
  }

  /** The popup is the title wrapped in an `h1` element, so the title can be
      read back from it and two different titles never share a popup. */
  lemma PopupWrapsTitle(title: string, other: string)
    ensures |Popup(title)| == |title| + 9
    ensures Popup(title)[..4] == "<h1>" && Popup(title)[|title| + 4..] == "</h1>"
    ensures Popup(title)[4..|title| + 4] == title
    ensures Popup(title) == Popup(other) ==> title == other
  {
    if Popup(title) == Popup(other) {
      assert |title| == |other|;
      assert Popup(title)[4..|title| + 4] == Popup(other)[4..|other| + 4];
    }
  }

  function MarkerOf(f: Feature): Marker
    requires f.geometry.Some?
  {
    Marker(PointOf(f.geometry.value), Popup(f.properties.title))
  }

  function CircleOf(f: Feature): Circle
    requires f.geometry.Some?
  {
    Circle(PointOf(f.geometry.value), CircleFillOpacity, CircleStrokeColor, CircleStrokeWeight,
           ChooseColor(f.geometry.value.depth), MarkerSize(f.properties.mag),
           Popup(f.properties.title))
  }

  /** One iteration of the loop: a feature with a geometry appends to all
      three collections, any other feature leaves them as they are. */
  function Step(o: Overlays, f: Feature): Overlays
  {
    if f.geometry.Some? then
      Overlays(o.circles + [CircleOf(f)], o.heat + [PointOf(f.geometry.value)], o.markers + [MarkerOf(f)])
    else
      o
  }

  /** The collections after the loop has processed all of `data`, in order. */
  function Build(data: seq<Feature>): (o: Overlays)
    ensures |o.circles| == |o.heat| == |o.markers| <= |data|
  {
    if data == [] then Overlays([], [], [])
    else Step(Build(data[..|data| - 1]), data[|data| - 1])
  }

  /** The features that get drawn: those with a geometry, in input order. */
  function Located(data: seq<Feature>): (r: seq<Feature>)
    ensures |r| <= |data|
    ensures forall f :: f in r ==> f in data && f.geometry.Some?
  {
    if data == [] then []
    else (if data[0].geometry.Some? then [data[0]] else []) + Located(data[1..])
  }

  /** Filtering distributes over concatenation. */
  lemma {:induction false} LocatedAppend(a: seq<Feature>, b: seq<Feature>)
    ensures Located(a + b) == Located(a) + Located(b)
  {
    if a != [] {
      assert (a + b)[0] == a[0];
      assert (a + b)[1..] == a[1..] + b;
      LocatedAppend(a[1..], b);
    } else {
      assert a + b == b;
    }
  }

  /** Filtering twice is filtering once. */
  lemma {:induction false} LocatedIdempotent(data: seq<Feature>)
    ensures Located(Located(data)) == Located(data)
  {
    if data != [] {
      var head := if data[0].geometry.Some? then [data[0]] else [];
      LocatedAppend(head, Located(data[1..]));
      LocatedIdempotent(data[1..]);
    }
  }

  /** The loop is a filter-map: each collection has exactly one entry per
      located feature, and entry i comes from the i-th located feature, at
      its swapped coordinates, coloured by its depth, sized by its magnitude,
      with its title as popup. */
  lemma {:induction false} BuildIsFilterMap(data: seq<Feature>)
    ensures var o, fs := Build(data), Located(data);
      && |o.heat| == |o.circles| == |o.markers| == |fs|
      && forall i :: 0 <= i < |fs| ==>
           && o.heat[i] == PointOf(fs[i].geometry.value)
           && o.circles[i] == CircleOf(fs[i])
           && o.markers[i] == MarkerOf(fs[i])
  {
    if data != [] {
      var prefix, f := data[..|data| - 1], data[|data| - 1];
      assert data == prefix + [f];
      LocatedAppend(prefix, [f]);
      assert Located([f]) == (if f.geometry.Some? then [f] else []) + Located([]);
      BuildIsFilterMap(prefix);
    }
  }

  /** Count preservation: for N features of which K have a geometry, each of
      the three collections receives exactly K entries. */
  lemma LayerCounts(data: seq<Feature>)
    ensures |Build(data).heat| == |Located(data)|
    ensures |Build(data).circles| == |Located(data)|
    ensures |Build(data).markers| == |Located(data)|
  {
    BuildIsFilterMap(data);
  }

  /** The three entries for one feature share their anchor point, and the
      marker and the circle share their popup; the circle carries the fixed
      stroke and fill options. */
  lemma LayersAligned(data: seq<Feature>, i: nat)
    requires i < |Build(data).heat|
    ensures Build(data).circles[i].center == Build(data).heat[i]
    ensures Build(data).markers[i].at == Build(data).heat[i]
    ensures Build(data).circles[i].popup == Build(data).markers[i].popup
    ensures Build(data).circles[i].fillOpacity == 0.6
    ensures Build(data).circles[i].color == "black" && Build(data).circles[i].weight == 0.8
    ensures Build(data).circles[i].fillColor in Palette && Build(data).circles[i].radius > 0.0
  {
    BuildIsFilterMap(data);
  }

  /** Where each located feature lands: the k-th input feature, if it has a
      geometry, produces entry j of every collection, where j counts the
      located features before it. */
  lemma OutputPosition(data: seq<Feature>, k: nat)
    requires k < |data| && data[k].geometry.Some?
    ensures var j, o, g := |Located(data[..k])|, Build(data), data[k].geometry.value;
      && j < |o.heat|
      && o.heat[j] == LatLng(g.lat, g.lon)
      && o.markers[j] == Marker(o.heat[j], Popup(data[k].properties.title))
      && o.circles[j].fillColor == ChooseColor(g.depth)
      && o.circles[j].radius == MarkerSize(data[k].properties.mag)
      && o.circles[j].popup == Popup(data[k].properties.title)
  {
    var before, after := data[..k], data[k + 1..];
    assert data == before + [data[k]] + after;
    LocatedAppend(before + [data[k]], after);
    LocatedAppend(before, [data[k]]);
    assert Located([data[k]]) == [data[k]] + Located([]);
    BuildIsFilterMap(data);
  }

  /** Input order is kept: of two located features, the earlier one's
      entries come first. */
  lemma OutputOrder(data: seq<Feature>, k1: nat, k2: nat)
    requires k1 < k2 < |data|
    requires data[k1].geometry.Some?
    ensures |Located(data[..k1])| < |Located(data[..k2])|
  {
    var mid := data[k1..k2];
    assert data[..k2] == data[..k1] + mid;
    LocatedAppend(data[..k1], mid);
    assert mid == [data[k1]] + mid[1..];
    LocatedAppend([data[k1]], mid[1..]);
    assert Located([data[k1]]) == [data[k1]] + Located([]);
  }

  /** Features without a geometry contribute nothing: dropping them first
      gives the very same layers. */
  lemma BuildIgnoresUnlocated(data: seq<Feature>)
    ensures Build(Located(data)) == Build(data)
  {
    BuildIsFilterMap(data);
    BuildIsFilterMap(Located(data));
    LocatedIdempotent(data);
  }

  /** The loop of `createMap` over the earthquake features: every feature
      with a geometry adds a marker to the cluster group, a point to the heat
      array and a circle to the circle array. */
  method PopulateArrays(data: seq<Feature>)
    returns (circleArray: seq<Circle>, heatArray: seq<LatLng>, markers: seq<Marker>)
    ensures Overlays(circleArray, heatArray, markers) == Build(data)
    ensures |circleArray| == |heatArray| == |markers| == |Located(data)|
    ensures forall i :: 0 <= i < |heatArray| ==>
              && heatArray[i] == PointOf(Located(data)[i].geometry.value)
              && circleArray[i] == CircleOf(Located(data)[i])
              && markers[i] == MarkerOf(Located(data)[i])
  {
    circleArray, heatArray, markers := [], [], [];
    for i := 0 to |data|
      invariant Overlays(circleArray, heatArray, markers) == Build(data[..i])
    {
      assert data[..i + 1][..i] == data[..i];
      var row := data[i];
      var location := row.geometry;
      if location.Some? {
        var point := PointOf(location.value);
        var popup := Popup(row.properties.title);
        markers := markers + [Marker(point, popup)];
        heatArray := heatArray + [point];
        var circleMarker := Circle(point, CircleFillOpacity, CircleStrokeColor, CircleStrokeWeight,
                                   ChooseColor(location.value.depth), MarkerSize(row.properties.mag), popup);
        circleArray := circleArray + [circleMarker];
      }
    }
    assert data[..|data|] == data;
    BuildIsFilterMap(data);
  }

  /** The worked example: a feature at `[-111.5, 38.2, 12.0]` titled
      "M 4.1 Quake" with magnitude 4.1. */
  lemma WorkedExample()
    ensures var f := Feature(Some(Geometry(-111.5, 38.2, 12.0)), Properties("M 4.1 Quake", Some(4.1)));
      var o := Build([f]);
      && o.heat == [LatLng(38.2, -111.5)]
      && o.markers == [Marker(LatLng(38.2, -111.5), "<h1>M 4.1 Quake</h1>")]
      && o.circles == [Circle(LatLng(38.2, -111.5), 0.6, "black", 0.8, "#D4EE00", 41000.0, "<h1>M 4.1 Quake</h1>")]
  {
    var f := Feature(Some(Geometry(-111.5, 38.2, 12.0)), Properties("M 4.1 Quake", Some(4.1)));
    assert [f][..0] == [];
    assert Popup("M 4.1 Quake") == "<h1>M 4.1 Quake</h1>";
  }
}
