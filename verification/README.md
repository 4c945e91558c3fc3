# Earthquake map: layer building and styling

A model of the logic inside an earthquake map page. The page draws a week of
USGS earthquake events on a map. Each event with a location becomes three
things:

- a marker in a clustering group;
- a point of a heat overlay;
- a circle whose radius scales with the magnitude and whose fill colour
  encodes the depth.

A fixed legend explains the colour scale. The model covers three pieces of
that logic:

- `GeoJson`: an earthquake feature as a value. Its `geometry` is optional. It
  holds longitude, latitude and depth in km. Its `title` is a string and its
  `mag` is an optional real (a JSON null magnitude is `None`).
- `Styling`:
  - `MarkerSize` models `markerSize`: a positive magnitude times 10000,
    otherwise 1.
  - `ChooseColor` models `chooseColor`: six colours picked by the first
    inclusive `<=` test over 10/30/50/70/90 km.
  - `Legend` holds the legend's colour list.
  - `Bucket` is an independent reference for `ChooseColor`: the number of
    thresholds a depth exceeds. The lemmas tie it to `ChooseColor`: first
    match wins, inclusive bounds and monotonicity in depth.
- `Layers`:
  - `PopulateArrays` is the per-feature loop of `createMap`. It appends to
    the circle array, the heat array and the marker group.
  - `Build` is the loop's meaning, one `Step` per feature.
  - `Located` is an independent filter that keeps the features with a
    geometry, in input order.
  - The lemmas prove that the loop is a filter-map over `Located`, with
    equal counts, input order kept and swapped coordinates. They also prove
    that the marker and the circle share one popup and one anchor.

Magnitudes and depths are exact reals. The mapping library's objects (marker,
circle, heat point, cluster group) are plain records and sequences built from
the point, popup, colour and radius.

A quake at depth 12 km is coloured as the code does it: `12 <= 30` picks
`#D4EE00`, not `#EECC00`, which is the 30–50 km colour
(`Layers.WorkedExample`, `Styling.ChooseColorExamples`).

## Model

| member | source | states |
|---|---|---|
| `Styling.MarkerSize` | static/js/logic.js:125-133 | the radius is always strictly positive, and for a positive magnitude it gives the magnitude back when divided by 10000 |
| `Styling.MarkerSizeScales` | static/js/logic.js:128-130 | a magnitude `m > 0` gives radius `m * 10000` |
| `Styling.MarkerSizeFallback` | static/js/logic.js:126-132 | a missing, zero or negative magnitude gives exactly radius 1 (the `mag > 0` test fails) |
| `Styling.MarkerSizeMonotoneOnPositive` | static/js/logic.js:128-130 | among positive magnitudes the radius is strictly increasing |
| `Styling.MarkerSizeBelowFallback` | static/js/logic.js:125-133 | a positive magnitude below 0.0001 gets a smaller radius than a missing or non-positive one, so the scale is not monotone across the fallback |
| `Styling.ChooseColor` | static/js/logic.js:136-156 | the colour is always one of the six palette colours and never the initial `"black"` |
| `Styling.Bucket` | static/js/logic.js:140-151 | the bucket index of any depth is one of the six buckets |
| `Styling.CountBelowFirstMatch` | static/js/logic.js:140-151 | over ascending thresholds, a depth is in bucket k if and only if it is at most threshold k and above threshold k-1 |
| `Styling.CountBelowMonotone` | static/js/logic.js:140-151 | a greater depth exceeds at least as many thresholds |
| `Styling.ChooseColorIsBucketColour` | static/js/logic.js:140-152 | the if/else chain returns the palette colour of the depth's bucket |
| `Styling.ChooseColorFirstMatch` | static/js/logic.js:140-152 | a depth gets colour k if and only if it is at most the k-th threshold and above the previous one (first match wins, both directions) |
| `Styling.ChooseColorMonotone` | static/js/logic.js:140-151 | if `d1 <= d2` then the bucket index of `d1` is at most that of `d2` |
| `Styling.ChooseColorInclusiveBounds` | static/js/logic.js:140-149 | a depth equal to a threshold (10, 30, 50, 70, 90) takes the shallower bucket's colour |
| `Styling.ChooseColorExamples` | static/js/logic.js:140-152 | negative depths and depth 10 give `#98EE00`, 10.01 and 12 give `#D4EE00`, 90 gives `#EA822C`, 90.01 gives `#EA2C2C` |
| `Styling.LegendMatchesChooseColor` | static/js/logic.js:106-111 | the legend lists the six bucket colours in bucket order, so a depth's legend row shows its circle's colour |
| `Layers.PopupWrapsTitle` | static/js/logic.js:35 | the popup is the title between `<h1>` and `</h1>`; the title can be read back from it, and different titles give different popups |
| `Layers.Build` | static/js/logic.js:24-53 | after the loop the three collections have equal length, at most the number of features |
| `Layers.Located` | static/js/logic.js:26-29 | the drawn features are input features that have a geometry, and there are no more of them than the input |
| `Layers.LocatedAppend` | static/js/logic.js:24-29 | the geometry filter distributes over concatenation of feature lists |
| `Layers.LocatedIdempotent` | static/js/logic.js:26-29 | filtering for geometry twice is filtering once |
| `Layers.BuildIsFilterMap` | static/js/logic.js:24-53 | the loop is a filter-map: entry i of each collection comes from the i-th feature with geometry, at `(coordinates[1], coordinates[0])`, with the depth colour, the magnitude radius and the title popup |
| `Layers.LayerCounts` | static/js/logic.js:24-53 | with K features that have geometry, the heat array, the circle array and the marker group each get exactly K entries |
| `Layers.LayersAligned` | static/js/logic.js:31-51 | the i-th marker, heat point and circle share one point; the marker and the circle share one popup; the circle has fill opacity 0.6, stroke black of weight 0.8, a palette colour and a positive radius |
| `Layers.OutputPosition` | static/js/logic.js:24-51 | the k-th feature, if it has a geometry, lands at index j of every collection, where j counts the earlier features with geometry; it carries the swapped point, its depth colour, its magnitude radius and its popup |
| `Layers.OutputOrder` | static/js/logic.js:24-53 | of two features with geometry, the earlier one's entries come first (input order is kept) |
| `Layers.BuildIgnoresUnlocated` | static/js/logic.js:26-29 | features without geometry contribute to none of the collections: dropping them first gives the same layers |
| `Layers.PopulateArrays` | static/js/logic.js:19-53 | the loop's three out-sequences equal `Build(data)`; each has one entry per feature with geometry, and entry i is the point, circle and marker of the i-th such feature |
| `Layers.WorkedExample` | static/js/logic.js:31-51 | the feature at `[-111.5, 38.2, 12.0]` titled "M 4.1 Quake" with magnitude 4.1 gives point `(38.2, -111.5)`, popup `<h1>M 4.1 Quake</h1>`, radius 41000 and colour `#D4EE00` |

## Left out

- Leaflet calls: tile layers, `L.marker`, `L.circle`, `L.markerClusterGroup`,
  `L.heatLayer`, `L.layerGroup`, `L.geoJSON`, `L.map`, the layer control and
  the legend control. These are foreign library code. Their results are plain
  records and sequences in the model.
- The marker cluster group: the loop changes this object in place with
  `addLayer`. The model represents it as the sequence of markers added to it.
  It does not model the group as a shared object or its clustering.
- The fetches in `earthquake_map`, the sequential order of the two fetches,
  and their silent failure. These are asynchronous network I/O with no logic
  of their own.
- The tectonic plate GeoJSON: it is passed to the library unchanged.
- Fixed configuration with nothing to prove:
  - tile URLs and attributions;
  - map centre (38, -111) and zoom 5.5;
  - heat radius 50, blur 0 and maximum opacity 1.0;
  - the default visible layers;
  - the names in the layer control.
- Legend markup, DOM insertion and the range labels. The model records the
  legend rows, colour and label, but proves facts about the colours only.
- `Styling.MarkerSize`: models exact real multiplication, not IEEE
  double rounding of `mag * 10000`.
- `Styling.ChooseColor`: depth is a real. The model leaves out JavaScript
  coercion of a missing or non-numeric depth. For example, with a
  two-element `coordinates`, `undefined <= 10` is false and the colour
  becomes `#EA2C2C`.
- `Layers.PopulateArrays`: a feature's `properties` and `title` are always
  present. The model leaves out the runtime error raised for missing
  `properties` and the coercion of a non-string title into the popup.
