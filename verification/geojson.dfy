/**
  The shape of one earthquake record as the USGS feed delivers it: a GeoJSON
  Feature whose geometry may be absent, and whose properties carry a display
  title and a magnitude that may be missing (JSON null).
 */
module GeoJson {

  datatype Option<+T> = None | Some(value: T)

  /** A GeoJSON Point with `coordinates = [longitude, latitude, depthKm]`. */
  datatype Geometry = Geometry(lon: real, lat: real, depth: real)

  /** The two properties the map reads: `properties.title` and `properties.mag`. */
  datatype Properties = Properties(title: string, mag: Option<real>)

  /** One earthquake event; `geometry` is `None` where the feed has null. */
  datatype Feature = Feature(geometry: Option<Geometry>, properties: Properties)

  /** A map position in the mapping library's `[latitude, longitude]` order. */
  datatype LatLng = LatLng(lat: real, lng: real)
}
