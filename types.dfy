/** The values the controller works with: features, layers, sources, the style
    they live in, and the failures a method-call handler reports. */
module MapTypes {

  datatype Option<+T> = None | Some(value: T)

  /** Why a handler replied with an error. A Java exception thrown inside a
      method-call handler reaches the caller as an error reply, so the thrown
      exceptions of the source appear here as well as its explicit errors. */
  datatype Error =
    | DuplicateSource(sourceId: string)    // the engine refuses a second source with one id
    | SourceNotFound(sourceId: string)     // getSourceAs returned null and was dereferenced
    | NotGeoJsonSource(sourceId: string)   // getSourceAs cast a non-GeoJSON source
    | DuplicateLayer(layerId: string)      // the engine refuses a second layer with one id
    | LayerNotFound(layerId: string)       // addLayerBelow named a layer that is not there
    | NullFeatureId                        // a cached feature without id was compared
    | NotBoolean                           // a property could not be read as a boolean
    | EmptyImagePath                       // the image id split into no segments at all
    | RenderModeOutOfRange(mode: int)      // the render-mode table has three entries
    | TrackingModeOutOfRange(mode: int)    // the camera-tracking table has four entries

  datatype Result<+T> = Ok(value: T) | Err(error: Error)

  /** The reply of a handler that returns no value. */
  datatype Outcome = Pass | Fail(error: Error)

  /** A GeoJSON property value as Gson holds it. */
  datatype PropertyValue =
    | JsonNull
    | JsonBool(b: bool)
    | JsonString(s: string)
    | JsonNumber(text: string)
    | JsonArray(items: seq<PropertyValue>)
    | JsonObject(members: map<string, PropertyValue>)

  /** A parsed GeoJSON feature; the geometry is opaque to the controller. */
  type Geometry = string

  datatype Feature = Feature(id: Option<string>, properties: map<string, PropertyValue>, geometry: Geometry)

  /** A feature collection is the ordered list of its features. */
  type FeatureCollection = seq<Feature>

  /** The eight layer kinds the controller can add. */
  datatype LayerKind = Symbol | Line | Fill | FillExtrusion | Circle | Raster | Hillshade | Heatmap

  /** An already parsed filter expression, opaque here. */
  type Filter = string

  /** A layer as the style holds it: the options the controller set on it,
      `None` where it left the engine's default in place. Paint and layout
      properties are applied by the engine and are not part of the model. */
  datatype Layer = Layer(
    id: string,
    kind: LayerKind,
    sourceId: string,
    sourceLayer: Option<string>,
    minZoom: Option<real>,
    maxZoom: Option<real>,
    filter: Option<Filter>)

  /** A source of the style: GeoJSON sources carry the collection last pushed
      to them; every other kind of source is opaque. */
  datatype Source = GeoJsonSource(data: FeatureCollection) | OtherSource

  /** The engine's style: the layers in draw order (bottom first) and the
      sources by id. */
  datatype Style = Style(layers: seq<Layer>, sources: map<string, Source>)

  datatype LatLng = LatLng(latitude: real, longitude: real)
}
