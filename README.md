# MapLibre map controller: style bookkeeping

A model of the style-facing core of the Android `MapLibreMapController` of the
MapLibre GL Flutter plugin. Method-channel calls from Dart arrive at this
controller. It turns them into calls on the engine's style and keeps some
bookkeeping of its own. The model covers:

- the GeoJSON feature registry (`addedFeaturesByLayer`). It records the last
  collection set for each source, and the feature upsert of
  `source#setFeature` works on it;
- the layer stack. Each of the eight layer kinds is added on top or directly
  below a named layer. Layers are removed by id. An active location
  component places its layers above the topmost layer; the `<kind>Layer#add`
  handlers move them back on top after each add, while `style#addLayer` and
  `style#addLayerBelow` do not;
- the interactive layer set and the hit test `firstFeatureOnLayers`. The
  test probes interactive layers from the top of the stack down;
- the classification of a style string by `setStyleString`: inline JSON,
  absolute file path, Flutter asset or URI;
- the resolution-aware asset paths that `getScaledImage` tries for a missing
  style image;
- the drag state (`startDragging` / `stopDragging`);
- the location settings (`setMyLocationEnabled`,
  `setMyLocationTrackingMode`, `setMyLocationRenderMode`) and when they
  enable the location component. Enabling it looks the stored tracking and
  render modes up in fixed tables, so a mode stored earlier without a
  component can fail later.

The controller's state is the class `Controller.StyleFacade`. Each method
updates only the fields named in its `modifies` clause. Pure parts have their
own modules: `FeatureUpsert`, `LayerStack`, `HitTest`, `StyleString` and
`AssetPaths`. Each of them carries the lemmas that state what the operation
means. The class methods are proved against them. The loop of
`setGeoJsonFeature`, the two loops of `firstFeatureOnLayers` and the nested
loops of `getScaledImage` are kept as `while` loops.

A Java exception thrown inside a method-call handler reaches the Dart caller
as an error reply. The model writes such exceptions as `Err` / `Fail` values
with the reason (`MapTypes.Error`).

The model assumes these engine refusals; this code does not show them:
- `addSource` of a source id already present fails;
- `addLayer` of a layer id already present fails;
- `addLayerBelow` with an unknown `below` id fails.

In each case the style stays as it was.

In these places the code behaves in ways a caller may not expect; the model follows the code:

- `addGeoJsonSource` writes the registry entry before `addSource`, so the
  entry is replaced even when the engine then refuses a duplicate id.
- `setGeoJsonSource` fetches the source first. A source of another kind
  fails the cast there, and nothing is written. Then it writes the registry
  entry before `setGeoJson`, so the entry is replaced even when the source
  is missing and the null source is dereferenced.
- `setGeoJsonFeature` does nothing, and reports no error, when either the
  registry entry or the style source is missing.
- A source of another kind fails the cast to a GeoJSON source. This happens
  before the null checks.
- A cached feature without an id throws on `id.equals(...)`. The scan stops
  at the first match, so this only happens when the feature without an id
  comes before any match.
- The raster, hillshade and heatmap add methods have no source-layer
  parameter and ignore the filter passed to them.
- The registry and the interactive set are not cleared when a new style
  replaces the old one.

## Model

| member | source | states |
|---|---|---|
| FeatureUpsert.Upsert | maplibre_gl/android/src/main/java/org/maplibre/maplibregl/MapLibreMapController.java:406-412 | the scan of setGeoJsonFeature; on success the collection keeps its length; the only failure is a feature without id |
| FeatureUpsert.UpsertReplacesFirstMatch | maplibre_gl/android/src/main/java/org/maplibre/maplibregl/MapLibreMapController.java:406-412 | when every earlier feature has an id that differs and feature k matches, the upsert replaces exactly position k; the length and all other positions stay |
| FeatureUpsert.UpsertWithoutMatchIsIdentity | maplibre_gl/android/src/main/java/org/maplibre/maplibregl/MapLibreMapController.java:406-412 | when no feature matches and all have ids, the collection comes back unchanged, with nothing appended |
| FeatureUpsert.UpsertFailsOnMissingId | maplibre_gl/android/src/main/java/org/maplibre/maplibregl/MapLibreMapController.java:407-408 | a feature without an id reached before any match makes the upsert fail with NullFeatureId |
| FeatureUpsert.UpsertKeepsShape | maplibre_gl/android/src/main/java/org/maplibre/maplibregl/MapLibreMapController.java:406-412 | a successful upsert keeps the length, and each position holds either its old feature or the new one |
| FeatureUpsert.ReplaceFirstById | maplibre_gl/android/src/main/java/org/maplibre/maplibregl/MapLibreMapController.java:405-412 | the index loop computes the upsert; on success the length is kept; the only error is NullFeatureId |
| LayerStack.IndexOfLayer | maplibre_gl/android/src/main/java/org/maplibre/maplibregl/MapLibreMapController.java:443 | finds the lowest layer with the id; None exactly when no layer has it |
| LayerStack.InsertLayer | maplibre_gl/android/src/main/java/org/maplibre/maplibregl/MapLibreMapController.java:442-446 | a successful insert adds exactly one layer, the new one; a refusal names the duplicate id or the missing below id |
| LayerStack.InsertOnTop | maplibre_gl/android/src/main/java/org/maplibre/maplibregl/MapLibreMapController.java:444-446 | without a below id, a new layer id ends up topmost, with the old stack below it in its old order |
| LayerStack.InsertBelowLayer | maplibre_gl/android/src/main/java/org/maplibre/maplibregl/MapLibreMapController.java:442-443 | with an existing below id, the new layer sits directly under that layer, and taking it out gives back the old stack |
| LayerStack.InsertRefused | maplibre_gl/android/src/main/java/org/maplibre/maplibregl/MapLibreMapController.java:442-446 | the insert fails exactly when the layer id is taken or the below id is missing |
| LayerStack.RemoveLayer | maplibre_gl/android/src/main/java/org/maplibre/maplibregl/MapLibreMapController.java:1423 | no layer with the id remains, every layer with another id stays, and an absent id changes nothing |
| LayerStack.RemoveLayerIdempotent | maplibre_gl/android/src/main/java/org/maplibre/maplibregl/MapLibreMapController.java:1423 | removing a layer twice equals removing it once |
| LayerStack.RemoveAppend | maplibre_gl/android/src/main/java/org/maplibre/maplibregl/MapLibreMapController.java:1423 | removing from two stacks put together is removing from each, so the layers that stay keep their draw order |
| LayerStack.RemoveInserted | maplibre_gl/android/src/main/java/org/maplibre/maplibregl/MapLibreMapController.java:1423 | removing a layer put at any position of a stack without its id gives back that stack |
| LayerStack.InsertThenRemove | maplibre_gl/android/src/main/java/org/maplibre/maplibregl/MapLibreMapController.java:442-446 | removing a layer just added, on top or below another, gives back the old stack in its old order |
| LayerStack.PlaceLocationLayer | maplibre_gl/android/src/main/java/org/maplibre/maplibregl/MapLibreMapController.java:346-355 | the location component's layer ends up topmost, and no other layer carries its id |
| LayerStack.PlacedLocationNeedsNoUpdate | maplibre_gl/android/src/main/java/org/maplibre/maplibregl/MapLibreMapController.java:340-344 | once the location layer is placed, the topmost layer is the bearing layer and no further update is needed |
| LayerStack.PlaceLocationLayerKeepsOthers | maplibre_gl/android/src/main/java/org/maplibre/maplibregl/MapLibreMapController.java:346-355 | placing the location layer keeps every other layer in its order |
| LayerStack.PlaceLocationLayerIdempotent | maplibre_gl/android/src/main/java/org/maplibre/maplibregl/MapLibreMapController.java:317-321 | placing the location layer a second time changes nothing |
| LayerStack.InsertBelowKeepsTop | maplibre_gl/android/src/main/java/org/maplibre/maplibregl/MapLibreMapController.java:329-344 | adding below an existing layer leaves the topmost layer, and whether the location component must move, unchanged |
| LayerStack.RemoveBelowTopKeepsTop | maplibre_gl/android/src/main/java/org/maplibre/maplibregl/MapLibreMapController.java:329-338 | removing a layer other than the topmost leaves the topmost layer in place |
| LayerStack.AddedOnTopIsLast | maplibre_gl/android/src/main/java/org/maplibre/maplibregl/MapLibreMapController.java:317-321 | after an add on top, the new layer is the last layer, and the location component needs moving exactly when that layer is not the bearing layer |
| HitTest.InteractiveIds | maplibre_gl/android/src/main/java/org/maplibre/maplibregl/MapLibreMapController.java:667-671 | the collected ids are exactly the interactive ids of layers in the stack |
| HitTest.Reverse | maplibre_gl/android/src/main/java/org/maplibre/maplibregl/MapLibreMapController.java:671 | same length, element j taken from the mirrored position |
| HitTest.Probe | maplibre_gl/android/src/main/java/org/maplibre/maplibregl/MapLibreMapController.java:674-680 | a hit names a probed id whose query is non-empty and carries its first feature; there is no hit exactly when every probed query is empty |
| HitTest.FirstFeatureOnLayers | maplibre_gl/android/src/main/java/org/maplibre/maplibregl/MapLibreMapController.java:663-681 | no hit without a style; a hit names an interactive layer of the stack with a non-empty query and carries its first feature |
| HitTest.TopHit | maplibre_gl/android/src/main/java/org/maplibre/maplibregl/MapLibreMapController.java:663-681 | the reference search from the top of the stack; a hit names an interactive id with a non-empty query and carries its first feature |
| HitTest.ProbeReversedIsTopHit | maplibre_gl/android/src/main/java/org/maplibre/maplibregl/MapLibreMapController.java:666-681 | probing the reversed interactive ids gives the search for the topmost hit on the stack |
| HitTest.TopHitIsTopmost | maplibre_gl/android/src/main/java/org/maplibre/maplibregl/MapLibreMapController.java:674-680 | a hit names an interactive layer with a non-empty query, carries that query's first feature, and no interactive layer above it has anything |
| HitTest.TopHitNone | maplibre_gl/android/src/main/java/org/maplibre/maplibregl/MapLibreMapController.java:674-681 | there is no hit exactly when no interactive layer's query finds anything |
| HitTest.FirstFeatureOnLayersIsTopmostHit | maplibre_gl/android/src/main/java/org/maplibre/maplibregl/MapLibreMapController.java:663-681 | no answer without a style; with one, the answer is the topmost interactive hit, and there is none exactly when no interactive layer has a feature |
| StyleString.Trim | maplibre_gl/android/src/main/java/org/maplibre/maplibregl/MapLibreMapController.java:269 | the result is the infix left after stripping characters up to U+0020 at both ends; it starts and ends with a non-blank character |
| StyleString.FirstNonBlankStartsTrim | maplibre_gl/android/src/main/java/org/maplibre/maplibregl/MapLibreMapController.java:269 | position i holds the first non-blank character exactly when the trimmed string is non-empty and starts at i |
| StyleString.TrimIdempotent | maplibre_gl/android/src/main/java/org/maplibre/maplibregl/MapLibreMapController.java:269 | trimming twice equals trimming once |
| StyleString.StyleRequestIgnoresPadding | maplibre_gl/android/src/main/java/org/maplibre/maplibregl/MapLibreMapController.java:269-288 | a trimmed and an untrimmed style string load the same style |
| StyleString.StyleRequestFor | maplibre_gl/android/src/main/java/org/maplibre/maplibregl/MapLibreMapController.java:269-288 | nothing is loaded exactly when the trimmed string is empty; inline JSON is the trimmed string and starts with '{' or '[' |
| StyleString.BlankStyleStringLoadsNothing | maplibre_gl/android/src/main/java/org/maplibre/maplibregl/MapLibreMapController.java:272-273 | nothing is loaded exactly when the string is blank throughout |
| StyleString.JsonStyleString | maplibre_gl/android/src/main/java/org/maplibre/maplibregl/MapLibreMapController.java:274-275 | inline JSON is chosen exactly when the first non-blank character is '{' or '['; the JSON passed on is the trimmed string |
| StyleString.AbsolutePathStyleString | maplibre_gl/android/src/main/java/org/maplibre/maplibregl/MapLibreMapController.java:276-279 | a string whose first non-blank character is '/' loads the file URI of the trimmed path |
| StyleString.AssetStyleString | maplibre_gl/android/src/main/java/org/maplibre/maplibregl/MapLibreMapController.java:280-285 | a string whose first non-blank character is not '{', '[' or '/' and that names no remote scheme loads the asset URI of the lookup of the trimmed string |
| StyleString.RemoteStyleString | maplibre_gl/android/src/main/java/org/maplibre/maplibregl/MapLibreMapController.java:286-287 | a trimmed string starting with http://, https:// or mapbox:// is loaded as that URI |
| StyleString.StyleUriHasScheme | maplibre_gl/android/src/main/java/org/maplibre/maplibregl/MapLibreMapController.java:276-288 | every URI asked for carries one of the schemes file, asset, http, https or mapbox |
| AssetPaths.NatToString | maplibre_gl/android/src/main/java/org/maplibre/maplibregl/MapLibreMapController.java:2145 | the digits of the scale denote its value, with no leading zero |
| AssetPaths.ScaleLabel | maplibre_gl/android/src/main/java/org/maplibre/maplibregl/MapLibreMapController.java:2145 | the label is decimal digits denoting the scale followed by ".0x" |
| AssetPaths.Ceil | maplibre_gl/android/src/main/java/org/maplibre/maplibregl/MapLibreMapController.java:2131 | the least whole number not below the density |
| AssetPaths.SplitPath | maplibre_gl/android/src/main/java/org/maplibre/maplibregl/MapLibreMapController.java:2125 | an id without '/' is its own only piece; no piece holds a '/'; with a '/' the last piece is not empty |
| AssetPaths.CandidateName | maplibre_gl/android/src/main/java/org/maplibre/maplibregl/MapLibreMapController.java:2133-2148 | scale 1 uses the id itself; a higher scale ends in '/' followed by the last piece of the id |
| AssetPaths.AssetCandidates | maplibre_gl/android/src/main/java/org/maplibre/maplibregl/MapLibreMapController.java:2121-2152 | one path per scale from ceil(density) down to 1, entry k for scale n-k; it fails exactly when a scale above 1 meets an id with no path segments |
| AssetPaths.SplitAllAtLastSegment | maplibre_gl/android/src/main/java/org/maplibre/maplibregl/MapLibreMapController.java:2125 | the pieces between '/' rejoin with '/' into the directory part, and the last piece is the last segment |
| AssetPaths.SplitPathAtLastSegment | maplibre_gl/android/src/main/java/org/maplibre/maplibregl/MapLibreMapController.java:2125 | for an id not ending in '/', Java's split gives the directory pieces and the last segment of the id |
| AssetPaths.CandidateInsertsScaleDirectory | maplibre_gl/android/src/main/java/org/maplibre/maplibregl/MapLibreMapController.java:2140-2148 | a path above scale 1 is the image id with the directory "i.0x/" inserted before its last segment |
| AssetPaths.SplitPathEmpty | maplibre_gl/android/src/main/java/org/maplibre/maplibregl/MapLibreMapController.java:2125 | Java's split gives no pieces exactly for a non-empty id made only of slashes |
| Controller.Draggable | maplibre_gl/android/src/main/java/org/maplibre/maplibregl/MapLibreMapController.java:2228-2231 | a missing or null "draggable" property reads as false; a boolean reads as itself |
| Controller.AsBoolean | maplibre_gl/android/src/main/java/org/maplibre/maplibregl/MapLibreMapController.java:2230 | Gson's getAsBoolean: a boolean reads as itself, a string never fails, a number never reads as true, null and objects fail |
| Controller.ModeTables | maplibre_gl/android/src/main/java/org/maplibre/maplibregl/MapLibreMapController.java:2086-2097 | enabling the location component fails exactly when the tracking mode is outside 0..3 or the render mode outside 0..2 |
| Controller.StyleFacade.constructor | maplibre_gl/android/src/main/java/org/maplibre/maplibregl/MapLibreMapController.java:132-149 | no style, an empty registry and interactive set, no map, no location component, my-location off with both modes 0, no drag |
| Controller.StyleFacade.OnMapReady | maplibre_gl/android/src/main/java/org/maplibre/maplibregl/MapLibreMapController.java:228-229 | the map becomes available |
| Controller.StyleFacade.OnStyleLoaded | maplibre_gl/android/src/main/java/org/maplibre/maplibregl/MapLibreMapController.java:154-164 | the loaded style replaces the current one; with my-location on and no component the component is enabled, its layer placed on top of the new style, with the outcome of the mode tables |
| Controller.StyleFacade.EnableLocationComponent | maplibre_gl/android/src/main/java/org/maplibre/maplibregl/MapLibreMapController.java:294-315 | with permission the component becomes active with its layer placed above the topmost layer, before the mode tables are consulted, and the result is their outcome; without it nothing changes |
| Controller.StyleFacade.UpdateMyLocationEnabled | maplibre_gl/android/src/main/java/org/maplibre/maplibregl/MapLibreMapController.java:2038-2040 | the component is enabled, and its layer placed, exactly when there is none, a style is loaded, my-location is on and the permission is granted |
| Controller.StyleFacade.AddGeoJsonSource | maplibre_gl/android/src/main/java/org/maplibre/maplibregl/MapLibreMapController.java:384-390 | the registry entry is always replaced; a duplicate id fails with the style unchanged; otherwise the source is added and nothing else changes |
| Controller.StyleFacade.SetGeoJsonSource | maplibre_gl/android/src/main/java/org/maplibre/maplibregl/MapLibreMapController.java:392-398 | a source of another kind fails with registry and style unchanged; otherwise the registry entry is replaced, a missing source fails with the style unchanged, and else only that source's data changes |
| Controller.StyleFacade.SetGeoJsonFeature | maplibre_gl/android/src/main/java/org/maplibre/maplibregl/MapLibreMapController.java:400-416 | a source of another kind fails; with no entry or no source nothing changes and no error is reported; an upsert error leaves everything as it was; otherwise registry and source both get the upserted collection |
| Controller.StyleFacade.AddLayer | maplibre_gl/android/src/main/java/org/maplibre/maplibregl/MapLibreMapController.java:418-661 | the style gets the inserted stack or, on refusal, stays; the interactive set grows by the id exactly for an accepted vector layer with interaction enabled |
| Controller.StyleFacade.UpdateLocationComponentLayer | maplibre_gl/android/src/main/java/org/maplibre/maplibregl/MapLibreMapController.java:317-321 | the location layer is moved on top exactly when the component is active and the top is not the bearing layer; afterwards an active component's bearing layer is topmost |
| Controller.StyleFacade.HandleLayerAdd | maplibre_gl/android/src/main/java/org/maplibre/maplibregl/MapLibreMapController.java:986-1247 | the layer is added as by AddLayer; the update (lines 1011, 1041, 1116, 1147, 1177, 1199, 1221, 1243) runs only after success; after a success with an active component the bearing layer is topmost |
| Controller.StyleFacade.HandleStyleAddLayer | maplibre_gl/android/src/main/java/org/maplibre/maplibregl/MapLibreMapController.java:1368-1413 | a raster layer with no source layer, filter or interaction is added on top or below the given id; the location layer is not moved |
| Controller.StyleFacade.RemoveLayer | maplibre_gl/android/src/main/java/org/maplibre/maplibregl/MapLibreMapController.java:1414-1427 | the layer leaves the stack and the interactive set; sources stay |
| Controller.StyleFacade.FirstFeatureOnLayers | maplibre_gl/android/src/main/java/org/maplibre/maplibregl/MapLibreMapController.java:663-681 | the two loops compute the hit test, which is the topmost interactive hit |
| Controller.StyleFacade.StartDragging | maplibre_gl/android/src/main/java/org/maplibre/maplibregl/MapLibreMapController.java:2227-2239 | only a draggable feature starts a drag, with origin and previous position both set to the origin; otherwise the drag state is unchanged; drag state stays consistent |
| Controller.StyleFacade.StopDragging | maplibre_gl/android/src/main/java/org/maplibre/maplibregl/MapLibreMapController.java:2241-2245 | the dragged feature and both positions are cleared |
| Controller.StyleFacade.SetMyLocationEnabled | maplibre_gl/android/src/main/java/org/maplibre/maplibregl/MapLibreMapController.java:1922-1930 | the flag is set; the refresh happens exactly when the value changed and the map is ready, and then enables a missing component, placing its layer, when my-location is now on |
| Controller.StyleFacade.SetMyLocationTrackingMode | maplibre_gl/android/src/main/java/org/maplibre/maplibregl/MapLibreMapController.java:1933-1945 | with a map the component is first brought up to date, and a failure there stops the call; otherwise the mode is stored, and a changed mode outside the four-entry table fails when map and component exist |
| Controller.StyleFacade.OnCameraTrackingDismissed | maplibre_gl/android/src/main/java/org/maplibre/maplibregl/MapLibreMapController.java:1681-1684 | the tracking mode drops back to 0 |
| Controller.StyleFacade.SetMyLocationRenderMode | maplibre_gl/android/src/main/java/org/maplibre/maplibregl/MapLibreMapController.java:1948-1956 | the field is set; a changed mode is applied exactly when map and component exist; applying a mode outside the three-entry table fails |

## Left out

- Method-channel dispatch and argument decoding (`onMethodCall`). The handlers are modelled by the operations they call. The "style is null" error reply is not modelled: the style-using operations require a loaded style.
- Parsing of GeoJSON, filters and property values. Collections, features and filters arrive already parsed.
- Paint and layout property application, `setLayerProperties`, `style#setFilter`, `style#getFilter`, `setVisibility`, the generic `style#addSource` / `style#removeSource`, `style#getLayerIds` and `style#getSourceIds`. These are not part of this model.
- The engine's `queryRenderedFeatures`. It is a parameter of the hit test, fixed per screen rectangle.
- The camera, location engine, permission checks, lifecycle, compass, attribution and annotation options. The permission result is a parameter of the location methods.
- The engine side of the location component beyond its layer placement: the activation options other than `layerAbove`, starting and stopping location updates, and switching the component on or off. The component's layers are represented by the bearing layer alone, and its source `mapbox-location-source` is not added to the model's sources. The map's `getStyle()` is taken to be the controller's loaded style.
- When a new style loads while the component is already active, the engine re-adds the component's layers to it. The model takes the loaded style as given and does not add them.
- The camera-bounds and click-listener calls made in `onStyleLoaded`.
- `clearLocationComponentLayer` at the start of `setStyleString`, and the `setStyle` call itself. `StyleString.StyleRequestFor` models only the choice of what to load.
- The Flutter asset lookup `getAssetFilePathByName`. It is a foreign call and is passed in as a function parameter.
- The second loop of `getScaledImage`, which opens and decodes the first readable asset as a bitmap. This is file I/O.
- The drag delta arithmetic of `onMoveBegin` / `onMove` and the drag events sent to Dart. They use screen geometry and floating point.
- AssetPaths.ScaleLabel: writes the scale as digits followed by ".0x". It does not model Java printing floats of 10^7 and above in scientific notation.
- AssetPaths.AssetCandidates: the density is a finite real number. A NaN density, for which `(int) Math.ceil` gives 0 and no candidate is tried, and an infinite or very large density, for which the cast saturates at `Integer.MAX_VALUE`, are not modelled.
- LayerStack.InsertLayer: the refusal of an unknown `below` id is an assumption about the engine, which this code does not show. The engine may instead put the layer on top. In that case the source would add the id to the interactive set and run the location update in `Controller.StyleFacade.HandleLayerAdd`, where the model reports `Fail(LayerNotFound)` and changes nothing.
- Controller.StyleFacade.AddLayer: the zoom bounds are exact reals. The handlers narrow the Dart double to a Java float (lines 1006-1007 and the matching lines of the other add handlers), and that rounding is not modelled.
- Controller.Draggable: `Boolean.parseBoolean` is modelled with ASCII case folding only.
- Concurrency: callbacks arrive on the main thread one at a time, and the model treats each call as atomic.
