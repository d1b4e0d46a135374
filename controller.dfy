/** The bookkeeping MapLibreMapController keeps around the engine's style:
    the feature registry, the interactive layer set, the drag state and the
    location settings. */
module Controller {
  import opened MapTypes
  import FeatureUpsert
  import LayerStack
  import HitTest

  function AsciiLower(c: char): char
  {
    if 'A' <= c <= 'Z' then (c as int + 32) as char else c
  }

  /** `Boolean.parseBoolean`: "true" in any letter case. */
  predicate ParsesAsTrue(s: string)
  {
    |s| == 4 && AsciiLower(s[0]) == 't' && AsciiLower(s[1]) == 'r' &&
    AsciiLower(s[2]) == 'u' && AsciiLower(s[3]) == 'e'
  }

  /** Gson's `getAsBoolean`: a boolean is itself; a string or number is
      parsed; a one-element array reads its element; null, objects and other
      arrays throw. */
  function AsBoolean(v: PropertyValue): (r: Result<bool>)
    ensures v.JsonBool? ==> r == Ok(v.b)
    ensures v.JsonString? ==> r.Ok?
    ensures v.JsonNumber? && 't' !in v.text && 'T' !in v.text ==> r == Ok(false)
    ensures v.JsonNull? || v.JsonObject? ==> r == Err(NotBoolean)
  {
    match v
    case JsonBool(b) => Ok(b)
    case JsonString(s) => Ok(ParsesAsTrue(s))
    case JsonNumber(text) => Ok(ParsesAsTrue(text))
    case JsonArray(items) => if |items| == 1 then AsBoolean(items[0]) else Err(NotBoolean)
    case JsonNull => Err(NotBoolean)
    case JsonObject(_) => Err(NotBoolean)
  }

  /** Whether startDragging accepts the feature: its "draggable" property
      read as a boolean, false when it is missing or null. */
  function Draggable(f: Feature): (r: Result<bool>)
    ensures ("draggable" !in f.properties || f.properties["draggable"] == JsonNull) ==> r == Ok(false)
    ensures "draggable" in f.properties && f.properties["draggable"] == JsonBool(true) ==> r == Ok(true)
    ensures "draggable" in f.properties && f.properties["draggable"] == JsonBool(false) ==> r == Ok(false)
  {
    if "draggable" in f.properties && f.properties["draggable"] != JsonNull
    then AsBoolean(f.properties["draggable"])
    else Ok(false)
  }

  /** The two table lookups enableLocationComponent makes after activating
      the component: the camera mode in a four-entry table, then the render
      mode in a three-entry table. An index outside a table throws. */
  function ModeTables(trackingMode: int, renderMode: int): (o: Outcome)
    ensures o == Pass <==> 0 <= trackingMode < 4 && 0 <= renderMode < 3
  {
    if !(0 <= trackingMode < 4) then Fail(TrackingModeOutOfRange(trackingMode))
    else if !(0 <= renderMode < 3) then Fail(RenderModeOutOfRange(renderMode))
    else Pass
  }

  class StyleFacade {
    /** The engine's style; `None` until the first style has loaded. */
    var style: Option<Style>
    /** The last collection the controller set for each GeoJSON source id. */
    var addedFeaturesByLayer: map<string, FeatureCollection>
    /** The layers opted into hit-testing. */
    var interactiveFeatureLayerIds: set<string>
    /** `mapLibreMap != null`. */
    var mapReady: bool
    /** `locationComponent != null`. */
    var locationComponentActive: bool
    var myLocationEnabled: bool
    var myLocationTrackingMode: int
    var myLocationRenderMode: int
    var draggedFeature: Option<Feature>
    var dragOrigin: Option<LatLng>
    var dragPrevious: Option<LatLng>

    /** A drag is either fully under way, on a draggable feature with both
        positions recorded, or not at all. */
    ghost predicate DragConsistent()
      reads this
    {
      (draggedFeature.Some? <==> dragOrigin.Some?) &&
      (draggedFeature.Some? <==> dragPrevious.Some?) &&
      (draggedFeature.Some? ==> Draggable(draggedFeature.value) == Ok(true))
    }

    constructor ()
      ensures style.None? && addedFeaturesByLayer == map[] && interactiveFeatureLayerIds == {}
      ensures !mapReady && !locationComponentActive
      ensures !myLocationEnabled && myLocationTrackingMode == 0 && myLocationRenderMode == 0
      ensures draggedFeature.None? && DragConsistent()
    {
      style := None;
      addedFeaturesByLayer := map[];
      interactiveFeatureLayerIds := {};
      mapReady := false;
      locationComponentActive := false;
      myLocationEnabled := false;
      myLocationTrackingMode := 0;
      myLocationRenderMode := 0;
      draggedFeature := None;
      dragOrigin := None;
      dragPrevious := None;
    }

    /** onMapReady: the map object is now available. */
    method OnMapReady()
      modifies this`mapReady
      ensures mapReady
    {
      mapReady := true;
    }

    /** onStyleLoaded: the new style replaces the old one, and the location
        component is enabled if my-location is on and there is none yet.
        The registry and the interactive set are kept as they are, even
        though they may now name sources and layers the new style lacks.
        This is an engine callback, so a failure here is not a reply but an
        uncaught exception. */
    method OnStyleLoaded(st: Style, hasPermission: bool) returns (o: Outcome)
      requires mapReady
      modifies this`style, this`locationComponentActive
      ensures var enables := !old(locationComponentActive) && myLocationEnabled && hasPermission;
        locationComponentActive == (old(locationComponentActive) || enables) &&
        style == (if enables then Some(LayerStack.WithLocationLayer(st)) else Some(st)) &&
        o == if enables then ModeTables(myLocationTrackingMode, myLocationRenderMode) else Pass
    {
      style := Some(st);
      o := UpdateMyLocationEnabled(hasPermission);
    }

    /** enableLocationComponent: with the permission granted, the map's
        location component becomes the controller's and is activated with
        its layers placed above the style's topmost layer; then the stored
        tracking and render modes are applied through their tables. Without
        the permission nothing changes. */
    method EnableLocationComponent(hasPermission: bool) returns (o: Outcome)
      requires mapReady && style.Some?
      modifies this`locationComponentActive, this`style
      ensures locationComponentActive == (old(locationComponentActive) || hasPermission)
      ensures style == if hasPermission then Some(LayerStack.WithLocationLayer(old(style.value))) else old(style)
      ensures o == if hasPermission then ModeTables(myLocationTrackingMode, myLocationRenderMode) else Pass
    {
      if hasPermission {
        locationComponentActive := true;
        style := Some(LayerStack.WithLocationLayer(style.value));
        if !(0 <= myLocationTrackingMode < 4) {
          return Fail(TrackingModeOutOfRange(myLocationTrackingMode));
        }
        if !(0 <= myLocationRenderMode < 3) {
          return Fail(RenderModeOutOfRange(myLocationRenderMode));
        }
      }
      return Pass;
    }

    /** updateMyLocationEnabled: without a location component, once the map
        has a style and my-location is on, the component is enabled.
        Starting or stopping location updates and switching the component
        on or off are engine calls that change no state of the controller. */
    method UpdateMyLocationEnabled(hasPermission: bool) returns (o: Outcome)
      requires mapReady
      modifies this`locationComponentActive, this`style
      ensures var enables := !old(locationComponentActive) && old(style).Some? && myLocationEnabled && hasPermission;
        locationComponentActive == (old(locationComponentActive) || enables) &&
        style == (if enables then Some(LayerStack.WithLocationLayer(old(style).value)) else old(style)) &&
        o == if enables then ModeTables(myLocationTrackingMode, myLocationRenderMode) else Pass
    {
      o := Pass;
      if !locationComponentActive && style.Some? && myLocationEnabled {
        o := EnableLocationComponent(hasPermission);
      }
    }

    /** updateLocationComponentLayer: with a location component whose
        layers are not topmost, its style is re-applied, which places its
        layers above the current topmost layer. */
    method UpdateLocationComponentLayer() returns (moved: bool)
      requires style.Some?
      modifies this`style
      ensures moved == (locationComponentActive && LayerStack.LocationComponentRequiresUpdate(old(style)))
      ensures style == if moved then Some(LayerStack.WithLocationLayer(old(style.value))) else old(style)
      ensures locationComponentActive && |style.value.layers| > 0 ==>
        LayerStack.LastLayerId(style) == Some(LayerStack.LocationBearingLayer)
    {
      moved := locationComponentActive && LayerStack.LocationComponentRequiresUpdate(style);
      if moved {
        LayerStack.PlacedLocationNeedsNoUpdate(style.value.layers, style.value.sources);
        style := Some(LayerStack.WithLocationLayer(style.value));
      }
    }

    /** addGeoJsonSource: the registry entry is written first, so it is
        replaced even when the engine then refuses a duplicate source id. */
    method AddGeoJsonSource(sourceId: string, collection: FeatureCollection) returns (o: Outcome)
      requires style.Some?
      modifies this`addedFeaturesByLayer, this`style
      ensures addedFeaturesByLayer == old(addedFeaturesByLayer)[sourceId := collection]
      ensures sourceId in old(style.value.sources) ==>
        o == Fail(DuplicateSource(sourceId)) && style == old(style)
      ensures sourceId !in old(style.value.sources) ==>
        o == Pass &&
        style == Some(Style(old(style.value.layers), old(style.value.sources)[sourceId := GeoJsonSource(collection)]))
    {
      addedFeaturesByLayer := addedFeaturesByLayer[sourceId := collection];
      var st := style.value;
      if sourceId in st.sources {
        return Fail(DuplicateSource(sourceId));
      }
      style := Some(Style(st.layers, st.sources[sourceId := GeoJsonSource(collection)]));
      return Pass;
    }

    /** setGeoJsonSource: the source is fetched first, and a source of
        another kind fails the cast before anything is written. Then the
        registry entry is written, so it is replaced even when the source is
        missing and the null source is dereferenced. */
    method SetGeoJsonSource(sourceId: string, collection: FeatureCollection) returns (o: Outcome)
      requires style.Some?
      modifies this`addedFeaturesByLayer, this`style
      ensures var sources := old(style.value.sources);
        if sourceId in sources && sources[sourceId].OtherSource? then
          o == Fail(NotGeoJsonSource(sourceId)) &&
          addedFeaturesByLayer == old(addedFeaturesByLayer) && style == old(style)
        else
          addedFeaturesByLayer == old(addedFeaturesByLayer)[sourceId := collection] &&
          if sourceId !in sources then
            o == Fail(SourceNotFound(sourceId)) && style == old(style)
          else
            o == Pass && style == Some(Style(old(style.value.layers), sources[sourceId := GeoJsonSource(collection)]))
    {
      var st := style.value;
      if sourceId in st.sources && st.sources[sourceId].OtherSource? {
        return Fail(NotGeoJsonSource(sourceId));
      }
      addedFeaturesByLayer := addedFeaturesByLayer[sourceId := collection];
      if sourceId !in st.sources {
        return Fail(SourceNotFound(sourceId));
      }
      style := Some(Style(st.layers, st.sources[sourceId := GeoJsonSource(collection)]));
      return Pass;
    }

    /** setGeoJsonFeature: with both a registry entry and a GeoJSON source
        for the id, the cached collection has its first feature of the same
        id replaced, and the whole collection is pushed to the source.
        Without either, nothing happens and no error is reported. */
    method SetGeoJsonFeature(sourceId: string, feature: Feature) returns (o: Outcome)
      requires style.Some?
      modifies this`addedFeaturesByLayer, this`style
      ensures var sources := old(style.value.sources);
        var cached := old(addedFeaturesByLayer);
        if sourceId in sources && sources[sourceId].OtherSource? then
          o == Fail(NotGeoJsonSource(sourceId)) &&
          addedFeaturesByLayer == cached && style == old(style)
        else if sourceId !in cached || sourceId !in sources then
          o == Pass && addedFeaturesByLayer == cached && style == old(style)
        else if FeatureUpsert.Upsert(cached[sourceId], feature).Err? then
          o == Fail(NullFeatureId) && addedFeaturesByLayer == cached && style == old(style)
        else
          var updated := FeatureUpsert.Upsert(cached[sourceId], feature).value;
          o == Pass && addedFeaturesByLayer == cached[sourceId := updated] &&
          style == Some(Style(old(style.value.layers), sources[sourceId := GeoJsonSource(updated)]))
    {
      var st := style.value;
      var cached := if sourceId in addedFeaturesByLayer then Some(addedFeaturesByLayer[sourceId]) else None;
      var source := if sourceId in st.sources then Some(st.sources[sourceId]) else None;
      if source.Some? && source.value.OtherSource? {
        return Fail(NotGeoJsonSource(sourceId));
      }
      if cached.Some? && source.Some? {
        var r := FeatureUpsert.ReplaceFirstById(cached.value, feature);
        if r.Err? {
          return Fail(r.error);
        }
        addedFeaturesByLayer := addedFeaturesByLayer[sourceId := r.value];
        style := Some(Style(st.layers, st.sources[sourceId := GeoJsonSource(r.value)]));
      }
      return Pass;
    }

    /** The add method of each layer kind. The layer goes on top, or directly
        below `belowLayerId`; for symbol, line, fill, fill-extrusion and
        circle layers with interaction enabled its id joins the interactive
        set once the engine has accepted the layer. The raster, hillshade
        and heatmap methods take no interaction flag, so it is ignored for
        them. */
    method AddLayer(kind: LayerKind, layerId: string, sourceId: string, belowLayerId: Option<string>,
                    sourceLayer: Option<string>, minZoom: Option<real>, maxZoom: Option<real>,
                    enableInteraction: bool, filter: Option<Filter>)
      returns (o: Outcome)
      requires style.Some?
      modifies this`style, this`interactiveFeatureLayerIds
      ensures var layer := LayerStack.MakeLayer(kind, layerId, sourceId, sourceLayer, minZoom, maxZoom, filter);
        var inserted := LayerStack.InsertLayer(old(style.value.layers), layer, belowLayerId);
        (inserted.Err? ==> o == Fail(inserted.error) && style == old(style)) &&
        (inserted.Ok? ==> o == Pass && style == Some(Style(inserted.value, old(style.value.sources))))
      ensures interactiveFeatureLayerIds ==
        if o.Pass? && LayerStack.SupportsInteraction(kind) && enableInteraction
        then old(interactiveFeatureLayerIds) + {layerId}
        else old(interactiveFeatureLayerIds)
    {
      var st := style.value;
      var layer := LayerStack.MakeLayer(kind, layerId, sourceId, sourceLayer, minZoom, maxZoom, filter);
      var inserted := LayerStack.InsertLayer(st.layers, layer, belowLayerId);
      if inserted.Err? {
        return Fail(inserted.error);
      }
      style := Some(Style(inserted.value, st.sources));
      if LayerStack.SupportsInteraction(kind) && enableInteraction {
        interactiveFeatureLayerIds := interactiveFeatureLayerIds + {layerId};
      }
      o := Pass;
    }

    /** The `<kind>Layer#add` handlers: the layer is added, and once the
        engine has accepted it the location component is moved back on top
        if the new layer went above it. A refused layer throws before the
        update. */
    method HandleLayerAdd(kind: LayerKind, layerId: string, sourceId: string, belowLayerId: Option<string>,
                          sourceLayer: Option<string>, minZoom: Option<real>, maxZoom: Option<real>,
                          enableInteraction: bool, filter: Option<Filter>)
      returns (o: Outcome, moved: bool)
      requires style.Some?
      modifies this`style, this`interactiveFeatureLayerIds
      ensures var layer := LayerStack.MakeLayer(kind, layerId, sourceId, sourceLayer, minZoom, maxZoom, filter);
        var inserted := LayerStack.InsertLayer(old(style.value.layers), layer, belowLayerId);
        (inserted.Err? ==> o == Fail(inserted.error) && !moved && style == old(style)) &&
        (inserted.Ok? ==> var added := Style(inserted.value, old(style.value.sources));
          o == Pass &&
          moved == (locationComponentActive && LayerStack.LocationComponentRequiresUpdate(Some(added))) &&
          style == if moved then Some(LayerStack.WithLocationLayer(added)) else Some(added))
      ensures interactiveFeatureLayerIds ==
        if o.Pass? && LayerStack.SupportsInteraction(kind) && enableInteraction
        then old(interactiveFeatureLayerIds) + {layerId}
        else old(interactiveFeatureLayerIds)
      ensures o.Pass? && locationComponentActive ==>
        LayerStack.LastLayerId(style) == Some(LayerStack.LocationBearingLayer)
    {
      o := AddLayer(kind, layerId, sourceId, belowLayerId, sourceLayer, minZoom, maxZoom, enableInteraction, filter);
      moved := false;
      if o.Pass? {
        moved := UpdateLocationComponentLayer();
      }
    }

    /** The `style#addLayer` and `style#addLayerBelow` handlers: a raster
        layer over an image source, on top or below `belowLayerId`, with no
        source layer, filter or interaction. Unlike the `<kind>Layer#add`
        handlers they do not move the location component, so a layer added
        on top stays above it. */
    method HandleStyleAddLayer(imageLayerId: string, imageSourceId: string,
                               minZoom: Option<real>, maxZoom: Option<real>, belowLayerId: Option<string>)
      returns (o: Outcome)
      requires style.Some?
      modifies this`style, this`interactiveFeatureLayerIds
      ensures var layer := Layer(imageLayerId, Raster, imageSourceId, None, minZoom, maxZoom, None);
        var inserted := LayerStack.InsertLayer(old(style.value.layers), layer, belowLayerId);
        (inserted.Err? ==> o == Fail(inserted.error) && style == old(style)) &&
        (inserted.Ok? ==> o == Pass && style == Some(Style(inserted.value, old(style.value.sources))))
      ensures interactiveFeatureLayerIds == old(interactiveFeatureLayerIds)
    {
      o := AddLayer(Raster, imageLayerId, imageSourceId, belowLayerId, None, minZoom, maxZoom, false, None);
    }

    /** style#removeLayer: the layer leaves the style and its id the
        interactive set; an unknown id is no error. */
    method RemoveLayer(layerId: string)
      requires style.Some?
      modifies this`style, this`interactiveFeatureLayerIds
      ensures style == Some(Style(LayerStack.RemoveLayer(old(style.value.layers), layerId), old(style.value.sources)))
      ensures interactiveFeatureLayerIds == old(interactiveFeatureLayerIds) - {layerId}
    {
      var st := style.value;
      style := Some(Style(LayerStack.RemoveLayer(st.layers, layerId), st.sources));
      interactiveFeatureLayerIds := interactiveFeatureLayerIds - {layerId};
    }

    /** firstFeatureOnLayers: collect the interactive layer ids in draw
        order, reverse them, and return the first feature of the first one
        the query finds anything on. */
    method FirstFeatureOnLayers(query: HitTest.Query) returns (hit: Option<(Feature, string)>)
      ensures hit == HitTest.FirstFeatureOnLayers(style, interactiveFeatureLayerIds, query)
    {
      if style.None? {
        return None;
      }
      var layers := style.value.layers;
      var layersInOrder: seq<string> := [];
      var i := 0;
      while i < |layers|
        invariant 0 <= i <= |layers|
        invariant layersInOrder == HitTest.InteractiveIds(layers[..i], interactiveFeatureLayerIds)
      {
        assert layers[..i + 1][..i] == layers[..i];
        var id := layers[i].id;
        if id in interactiveFeatureLayerIds {
          layersInOrder := layersInOrder + [id];
        }
        i := i + 1;
      }
      assert layers[..|layers|] == layers;
      var reversed := HitTest.Reverse(layersInOrder);
      var j := 0;
      while j < |reversed|
        invariant 0 <= j <= |reversed|
        invariant HitTest.Probe(reversed, query) == HitTest.Probe(reversed[j..], query)
      {
        var features := query(reversed[j]);
        if features != [] {
          return Some((features[0], reversed[j]));
        }
        assert reversed[j..][1..] == reversed[j + 1..];
        j := j + 1;
      }
      return None;
    }

    /** startDragging: only a draggable feature starts a drag, recording it
        and the origin as both the start and the previous position. Reading
        a "draggable" value that is not a boolean throws. */
    method StartDragging(feature: Feature, origin: LatLng) returns (r: Result<bool>)
      requires DragConsistent()
      modifies this`draggedFeature, this`dragOrigin, this`dragPrevious
      ensures r == Draggable(feature) && DragConsistent()
      ensures r == Ok(true) ==>
        draggedFeature == Some(feature) && dragOrigin == Some(origin) && dragPrevious == Some(origin)
      ensures r != Ok(true) ==>
        draggedFeature == old(draggedFeature) && dragOrigin == old(dragOrigin) && dragPrevious == old(dragPrevious)
    {
      r := Draggable(feature);
      if r == Ok(true) {
        draggedFeature := Some(feature);
        dragPrevious := Some(origin);
        dragOrigin := Some(origin);
      }
    }

    /** stopDragging: forget the dragged feature and both positions. */
    method StopDragging()
      modifies this`draggedFeature, this`dragOrigin, this`dragPrevious
      ensures draggedFeature.None? && dragOrigin.None? && dragPrevious.None? && DragConsistent()
    {
      draggedFeature := None;
      dragOrigin := None;
      dragPrevious := None;
    }

    /** setMyLocationEnabled: setting the current value returns at once;
        otherwise the value is stored and, once the map is ready, the
        location component is brought up to date (`refresh`), which enables
        it if needed. */
    method SetMyLocationEnabled(enabled: bool, hasPermission: bool) returns (refresh: bool, o: Outcome)
      modifies this`myLocationEnabled, this`locationComponentActive, this`style
      ensures myLocationEnabled == enabled
      ensures refresh == (old(myLocationEnabled) != enabled && mapReady)
      ensures var enables := refresh && !old(locationComponentActive) && old(style).Some? && enabled && hasPermission;
        locationComponentActive == (old(locationComponentActive) || enables) &&
        style == (if enables then Some(LayerStack.WithLocationLayer(old(style).value)) else old(style)) &&
        o == if enables then ModeTables(myLocationTrackingMode, myLocationRenderMode) else Pass
    {
      if myLocationEnabled == enabled {
        return false, Pass;
      }
      myLocationEnabled := enabled;
      refresh := mapReady;
      o := Pass;
      if mapReady {
        o := UpdateMyLocationEnabled(hasPermission);
      }
    }

    /** setMyLocationTrackingMode: with a map, the location component is
        first brought up to date; then setting the current mode returns;
        otherwise the mode is stored and, with a map and a component,
        applied through the four-entry camera-mode table. */
    method SetMyLocationTrackingMode(mode: int, hasPermission: bool) returns (o: Outcome)
      modifies this`myLocationTrackingMode, this`locationComponentActive, this`style
      ensures var enables := mapReady && !old(locationComponentActive) && old(style).Some? && myLocationEnabled && hasPermission;
        var first := if enables then ModeTables(old(myLocationTrackingMode), myLocationRenderMode) else Pass;
        locationComponentActive == (old(locationComponentActive) || enables) &&
        style == (if enables then Some(LayerStack.WithLocationLayer(old(style).value)) else old(style)) &&
        if first.Fail? then
          o == first && myLocationTrackingMode == old(myLocationTrackingMode)
        else
          myLocationTrackingMode == mode &&
          o == if old(myLocationTrackingMode) != mode && mapReady && locationComponentActive && !(0 <= mode < 4)
               then Fail(TrackingModeOutOfRange(mode)) else Pass
    {
      if mapReady {
        o := UpdateMyLocationEnabled(hasPermission);
        if o.Fail? {
          return;
        }
      }
      if myLocationTrackingMode == mode {
        return Pass;
      }
      myLocationTrackingMode := mode;
      if mapReady && locationComponentActive && !(0 <= mode < 4) {
        return Fail(TrackingModeOutOfRange(mode));
      }
      return Pass;
    }

    /** onCameraTrackingDismissed: a gesture ended camera tracking, so the
        stored tracking mode drops back to none. */
    method OnCameraTrackingDismissed()
      modifies this`myLocationTrackingMode
      ensures myLocationTrackingMode == 0
    {
      myLocationTrackingMode := 0;
    }

    /** setMyLocationRenderMode: setting the current value returns at once;
        otherwise the mode is stored and, with a map and a location
        component, applied through a table of the three render modes, which
        throws for any other mode after the field is already written. */
    method SetMyLocationRenderMode(mode: int) returns (r: Result<bool>)
      modifies this`myLocationRenderMode
      ensures myLocationRenderMode == mode
      ensures var applies := old(myLocationRenderMode) != mode && mapReady && locationComponentActive;
        r == if applies && !(0 <= mode < 3) then Err(RenderModeOutOfRange(mode)) else Ok(applies)
    {
      if myLocationRenderMode == mode {
        return Ok(false);
      }
      myLocationRenderMode := mode;
      if mapReady && locationComponentActive {
        if !(0 <= mode < 3) {
          return Err(RenderModeOutOfRange(mode));
        }
        return Ok(true);
      }
      return Ok(false);
    }
  }

  /** Example scenario, not an operation of the controller: a style with a
      GeoJSON source "parks" gets a fill layer on top and a line layer "roads" added below
      it. "roads" ends up directly beneath "parks-fill", which stays topmost. */
  method ParksAndRoads()
  {
    var c := new StyleFacade();
    c.OnMapReady();
    var o := c.OnStyleLoaded(Style([], map["parks" := GeoJsonSource([])]), false);
    assert c.style.value.layers == [] && !c.locationComponentActive;
    var fill := LayerStack.MakeLayer(Fill, "parks-fill", "parks", None, None, None, None);
    assert LayerStack.IndexOfLayer([], "parks-fill") == None;
    assert [] + [fill] == [fill];
    assert LayerStack.InsertLayer([], fill, None) == Ok([fill]);
    var moved: bool;
    o, moved := c.HandleLayerAdd(Fill, "parks-fill", "parks", None, None, None, None, true, None);
    assert o == Pass && !moved && c.style.value.layers == [fill];
    assert "parks-fill" in c.interactiveFeatureLayerIds && !c.locationComponentActive;
    var roads := LayerStack.MakeLayer(Line, "roads", "parks", None, None, None, None);
    assert LayerStack.IndexOfLayer([fill], "roads") == None;
    assert LayerStack.IndexOfLayer([fill], "parks-fill") == Some(0);
    assert [fill][..0] + [roads] + [fill][0..] == [roads, fill];
    assert LayerStack.InsertLayer([fill], roads, Some("parks-fill")) == Ok([roads, fill]);
    o, moved := c.HandleLayerAdd(Line, "roads", "parks", Some("parks-fill"), None, None, None, false, None);
    assert o == Pass && c.style.value.layers == [roads, fill];
    assert "roads" !in c.interactiveFeatureLayerIds;
    assert LayerStack.LastLayerId(c.style) == Some("parks-fill");
  }

  /** Example scenario, not an operation of the controller: after adding a
      source and then setting it to a new collection, a feature upsert works
      on the new collection, not the first one. */
  method UpsertUsesLatestCollection(st: Style, id: string, first: FeatureCollection,
                                    second: FeatureCollection, f: Feature)
    requires id !in st.sources
  {
    var c := new StyleFacade();
    c.OnMapReady();
    var o := c.OnStyleLoaded(st, false);
    o := c.AddGeoJsonSource(id, first);
    o := c.SetGeoJsonSource(id, second);
    assert o == Pass;
    o := c.SetGeoJsonFeature(id, f);
    var upserted := FeatureUpsert.Upsert(second, f);
    assert upserted.Ok? ==>
      (c.addedFeaturesByLayer[id] == upserted.value && c.style.value.sources[id] == GeoJsonSource(upserted.value));
    assert upserted.Err? ==> o == Fail(NullFeatureId) && c.addedFeaturesByLayer[id] == second;
  }

  /** Example scenario, not an operation of the controller: removing a layer
      a second time is no error and changes nothing more; repeating a
      location setter with the same value does no work. */
  method RepeatedCallsAreHarmless(st: Style, layerId: string, enabled: bool, mode: int)
  {
    var c := new StyleFacade();
    c.OnMapReady();
    var o := c.OnStyleLoaded(st, false);
    assert c.style == Some(st) && !c.locationComponentActive && !c.myLocationEnabled;
    c.RemoveLayer(layerId);
    var once := c.style;
    var interactiveOnce := c.interactiveFeatureLayerIds;
    c.RemoveLayer(layerId);
    LayerStack.RemoveLayerIdempotent(st.layers, layerId);
    assert c.style == once && c.interactiveFeatureLayerIds == interactiveOnce;
    var refresh;
    refresh, o := c.SetMyLocationEnabled(enabled, false);
    assert refresh == enabled && o == Pass && !c.locationComponentActive;
    refresh, o := c.SetMyLocationEnabled(enabled, false);
    assert !refresh;
    var r := c.SetMyLocationRenderMode(mode);
    assert r == Ok(false);
  }

  /** Example scenario, not an operation of the controller: a render mode
      outside the table is stored without complaint while there is no
      location component, and the failure surfaces only when my-location is
      switched on and the component is enabled. */
  method BadRenderModeFailsOnEnable(st: Style)
  {
    var c := new StyleFacade();
    c.OnMapReady();
    var o := c.OnStyleLoaded(st, true);
    assert o == Pass && !c.locationComponentActive;
    var r := c.SetMyLocationRenderMode(5);
    assert r == Ok(false) && c.myLocationRenderMode == 5;
    var refresh;
    refresh, o := c.SetMyLocationEnabled(true, true);
    assert c.locationComponentActive && o == Fail(RenderModeOutOfRange(5));
  }

  /** Example scenario, not an operation of the controller: once the
      location component is active its bearing layer is topmost, and a fill
      layer added below another layer leaves it there. */
  method LocationLayerStaysOnTop()
  {
    var a := Layer("a", Fill, "s", None, None, None, None);
    var loc := LayerStack.LocationLayer;
    var c := new StyleFacade();
    c.OnMapReady();
    var o := c.OnStyleLoaded(Style([a], map[]), true);
    assert c.style == Some(Style([a], map[])) && !c.locationComponentActive;
    assert LayerStack.RemoveLayer([a], LayerStack.LocationBearingLayer) == [a];
    var refresh;
    refresh, o := c.SetMyLocationEnabled(true, true);
    assert c.locationComponentActive && o == Pass;
    assert c.style.value.layers == [a, loc];

    var b := LayerStack.MakeLayer(Fill, "b", "s", None, None, None, None);
    assert LayerStack.IndexOfLayer([a, loc], "b") == None;
    assert LayerStack.IndexOfLayer([a, loc], "a") == Some(0);
    assert [a, loc][..0] + [b] + [a, loc][0..] == [b, a, loc];
    var moved;
    o, moved := c.HandleLayerAdd(Fill, "b", "s", Some("a"), None, None, None, false, None);
    assert o == Pass && !moved && c.style.value.layers == [b, a, loc];
  }

  /** Example scenario, not an operation of the controller: the bearing
      layer is a layer of the style, so a layer can be added directly below
      it, and the location component then needs no move. */
  method AddBelowBearingLayer()
  {
    var loc := LayerStack.LocationLayer;
    var c := new StyleFacade();
    c.OnMapReady();
    var refresh, o := c.SetMyLocationEnabled(true, true);
    assert refresh && c.myLocationEnabled && !c.locationComponentActive && c.style.None?;
    o := c.OnStyleLoaded(Style([], map[]), true);
    assert c.locationComponentActive && c.style.value.layers == [loc];

    var d := LayerStack.MakeLayer(Line, "d", "s", None, None, None, None);
    assert LayerStack.IndexOfLayer([loc], "d") == None;
    assert LayerStack.IndexOfLayer([loc], LayerStack.LocationBearingLayer) == Some(0);
    assert [loc][..0] + [d] + [loc][0..] == [d, loc];
    var moved;
    o, moved := c.HandleLayerAdd(Line, "d", "s", Some(LayerStack.LocationBearingLayer), None, None, None, false, None);
    assert o == Pass && !moved && c.style.value.layers == [d, loc];
  }

  /** Example scenario, not an operation of the controller: a raster image
      layer added through `style#addLayer` goes above the location
      component's layer and leaves it there, so the component is left
      needing a move that no handler makes. */
  method ImageLayerGoesAboveLocation()
  {
    var c := new StyleFacade();
    c.OnMapReady();
    var refresh, o := c.SetMyLocationEnabled(true, true);
    assert refresh && c.myLocationEnabled && !c.locationComponentActive && c.style.None?;
    o := c.OnStyleLoaded(Style([], map[]), true);
    assert c.locationComponentActive && c.style.value.layers == [LayerStack.LocationLayer];
    var image := Layer("image", Raster, "image-source", None, None, None, None);
    LayerStack.AddedOnTopIsLast(c.style.value, image);
    o := c.HandleStyleAddLayer("image", "image-source", None, None, None);
    assert o == Pass && LayerStack.LastLayerId(c.style) == Some("image");
    assert LayerStack.LocationComponentRequiresUpdate(c.style);
  }
}
