/** The layer stack of the style: building a layer of one kind, inserting it
    at the top or below a named layer, removing it, and the topmost layer. */
module LayerStack {
  import opened MapTypes

  /** The id the location component's bearing layer carries. */
  const LocationBearingLayer := "mapbox-location-bearing-layer"

  /** The source the location component draws from. */
  const LocationSource := "mapbox-location-source"

  /** The layers the location component adds to the style, represented by
      the one that ends up topmost: its bearing layer. */
  const LocationLayer := Layer(LocationBearingLayer, Symbol, LocationSource, None, None, None, None)

  /** The kinds whose add methods take `enableInteraction`: symbol, line,
      fill, fill-extrusion and circle. Raster, hillshade and heatmap layers
      are never hit-tested. */
  predicate SupportsInteraction(kind: LayerKind)
  {
    kind in {Symbol, Line, Fill, FillExtrusion, Circle}
  }

  /** The layer the add method of `kind` constructs. Options that were not
      given stay `None`, leaving the engine's default. The raster, hillshade
      and heatmap add methods have no source-layer parameter and ignore the
      filter they are passed. */
  function MakeLayer(kind: LayerKind, id: string, sourceId: string, sourceLayer: Option<string>,
                     minZoom: Option<real>, maxZoom: Option<real>, filter: Option<Filter>): (l: Layer)
    ensures l.id == id && l.kind == kind && l.sourceId == sourceId
    ensures l.minZoom == minZoom && l.maxZoom == maxZoom
    ensures l.sourceLayer == (if SupportsInteraction(kind) then sourceLayer else None)
    ensures l.filter == (if SupportsInteraction(kind) then filter else None)
  {
    if SupportsInteraction(kind) then Layer(id, kind, sourceId, sourceLayer, minZoom, maxZoom, filter)
    else Layer(id, kind, sourceId, None, minZoom, maxZoom, None)
  }

  /** The position of the lowest layer with id `id`, if any. */
  function IndexOfLayer(layers: seq<Layer>, id: string): (r: Option<nat>)
    ensures r.Some? ==> r.value < |layers| && layers[r.value].id == id
    ensures r.Some? ==> forall j :: 0 <= j < r.value ==> layers[j].id != id
    ensures r.None? <==> forall j :: 0 <= j < |layers| ==> layers[j].id != id
  {
    if layers == [] then None
    else if layers[0].id == id then Some(0)
    else match IndexOfLayer(layers[1..], id)
      case None => None
      case Some(k) => Some(k + 1)
  }

  /** What the engine does with `addLayer` (`below == None`) and
      `addLayerBelow`: a layer id already in the style is refused, and the
      model assumes the engine also refuses a `below` id that is not in it;
      otherwise the layer goes on top, or
      directly under `below`. */
  function InsertLayer(layers: seq<Layer>, layer: Layer, below: Option<string>): (r: Result<seq<Layer>>)
    ensures r.Ok? ==> |r.value| == |layers| + 1 && layer in r.value
    ensures r.Err? ==> r.error == DuplicateLayer(layer.id) || (below.Some? && r.error == LayerNotFound(below.value))
  {
    if IndexOfLayer(layers, layer.id).Some? then Err(DuplicateLayer(layer.id))
    else match below
      case None => Ok(layers + [layer])
      case Some(b) =>
        match IndexOfLayer(layers, b)
        case None => Err(LayerNotFound(b))
        case Some(k) => Ok(layers[..k] + [layer] + layers[k..])
  }

  /** Without `below`, a new layer id ends up topmost, above all old layers
      in their old order. */
  lemma InsertOnTop(layers: seq<Layer>, layer: Layer)
    requires forall j :: 0 <= j < |layers| ==> layers[j].id != layer.id
    ensures InsertLayer(layers, layer, None).Ok?
    ensures var r := InsertLayer(layers, layer, None).value;
      |r| == |layers| + 1 && r[|layers|] == layer && r[..|layers|] == layers
  {
    assert IndexOfLayer(layers, layer.id).None?;
    var r := layers + [layer];
    assert r[..|layers|] == layers;
  }

  /** With `below == Some(b)`, a new layer id sits immediately under the
      layer `b`, and taking it out again gives back the old stack. */
  lemma {:induction false} InsertBelowLayer(layers: seq<Layer>, layer: Layer, b: string)
    requires forall j :: 0 <= j < |layers| ==> layers[j].id != layer.id
    requires exists j :: 0 <= j < |layers| && layers[j].id == b
    ensures InsertLayer(layers, layer, Some(b)).Ok?
    ensures var r := InsertLayer(layers, layer, Some(b)).value;
      |r| == |layers| + 1 &&
      exists k :: 0 <= k < |layers| && r[k] == layer && r[k + 1].id == b &&
        r[..k] + r[k + 1..] == layers
  {
    assert IndexOfLayer(layers, layer.id).None?;
    var k := IndexOfLayer(layers, b).value;
    var r := layers[..k] + [layer] + layers[k..];
    assert r[k] == layer && r[k + 1] == layers[k];
    assert r[..k] == layers[..k] && r[k + 1..] == layers[k..];
    assert layers[..k] + layers[k..] == layers;
  }

  /** The engine refuses to add a layer whose id is already used, or to put
      it under a layer that does not exist; the stack is then not changed. */
  lemma InsertRefused(layers: seq<Layer>, layer: Layer, below: Option<string>)
    ensures InsertLayer(layers, layer, below).Err? <==>
      (exists j :: 0 <= j < |layers| && layers[j].id == layer.id) ||
      (below.Some? && forall j :: 0 <= j < |layers| ==> layers[j].id != below.value)
  {
  }

  /** `style.removeLayer(id)`: the layer with that id leaves the stack; an
      id not in the stack changes nothing. */
  function RemoveLayer(layers: seq<Layer>, id: string): (r: seq<Layer>)
    ensures forall j :: 0 <= j < |r| ==> r[j].id != id
    ensures forall l :: l in r <==> l in layers && l.id != id
    ensures (forall j :: 0 <= j < |layers| ==> layers[j].id != id) ==> r == layers
  {
    if layers == [] then []
    else if layers[0].id == id then RemoveLayer(layers[1..], id)
    else [layers[0]] + RemoveLayer(layers[1..], id)
  }

  /** Removing a layer twice is the same as removing it once. */
  lemma {:induction false} RemoveLayerIdempotent(layers: seq<Layer>, id: string)
    ensures RemoveLayer(RemoveLayer(layers, id), id) == RemoveLayer(layers, id)
  {
    if layers != [] {
      RemoveLayerIdempotent(layers[1..], id);
    }
  }

  /** Removal distributes over concatenation, so the layers that stay keep
      their draw order. */
  lemma {:induction false} RemoveAppend(a: seq<Layer>, b: seq<Layer>, id: string)
    ensures RemoveLayer(a + b, id) == RemoveLayer(a, id) + RemoveLayer(b, id)
  {
    if a == [] {
      assert a + b == b;
    } else {
      var s := a + b;
      assert s[0] == a[0];
      assert s[1..] == a[1..] + b;
      RemoveAppend(a[1..], b, id);
      if a[0].id != id {
        assert RemoveLayer(s, id) == [a[0]] + RemoveLayer(a[1..], id) + RemoveLayer(b, id);
      }
    }
  }

  /** Removing a layer that was put at position `k` of a stack holding no
      other layer with its id gives back the stack. */
  lemma {:induction false} RemoveInserted(layers: seq<Layer>, layer: Layer, k: nat)
    requires k <= |layers|
    requires forall j :: 0 <= j < |layers| ==> layers[j].id != layer.id
    ensures RemoveLayer(layers[..k] + [layer] + layers[k..], layer.id) == layers
  {
    var s := layers[..k] + [layer] + layers[k..];
    if k == 0 {
      assert s == [layer] + layers;
      assert s[1..] == layers;
      assert RemoveLayer(layers, layer.id) == layers;
    } else {
      var t := layers[1..];
      forall j | 0 <= j < |t| ensures t[j].id != layer.id { assert t[j] == layers[j + 1]; }
      RemoveInserted(t, layer, k - 1);
      assert s[0] == layers[0];
      assert s[1..] == t[..k - 1] + [layer] + t[k - 1..];
      assert [layers[0]] + t == layers;
    }
  }

  /** Taking out a layer that was just added, on top or below another one,
      gives back the old stack in its old order. */
  lemma InsertThenRemove(layers: seq<Layer>, layer: Layer, below: Option<string>)
    requires InsertLayer(layers, layer, below).Ok?
    ensures RemoveLayer(InsertLayer(layers, layer, below).value, layer.id) == layers
  {
    assert IndexOfLayer(layers, layer.id).None?;
    var k := if below.None? then |layers| else IndexOfLayer(layers, below.value).value;
    assert InsertLayer(layers, layer, below).value == layers[..k] + [layer] + layers[k..];
    RemoveInserted(layers, layer, k);
  }

  /** getLastLayerOnStyle: the id of the topmost layer, none when the style
      is absent or has no layers. */
  function LastLayerId(style: Option<Style>): (r: Option<string>)
    ensures r.Some? <==> style.Some? && |style.value.layers| > 0
    ensures r.Some? ==> r.value == style.value.layers[|style.value.layers| - 1].id
  {
    if style.Some? && |style.value.layers| > 0
    then Some(style.value.layers[|style.value.layers| - 1].id)
    else None
  }

  /** locationComponentRequiresUpdate: there is a topmost layer and it is
      not the location component's own bearing layer. */
  function LocationComponentRequiresUpdate(style: Option<Style>): (r: bool)
    ensures r <==> style.Some? && |style.value.layers| > 0 &&
                   style.value.layers[|style.value.layers| - 1].id != LocationBearingLayer
  {
    var last := LastLayerId(style);
    last.Some? && last.value != LocationBearingLayer
  }

  /** Adding a layer below an existing one leaves the topmost layer, and so
      whether the location component must be moved, as it was. */
  lemma InsertBelowKeepsTop(layers: seq<Layer>, layer: Layer, b: string, sources: map<string, Source>)
    requires InsertLayer(layers, layer, Some(b)).Ok?
    ensures var after := Some(Style(InsertLayer(layers, layer, Some(b)).value, sources));
      var before := Some(Style(layers, sources));
      LastLayerId(after) == LastLayerId(before) &&
      LocationComponentRequiresUpdate(after) == LocationComponentRequiresUpdate(before)
  {
    var k := IndexOfLayer(layers, b).value;
    var r := layers[..k] + [layer] + layers[k..];
    assert r[|r| - 1] == layers[|layers| - 1];
  }

  /** Removing a layer other than the topmost one leaves the topmost layer
      in place. */
  lemma RemoveBelowTopKeepsTop(layers: seq<Layer>, id: string, sources: map<string, Source>)
    requires |layers| > 0 && layers[|layers| - 1].id != id
    ensures LastLayerId(Some(Style(RemoveLayer(layers, id), sources))) == LastLayerId(Some(Style(layers, sources)))
  {
    var top := layers[|layers| - 1];
    assert layers == layers[..|layers| - 1] + [top];
    RemoveAppend(layers[..|layers| - 1], [top], id);
    assert RemoveLayer([top], id) == [top];
  }

  /** After a layer is added on top, it is the last layer on the style, so
      the location component must be moved above it unless it is the
      bearing layer itself. */
  lemma AddedOnTopIsLast(st: Style, layer: Layer)
    requires forall j :: 0 <= j < |st.layers| ==> st.layers[j].id != layer.id
    ensures InsertLayer(st.layers, layer, None).Ok?
    ensures var s := Some(Style(InsertLayer(st.layers, layer, None).value, st.sources));
      LastLayerId(s) == Some(layer.id) &&
      (LocationComponentRequiresUpdate(s) <==> layer.id != LocationBearingLayer)
  {
    InsertOnTop(st.layers, layer);
  }

  /** What the engine does with `layerAbove(last)` when the location
      component is activated or restyled: its layer leaves its old place
      and goes above the current topmost layer. */
  function PlaceLocationLayer(layers: seq<Layer>): (r: seq<Layer>)
    ensures |r| > 0 && r[|r| - 1] == LocationLayer
    ensures forall j :: 0 <= j < |r| - 1 ==> r[j].id != LocationBearingLayer
  {
    RemoveLayer(layers, LocationBearingLayer) + [LocationLayer]
  }

  /** Once the location layer is placed, the topmost layer is the bearing
      layer, so the location component needs no further update. */
  lemma PlacedLocationNeedsNoUpdate(layers: seq<Layer>, sources: map<string, Source>)
    ensures LastLayerId(Some(Style(PlaceLocationLayer(layers), sources))) == Some(LocationBearingLayer)
    ensures !LocationComponentRequiresUpdate(Some(Style(PlaceLocationLayer(layers), sources)))
  {
  }

  /** The style after the location component has placed its layers. */
  function WithLocationLayer(st: Style): Style
  {
    Style(PlaceLocationLayer(st.layers), st.sources)
  }

  /** Placing keeps every other layer in its order: without the location
      layer the stack is what it was. */
  lemma {:induction false} PlaceLocationLayerKeepsOthers(layers: seq<Layer>)
    ensures RemoveLayer(PlaceLocationLayer(layers), LocationBearingLayer) == RemoveLayer(layers, LocationBearingLayer)
  {
    var rest := RemoveLayer(layers, LocationBearingLayer);
    RemoveAppend(rest, [LocationLayer], LocationBearingLayer);
    RemoveLayerIdempotent(layers, LocationBearingLayer);
    assert RemoveLayer([LocationLayer], LocationBearingLayer) == [];
    assert rest + [] == rest;
  }

  /** Placing the location layer a second time changes nothing. */
  lemma PlaceLocationLayerIdempotent(layers: seq<Layer>)
    ensures PlaceLocationLayer(PlaceLocationLayer(layers)) == PlaceLocationLayer(layers)
  {
    PlaceLocationLayerKeepsOthers(layers);
  }
}
