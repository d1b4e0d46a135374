/** firstFeatureOnLayers: which interactive layer a tap or drag hits, and
    which feature on it. */
module HitTest {
  import opened MapTypes

  /** The rendered-feature query of the engine for one layer id; the screen
      rectangle is fixed for one hit test and folded into the oracle. */
  type Query = string -> seq<Feature>

  /** The ids of the interactive layers, in draw order (bottom first). */
  function InteractiveIds(layers: seq<Layer>, interactive: set<string>): (ids: seq<string>)
    ensures forall x :: x in ids <==> x in interactive && exists j :: 0 <= j < |layers| && layers[j].id == x
  {
    if layers == [] then []
    else
      var init := InteractiveIds(layers[..|layers| - 1], interactive);
      var last := layers[|layers| - 1];
      assert forall j :: 0 <= j < |layers| - 1 ==> layers[..|layers| - 1][j] == layers[j];
      if last.id in interactive then init + [last.id] else init
  }

  function Reverse<T>(s: seq<T>): (r: seq<T>)
    ensures |r| == |s|
    ensures forall j :: 0 <= j < |s| ==> r[j] == s[|s| - 1 - j]
  {
    if s == [] then [] else [s[|s| - 1]] + Reverse(s[..|s| - 1])
  }

  /** Probe the ids in the given order and stop at the first non-empty
      result, returning its first feature and the layer id. */
  function Probe(ids: seq<string>, query: Query): (r: Option<(Feature, string)>)
    ensures r.Some? ==> r.value.1 in ids && query(r.value.1) != [] && r.value.0 == query(r.value.1)[0]
    ensures r.None? <==> forall k :: 0 <= k < |ids| ==> query(ids[k]) == []
  {
    if ids == [] then None
    else if query(ids[0]) != [] then Some((query(ids[0])[0], ids[0]))
    else
      assert forall k :: 1 <= k < |ids| ==> ids[k] == ids[1..][k - 1];
      Probe(ids[1..], query)
  }

  /** The whole hit test: nothing without a style, otherwise the interactive
      layers probed from the top of the stack down. */
  function FirstFeatureOnLayers(style: Option<Style>, interactive: set<string>, query: Query): (r: Option<(Feature, string)>)
    ensures style.None? ==> r.None?
    ensures r.Some? ==>
      r.value.1 in interactive && query(r.value.1) != [] && r.value.0 == query(r.value.1)[0] &&
      exists j :: 0 <= j < |style.value.layers| && style.value.layers[j].id == r.value.1
  {
    if style.None? then None
    else Probe(Reverse(InteractiveIds(style.value.layers, interactive)), query)
  }

  /** The layer at position `k` is a hit: interactive, and the query finds
      something on it. */
  predicate HitAt(layers: seq<Layer>, interactive: set<string>, query: Query, k: int)
    requires 0 <= k < |layers|
  {
    layers[k].id in interactive && query(layers[k].id) != []
  }

  /** The same search stated on the stack directly: the topmost hit. */
  function TopHit(layers: seq<Layer>, interactive: set<string>, query: Query): (r: Option<(Feature, string)>)
    ensures r.Some? ==> r.value.1 in interactive && query(r.value.1) != [] && r.value.0 == query(r.value.1)[0]
  {
    if layers == [] then None
    else
      var last := layers[|layers| - 1];
      if last.id in interactive && query(last.id) != [] then Some((query(last.id)[0], last.id))
      else TopHit(layers[..|layers| - 1], interactive, query)
  }

  lemma {:induction false} ProbeReversedIsTopHit(layers: seq<Layer>, interactive: set<string>, query: Query)
    ensures Probe(Reverse(InteractiveIds(layers, interactive)), query) == TopHit(layers, interactive, query)
  {
    if layers != [] {
      var init := layers[..|layers| - 1];
      var last := layers[|layers| - 1];
      ProbeReversedIsTopHit(init, interactive, query);
      var ids := InteractiveIds(init, interactive);
      if last.id in interactive {
        assert Reverse(ids + [last.id]) == [last.id] + Reverse(ids);
        assert ([last.id] + Reverse(ids))[1..] == Reverse(ids);
      }
    }
  }

  /** A hit names an interactive layer of the stack whose query is non-empty,
      carries that query's first feature, and no interactive layer above it
      has anything under the rectangle. */
  lemma {:induction false} TopHitIsTopmost(layers: seq<Layer>, interactive: set<string>, query: Query)
    requires TopHit(layers, interactive, query).Some?
    ensures var (f, id) := TopHit(layers, interactive, query).value;
      exists k :: 0 <= k < |layers| && layers[k].id == id && HitAt(layers, interactive, query, k) &&
        f == query(id)[0] &&
        forall j :: k < j < |layers| ==> !HitAt(layers, interactive, query, j)
  {
    var init := layers[..|layers| - 1];
    var last := layers[|layers| - 1];
    if !(last.id in interactive && query(last.id) != []) {
      TopHitIsTopmost(init, interactive, query);
      var (f, id) := TopHit(init, interactive, query).value;
      var k :| 0 <= k < |init| && init[k].id == id && HitAt(init, interactive, query, k) &&
        f == query(id)[0] && forall j :: k < j < |init| ==> !HitAt(init, interactive, query, j);
      assert layers[k] == init[k];
      forall j | k < j < |layers| ensures !HitAt(layers, interactive, query, j) {
        if j < |init| {
          assert layers[j] == init[j];
          assert !HitAt(init, interactive, query, j);
        }
      }
    }
  }

  /** No hit exactly when no interactive layer has anything under the
      rectangle. */
  lemma {:induction false} TopHitNone(layers: seq<Layer>, interactive: set<string>, query: Query)
    ensures TopHit(layers, interactive, query).None? <==>
      forall j :: 0 <= j < |layers| ==> !HitAt(layers, interactive, query, j)
  {
    if layers != [] {
      var init := layers[..|layers| - 1];
      TopHitNone(init, interactive, query);
      assert forall j :: 0 <= j < |init| ==> layers[j] == init[j];
      if TopHit(layers, interactive, query).None? {
        assert !HitAt(layers, interactive, query, |layers| - 1);
        forall j | 0 <= j < |init| ensures !HitAt(layers, interactive, query, j) {
          assert !HitAt(init, interactive, query, j);
        }
      } else if forall j :: 0 <= j < |layers| ==> !HitAt(layers, interactive, query, j) {
        assert !HitAt(layers, interactive, query, |layers| - 1);
        forall j | 0 <= j < |init| ensures !HitAt(init, interactive, query, j) {
          assert !HitAt(layers, interactive, query, j);
        }
      }
    }
  }

  /** The hit test as the controller answers it: no answer without a style;
      with one, answers come from the topmost interactive layer that the
      query finds something on, and there is none exactly when no
      interactive layer has a feature under the rectangle. */
  lemma FirstFeatureOnLayersIsTopmostHit(style: Option<Style>, interactive: set<string>, query: Query)
    ensures style.None? ==> FirstFeatureOnLayers(style, interactive, query).None?
    ensures style.Some? ==>
      var layers := style.value.layers;
      var r := FirstFeatureOnLayers(style, interactive, query);
      (r.None? <==> forall j :: 0 <= j < |layers| ==> !HitAt(layers, interactive, query, j)) &&
      (r.Some? ==>
        exists k :: 0 <= k < |layers| && layers[k].id == r.value.1 && HitAt(layers, interactive, query, k) &&
          r.value.0 == query(r.value.1)[0] &&
          forall j :: k < j < |layers| ==> !HitAt(layers, interactive, query, j))
  {
    if style.Some? {
      var layers := style.value.layers;
      ProbeReversedIsTopHit(layers, interactive, query);
      TopHitNone(layers, interactive, query);
      if TopHit(layers, interactive, query).Some? {
        TopHitIsTopmost(layers, interactive, query);
      }
    }
  }
}
