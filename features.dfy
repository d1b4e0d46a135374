/** Replacing one feature of a cached collection by id (the scan of
    setGeoJsonFeature). */
module FeatureUpsert {
  import opened MapTypes

  /** Whether the feature `g` of the collection is the one `f` replaces:
      `id.equals(feature.id())` with a non-null `id`. */
  predicate Matches(g: Feature, f: Feature)
    requires g.id.Some?
  {
    f.id == g.id
  }

  /** No feature before position `i` stops the scan: each has an id and none
      matches `f`. */
  predicate ScannedPast(fs: FeatureCollection, f: Feature, i: int)
    requires 0 <= i <= |fs|
  {
    forall j :: 0 <= j < i ==> fs[j].id.Some? && !Matches(fs[j], f)
  }

  /** The collection after the scan: the first feature whose id equals `f`'s
      is replaced by `f`; reading the id of a feature that has none (before
      any match) throws, which is an error. */
  function Upsert(fs: FeatureCollection, f: Feature): (r: Result<FeatureCollection>)
    ensures r.Ok? ==> |r.value| == |fs|
    ensures r.Err? ==> r.error == NullFeatureId
  {
    if fs == [] then Ok([])
    else if fs[0].id.None? then Err(NullFeatureId)
    else if Matches(fs[0], f) then Ok([f] + fs[1..])
    else match Upsert(fs[1..], f)
      case Ok(rest) => Ok([fs[0]] + rest)
      case Err(e) => Err(e)
  }

  /** When the scan reaches position `k` and `fs[k]` matches, exactly that
      position is replaced; length, order and every other feature stay. */
  lemma {:induction false} UpsertReplacesFirstMatch(fs: FeatureCollection, f: Feature, k: nat)
    requires k < |fs| && ScannedPast(fs, f, k)
    requires fs[k].id.Some? && Matches(fs[k], f)
    ensures Upsert(fs, f) == Ok(fs[k := f])
    ensures |fs[k := f]| == |fs|
    ensures forall j :: 0 <= j < |fs| && j != k ==> fs[k := f][j] == fs[j]
  {
    if k > 0 {
      assert ScannedPast(fs[1..], f, k - 1) by {
        forall j | 0 <= j < k - 1 ensures fs[1..][j].id.Some? && !Matches(fs[1..][j], f) {
          assert fs[1..][j] == fs[j + 1];
        }
      }
      UpsertReplacesFirstMatch(fs[1..], f, k - 1);
      assert [fs[0]] + fs[1..][k - 1 := f] == fs[k := f];
    } else {
      assert [f] + fs[1..] == fs[0 := f];
    }
  }

  /** When no feature matches and every feature has an id, the collection
      comes back unchanged: nothing is appended. */
  lemma {:induction false} UpsertWithoutMatchIsIdentity(fs: FeatureCollection, f: Feature)
    requires ScannedPast(fs, f, |fs|)
    ensures Upsert(fs, f) == Ok(fs)
  {
    if fs != [] {
      assert ScannedPast(fs[1..], f, |fs| - 1) by {
        forall j | 0 <= j < |fs| - 1 ensures fs[1..][j].id.Some? && !Matches(fs[1..][j], f) {
          assert fs[1..][j] == fs[j + 1];
        }
      }
      UpsertWithoutMatchIsIdentity(fs[1..], f);
      assert [fs[0]] + fs[1..] == fs;
    }
  }

  /** When the scan reaches a feature without id before any match, the
      upsert fails. */
  lemma {:induction false} UpsertFailsOnMissingId(fs: FeatureCollection, f: Feature, k: nat)
    requires k < |fs| && ScannedPast(fs, f, k) && fs[k].id.None?
    ensures Upsert(fs, f) == Err(NullFeatureId)
  {
    if k > 0 {
      assert ScannedPast(fs[1..], f, k - 1) by {
        forall j | 0 <= j < k - 1 ensures fs[1..][j].id.Some? && !Matches(fs[1..][j], f) {
          assert fs[1..][j] == fs[j + 1];
        }
      }
      UpsertFailsOnMissingId(fs[1..], f, k - 1);
    }
  }

  /** A successful upsert never changes the length of the collection, and
      leaves every position either as it was or holding `f`. */
  lemma {:induction false} UpsertKeepsShape(fs: FeatureCollection, f: Feature)
    requires Upsert(fs, f).Ok?
    ensures |Upsert(fs, f).value| == |fs|
    ensures forall j :: 0 <= j < |fs| ==> Upsert(fs, f).value[j] in {fs[j], f}
  {
    if fs != [] && !Matches(fs[0], f) {
      UpsertKeepsShape(fs[1..], f);
      var r := Upsert(fs, f).value;
      forall j | 0 <= j < |fs| ensures r[j] in {fs[j], f} {
        if j > 0 {
          assert r[j] == Upsert(fs[1..], f).value[j - 1];
          assert fs[1..][j - 1] == fs[j];
        }
      }
    }
  }

  /** The loop of setGeoJsonFeature: walk the features by index, replace the
      first one whose id equals `f`'s and stop. */
  method ReplaceFirstById(features: FeatureCollection, f: Feature) returns (r: Result<FeatureCollection>)
    ensures r == Upsert(features, f)
    ensures r.Ok? ==> |r.value| == |features|
    ensures r.Err? ==> r.error == NullFeatureId
  {
    var fs := features;
    var i := 0;
    while i < |fs|
      invariant 0 <= i <= |fs| && fs == features
      invariant ScannedPast(fs, f, i)
    {
      var id := fs[i].id;
      if id.None? {
        UpsertFailsOnMissingId(features, f, i);
        return Err(NullFeatureId);
      }
      if id == f.id {
        UpsertReplacesFirstMatch(features, f, i);
        fs := fs[i := f];
        return Ok(fs);
      }
      i := i + 1;
    }
    UpsertWithoutMatchIsIdentity(features, f);
    return Ok(fs);
  }
}
