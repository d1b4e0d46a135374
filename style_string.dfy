/** setStyleString: how the trimmed style string chooses between inline
    JSON, an absolute file path, a Flutter asset and a plain URI. */
module StyleString {

  /** Java's `String.trim()` strips every character up to U+0020. */
  predicate Blank(c: char)
  {
    c <= ' '
  }

  function TrimStart(s: string): (r: string)
    ensures |r| <= |s| && r == s[|s| - |r|..]
    ensures forall i :: 0 <= i < |s| - |r| ==> Blank(s[i])
    ensures r != [] ==> !Blank(r[0])
  {
    if s != [] && Blank(s[0]) then TrimStart(s[1..]) else s
  }

  function TrimEnd(s: string): (r: string)
    ensures |r| <= |s| && r == s[..|r|]
    ensures forall i :: |r| <= i < |s| ==> Blank(s[i])
    ensures r != [] ==> !Blank(r[|r| - 1])
  {
    if s != [] && Blank(s[|s| - 1]) then TrimEnd(s[..|s| - 1]) else s
  }

  /** `s[i]` is the first non-blank character of `s`. */
  predicate FirstNonBlankAt(s: string, i: int)
  {
    0 <= i < |s| && !Blank(s[i]) && forall j :: 0 <= j < i ==> Blank(s[j])
  }

  /** How many blank characters `String.trim()` removes at the start. */
  function TrimOffset(s: string): nat
  {
    |s| - |TrimStart(s)|
  }

  /** A prefix `r` of a suffix `t` of `s` is an infix of `s`. */
  lemma PrefixOfSuffix(s: string, t: string, r: string)
    requires |t| <= |s| && t == s[|s| - |t|..]
    requires |r| <= |t| && r == t[..|r|]
    ensures r == s[|s| - |t|..|s| - |t| + |r|]
    ensures forall i :: |s| - |t| + |r| <= i < |s| ==> s[i] == t[i - (|s| - |t|)]
  {
  }

  /** `String.trim()`: the infix of `s` left after removing blank characters
      at both ends; it begins and ends with a non-blank character. */
  function Trim(s: string): (r: string)
    ensures TrimOffset(s) + |r| <= |s| && r == s[TrimOffset(s)..TrimOffset(s) + |r|]
    ensures forall i :: 0 <= i < TrimOffset(s) ==> Blank(s[i])
    ensures forall i :: TrimOffset(s) + |r| <= i < |s| ==> Blank(s[i])
    ensures r != [] ==> !Blank(r[0]) && !Blank(r[|r| - 1])
  {
    var t := TrimStart(s);
    var r := TrimEnd(t);
    PrefixOfSuffix(s, t, r);
    r
  }

  /** The trimmed string starts at the first non-blank character. */
  lemma FirstNonBlankStartsTrim(s: string, i: int)
    ensures FirstNonBlankAt(s, i) <==> Trim(s) != [] && i == TrimOffset(s)
  {
    var t := Trim(s);
    if t != [] {
      assert t[0] == s[TrimOffset(s)];
    }
  }

  lemma TrimIdempotent(s: string)
    ensures Trim(Trim(s)) == Trim(s)
  {
    var t := Trim(s);
    if t != [] {
      assert TrimStart(t) == t;
      assert TrimEnd(t) == t;
    }
  }

  predicate StartsWith(s: string, prefix: string)
  {
    |prefix| <= |s| && s[..|prefix|] == prefix
  }

  /** What the controller asks the engine to load. */
  datatype StyleRequest = NoStyle | FromJson(json: string) | FromUri(uri: string)

  /** How setStyleString classifies the already trimmed string `s`.
      `assetKey` is the Flutter asset lookup `getAssetFilePathByName`, a
      foreign call. */
  function Classify(s: string, assetKey: string -> string): StyleRequest
  {
    if s == [] then NoStyle
    else if StartsWith(s, "{") || StartsWith(s, "[") then FromJson(s)
    else if StartsWith(s, "/") then FromUri("file://" + s)
    else if !StartsWith(s, "http://") && !StartsWith(s, "https://") && !StartsWith(s, "mapbox://")
    then FromUri("asset://" + assetKey(s))
    else FromUri(s)
  }

  /** The classification of setStyleString: the style string is trimmed
      first. */
  function StyleRequestFor(styleString: string, assetKey: string -> string): (r: StyleRequest)
    ensures r.NoStyle? <==> Trim(styleString) == []
    ensures r.FromJson? ==> r.json == Trim(styleString) && r.json[0] in {'{', '['}
  {
    Classify(Trim(styleString), assetKey)
  }

  /** The URI schemes the engine is ever asked to load from. */
  predicate HasLoadableScheme(uri: string)
  {
    StartsWith(uri, "file://") || StartsWith(uri, "asset://") ||
    StartsWith(uri, "http://") || StartsWith(uri, "https://") || StartsWith(uri, "mapbox://")
  }

  /** Blank characters around the style string never change what is loaded. */
  lemma StyleRequestIgnoresPadding(s: string, assetKey: string -> string)
    ensures StyleRequestFor(Trim(s), assetKey) == StyleRequestFor(s, assetKey)
  {
    TrimIdempotent(s);
  }

  /** Nothing is loaded exactly when the string is blank throughout. */
  lemma BlankStyleStringLoadsNothing(s: string, assetKey: string -> string)
    ensures StyleRequestFor(s, assetKey).NoStyle? <==> forall i :: 0 <= i < |s| ==> Blank(s[i])
  {
    if Trim(s) != [] {
      assert Trim(s)[0] == s[TrimOffset(s)];
    }
  }

  /** Inline JSON is recognised by the first non-blank character, which
      opens an object or an array; the JSON handed over is the trimmed
      string. */
  lemma JsonStyleString(s: string, assetKey: string -> string)
    ensures StyleRequestFor(s, assetKey).FromJson? <==>
      exists i :: FirstNonBlankAt(s, i) && s[i] in {'{', '['}
    ensures StyleRequestFor(s, assetKey).FromJson? ==> StyleRequestFor(s, assetKey).json == Trim(s)
  {
    var t := Trim(s);
    var a := TrimOffset(s);
    if t != [] {
      FirstNonBlankStartsTrim(s, a);
      assert t[0] == s[a];
      assert StartsWith(t, "{") <==> s[a] == '{';
      assert StartsWith(t, "[") <==> s[a] == '[';
      forall i | FirstNonBlankAt(s, i) ensures i == a {
        FirstNonBlankStartsTrim(s, i);
      }
    } else {
      forall i ensures !FirstNonBlankAt(s, i) {
        FirstNonBlankStartsTrim(s, i);
      }
    }
  }

  /** A string whose first non-blank character is `/` is an absolute path
      and is loaded as a file URI of the trimmed path. */
  lemma AbsolutePathStyleString(s: string, assetKey: string -> string, i: int)
    requires FirstNonBlankAt(s, i) && s[i] == '/'
    ensures StyleRequestFor(s, assetKey) == FromUri("file://" + Trim(s))
  {
    FirstNonBlankStartsTrim(s, i);
    assert Trim(s)[0] == s[i];
  }

  /** A string whose first non-blank character opens neither JSON nor an
      absolute path, and that names none of the three remote schemes, is an
      asset: the engine loads the asset the lookup returns for the trimmed
      string. */
  lemma AssetStyleString(s: string, assetKey: string -> string, i: int)
    requires FirstNonBlankAt(s, i) && s[i] !in {'{', '[', '/'}
    requires !StartsWith(Trim(s), "http://") && !StartsWith(Trim(s), "https://") && !StartsWith(Trim(s), "mapbox://")
    ensures StyleRequestFor(s, assetKey) == FromUri("asset://" + assetKey(Trim(s)))
  {
    FirstNonBlankStartsTrim(s, i);
    assert Trim(s)[0] == s[i];
  }

  /** A trimmed string that starts with one of the three remote schemes is
      loaded as the URI it is. */
  lemma RemoteStyleString(s: string, assetKey: string -> string)
    requires StartsWith(Trim(s), "http://") || StartsWith(Trim(s), "https://") || StartsWith(Trim(s), "mapbox://")
    ensures StyleRequestFor(s, assetKey) == FromUri(Trim(s))
  {
    var t := Trim(s);
    if StartsWith(t, "mapbox://") {
      assert t[0] == t[..9][0] == 'm';
    } else if StartsWith(t, "https://") {
      assert t[0] == t[..8][0] == 'h';
    } else {
      assert t[0] == t[..7][0] == 'h';
    }
  }

  /** Every URI the engine is asked to load carries one of the five
      schemes. */
  lemma StyleUriHasScheme(s: string, assetKey: string -> string)
    ensures StyleRequestFor(s, assetKey).FromUri? ==> HasLoadableScheme(StyleRequestFor(s, assetKey).uri)
  {
    var t := Trim(s);
    if t != [] && StartsWith(t, "/") {
      assert ("file://" + t)[..7] == "file://";
    } else if t != [] {
      assert ("asset://" + assetKey(t))[..8] == "asset://";
    }
  }
}
