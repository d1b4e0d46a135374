/** The first half of getScaledImage: the list of resolution-aware asset
    paths tried for a missing style image, highest scale first. */
module AssetPaths {
  import opened MapTypes

  /** All pieces of `s` between '/' characters, empty ones included. */
  function SplitAll(s: string): (ps: seq<string>)
    ensures |ps| >= 1
    ensures forall k :: 0 <= k < |ps| ==> '/' !in ps[k]
  {
    if s == [] then [""]
    else
      var ps := SplitAll(s[..|s| - 1]);
      var c := s[|s| - 1];
      if c == '/' then ps + [""] else ps[..|ps| - 1] + [ps[|ps| - 1] + [c]]
  }

  function DropTrailingEmpty(ps: seq<string>): (r: seq<string>)
    ensures |r| <= |ps| && r == ps[..|r|]
    ensures r != [] ==> r[|r| - 1] != ""
  {
    if ps != [] && ps[|ps| - 1] == "" then DropTrailingEmpty(ps[..|ps| - 1]) else ps
  }

  /** Java's `s.split("/")`: the string itself when it has no '/', otherwise
      its pieces with the trailing empty ones removed (so a string of
      slashes only has no pieces at all). */
  function SplitPath(s: string): (r: seq<string>)
    ensures '/' !in s ==> r == [s]
    ensures forall k :: 0 <= k < |r| ==> '/' !in r[k]
    ensures '/' in s && r != [] ==> r[|r| - 1] != ""
  {
    if '/' !in s then [s] else DropTrailingEmpty(SplitAll(s))
  }

  /** The string builder's directory part: every piece, each followed by '/'. */
  function DirPrefix(ps: seq<string>): string
  {
    if ps == [] then "" else DirPrefix(ps[..|ps| - 1]) + ps[|ps| - 1] + "/"
  }

  /** The index where the last path segment of `s` begins. */
  function SegmentStart(s: string): (p: nat)
    ensures p <= |s|
    ensures p == 0 || s[p - 1] == '/'
    ensures forall i :: p <= i < |s| ==> s[i] != '/'
  {
    if s == [] then 0
    else if s[|s| - 1] == '/' then |s|
    else SegmentStart(s[..|s| - 1])
  }

  function DigitChar(d: nat): (c: char)
    requires d < 10
    ensures '0' <= c <= '9' && c as int - '0' as int == d
  {
    ('0' as int + d) as char
  }

  /** The number a string of decimal digits denotes. */
  function DigitsValue(s: string): nat
    requires forall k :: 0 <= k < |s| ==> '0' <= s[k] <= '9'
  {
    if s == [] then 0 else DigitsValue(s[..|s| - 1]) * 10 + (s[|s| - 1] as int - '0' as int)
  }

  /** The decimal digits of `n`, without leading zeros. */
  function NatToString(n: nat): (r: string)
    ensures |r| > 0 && forall k :: 0 <= k < |r| ==> '0' <= r[k] <= '9'
    ensures DigitsValue(r) == n
    ensures n > 0 ==> r[0] != '0'
  {
    if n < 10 then [DigitChar(n)]
    else
      var init := NatToString(n / 10);
      var r := init + [DigitChar(n % 10)];
      assert r[..|r| - 1] == init;
      r
  }

  /** `((float) i) + "x"`: Java prints a whole float with a ".0". */
  function ScaleLabel(i: nat): (r: string)
    ensures |r| > 3 && r[|r| - 3..] == ".0x"
    ensures (forall k :: 0 <= k < |r| - 3 ==> '0' <= r[k] <= '9') && DigitsValue(r[..|r| - 3]) == i
  {
    NatToString(i) + ".0x"
  }

  /** The path the loop builds for scale `i`: the original id at scale 1;
      for a higher scale the directory part, the scale directory, then the
      last segment. */
  function CandidateName(imageId: string, parts: seq<string>, i: nat): (r: string)
    requires i == 1 || |parts| > 0
    ensures i == 1 ==> r == imageId
    ensures i != 1 ==> var seg := parts[|parts| - 1];
      |seg| < |r| && r[|r| - |seg|..] == seg && r[|r| - |seg| - 1] == '/'
  {
    if i == 1 then imageId
    else DirPrefix(parts[..|parts| - 1]) + ScaleLabel(i) + "/" + parts[|parts| - 1]
  }

  /** `(int) Math.ceil(density)`. */
  function Ceil(x: real): (n: int)
    ensures n as real - 1.0 < x <= n as real
  {
    -((-x).Floor)
  }

  /** Building the path list. `assetPath` is the Flutter asset lookup
      `getAssetFilePathByName`, a foreign call. The list has one entry per
      scale from `ceil(density)` down to 1; an id made of slashes only has
      no last segment, and a scale above 1 then fails on reading it. */
  method AssetCandidates(imageId: string, density: real, assetPath: string -> string)
    returns (r: Result<seq<string>>)
    ensures var n := Ceil(density); var parts := SplitPath(imageId);
      (r.Err? <==> n >= 2 && parts == []) &&
      (r.Ok? ==>
        |r.value| == (if n > 0 then n else 0) &&
        forall k :: 0 <= k < |r.value| ==> r.value[k] == assetPath(CandidateName(imageId, parts, n - k)))
  {
    var parts := SplitPath(imageId);
    var n := Ceil(density);
    var paths: seq<string> := [];
    var i := n;
    while i > 0
      invariant i <= n && (i >= 0 || i == n)
      invariant |paths| == n - i
      invariant n >= 2 && i < n ==> parts != []
      invariant forall k :: 0 <= k < |paths| ==>
        (1 <= n - k && (n - k == 1 || parts != []) &&
         paths[k] == assetPath(CandidateName(imageId, parts, n - k)))
    {
      var path: string;
      if i == 1 {
        path := assetPath(imageId);
      } else {
        if |parts| == 0 {
          return Err(EmptyImagePath);
        }
        var sb := "";
        var j := 0;
        while j < |parts| - 1
          invariant 0 <= j <= |parts| - 1
          invariant sb == DirPrefix(parts[..j])
        {
          assert parts[..j + 1][..j] == parts[..j];
          sb := sb + parts[j];
          sb := sb + "/";
          j := j + 1;
        }
        sb := sb + ScaleLabel(i);
        sb := sb + "/";
        sb := sb + parts[|parts| - 1];
        path := assetPath(sb);
      }
      paths := paths + [path];
      i := i - 1;
    }
    return Ok(paths);
  }

  /** The shape SplitAllAtLastSegment proves of every string. */
  predicate SplitsAtLastSegment(s: string)
  {
    var ps := SplitAll(s);
    DirPrefix(ps[..|ps| - 1]) == s[..SegmentStart(s)] && ps[|ps| - 1] == s[SegmentStart(s)..]
  }

  /** Appending '/' closes the last segment and opens an empty one. */
  lemma SlashStep(t: string)
    requires SplitsAtLastSegment(t)
    ensures SplitsAtLastSegment(t + "/")
  {
    var s := t + "/";
    assert s[..|s| - 1] == t;
    var ps := SplitAll(t);
    var p := SegmentStart(t);
    assert SplitAll(s) == ps + [""];
    assert (ps + [""])[..|ps|] == ps;
    assert DirPrefix(ps) == t[..p] + t[p..] + "/";
    assert t[..p] + t[p..] == t;
  }

  /** Appending any other character extends the last segment. */
  lemma CharStep(t: string, c: char)
    requires SplitsAtLastSegment(t) && c != '/'
    ensures SplitsAtLastSegment(t + [c])
  {
    var s := t + [c];
    assert s[..|s| - 1] == t;
    var ps := SplitAll(t);
    var p := SegmentStart(t);
    assert SegmentStart(s) == p;
    var qs := ps[..|ps| - 1] + [ps[|ps| - 1] + [c]];
    assert SplitAll(s) == qs;
    assert qs[..|qs| - 1] == ps[..|ps| - 1];
    assert t[..p] == s[..p];
    assert t[p..] + [c] == s[p..];
  }

  /** The pieces of `s` split the string at its last '/': joined with '/'
      the leading pieces give the directory part, the last piece is the
      last segment. */
  lemma {:induction false} SplitAllAtLastSegment(s: string)
    ensures SplitsAtLastSegment(s)
  {
    if s != [] {
      var t := s[..|s| - 1];
      SplitAllAtLastSegment(t);
      assert s == t + [s[|s| - 1]];
      if s[|s| - 1] == '/' {
        SlashStep(t);
      } else {
        CharStep(t, s[|s| - 1]);
      }
    }
  }

  /** For an id that does not end in '/', the pieces of Java's split are
      exactly the directory part and the last segment of the id. */
  lemma SplitPathAtLastSegment(s: string)
    requires s == [] || s[|s| - 1] != '/'
    ensures var ps := SplitPath(s);
      |ps| > 0 && DirPrefix(ps[..|ps| - 1]) == s[..SegmentStart(s)] && ps[|ps| - 1] == s[SegmentStart(s)..]
  {
    var p := SegmentStart(s);
    if '/' in s {
      SplitAllAtLastSegment(s);
      var ps := SplitAll(s);
      assert p < |s|;
      assert s[|s| - 1] in ps[|ps| - 1];
    }
  }

  /** A candidate above scale 1 is the image id with the scale directory
      inserted in front of its last segment. */
  lemma CandidateInsertsScaleDirectory(imageId: string, i: nat)
    requires imageId == [] || imageId[|imageId| - 1] != '/'
    requires i >= 2
    ensures var p := SegmentStart(imageId);
      SplitPath(imageId) != [] &&
      CandidateName(imageId, SplitPath(imageId), i) == imageId[..p] + ScaleLabel(i) + "/" + imageId[p..]
  {
    SplitPathAtLastSegment(imageId);
  }

  predicate AllEmpty(ps: seq<string>)
  {
    forall k :: 0 <= k < |ps| ==> ps[k] == ""
  }

  lemma {:induction false} DropTrailingEmptyGivesNothing(ps: seq<string>)
    ensures DropTrailingEmpty(ps) == [] <==> AllEmpty(ps)
  {
    if ps != [] && ps[|ps| - 1] == "" {
      var init := ps[..|ps| - 1];
      DropTrailingEmptyGivesNothing(init);
      assert forall k :: 0 <= k < |init| ==> init[k] == ps[k];
    }
  }

  lemma {:induction false} SplitAllAllEmpty(s: string)
    ensures AllEmpty(SplitAll(s)) <==> forall i :: 0 <= i < |s| ==> s[i] == '/'
  {
    if s != [] {
      var t := s[..|s| - 1];
      SplitAllAllEmpty(t);
      var ps := SplitAll(t);
      assert forall i :: 0 <= i < |t| ==> t[i] == s[i];
      if s[|s| - 1] == '/' {
        assert SplitAll(s) == ps + [""];
        assert forall k :: 0 <= k < |ps| ==> (ps + [""])[k] == ps[k];
      } else {
        var qs := SplitAll(s);
        assert qs[|qs| - 1] == ps[|ps| - 1] + [s[|s| - 1]];
      }
    }
  }

  /** Java's split finds no pieces at all exactly for a non-empty id made of
      slashes only; that is the one id for which AssetCandidates fails at a
      scale above 1. */
  lemma SplitPathEmpty(s: string)
    ensures SplitPath(s) == [] <==> s != [] && forall i :: 0 <= i < |s| ==> s[i] == '/'
  {
    if '/' in s {
      DropTrailingEmptyGivesNothing(SplitAll(s));
      SplitAllAllEmpty(s);
    } else if s != [] {
      assert s[0] != '/';
    }
  }
}
