/**
 * The asset tag helpers of kata/page.py: which stylesheet and script paths
 * a page links, and the `<link>` and `<script>` tags for them. The
 * configuration the Python reads (`debug`, the asset prefix and the source
 * or build directory for the asset type) is passed in, and so is the md5
 * hex digest, which the model treats as an uninterpreted function.
 */
module Page {
  import opened Wrappers
  import opened Strings

  /** What `_asset_tags` returns: `''` when there are no assets, else a list of paths. */
  datatype Tags = Blank | Listed(paths: seq<string>)

  /** `':' in asset`: a URL, used as is. */
  predicate External(asset: string) {
    ':' in asset
  }

  // ---------------------------------------------------------------------------------------------
  // _hash_assets
  // ---------------------------------------------------------------------------------------------

  /** `_hash_assets`: the digest of the concatenated paths, then `.` and the asset type. */
  function HashAssets(assetType: string, paths: seq<string>, md5: string -> string): (r: string)
    ensures EndsWith(r, "." + assetType)
    ensures r[..|r| - |assetType| - 1] == md5(Join("", paths))
  {
    var r := md5(Join("", paths)) + "." + assetType;
    assert r[|r| - |assetType| - 1..] == "." + assetType;
    r
  }

  /** The bundle name depends on the paths only through their concatenation. */
  lemma HashSeesOnlyConcatenation(assetType: string, p: seq<string>, q: seq<string>, md5: string -> string)
    requires Join("", p) == Join("", q)
    ensures HashAssets(assetType, p, md5) == HashAssets(assetType, q, md5)
  {
  }

  // ---------------------------------------------------------------------------------------------
  // _asset_tags
  // ---------------------------------------------------------------------------------------------

  /** What one asset adds to `result` (lines 69-73). */
  function Entry(asset: string, debug: bool, prefix: string): seq<string> {
    if External(asset) then [asset] else if debug then [prefix + asset] else []
  }

  /** What one asset adds to `paths` (lines 74-75). */
  function BundlePath(asset: string, debug: bool, pathPrefix: string): seq<string> {
    if !External(asset) && !debug then [pathPrefix + asset] else []
  }

  /** `result` after the loop over `assets`. */
  function Passed(assets: seq<string>, debug: bool, prefix: string): seq<string>
    decreases |assets|
  {
    if assets == [] then []
    else Passed(assets[..|assets| - 1], debug, prefix) + Entry(assets[|assets| - 1], debug, prefix)
  }

  /** `paths` after the loop over `assets`. */
  function Bundle(assets: seq<string>, debug: bool, pathPrefix: string): seq<string>
    decreases |assets|
  {
    if assets == [] then []
    else Bundle(assets[..|assets| - 1], debug, pathPrefix) + BundlePath(assets[|assets| - 1], debug, pathPrefix)
  }

  /** Every asset lands in exactly one of `result` and `paths`. */
  lemma {:induction false} EachAssetPlacedOnce(assets: seq<string>, debug: bool, prefix: string, pathPrefix: string)
    ensures |Passed(assets, debug, prefix)| + |Bundle(assets, debug, pathPrefix)| == |assets|
    decreases |assets|
  {
    if assets != [] {
      EachAssetPlacedOnce(assets[..|assets| - 1], debug, prefix, pathPrefix);
    }
  }

  /**
   * The value `_asset_tags` returns, for the path prefix chosen for the mode: `''` exactly when there
   * are no assets, and otherwise at least one entry and no more entries than assets.
   */
  function AssetTagsOf(assetType: string, assets: seq<string>, debug: bool, prefix: string, pathPrefix: string, md5: string -> string): (r: Tags)
    ensures r == Blank <==> assets == []
    ensures r.Listed? ==> 1 <= |r.paths| <= |assets|
  {
    if assets == [] then Blank
    else
      var paths := Bundle(assets, debug, pathPrefix);
      EachAssetPlacedOnce(assets, debug, prefix, pathPrefix);
      Listed(Passed(assets, debug, prefix) + (if paths != [] then [prefix + HashAssets(assetType, paths, md5)] else []))
  }

  /**
   * `_asset_tags` (lines 59-80). `srcPrefix` and `buildPrefix` are the configured source and build
   * directories for the asset type; the loop walks the assets once, appending to `result` and `paths`.
   */
  method AssetTags(assetType: string, assets: seq<string>, debug: bool, prefix: string, srcPrefix: string, buildPrefix: string, md5: string -> string)
    returns (tags: Tags)
    ensures tags == AssetTagsOf(assetType, assets, debug, prefix, if debug then srcPrefix else buildPrefix, md5)
  {
    if |assets| == 0 {
      return Blank;
    }
    var pathPrefix := if debug then srcPrefix else buildPrefix;
    var result: seq<string> := [];
    var paths: seq<string> := [];
    var i := 0;
    while i < |assets|
      invariant 0 <= i <= |assets|
      invariant result == Passed(assets[..i], debug, prefix)
      invariant paths == Bundle(assets[..i], debug, pathPrefix)
    {
      var asset := assets[i];
      assert assets[..i + 1][..i] == assets[..i];
      if ':' in asset {
        result := result + [asset];
      } else {
        if debug {
          result := result + [prefix + asset];
        } else {
          paths := paths + [pathPrefix + asset];
        }
      }
      i := i + 1;
    }
    assert assets[..i] == assets;
    if |paths| > 0 {
      result := result + [prefix + HashAssets(assetType, paths, md5)];
    }
    tags := Listed(result);
  }

  /** The assets that contain `':'`, in order. */
  function Externals(assets: seq<string>): seq<string>
    decreases |assets|
  {
    if assets == [] then [] else (if External(assets[0]) then [assets[0]] else []) + Externals(assets[1..])
  }

  /** The assets that do not contain `':'`, in order. */
  function Locals(assets: seq<string>): seq<string>
    decreases |assets|
  {
    if assets == [] then [] else (if External(assets[0]) then [] else [assets[0]]) + Locals(assets[1..])
  }

  /** Each path with a prefix. */
  function Prefixed(p: string, paths: seq<string>): (r: seq<string>)
    ensures |r| == |paths| && forall i :: 0 <= i < |paths| ==> r[i] == p + paths[i]
  {
    seq(|paths|, i requires 0 <= i < |paths| => p + paths[i])
  }

  /** Filtering an extended list extends the filtered list. */
  lemma {:induction false} FiltersSnoc(assets: seq<string>, x: string)
    ensures Externals(assets + [x]) == Externals(assets) + (if External(x) then [x] else [])
    ensures Locals(assets + [x]) == Locals(assets) + (if External(x) then [] else [x])
    decreases |assets|
  {
    if assets != [] {
      assert (assets + [x])[1..] == assets[1..] + [x];
      FiltersSnoc(assets[1..], x);
    } else {
      assert [x][1..] == [];
    }
  }

  /** Outside debug mode the loop keeps exactly the `':'` assets and bundles exactly the others, each in order. */
  lemma {:induction false} BuildModeSplitsAssets(assets: seq<string>, prefix: string, pathPrefix: string)
    ensures Passed(assets, false, prefix) == Externals(assets)
    ensures Bundle(assets, false, pathPrefix) == Prefixed(pathPrefix, Locals(assets))
    decreases |assets|
  {
    if assets != [] {
      var init := assets[..|assets| - 1];
      var x := assets[|assets| - 1];
      BuildModeSplitsAssets(init, prefix, pathPrefix);
      assert assets == init + [x];
      FiltersSnoc(init, x);
    }
  }

  /** In debug mode every asset yields one entry in place, prefixed unless it contains `':'`, and nothing is bundled. */
  lemma {:induction false} DebugModePrefixesAssets(assets: seq<string>, prefix: string, pathPrefix: string)
    ensures Passed(assets, true, prefix) == seq(|assets|, i requires 0 <= i < |assets| => if External(assets[i]) then assets[i] else prefix + assets[i])
    ensures Bundle(assets, true, pathPrefix) == []
    decreases |assets|
  {
    if assets != [] {
      var init := assets[..|assets| - 1];
      DebugModePrefixesAssets(init, prefix, pathPrefix);
      assert forall i :: 0 <= i < |init| ==> init[i] == assets[i];
    }
  }

  /** There is something to bundle exactly when some asset does not contain `':'`. */
  lemma {:induction false} LocalsNonEmpty(assets: seq<string>)
    ensures Locals(assets) != [] <==> exists i :: 0 <= i < |assets| && !External(assets[i])
    decreases |assets|
  {
    if assets != [] {
      LocalsNonEmpty(assets[1..]);
      if exists i :: 0 <= i < |assets| && !External(assets[i]) {
        var i :| 0 <= i < |assets| && !External(assets[i]);
        if i > 0 {
          assert assets[1..][i - 1] == assets[i];
        }
      }
      if exists i :: 0 <= i < |assets[1..]| && !External(assets[1..][i]) {
        var i :| 0 <= i < |assets[1..]| && !External(assets[1..][i]);
        assert assets[i + 1] == assets[1..][i];
      }
    }
  }

  /** With no assets `_asset_tags` returns `''`. */
  lemma NoAssetsBlank(assetType: string, debug: bool, prefix: string, pathPrefix: string, md5: string -> string)
    ensures AssetTagsOf(assetType, [], debug, prefix, pathPrefix, md5) == Blank
  {
  }

  /** In debug mode there is one entry per asset, in place: the asset itself if it contains `':'`, else the prefixed asset; no bundle. */
  lemma DebugTags(assetType: string, assets: seq<string>, prefix: string, pathPrefix: string, md5: string -> string)
    requires assets != []
    ensures AssetTagsOf(assetType, assets, true, prefix, pathPrefix, md5)
         == Listed(seq(|assets|, i requires 0 <= i < |assets| => if External(assets[i]) then assets[i] else prefix + assets[i]))
  {
    DebugModePrefixesAssets(assets, prefix, pathPrefix);
  }

  /**
   * Outside debug mode the `':'` assets come first, in order, followed by one bundle entry, present
   * exactly when some asset lacks `':'` and named after the build paths of those assets.
   */
  lemma BuildTags(assetType: string, assets: seq<string>, prefix: string, pathPrefix: string, md5: string -> string)
    requires assets != []
    ensures AssetTagsOf(assetType, assets, false, prefix, pathPrefix, md5)
         == Listed(Externals(assets)
                   + (if exists i :: 0 <= i < |assets| && !External(assets[i])
                      then [prefix + HashAssets(assetType, Prefixed(pathPrefix, Locals(assets)), md5)]
                      else []))
  {
    BuildModeSplitsAssets(assets, prefix, pathPrefix);
    LocalsNonEmpty(assets);
  }

  // ---------------------------------------------------------------------------------------------
  // _css_tag and _js_tag
  // ---------------------------------------------------------------------------------------------

  /** The `rel` of a stylesheet link: LESS sources are marked for the in-browser compiler. */
  function Rel(path: string): string {
    if EndsWith(path, ".less") then "stylesheet/less" else "stylesheet"
  }

  const LinkRel: string := "<link rel=\""
  const LinkMiddle: string := "\" type=\"text/css\" href=\""
  const LinkClose: string := "\" />"
  const LessLinkOpen: string := LinkRel + "stylesheet/less" + LinkMiddle
  const CssLinkOpen: string := LinkRel + "stylesheet" + LinkMiddle
  const ScriptOpen: string := "<script type=\"text/javascript\" src=\""
  const ScriptClose: string := "\"></script>"

  /** `_css_tag`: a `<link>` whose `rel` marks `.less` sources, with the path as its `href`. */
  function CssTag(path: string): (r: string)
    ensures StartsWith(r, if EndsWith(path, ".less") then LessLinkOpen else CssLinkOpen)
    ensures EndsWith(r, path + LinkClose)
  {
    var r := LinkRel + Rel(path) + LinkMiddle + path + LinkClose;
    var open := LinkRel + Rel(path) + LinkMiddle;
    assert r == open + (path + LinkClose);
    assert r[..|open|] == open;
    assert r[|open|..] == path + LinkClose;
    r
  }

  /** `_js_tag`: a `<script>` with the path as its `src`. */
  function JsTag(path: string): (r: string)
    ensures StartsWith(r, ScriptOpen) && EndsWith(r, path + ScriptClose)
    ensures |r| == |ScriptOpen| + |path| + |ScriptClose|
  {
    var r := ScriptOpen + path + ScriptClose;
    assert r == ScriptOpen + (path + ScriptClose);
    assert r[..|ScriptOpen|] == ScriptOpen;
    assert r[|ScriptOpen|..] == path + ScriptClose;
    r
  }

  /** Reads back the `rel` and `href` of a link tag of the shape `_css_tag` writes. */
  function ParseCssTag(tag: string): Option<(string, string)> {
    if StartsWith(tag, LessLinkOpen) && EndsWith(tag, LinkClose) && |LessLinkOpen| + |LinkClose| <= |tag| then
      Some(("stylesheet/less", tag[|LessLinkOpen|..|tag| - |LinkClose|]))
    else if StartsWith(tag, CssLinkOpen) && EndsWith(tag, LinkClose) && |CssLinkOpen| + |LinkClose| <= |tag| then
      Some(("stylesheet", tag[|CssLinkOpen|..|tag| - |LinkClose|]))
    else None
  }

  /** Reads back the `src` of a script tag of the shape `_js_tag` writes. */
  function ScriptSrc(tag: string): Option<string> {
    if StartsWith(tag, ScriptOpen) && EndsWith(tag, ScriptClose) && |ScriptOpen| + |ScriptClose| <= |tag| then
      Some(tag[|ScriptOpen|..|tag| - |ScriptClose|])
    else None
  }

  /** A `.less` stylesheet link reads back as `stylesheet/less` with the path verbatim as its `href`. */
  lemma LessTagRoundTrip(path: string)
    requires EndsWith(path, ".less")
    ensures ParseCssTag(CssTag(path)) == Some(("stylesheet/less", path))
  {
    var tag := CssTag(path);
    assert tag == LessLinkOpen + path + LinkClose;
    assert tag[..|LessLinkOpen|] == LessLinkOpen;
    assert tag[|tag| - |LinkClose|..] == LinkClose;
    assert tag[|LessLinkOpen|..|tag| - |LinkClose|] == path;
  }

  /** Any other stylesheet link reads back as `stylesheet` with the path verbatim as its `href`. */
  lemma CssTagRoundTrip(path: string)
    requires !EndsWith(path, ".less")
    ensures ParseCssTag(CssTag(path)) == Some(("stylesheet", path))
  {
    var tag := CssTag(path);
    assert tag == CssLinkOpen + path + LinkClose;
    assert tag[21] == LinkMiddle[0];
    assert LessLinkOpen[21] == '/';
    assert !StartsWith(tag, LessLinkOpen);
    assert tag[..|CssLinkOpen|] == CssLinkOpen;
    assert tag[|tag| - |LinkClose|..] == LinkClose;
    assert tag[|CssLinkOpen|..|tag| - |LinkClose|] == path;
  }

  /** A script tag carries the path verbatim as its `src`. */
  lemma JsTagRoundTrip(path: string)
    ensures ScriptSrc(JsTag(path)) == Some(path)
  {
    var tag := JsTag(path);
    assert tag == ScriptOpen + path + ScriptClose;
    assert tag[..|ScriptOpen|] == ScriptOpen;
    assert tag[|tag| - |ScriptClose|..] == ScriptClose;
    assert tag[|ScriptOpen|..|tag| - |ScriptClose|] == path;
  }
}
