/**
 * `select_asset_for_platform`: map the interpreter's platform string to an
 * operating-system key and pick the first release asset built for that
 * system on a 64-bit x86 machine.
 */
module Platform {
  import opened Wrappers
  import opened PyStr

  /** One release asset: its `name` and `browser_download_url` keys, `None` when missing. */
  datatype Asset = Asset(name: Option<string>, downloadUrl: Option<string>)

  /** The release data; `assets` is `None` when the key is missing. */
  datatype Release = Release(assets: Option<seq<Asset>>)

  /** `release_data.get("assets", [])`. */
  function Assets(release: Release): (assets: seq<Asset>)
    ensures release.assets.None? ==> assets == []
    ensures release.assets.Some? ==> assets == release.assets.value
  {
    release.assets.GetOr([])
  }

  /** The operating-system key for `sys.platform`, or `None` for an unsupported system. */
  function OsKey(platform: string): (key: Option<string>)
    ensures key == Some("linux") <==> "linux" <= platform
    ensures key == Some("darwin") <==> platform == "darwin"
    ensures key == Some("windows") <==> "win" <= platform
    ensures key.None? <==> !("linux" <= platform || platform == "darwin" || "win" <= platform)
  {
    if "linux" <= platform then
      assert platform[0] == 'l';
      Some("linux")
    else if platform == "darwin" then
      assert platform[0] == 'd';
      Some("darwin")
    else if "win" <= platform then Some("windows")
    else None
  }

  /** The lower-cased asset name, "" when the name is missing. */
  function LowerName(asset: Asset): string {
    Lower(asset.name.GetOr(""))
  }

  /** The asset is for the system `osKey` and names a 64-bit x86 architecture. */
  predicate Matches(osKey: string, asset: Asset)
    ensures var n := LowerName(asset);
      Matches(osKey, asset) <==>
        (exists i :: OccursAt(n, osKey, i))
        && ((exists i :: OccursAt(n, "amd64", i)) || (exists i :: OccursAt(n, "x86_64", i)) || (exists i :: OccursAt(n, "x64", i)))
  {
    var n := LowerName(asset);
    ContainsIffOccurs(n, osKey);
    ContainsIffOccurs(n, "amd64");
    ContainsIffOccurs(n, "x86_64");
    ContainsIffOccurs(n, "x64");
    Contains(n, osKey) && (Contains(n, "amd64") || Contains(n, "x86_64") || Contains(n, "x64"))
  }

  datatype Selection =
    | Selected(index: nat, url: Option<string>)
    | UnsupportedOs(platform: string)
    | NoAsset(osKey: string)

  /**
   * Scan the assets in order and return the download URL of the first one
   * that matches; an unsupported platform or no matching asset is an error
   * (the source exits with status 1 in both cases).
   */
  method SelectAsset(platform: string, release: Release) returns (r: Selection)
    ensures r.UnsupportedOs? <==> OsKey(platform).None?
    ensures r.UnsupportedOs? ==> r.platform == platform
    ensures r.Selected? ==>
      && OsKey(platform).Some?
      && r.index < |Assets(release)|
      && Matches(OsKey(platform).value, Assets(release)[r.index])
      && r.url == Assets(release)[r.index].downloadUrl
      && forall j :: 0 <= j < r.index ==> !Matches(OsKey(platform).value, Assets(release)[j])
    ensures r.NoAsset? ==>
      && OsKey(platform) == Some(r.osKey)
      && forall j :: 0 <= j < |Assets(release)| ==> !Matches(r.osKey, Assets(release)[j])
  {
    var key := OsKey(platform);
    if key.None? {
      return UnsupportedOs(platform);
    }
    var osKey := key.value;
    var assets := Assets(release);
    var i := 0;
    while i < |assets|
      invariant i <= |assets|
      invariant forall j :: 0 <= j < i ==> !Matches(osKey, assets[j])
    {
      var name := Lower(assets[i].name.GetOr(""));
      if Contains(name, osKey) && (Contains(name, "amd64") || Contains(name, "x86_64") || Contains(name, "x64")) {
        return Selected(i, assets[i].downloadUrl);
      }
      i := i + 1;
    }
    return NoAsset(osKey);
  }

  /**
   * Matching is case-insensitive: two names that agree once lower-cased
   * match the same keys, and in particular a name matches exactly when its
   * lower-cased form does.
   */
  lemma {:induction false} MatchesIgnoresCase(osKey: string, name1: string, name2: string, url: Option<string>)
    ensures Lower(name1) == Lower(name2) ==>
      Matches(osKey, Asset(Some(name1), url)) == Matches(osKey, Asset(Some(name2), url))
    ensures Matches(osKey, Asset(Some(name1), url)) == Matches(osKey, Asset(Some(Lower(name1)), url))
  {
    LowerIsLower(name1);
  }

  /** A name of the form `<x><key><y>amd64<z>` matches, whatever surrounds the key. */
  lemma {:induction false} MatchesTypicalName(osKey: string, x: string, y: string, z: string)
    requires Lower(osKey) == osKey && Lower(x + osKey + y + "amd64" + z) == x + osKey + y + "amd64" + z
    ensures Matches(osKey, Asset(Some(x + osKey + y + "amd64" + z), None))
  {
    var n := x + osKey + y + "amd64" + z;
    assert n[|x|..|x| + |osKey|] == osKey;
    assert OccursAt(n, osKey, |x|);
    ContainsIffOccurs(n, osKey);
    var at := |x| + |osKey| + |y|;
    assert n[at..at + 5] == "amd64";
    assert OccursAt(n, "amd64", at);
    ContainsIffOccurs(n, "amd64");
  }
}
