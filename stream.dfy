// The helpers of the Streamlit page (stream2.py) that find the newest
// results in the output folders and name the GLB it stores.

module Stream {
  import opened Options
  import opened Strings
  import opened Paths
  import opened Files
  import opened Hex
  import ViewRename
  import Hy3dApi

  /** `OUTPUT_DIR = os.getenv("OUTPUT_DIR", "output")` */
  function OutputDir(env: Option<string>): string {
    match env
    case None => "output"
    case Some(dir) => dir
  }

  /** `FASTAPI_STATIC_DIR = os.path.join(OUTPUT_DIR, "3D")` */
  function StaticDir(outputDir: string): string {
    Join(outputDir, "3D")
  }

  /** `*.png` */
  const PngPattern: Pattern := Pattern("", "", ".png")

  /** `f"*{key}*.png"` */
  function NamedPattern(key: string): Pattern {
    Pattern("", key, ".png")
  }

  /** `max(glob(...), key=...)`, as the path glob returns, or `None`. */
  function NewestPath(folder: string, listing: seq<FileEntry>, p: Pattern, k: Stamp): Option<string> {
    match Newest(Glob(listing, p), k)
    case None => None
    case Some(f) => Some(Join(folder, f.name))
  }

  /** There is a path exactly when some file matches, and it is the path
    * of a matching file that no matching file is newer than. */
  lemma NewestPathIsNewest(folder: string, listing: seq<FileEntry>, p: Pattern, k: Stamp)
    ensures NewestPath(folder, listing, p, k).None? <==> forall f :: f in listing ==> !Matches(p, f.name)
    ensures NewestPath(folder, listing, p, k).Some? ==> exists f :: (f in listing && Matches(p, f.name) &&
      NewestPath(folder, listing, p, k) == Some(Join(folder, f.name)) &&
      forall g :: g in listing && Matches(p, g.name) ==> TimeOf(g, k) <= TimeOf(f, k))
  {
    var matches := Glob(listing, p);
    if |matches| > 0 {
      var f := Newest(matches, k).value;
      assert f in listing && Matches(p, f.name);
    } else {
      assert matches == [];
    }
  }

  /** `find_latest_png`: the most recently changed `*.png` of the folder. */
  function FindLatestPng(folder: string, listing: seq<FileEntry>): Option<string> {
    NewestPath(folder, listing, PngPattern, ChangedTime)
  }

  /** `max(glob(f"*{key}*.png"), key=os.path.getmtime)`, or `None`. */
  function LatestNamed(folder: string, key: string, listing: seq<FileEntry>): Option<string> {
    NewestPath(folder, listing, NamedPattern(key), ModifiedTime)
  }

  /** The dictionary `find_latest_named_images` returns. */
  function NamedImages(folder: string, nameKeys: seq<string>, listing: seq<FileEntry>): (m: map<string, Option<string>>)
    ensures forall key :: key in m <==> key in nameKeys
  {
    map key | key in nameKeys :: LatestNamed(folder, key, listing)
  }

  /** `find_latest_named_images`: one entry per key, filled in the loop. */
  method FindLatestNamedImages(folder: string, nameKeys: seq<string>, listing: seq<FileEntry>)
    returns (result: map<string, Option<string>>)
    ensures result == NamedImages(folder, nameKeys, listing)
  {
    result := map[];
    var i := 0;
    while i < |nameKeys|
      invariant 0 <= i <= |nameKeys|
      invariant forall key :: key in result <==> key in nameKeys[..i]
      invariant forall key :: key in result ==> result[key] == LatestNamed(folder, key, listing)
    {
      assert nameKeys[..i + 1] == nameKeys[..i] + [nameKeys[i]];
      var key := nameKeys[i];
      result := result[key := NewestPath(folder, listing, NamedPattern(key), ModifiedTime)];
      i := i + 1;
    }
    assert nameKeys[..i] == nameKeys;
  }

  /** `all(named_imgs.values())`: every value is a non-empty path. */
  predicate AllFound(m: map<string, Option<string>>) {
    forall key :: key in m ==> m[key].Some? && m[key].value != ""
  }

  /** The three views are shown, and zipped, exactly when each of front,
    * back and left names some `.png` of the folder. */
  lemma ViewsShownIffAllPresent(folder: string, listing: seq<FileEntry>)
    ensures AllFound(NamedImages(folder, ViewRename.ViewNames, listing)) <==>
      forall key :: key in ViewRename.ViewNames ==>
        exists f :: f in listing && Matches(NamedPattern(key), f.name)
  {
    var m := NamedImages(folder, ViewRename.ViewNames, listing);
    forall key | key in ViewRename.ViewNames
      ensures (m[key].Some? && m[key].value != "") <==> exists f :: f in listing && Matches(NamedPattern(key), f.name)
    {
      NewestPathIsNewest(folder, listing, NamedPattern(key), ModifiedTime);
      if m[key].Some? {
        var f :| f in listing && Matches(NamedPattern(key), f.name) && m[key] == Some(Join(folder, f.name));
        assert EndsWith(Join(folder, f.name), f.name);
      }
    }
  }

  /** A view renamed by the image server, `ComfyUI_<counter>_<view>.png`,
    * is one the page looks for under that view's key. */
  lemma RenamedViewMatches(counter: string, view: string)
    requires |counter| > 0 && ViewRename.IsDigits(counter)
    ensures Matches(NamedPattern(view), ViewRename.NewName("ComfyUI_" + counter + "_.png", view))
  {
    ViewRename.SavedNameGetsView(counter, view);
    var head := "ComfyUI_" + counter + "_";
    var name := head + view + ".png";
    assert "ComfyUI_" + counter + "_" + view + ".png" == name;
    assert name[|name| - 4..] == ".png";
    var middle := name[0..|name| - 4];
    assert middle == head + view;
    assert middle[|head|..|head| + |view|] == view;
    assert OccursAt(middle, view, |head|);
    assert name[0] == 'C';
  }

  /** `find_latest_glb`: the base name of the newest `Hy3D_textured*.glb`. */
  function FindLatestGlb(directory: string, listing: seq<FileEntry>): Option<string> {
    match NewestPath(directory, listing, Hy3dApi.GlbPattern, ModifiedTime)
    case None => None
    case Some(path) => Some(Basename(path))
  }

  /** The page and the 3D server pick the same file from the same folder:
    * the server's sort and the page's `max` break ties alike. */
  lemma PageAndServerAgree(listing: seq<FileEntry>, outputDir: string)
    requires forall f :: f in listing ==> '/' !in f.name
    ensures FindLatestGlb(Hy3dApi.GlbDir(outputDir), listing) ==
      match Hy3dApi.LatestGlb(listing, outputDir)
      case None => None
      case Some(d) => Some(d.filename)
  {
    Hy3dApi.LatestGlbIsNewest(listing, outputDir);
    var matches := Glob(listing, Hy3dApi.GlbPattern);
    if |matches| > 0 {
      var f := Newest(matches, ModifiedTime).value;
      assert f in listing;
      BasenameOfJoin(Hy3dApi.GlbDir(outputDir), f.name);
    }
  }

  /** `get_random_hex`: the hex text of the eight bytes `os.urandom(8)`
    * returned. */
  function RandomHex(random: seq<byte>): (hex: string)
    requires |random| == 8
    ensures |hex| == 16 && IsLowerHex(hex)
    ensures FromHex(hex) == random
  {
    FromToHex(random);
    ToHex(random)
  }

  /** `f"Hy3D_textured_{get_random_hex()}.glb"` */
  function UniqueGlbName(hex: string): string {
    "Hy3D_textured_" + hex + ".glb"
  }

  /** `os.path.join(FASTAPI_STATIC_DIR, unique_filename)` */
  function StoredGlbPath(outputDir: string, hex: string): string {
    Join(StaticDir(outputDir), UniqueGlbName(hex))
  }

  /** The stored name matches `Hy3D_textured*.glb`, the pattern the page
    * and the server search with. */
  lemma UniqueGlbNameMatches(hex: string)
    ensures Matches(Hy3dApi.GlbPattern, UniqueGlbName(hex))
  {
    var name := UniqueGlbName(hex);
    assert name[..13] == "Hy3D_textured";
    assert name[|name| - 4..] == ".glb";
    assert OccursAt(name[13..|name| - 4], "", 0);
  }

  /** A name made from hex digits has no directory part: it is the base
    * name of the path it is stored under. */
  lemma UniqueGlbNameIsPlain(outputDir: string, hex: string)
    requires IsLowerHex(hex)
    ensures '/' !in UniqueGlbName(hex)
    ensures Basename(StoredGlbPath(outputDir, hex)) == UniqueGlbName(hex)
  {
    var name := UniqueGlbName(hex);
    forall i | 0 <= i < |name| ensures name[i] != '/' {
      if 14 <= i < 14 + |hex| {
        assert name[i] == hex[i - 14];
        assert IsHexDigit(hex[i - 14]);
      }
    }
    BasenameOfJoin(StaticDir(outputDir), name);
  }

  /** Once stored with a time newer than every other file, the GLB is the
    * one `find_latest_glb` reports. */
  lemma StoredGlbIsLatest(directory: string, listing: seq<FileEntry>, random: seq<byte>, mtime: int, ctime: int)
    requires |random| == 8
    requires forall f :: f in listing ==> f.mtime < mtime
    ensures var name := UniqueGlbName(RandomHex(random));
      FindLatestGlb(directory, listing + [FileEntry(name, mtime, ctime)]) == Some(name)
  {
    var name := UniqueGlbName(RandomHex(random));
    var f := FileEntry(name, mtime, ctime);
    UniqueGlbNameMatches(RandomHex(random));
    UniqueGlbNameIsPlain("", RandomHex(random));
    GlobAppend(listing, f, Hy3dApi.GlbPattern);
    NewestOfAppend(Glob(listing, Hy3dApi.GlbPattern), f, ModifiedTime);
    BasenameOfJoin(directory, name);
  }

  /**
   * The page reads `OUTPUT_DIR` and the 3D server `OUTPUT_3D_DIR`. When
   * the two agree, a GLB the page stores with a time newer than every file
   * of the folder is the file the server answers with next, under the
   * path and the name the page gave it.
   */
  lemma StoredGlbIsServed(pageEnv: Option<string>, serverEnv: Option<string>, listing: seq<FileEntry>,
                          random: seq<byte>, mtime: int, ctime: int)
    requires pageEnv == serverEnv
    requires |random| == 8
    requires forall f :: f in listing ==> '/' !in f.name && f.mtime < mtime
    ensures var hex := RandomHex(random);
      var stored := listing + [FileEntry(UniqueGlbName(hex), mtime, ctime)];
      Hy3dApi.LatestGlb(stored, Hy3dApi.OutputDir(serverEnv)) ==
        Some(Hy3dApi.Download(StoredGlbPath(OutputDir(pageEnv), hex), UniqueGlbName(hex)))
  {
    var hex := RandomHex(random);
    var name := UniqueGlbName(hex);
    var stored := listing + [FileEntry(name, mtime, ctime)];
    var dir := Hy3dApi.OutputDir(serverEnv);
    UniqueGlbNameIsPlain(dir, hex);
    assert forall f :: f in stored ==> '/' !in f.name;
    StoredGlbIsLatest(Hy3dApi.GlbDir(dir), listing, random, mtime, ctime);
    PageAndServerAgree(stored, dir);
    Hy3dApi.LatestGlbIsNewest(stored, dir);
  }
}
