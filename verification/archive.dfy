/**
 * The zip archive createDataPackVersion rewrites, as a map from entry path to
 * bytes. ZipArchive is the JSZip object the code mutates through successive
 * `file(path, data)` writes; the functions beside it give the archive each
 * step leaves behind.
 */
module Archive {
  import opened JsBuiltins

  type Entries = map<string, seq<byte>>

  const FabricPath: string := "fabric.mod.json"
  const QuiltPath: string := "quilt.mod.json"
  const ForgePath: string := "META-INF/mods.toml"
  const AssetsRootMarker: string := ".mcassetsroot"
  const PackIcon: string := "pack.png"

  /** A resource-pack path the merge skips: it contains ".mcassetsroot". */
  predicate Excluded(path: string)
  {
    Includes(path, AssetsRootMarker)
  }

  /** The manifest paths written for the requested loaders. */
  function ManifestPaths(loaders: seq<string>): (r: set<string>)
    ensures FabricPath in r <==> "fabric" in loaders
    ensures QuiltPath in r <==> "quilt" in loaders
    ensures ForgePath in r <==> "forge" in loaders
    ensures r <= {FabricPath, QuiltPath, ForgePath}
  {
    (if "fabric" in loaders then {FabricPath} else {})
      + (if "quilt" in loaders then {QuiltPath} else {})
      + (if "forge" in loaders then {ForgePath} else {})
  }

  /**
   * Lines 127-135: each loader's manifest is written at its fixed path when
   * the loader is requested; nothing else changes.
   */
  function WithManifests(entries: Entries, loaders: seq<string>, fabric: seq<byte>, quilt: seq<byte>, forge: seq<byte>)
    : (r: Entries)
    ensures r.Keys == entries.Keys + ManifestPaths(loaders)
    ensures "fabric" in loaders ==> r[FabricPath] == fabric
    ensures "quilt" in loaders ==> r[QuiltPath] == quilt
    ensures "forge" in loaders ==> r[ForgePath] == forge
    ensures forall p :: p in entries && p !in ManifestPaths(loaders) ==> r[p] == entries[p]
  {
    var withFabric := if "fabric" in loaders then entries[FabricPath := fabric] else entries;
    var withQuilt := if "quilt" in loaders then withFabric[QuiltPath := quilt] else withFabric;
    if "forge" in loaders then withQuilt[ForgePath := forge] else withQuilt
  }

  /**
   * Lines 179-188: every resource-pack entry whose path is not yet in the
   * archive and does not contain ".mcassetsroot" is added with its bytes;
   * entries already there are never overwritten.
   */
  function Merged(entries: Entries, pack: Entries): (r: Entries)
    ensures r.Keys == entries.Keys + (set p | p in pack && !Excluded(p))
    ensures forall p :: p in entries ==> r[p] == entries[p]
    ensures forall p :: p in r && p !in entries ==> p in pack && !Excluded(p) && r[p] == pack[p]
  {
    map p | p in entries.Keys + (set q | q in pack && !Excluded(q)) ::
      if p in entries then entries[p] else pack[p]
  }

  /**
   * Lines 190-191: when "pack.png" is present its bytes are also stored at
   * `iconPath`, replacing any entry there; otherwise nothing changes.
   */
  function WithIcon(entries: Entries, iconPath: string): (r: Entries)
    ensures PackIcon in entries ==> r.Keys == entries.Keys + {iconPath} && r[iconPath] == entries[PackIcon]
    ensures PackIcon !in entries ==> r == entries
    ensures forall p :: p in entries && p != iconPath ==> r[p] == entries[p]
  {
    if PackIcon in entries then entries[iconPath := entries[PackIcon]] else entries
  }

  /** Adding one more resource-pack entry to the part already merged. */
  lemma MergedStep(entries: Entries, done: Entries, path: string, bytes: seq<byte>)
    requires path !in done
    ensures Merged(entries, done[path := bytes])
         == if path in entries || Excluded(path) then Merged(entries, done)
            else Merged(entries, done)[path := bytes]
  {
    var left := Merged(entries, done[path := bytes]);
    var right := if path in entries || Excluded(path) then Merged(entries, done)
                 else Merged(entries, done)[path := bytes];
    assert left.Keys == right.Keys;
    forall p | p in left ensures left[p] == right[p] {
    }
  }

  /** The JSZip archive being assembled. */
  class ZipArchive {
    var entries: Entries

    /** `new JSZip()` followed by `loadAsync` of the fetched archive. */
    constructor (loaded: Entries)
      ensures entries == loaded
    {
      entries := loaded;
    }

    /** `file(path)`: the entry at `path`, or nothing. */
    function File(path: string): (r: Option<seq<byte>>)
      reads this
      ensures r.Some? <==> path in entries
      ensures r.Some? ==> r.value == entries[path]
    {
      if path in entries then Some(entries[path]) else None
    }

    /** `file(path, data)`: stores `data` at `path`, replacing what was there. */
    method Write(path: string, data: seq<byte>)
      modifies this
      ensures entries == old(entries)[path := data]
    {
      entries := entries[path := data];
    }

    /**
     * Lines 183-187: the loop over the resource pack's entries. Paths are
     * unique, so the order the loop visits them in does not matter; any order
     * leaves Merged behind.
     */
    method MergeResourcePack(pack: Entries)
      modifies this
      ensures entries == Merged(old(entries), pack)
    {
      ghost var start := entries;
      var remaining := pack.Keys;
      while remaining != {}
        invariant remaining <= pack.Keys
        invariant entries == Merged(start, map p | p in pack && p !in remaining :: pack[p])
        decreases remaining
      {
        var path :| path in remaining;
        ghost var done := map p | p in pack && p !in remaining :: pack[p];
        MergedStep(start, done, path, pack[path]);
        assert path in entries <==> path in start;
        if File(path).None? && !Includes(path, AssetsRootMarker) {
          Write(path, pack[path]);
        }
        remaining := remaining - {path};
        assert done[path := pack[path]] == map p | p in pack && p !in remaining :: pack[p];
      }
      assert pack == map p | p in pack && p !in remaining :: pack[p];
    }

    /** Lines 190-191: copies "pack.png" to `iconPath` when it is present. */
    method CopyIcon(iconPath: string)
      modifies this
      ensures entries == WithIcon(old(entries), iconPath)
    {
      var icon := File(PackIcon);
      if icon.Some? {
        Write(iconPath, icon.value);
      }
    }
  }
}
