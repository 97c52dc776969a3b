/**
 * createDataPackVersion: derives the identifiers and manifests, opens the
 * primary archive, writes the requested manifests, injects the wrapper class
 * for the javafml dialect, merges the required resource pack and copies the
 * pack icon. Network fetches, the JSON and TOML serialisers and the runtime
 * configuration are supplied by the caller as values and functions.
 */
module Package {
  import opened JsBuiltins
  import opened Records
  import opened Identifiers
  import opened Classifier
  import opened Manifests
  import opened ClassPatch
  import opened Archive

  const ResourcePackType: string := "required-resource-pack"

  /**
   * What the code reaches outside itself for: the two public URLs of the
   * runtime configuration, the fetches (an archive or raw bytes by URL), and
   * the serialisers that turn each manifest into the bytes JSZip stores.
   */
  datatype Services = Services(
    siteUrl: string,
    apiBaseUrl: string,
    fetchArchive: string -> Entries,
    fetchBytes: string -> seq<byte>,
    fabricJson: FabricManifest -> seq<byte>,
    quiltJson: QuiltManifest -> seq<byte>,
    forgeToml: ForgeManifest -> seq<byte>)

  /** The wrapper class entry: its path and patched bytes. */
  datatype ShimEntry = ShimEntry(path: string, bytes: seq<byte>)

  /** `version.files.find((x) => x.file_type === 'required-resource-pack')`. */
  function ResourcePackFile(version: Version): (r: Option<VersionFile>)
    ensures r.None? <==> forall f :: f in version.files ==> f.fileType != ResourcePackType
    ensures r.Some? ==> r.value in version.files && r.value.fileType == ResourcePackType
    ensures r.Some? ==> exists k :: 0 <= k < |version.files| && version.files[k] == r.value &&
                                   forall i :: 0 <= i < k ==> version.files[i].fileType != ResourcePackType
  {
    Find(version.files, (f: VersionFile) => f.fileType == ResourcePackType)
  }

  /** Lines 137-172: the wrapper class, present exactly when not `newForge` and Forge is requested. */
  function ShimFor(project: Project, newForge: bool, loaders: seq<string>, classFile: seq<byte>)
    : (r: Option<ShimEntry>)
    ensures r.Some? <==> !newForge && "forge" in loaders
    ensures r.Some? ==> r.value.path == ShimPath(project.id)
    ensures r.Some? ==> r.value.bytes == PatchBytes(classFile, NewSlug(project.slug), SanitizedId(project.id))
  {
    if !newForge && "forge" in loaders then
      Some(ShimEntry(ShimPath(project.id), PatchBytes(classFile, NewSlug(project.slug), SanitizedId(project.id))))
    else None
  }

  /** Lines 175-177: the fetched resource pack, when the version has one. */
  function PackFor(version: Version, services: Services): Option<Entries>
  {
    match ResourcePackFile(version)
    case Some(f) => Some(services.fetchArchive(f.url))
    case None => None
  }

  /** The archive each step leaves behind, in the code's order. */
  function Assemble(
    primary: Entries, loaders: seq<string>, fabric: seq<byte>, quilt: seq<byte>, forge: seq<byte>,
    shim: Option<ShimEntry>, pack: Option<Entries>, iconPath: string)
    : Entries
  {
    var withManifests := WithManifests(primary, loaders, fabric, quilt, forge);
    var withShim := if shim.Some? then withManifests[shim.value.path := shim.value.bytes] else withManifests;
    var merged := if pack.Some? then Merged(withShim, pack.value) else withShim;
    WithIcon(merged, iconPath)
  }

  /** The generated paths never collide with each other or with the fixed ones. */
  lemma GeneratedPathsDistinct(slug: string, id: string)
    ensures IconPath(slug) !in {FabricPath, QuiltPath, ForgePath, PackIcon, ShimPath(id)}
    ensures ShimPath(id) !in {FabricPath, QuiltPath, ForgePath}
  {
    var icon, shim := IconPath(slug), ShimPath(id);
    assert icon[|icon| - 1] == 'g';
    assert shim[|shim| - 1] == 's';
    assert FabricPath[|FabricPath| - 1] == 'n';
    assert QuiltPath[|QuiltPath| - 1] == 'n';
    assert ForgePath[|ForgePath| - 1] == 'l';
    assert |PackIcon| < |IconSuffix| <= |icon|;
  }

  /**
   * Every requested manifest ends up in the archive with its serialised
   * bytes: neither the merge nor the icon copy overwrites it. A manifest
   * path of a loader not requested is only there if the primary archive or
   * the resource pack brought it.
   */
  lemma ManifestsInResult(
    primary: Entries, loaders: seq<string>, fabric: seq<byte>, quilt: seq<byte>, forge: seq<byte>,
    shim: Option<ShimEntry>, pack: Option<Entries>, iconPath: string)
    requires shim.Some? ==> shim.value.path !in {FabricPath, QuiltPath, ForgePath}
    requires iconPath !in {FabricPath, QuiltPath, ForgePath}
    ensures var r := Assemble(primary, loaders, fabric, quilt, forge, shim, pack, iconPath);
            && ("fabric" in loaders ==> FabricPath in r && r[FabricPath] == fabric)
            && ("quilt" in loaders ==> QuiltPath in r && r[QuiltPath] == quilt)
            && ("forge" in loaders ==> ForgePath in r && r[ForgePath] == forge)
    ensures var r := Assemble(primary, loaders, fabric, quilt, forge, shim, pack, iconPath);
            forall p :: p in {FabricPath, QuiltPath, ForgePath} && p !in ManifestPaths(loaders) ==>
              (p in r <==> p in primary || (pack.Some? && p in pack.value && !Excluded(p)))
  {
    MergeKeepsEarlierEntries(primary, loaders, fabric, quilt, forge, shim, pack, iconPath);
  }

  /**
   * The wrapper class is written when a shim is due, and keeps its patched
   * bytes to the end.
   */
  lemma ShimInResult(
    primary: Entries, loaders: seq<string>, fabric: seq<byte>, quilt: seq<byte>, forge: seq<byte>,
    shim: Option<ShimEntry>, pack: Option<Entries>, iconPath: string)
    requires shim.Some? ==> shim.value.path != iconPath
    ensures var r := Assemble(primary, loaders, fabric, quilt, forge, shim, pack, iconPath);
            shim.Some? ==> shim.value.path in r && r[shim.value.path] == shim.value.bytes
  {
  }

  /**
   * The resource-pack merge never overwrites an entry written before it
   * (original entries, manifests, the wrapper class): apart from the icon
   * path, every one of them keeps its bytes. Every other pack entry outside
   * ".mcassetsroot" arrives with its bytes, and no ".mcassetsroot" entry is
   * added by the merge.
   */
  lemma MergeKeepsEarlierEntries(
    primary: Entries, loaders: seq<string>, fabric: seq<byte>, quilt: seq<byte>, forge: seq<byte>,
    shim: Option<ShimEntry>, pack: Option<Entries>, iconPath: string)
    ensures var before := WithManifests(primary, loaders, fabric, quilt, forge);
            var withShim := if shim.Some? then before[shim.value.path := shim.value.bytes] else before;
            var r := Assemble(primary, loaders, fabric, quilt, forge, shim, pack, iconPath);
            && (forall p :: p in withShim && p != iconPath ==> p in r && r[p] == withShim[p])
            && (pack.Some? ==> forall p :: p in pack.value && p !in withShim && !Excluded(p) && p != iconPath
                                 ==> p in r && r[p] == pack.value[p])
            && (forall p :: p in r && p !in withShim && p != iconPath ==>
                             pack.Some? && p in pack.value && !Excluded(p))
  {
  }

  /**
   * When "pack.png" is there after the merge, the icon path gets identical
   * bytes and "pack.png" itself is untouched; without it nothing is added.
   */
  lemma IconCopied(
    primary: Entries, loaders: seq<string>, fabric: seq<byte>, quilt: seq<byte>, forge: seq<byte>,
    shim: Option<ShimEntry>, pack: Option<Entries>, iconPath: string)
    requires iconPath != PackIcon
    ensures var before := WithManifests(primary, loaders, fabric, quilt, forge);
            var withShim := if shim.Some? then before[shim.value.path := shim.value.bytes] else before;
            var merged := if pack.Some? then Merged(withShim, pack.value) else withShim;
            var r := Assemble(primary, loaders, fabric, quilt, forge, shim, pack, iconPath);
            && (PackIcon in merged ==> iconPath in r && PackIcon in r && r[iconPath] == r[PackIcon] == merged[PackIcon])
            && (PackIcon !in merged ==> r == merged)
  {
  }

  /**
   * Only Fabric requested and no resource pack: the archive holds the
   * original entries plus fabric.mod.json, and the icon copy only when
   * "pack.png" was there; no Quilt or Forge manifest and no wrapper class.
   */
  lemma FabricOnly(
    primary: Entries, fabric: seq<byte>, quilt: seq<byte>, forge: seq<byte>,
    project: Project, newForge: bool, classFile: seq<byte>)
    ensures var r := Assemble(primary, ["fabric"], fabric, quilt, forge,
                              ShimFor(project, newForge, ["fabric"], classFile), None, IconPath(project.slug));
            && r.Keys == primary.Keys + {FabricPath}
                         + (if PackIcon in primary then {IconPath(project.slug)} else {})
            && r[FabricPath] == fabric
  {
    assert "quilt" !in ["fabric"] && "forge" !in ["fabric"];
    assert ManifestPaths(["fabric"]) == {FabricPath};
    GeneratedPathsDistinct(project.slug, project.id);
  }

  /** The archive createDataPackVersion returns for these inputs. */
  function DataPack(
    project: Project, version: Version, primaryFile: VersionFile, members: seq<Member>,
    allGameVersions: seq<GameVersion>, loaders: seq<string>, services: Services)
    : Entries
  {
    var newForge := NewForge(allGameVersions, version.gameVersions);
    Assemble(
      services.fetchArchive(primaryFile.url), loaders,
      services.fabricJson(FabricManifestFor(project, version.versionNumber, members, services.siteUrl)),
      services.quiltJson(QuiltManifestFor(project, version.versionNumber, members, services.siteUrl)),
      services.forgeToml(ForgeManifestFor(project, version.versionNumber, members, newForge,
                                          services.siteUrl, services.apiBaseUrl)),
      ShimFor(project, newForge, loaders, services.fetchBytes(WrapperUrl)),
      PackFor(version, services),
      IconPath(project.slug))
  }

  /**
   * Lines 4-198: the whole function. The returned archive is Assemble applied
   * to what the function fetched and built; the lemmas above say what that
   * archive holds.
   */
  method CreateDataPackVersion(
    project: Project, version: Version, primaryFile: VersionFile, members: seq<Member>,
    allGameVersions: seq<GameVersion>, loaders: seq<string>, services: Services)
    returns (archive: Entries)
    ensures archive == DataPack(project, version, primaryFile, members, allGameVersions, loaders, services)
  {
    var iconPath := IconPath(project.slug);
    var newForge := ComputeNewForge(allGameVersions, version.gameVersions);
    var fabric, quilt, forge := BuildManifests(project, version, members, newForge,
                                               services.siteUrl, services.apiBaseUrl);

    var primaryZipReader := new ZipArchive(services.fetchArchive(primaryFile.url));
    WriteManifests(primaryZipReader, loaders,
                   services.fabricJson(fabric), services.quiltJson(quilt), services.forgeToml(forge));

    InjectShim(primaryZipReader, project, newForge, loaders, services);
    MergeRequiredPack(primaryZipReader, version, services);
    primaryZipReader.CopyIcon(iconPath);
    archive := primaryZipReader.entries;
  }

  /** Lines 127-135: the manifest of each requested loader, written in turn. */
  method WriteManifests(zip: ZipArchive, loaders: seq<string>, fabric: seq<byte>, quilt: seq<byte>, forge: seq<byte>)
    modifies zip
    ensures zip.entries == WithManifests(old(zip.entries), loaders, fabric, quilt, forge)
  {
    if "fabric" in loaders {
      zip.Write(FabricPath, fabric);
    }
    if "quilt" in loaders {
      zip.Write(QuiltPath, quilt);
    }
    if "forge" in loaders {
      zip.Write(ForgePath, forge);
    }
  }

  /** Lines 137-172: the wrapper class, written only for the javafml dialect when Forge is requested. */
  method InjectShim(zip: ZipArchive, project: Project, newForge: bool, loaders: seq<string>, services: Services)
    modifies zip
    ensures var shim := ShimFor(project, newForge, loaders, services.fetchBytes(WrapperUrl));
            zip.entries == if shim.Some? then old(zip.entries)[shim.value.path := shim.value.bytes] else old(zip.entries)
  {
    if !newForge && "forge" in loaders {
      var fetched := services.fetchBytes(WrapperUrl);
      var classFile := new byte[|fetched|](i requires 0 <= i < |fetched| => fetched[i]);
      assert classFile[..] == fetched;
      var path, bytes := BuildShim(classFile, project.slug, project.id);
      zip.Write(path, bytes);
    }
  }

  /** Lines 175-187: the required resource pack, when the version has one, merged into the archive. */
  method MergeRequiredPack(zip: ZipArchive, version: Version, services: Services)
    modifies zip
    ensures var pack := PackFor(version, services);
            zip.entries == if pack.Some? then Merged(old(zip.entries), pack.value) else old(zip.entries)
  {
    var resourcePack := ResourcePackFile(version);
    if resourcePack.Some? {
      var resourcePackReader := services.fetchArchive(resourcePack.value.url);
      zip.MergeResourcePack(resourcePackReader);
    }
  }
}
