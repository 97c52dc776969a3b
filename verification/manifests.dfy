/**
 * The three loader manifests createDataPackVersion generates: fabric.mod.json,
 * quilt.mod.json and META-INF/mods.toml, as records with fixed fields. Turning
 * them into JSON or TOML text is left to the serialisers the caller supplies.
 */
module Manifests {
  import opened JsBuiltins
  import opened Records
  import opened Identifiers

  datatype Contact = Contact(homepage: string, sources: Option<string>, issues: Option<string>)

  datatype FabricManifest = FabricManifest(
    schemaVersion: int,
    id: string,
    version: string,
    name: string,
    description: string,
    authors: seq<string>,
    contact: Contact,
    license: string,
    icon: string,
    environment: string,
    depends: map<string, string>)

  datatype QuiltDependency = QuiltDependency(id: string, versions: string, unless: string)

  datatype QuiltMetadata = QuiltMetadata(
    name: string,
    description: string,
    contributors: map<string, string>,
    contact: Contact,
    icon: string)

  datatype QuiltLoader = QuiltLoader(
    group: string,
    id: string,
    version: string,
    metadata: QuiltMetadata,
    intermediateMappings: string,
    depends: seq<QuiltDependency>)

  datatype QuiltManifest = QuiltManifest(schemaVersion: int, quiltLoader: QuiltLoader)

  datatype ForgeMod = ForgeMod(
    modId: string,
    version: string,
    displayName: string,
    description: string,
    logoFile: string,
    updateJsonUrl: string,
    credits: string,
    authors: string,
    displayUrl: string)

  datatype ForgeManifest = ForgeManifest(
    modLoader: string,
    loaderVersion: string,
    license: string,
    showAsResourcePack: bool,
    mods: seq<ForgeMod>,
    issueTrackerUrl: Option<string>)

  const FabricResourceLoader: string := "fabric-resource-loader-v0"
  const QuiltResourceLoader: string := "quilt_resource_loader"
  const Credits: string := "Generated by Beehive"
  const AuthorSeparator: string := ", "

  /** An optional string kept only when JavaScript finds it truthy: present and not empty. */
  function IfTruthy(s: Option<string>): (r: Option<string>)
    ensures r.Some? <==> s.Some? && s.value != ""
    ensures r.Some? ==> r == s
  {
    if s.Some? && s.value != "" then s else None
  }

  /** `members.map((x) => x.name)`: the member names, in member order. */
  function Authors(members: seq<Member>): (r: seq<string>)
    ensures |r| == |members|
    ensures forall i :: 0 <= i < |members| ==> r[i] == members[i].name
  {
    seq(|members|, i requires 0 <= i < |members| => members[i].name)
  }

  /**
   * The contributors object built by `reduce`: one key per member name,
   * mapped to a role of a member of that name (ContributorsLastWins says which).
   */
  function Contributors(members: seq<Member>): (r: map<string, string>)
    ensures r.Keys == set m | m in members :: m.name
    ensures forall name :: name in r ==> exists m :: m in members && m.name == name && m.role == r[name]
    decreases |members|
  {
    if |members| == 0 then map[]
    else
      var last := members[|members| - 1];
      var rest := members[..|members| - 1];
      assert forall m :: m in members <==> m in rest || m == last;
      Contributors(rest)[last.name := last.role]
  }

  /** No later member shares the name of member `i`. */
  predicate LastWithName(members: seq<Member>, i: int)
    requires 0 <= i < |members|
  {
    forall j :: i < j < |members| ==> members[j].name != members[i].name
  }

  /** When a name occurs more than once, the role of its last occurrence wins. */
  lemma {:induction false} ContributorsLastWins(members: seq<Member>, i: int)
    requires 0 <= i < |members| && LastWithName(members, i)
    ensures Contributors(members)[members[i].name] == members[i].role
    decreases |members|
  {
    var n := |members| - 1;
    if i < n {
      var rest := members[..n];
      assert members[n].name != members[i].name;
      assert rest[i] == members[i];
      assert LastWithName(rest, i) by {
        forall j | i < j < |rest| ensures rest[j].name != rest[i].name {
          assert rest[j] == members[j];
        }
      }
      ContributorsLastWins(rest, i);
    }
  }

  /** The authors string of mods.toml: the names joined by ", ". */
  function ForgeAuthors(members: seq<Member>): string
  {
    Join(Authors(members), AuthorSeparator)
  }

  /** A member added at the end adds ", " and its name at the end of the authors string. */
  lemma ForgeAuthorsAppend(members: seq<Member>, m: Member)
    requires |members| >= 1
    ensures ForgeAuthors(members + [m]) == ForgeAuthors(members) + AuthorSeparator + m.name
  {
    assert Authors(members + [m]) == Authors(members) + Authors([m]);
    JoinConcat(Authors(members), Authors([m]), AuthorSeparator);
  }

  /** The project page, `${siteUrl}/${project_type}/${slug}`. */
  function Homepage(siteUrl: string, project: Project): string
  {
    siteUrl + "/" + project.projectType + "/" + project.slug
  }

  /** The update URL: the first "/v2/" of the API base removed, then the project's update file. */
  function UpdateJsonUrl(apiBaseUrl: string, projectId: string): string
  {
    ReplaceFirst(apiBaseUrl, "/v2/", "") + "/updates/" + projectId + "/forge_updates.json"
  }

  /**
   * With the API base `host + "/v2/"` (no earlier "/v2/"), the update URL sits
   * directly under `host`.
   */
  lemma UpdateJsonUrlUnderHost(host: string, projectId: string)
    requires forall i :: 0 <= i < |host| ==> !OccursAt(host + "/v2/", "/v2/", i)
    ensures UpdateJsonUrl(host + "/v2/", projectId) == host + "/updates/" + projectId + "/forge_updates.json"
  {
    ReplaceFirstAt(host + "/v2/", "/v2/", "", host, "");
    assert host + "/v2/" == host + "/v2/" + "";
    assert host + "" + "" == host;
  }

  /** fabric.mod.json as it stands once the optional URLs are attached. */
  function FabricManifestFor(project: Project, versionNumber: string, members: seq<Member>, siteUrl: string)
    : (r: FabricManifest)
    ensures r.id == NewSlug(project.slug) && r.version == NewVersionNumber(versionNumber)
    ensures r.authors == Authors(members)
    ensures r.icon == IconPath(project.slug)
    ensures r.contact == Contact(Homepage(siteUrl, project), IfTruthy(project.sourceUrl), IfTruthy(project.issuesUrl))
    ensures r.depends == map[FabricResourceLoader := "*"]
  {
    FabricManifest(
      1, NewSlug(project.slug), NewVersionNumber(versionNumber), project.title, project.description,
      Authors(members),
      Contact(Homepage(siteUrl, project), IfTruthy(project.sourceUrl), IfTruthy(project.issuesUrl)),
      project.license.id, IconPath(project.slug), "*", map[FabricResourceLoader := "*"])
  }

  /** quilt.mod.json as it stands once the optional URLs are attached. */
  function QuiltManifestFor(project: Project, versionNumber: string, members: seq<Member>, siteUrl: string)
    : (r: QuiltManifest)
    ensures r.quiltLoader.id == NewSlug(project.slug)
    ensures r.quiltLoader.version == NewVersionNumber(versionNumber)
    ensures r.quiltLoader.metadata.contributors == Contributors(members)
    ensures r.quiltLoader.metadata.icon == IconPath(project.slug)
    ensures r.quiltLoader.metadata.contact
         == Contact(Homepage(siteUrl, project), IfTruthy(project.sourceUrl), IfTruthy(project.issuesUrl))
    ensures r.quiltLoader.depends == [QuiltDependency(QuiltResourceLoader, "*", FabricResourceLoader)]
  {
    var metadata := QuiltMetadata(
      project.title, project.description, Contributors(members),
      Contact(Homepage(siteUrl, project), IfTruthy(project.sourceUrl), IfTruthy(project.issuesUrl)),
      IconPath(project.slug));
    QuiltManifest(1, QuiltLoader(
      "com.modrinth", NewSlug(project.slug), NewVersionNumber(versionNumber), metadata,
      "net.fabricmc:intermediary", [QuiltDependency(QuiltResourceLoader, "*", FabricResourceLoader)]))
  }

  /**
   * META-INF/mods.toml as it stands once the issue tracker is attached. The
   * loader is lowcodefml with range [40,) exactly when `newForge`, and
   * javafml with [25,) otherwise.
   */
  function ForgeManifestFor(
    project: Project, versionNumber: string, members: seq<Member>, newForge: bool,
    siteUrl: string, apiBaseUrl: string)
    : (r: ForgeManifest)
    ensures r.modLoader == "lowcodefml" <==> newForge
    ensures r.loaderVersion == "[40,)" <==> newForge
    ensures !newForge ==> r.modLoader == "javafml" && r.loaderVersion == "[25,)"
    ensures |r.mods| == 1
    ensures r.mods[0].modId == NewSlug(project.slug)
    ensures r.mods[0].version == NewVersionNumber(versionNumber)
    ensures r.mods[0].logoFile == IconPath(project.slug)
    ensures r.mods[0].updateJsonUrl == UpdateJsonUrl(apiBaseUrl, project.id)
    ensures r.mods[0].credits == Credits
    ensures r.mods[0].authors == Join(Authors(members), AuthorSeparator)
    ensures r.mods[0].displayUrl == Homepage(siteUrl, project)
    ensures r.issueTrackerUrl == IfTruthy(project.issuesUrl)
  {
    var mod := ForgeMod(
      NewSlug(project.slug), NewVersionNumber(versionNumber), project.title, project.description,
      IconPath(project.slug), UpdateJsonUrl(apiBaseUrl, project.id), Credits,
      ForgeAuthors(members), Homepage(siteUrl, project));
    ForgeManifest(
      if newForge then "lowcodefml" else "javafml",
      if newForge then "[40,)" else "[25,)",
      project.license.id, false, [mod], IfTruthy(project.issuesUrl))
  }

  /**
   * Lines 23-120: the three manifests are built as literals, then the source
   * URL is attached to the Fabric and Quilt contact blocks and the issues URL
   * to all three, each only when the project's URL is truthy.
   */
  method BuildManifests(
    project: Project, version: Version, members: seq<Member>, newForge: bool,
    siteUrl: string, apiBaseUrl: string)
    returns (fabric: FabricManifest, quilt: QuiltManifest, forge: ForgeManifest)
    ensures fabric == FabricManifestFor(project, version.versionNumber, members, siteUrl)
    ensures quilt == QuiltManifestFor(project, version.versionNumber, members, siteUrl)
    ensures forge == ForgeManifestFor(project, version.versionNumber, members, newForge, siteUrl, apiBaseUrl)
  {
    var newVersionNumber := NewVersionNumber(version.versionNumber);
    var newSlug := NewSlug(project.slug);
    var iconPath := IconPath(project.slug);
    var homepage := Homepage(siteUrl, project);

    fabric := FabricManifest(
      1, newSlug, newVersionNumber, project.title, project.description, Authors(members),
      Contact(homepage, None, None), project.license.id, iconPath, "*",
      map[FabricResourceLoader := "*"]);

    quilt := QuiltManifest(1, QuiltLoader(
      "com.modrinth", newSlug, newVersionNumber,
      QuiltMetadata(project.title, project.description, Contributors(members),
                    Contact(homepage, None, None), iconPath),
      "net.fabricmc:intermediary", [QuiltDependency(QuiltResourceLoader, "*", FabricResourceLoader)]));

    forge := ForgeManifest(
      if newForge then "lowcodefml" else "javafml",
      if newForge then "[40,)" else "[25,)",
      project.license.id, false,
      [ForgeMod(newSlug, newVersionNumber, project.title, project.description, iconPath,
                UpdateJsonUrl(apiBaseUrl, project.id), Credits,
                Join(Authors(members), AuthorSeparator), homepage)],
      None);

    if project.sourceUrl.Some? && project.sourceUrl.value != "" {
      var metadata := quilt.quiltLoader.metadata;
      metadata := metadata.(contact := metadata.contact.(sources := project.sourceUrl));
      quilt := quilt.(quiltLoader := quilt.quiltLoader.(metadata := metadata));
      fabric := fabric.(contact := fabric.contact.(sources := project.sourceUrl));
    }

    if project.issuesUrl.Some? && project.issuesUrl.value != "" {
      var metadata := quilt.quiltLoader.metadata;
      metadata := metadata.(contact := metadata.contact.(issues := project.issuesUrl));
      quilt := quilt.(quiltLoader := quilt.quiltLoader.(metadata := metadata));
      fabric := fabric.(contact := fabric.contact.(issues := project.issuesUrl));
      forge := forge.(issueTrackerUrl := project.issuesUrl);
    }
  }

  /** All three manifests name the same mod: one id, one version, one icon. */
  lemma ManifestsAgree(
    project: Project, versionNumber: string, members: seq<Member>, newForge: bool,
    siteUrl: string, apiBaseUrl: string)
    ensures var fabric := FabricManifestFor(project, versionNumber, members, siteUrl);
            var quilt := QuiltManifestFor(project, versionNumber, members, siteUrl);
            var forge := ForgeManifestFor(project, versionNumber, members, newForge, siteUrl, apiBaseUrl);
            && fabric.id == quilt.quiltLoader.id == forge.mods[0].modId
            && fabric.version == quilt.quiltLoader.version == forge.mods[0].version
            && fabric.icon == quilt.quiltLoader.metadata.icon == forge.mods[0].logoFile
            && fabric.contact == quilt.quiltLoader.metadata.contact
            && fabric.contact.issues == forge.issueTrackerUrl
  {
  }
}
