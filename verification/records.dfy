/**
 * The records createDataPackVersion receives from its caller. They are read,
 * never changed. Field names follow the repository's JSON fields in Dafny's
 * camel case (`version_number` is `versionNumber`, and so on).
 */
module Records {
  import opened JsBuiltins

  datatype License = License(id: string)

  /**
   * A project. `sourceUrl` and `issuesUrl` may be missing (`None`) or empty;
   * both count as absent where the code tests them for truthiness.
   */
  datatype Project = Project(
    id: string,
    slug: string,
    title: string,
    description: string,
    license: License,
    sourceUrl: Option<string>,
    issuesUrl: Option<string>,
    projectType: string)

  /** One downloadable file of a version. */
  datatype VersionFile = VersionFile(url: string, fileType: string)

  datatype Version = Version(
    versionNumber: string,
    gameVersions: seq<string>,
    files: seq<VersionFile>)

  /** A team member of the project. */
  datatype Member = Member(name: string, role: string)

  /** One entry of the reference list of all game versions. */
  datatype GameVersion = GameVersion(version: string)
}
