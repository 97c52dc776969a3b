# createDataPackVersion, modelled in Dafny

`helpers/package.js` exports one function, `createDataPackVersion`. It turns a
Modrinth data pack version into a mod archive that Fabric, Quilt and Forge can
all load. In order, it:

- derives a numeric-leading version string, a mod id (the "new slug") and an
  icon path;
- builds the three loader manifests `fabric.mod.json`, `quilt.mod.json` and
  `META-INF/mods.toml`;
- decides which Forge dialect to target by comparing the version's game
  versions with the position of 1.18.2 in the list of all game versions;
- opens the version's primary zip and writes the requested manifests into it;
- for the javafml dialect, fetches a prebuilt wrapper class, patches the mod
  id and package name into its bytes, and stores it in the archive;
- merges the version's required resource pack without overwriting anything;
- copies `pack.png` to the icon path.

The model follows that structure, one module per concern:

| file | module | what it holds |
|---|---|---|
| `builtins.dfy` | `JsBuiltins` | The JavaScript built-ins the function relies on, over Dafny sequences: `indexOf`, `replace` with a string pattern (first occurrence only), `includes`, `substring(0, n)`, `findIndex`/`find`, `join`, and `replace(/\W/g, '')`. |
| `records.dfy` | `Records` | The input records: project, version, version file, member, game version. |
| `identifiers.dfy` | `Identifiers` | The version number, the new slug, the sanitised id, the icon and wrapper-class paths. |
| `classifier.dfy` | `Classifier` | The `maximumIndex` loop as a method proved against a recursive fold. The `Number.MIN_VALUE` sentinel is shown to act as 0. |
| `manifests.dfy` | `Manifests` | The three manifests as datatypes, with pure builders. The literal-then-patch construction of the code is a method proved equal to them. |
| `classpatch.dfy` | `ClassPatch` | The bytes → Latin-1 string → replace → char codes → `Uint8Array` pipeline. The two conversion loops are methods. The whole detour is proved equal to a byte-level "replace first occurrence". |
| `archive.dfy` | `Archive` | The zip as a map from path to bytes. `ZipArchive` is the JSZip object the code mutates, with `Write`, the resource-pack merge loop and the icon copy. The pure map functions specify them. |
| `package.dfy` | `Package` | `CreateDataPackVersion` itself, proved to return `DataPack(...)`, plus lemmas on what that archive contains. |

Fetches, the JSON and TOML serialisers and the runtime configuration are
fields of a `Services` value passed in by the caller.

On the Forge dialect the code is followed exactly:

- `newForge` holds when the largest position found is below the position of
  1.18.2 (line 85).
- `newForge` selects `lowcodefml` with `[40,)` (lines 88-89).
- The wrapper class is written only when `newForge` is false and Forge is
  requested (line 137).

So `lowcodefml` and the wrapper class are on opposite sides of `newForge`:
a version that gets `lowcodefml` never gets the wrapper class.

## Model

| member | source | states |
|---|---|---|
| `JsBuiltins.IndexFrom` | helpers/package.js:157-162 | `-1` exactly when the pattern occurs nowhere at or after `from`. Otherwise the first position at or after `from` where it occurs. |
| `JsBuiltins.IndexOf` | helpers/package.js:157-162 | `-1` exactly when the pattern occurs nowhere. Otherwise the first position where it occurs, with no occurrence before it. |
| `JsBuiltins.ReplaceFirst` | helpers/package.js:157-162 | Without an occurrence the input is returned unchanged. Otherwise, at the first occurrence `k`: the part before `k` is kept, the replacement follows, everything after the matched pattern is kept, and the length changes by `|rep| - |pat|`. |
| `JsBuiltins.ReplaceFirstAt` | helpers/package.js:157-162 | For `s == prefix + pat + suffix` with no occurrence starting inside `prefix`, the result is `prefix + rep + suffix`: later occurrences in `suffix` survive. |
| `JsBuiltins.DeleteNonWord` | helpers/package.js:17 | The result has only `[A-Za-z0-9_]` characters and is no longer than the input. A string of word characters is returned unchanged, and a string with no word character becomes empty. |
| `JsBuiltins.DeleteNonWordConcat` | helpers/package.js:17 | The global `\W` deletion works piece by piece over a concatenation. |
| `JsBuiltins.Prefix` | helpers/package.js:17 | `substring(0, n)`: the first `min(n, |s|)` characters of the string. |
| `JsBuiltins.FindIndexFrom` | helpers/package.js:75 | `-1` exactly when no element at or after `from` satisfies the predicate. Otherwise the first such position. |
| `JsBuiltins.FindIndex` | helpers/package.js:79 | `-1` exactly when no element satisfies the predicate. Otherwise the first position whose element does. |
| `JsBuiltins.Find` | helpers/package.js:175 | Nothing exactly when no element satisfies the predicate. Otherwise the element at the first position that does. |
| `JsBuiltins.Join` | helpers/package.js:103 | The empty list joins to `""`. A single part joins to itself. A longer list starts with its first part. |
| `JsBuiltins.JoinConcat` | helpers/package.js:103 | Joining two non-empty lists equals joining each and putting one separator between them. |
| `Identifiers.NewVersionNumber` | helpers/package.js:13-15 | The result starts with a digit. It equals the input exactly when the input starts with a digit; otherwise it is `"1-"` followed by the input. |
| `Identifiers.NewSlug` | helpers/package.js:17 | Starts with `"mr_"`, has between 3 and 63 characters, and every character is a word character. |
| `Identifiers.NewSlugWithoutHyphen` | helpers/package.js:17 | A slug without a hyphen only loses its non-word characters behind `"mr_"`, then is cut to 63. |
| `Identifiers.NewSlugOfHyphenated` | helpers/package.js:17 | For `head + "-" + tail` with no hyphen in `head`, the first hyphen becomes the one underscore, and every hyphen in `tail` is deleted with the other non-word characters. |
| `Identifiers.NewSlugOfCleanSlug` | helpers/package.js:17 | A slug of at most 60 word characters comes out as `"mr_" + slug`. |
| `Identifiers.NewSlugExample` | helpers/package.js:17 | `"My-Mod!!"` becomes `"mr_My_Mod"`. |
| `Identifiers.SanitizedId` | helpers/package.js:149-155 | The length is `min(8, |id| + 1)` when the id starts with a digit, else `min(8, |id|)`. The result never starts with a digit. With a leading digit it is `"_"` followed by the id's prefix; otherwise it is a prefix of the id. |
| `Identifiers.IconPath` | helpers/package.js:19 | The raw slug (not the new slug) followed by `"_pack.png"`. |
| `Identifiers.ShimPath` | helpers/package.js:169-171 | `"com/modrinth/"`, then the sanitised id, then `"/ModrinthWrapper.class"`. |
| `Classifier.IndexOfVersion` | helpers/package.js:75 | `-1` exactly when no entry has that version; otherwise the first position whose entry has it. |
| `Classifier.CutoffIndex` | helpers/package.js:75 | `-1` exactly when no entry is 1.18.2. Otherwise the first position of 1.18.2. |
| `Classifier.MaxFoundIndex` | helpers/package.js:77-83 | At least 0 and at least the position of every listed game version. It is 0 or the position of one of them. |
| `Classifier.MaxFoundIndexStep` | helpers/package.js:78-83 | One more loop iteration raises the maximum to the new position exactly when that position is larger. |
| `Classifier.ComputeNewForge` | helpers/package.js:75-85 | The loop computes `NewForge`. That holds exactly when the cutoff is present and not first, and every listed game version lies before it in the list. |
| `Classifier.SentinelActsAsZero` | helpers/package.js:77-85 | With any starting value strictly between 0 and 1 (`Number.MIN_VALUE` among them), the real-valued loop ends on the sentinel or on the integer maximum, and gives the same `newForge`. |
| `Classifier.CutoffMissingOrFirst` | helpers/package.js:75-85 | If 1.18.2 is missing or first in the list, `newForge` is false. |
| `Classifier.UnlistedVersionIgnored` | helpers/package.js:78-83 | A game version not found, or found at position 0, leaves the maximum unchanged. |
| `Classifier.NoVersionFound` | helpers/package.js:77-85 | When no listed game version is found past position 0, the maximum stays at the sentinel, and `newForge` holds exactly when the cutoff is present and not first. |
| `Classifier.NewForgeOrderIndependent` | helpers/package.js:78-85 | Two version lists with the same elements get the same classification, whatever the order or repetition. |
| `Classifier.NewForge` | helpers/package.js:85 | `newForge` holds iff the cutoff position is above 0 and every listed game version's position is below it. |
| `Classifier.ClassificationExample` | helpers/package.js:75-85 | With the list 1.16, 1.17, 1.18, 1.18.2, 1.19, a 1.17 version is `newForge` and a 1.19 version is not. |
| `Manifests.IfTruthy` | helpers/package.js:111-120 | An optional URL is attached exactly when it is present and non-empty, and then unchanged. |
| `Manifests.Authors` | helpers/package.js:29 | One name per member, in member order. |
| `Manifests.Contributors` | helpers/package.js:50-56 | The keys are exactly the member names, and each key maps to the role of some member with that name. |
| `Manifests.ContributorsLastWins` | helpers/package.js:50-56 | For a repeated name, the role of its last occurrence is the one kept. |
| `Manifests.ForgeAuthorsAppend` | helpers/package.js:103 | One more member adds `", "` and its name at the end of the authors string. |
| `Manifests.UpdateJsonUrlUnderHost` | helpers/package.js:99-101 | For an API base `host + "/v2/"`, the update URL is `host/updates/<id>/forge_updates.json`. |
| `Manifests.FabricManifestFor` | helpers/package.js:23-39 | The id is the new slug, the version the new version number, the authors the member names, the icon the icon path. The contact is the homepage plus the truthy source and issue URLs. The dependency is on `fabric-resource-loader-v0`. |
| `Manifests.QuiltManifestFor` | helpers/package.js:41-73 | The same id, version and icon. The contributors map, the contact block with the truthy URLs, and the single `quilt_resource_loader` dependency unless `fabric-resource-loader-v0`. |
| `Manifests.ForgeManifestFor` | helpers/package.js:87-109 | `lowcodefml` iff `newForge`, and `[40,)` iff `newForge`; otherwise `javafml` with `[25,)`. One mod with the new slug, the version, the icon, the update URL, the credit `"Generated by Beehive"`, the authors joined by `", "` and the display URL. The issue tracker is the truthy issues URL. |
| `Manifests.BuildManifests` | helpers/package.js:23-120 | The literals followed by the conditional field assignments give exactly the three builder functions. |
| `Manifests.ManifestsAgree` | helpers/package.js:23-109 | The three manifests share the mod id, the version and the icon, and the Fabric and Quilt contact blocks agree. The Forge issue tracker equals the contact's issues URL. |
| `ClassPatch.Latin1String` | helpers/package.js:144-147 | One character per byte, with the byte's value as its code. |
| `ClassPatch.Uint8Array` | helpers/package.js:164-171 | One byte per character, the code taken modulo 256. |
| `ClassPatch.BytesRoundTrip` | helpers/package.js:144-167 | Bytes to string and back is the identity. |
| `ClassPatch.Latin1RoundTrip` | helpers/package.js:144-167 | A string of codes below 256 survives the way through bytes. |
| `ClassPatch.Uint8ArrayInjective` | helpers/package.js:164-171 | Different Latin-1 strings give different bytes. |
| `ClassPatch.OccursAtUint8Array` | helpers/package.js:157-162 | A Latin-1 pattern occurs in Latin-1 text exactly where its bytes occur in the text's bytes. |
| `ClassPatch.IndexOfUint8Array` | helpers/package.js:157-162 | The first occurrence is at the same position in the string and in the bytes. |
| `ClassPatch.Uint8ArrayReplaceFirst` | helpers/package.js:157-167 | Replacing in the Latin-1 string, then storing the codes, equals replacing the pattern's bytes in the stored bytes. |
| `ClassPatch.SlugField` | helpers/package.js:160 | The first byte is the id's length modulo 256, and the id's bytes follow it. So the length byte equals the id's length whenever that is below 256. |
| `ClassPatch.RenameSlug` | helpers/package.js:157-161 | Without the 33-byte marker (byte 32, then the placeholder) the bytes are unchanged. Otherwise its first occurrence becomes the length byte and the new slug, and the bytes before and after are kept. |
| `ClassPatch.RenamePackage` | helpers/package.js:162 | Without `/wrappera/` the bytes are unchanged. Otherwise its first occurrence becomes `/<sanitizedId>/`, and the bytes before and after are kept. |
| `ClassPatch.PatchWithoutSites` | helpers/package.js:157-162 | A template with neither site comes out unchanged. |
| `ClassPatch.SlugSiteLengthPrefixed` | helpers/package.js:159 | The marker is a length-prefixed string: its first byte, 32, is the length of the placeholder that follows. |
| `ClassPatch.NewSlugFitsLengthByte` | helpers/package.js:157-161 | For every slug, the length byte equals the new slug's length, which is at most 63, and the id's bytes follow it. |
| `ClassPatch.BinaryString` | helpers/package.js:144-147 | The loop builds the Latin-1 string of the class bytes. |
| `ClassPatch.CharCodeBytes` | helpers/package.js:164-167 | The loop collects the char codes, and `new Uint8Array` stores them modulo 256. |
| `ClassPatch.BuildShim` | helpers/package.js:144-171 | The path is `ShimPath(id)`. The stored bytes are the template with the slug site renamed first and the package site second. |
| `Archive.ManifestPaths` | helpers/package.js:127-135 | Each manifest path is included exactly when its loader is requested. |
| `Archive.WithManifests` | helpers/package.js:127-135 | The keys are the old ones plus the requested manifest paths, each holding its manifest bytes. Every other entry is unchanged. |
| `Archive.Merged` | helpers/package.js:179-188 | Existing entries keep their bytes. The new keys are exactly the pack paths without `.mcassetsroot`, each with the pack's bytes. |
| `Archive.MergedStep` | helpers/package.js:183-187 | One more pack entry is added exactly when its path is neither present nor excluded. |
| `Archive.WithIcon` | helpers/package.js:190-191 | With `pack.png` present, the icon path gets its bytes and nothing else changes; without it the archive is unchanged. |
| `Archive.ZipArchive.constructor` | helpers/package.js:124-125 | The archive starts with the loaded entries. |
| `Archive.ZipArchive.File` | helpers/package.js:184 | The entry at the path, or nothing when there is none. |
| `Archive.ZipArchive.Write` | helpers/package.js:128 | The path now holds the data. Every other entry is unchanged. |
| `Archive.ZipArchive.MergeResourcePack` | helpers/package.js:183-187 | The loop over the pack's entries, in whatever order it visits them, leaves `Merged(old, pack)`. |
| `Archive.ZipArchive.CopyIcon` | helpers/package.js:190-191 | The archive becomes `WithIcon(old, iconPath)`. |
| `Package.ResourcePackFile` | helpers/package.js:175 | Nothing exactly when no file is a required resource pack. Otherwise the first file of the version that is one. |
| `Package.ShimFor` | helpers/package.js:137-171 | A wrapper class is due exactly when `newForge` is false and Forge is requested, at `ShimPath(id)`, and its bytes are the fetched class with the new slug and the sanitised id patched in. |
| `Package.GeneratedPathsDistinct` | helpers/package.js:169-171 | The icon path and the wrapper-class path never equal each other, a manifest path or `pack.png`. |
| `Package.ManifestsInResult` | helpers/package.js:127-192 | Each requested manifest is in the returned archive with its bytes. The path of a loader not requested is there only if the primary archive or the pack (outside `.mcassetsroot`) brought it. |
| `Package.ShimInResult` | helpers/package.js:137-192 | A due wrapper class is in the returned archive with its patched bytes. |
| `Package.MergeKeepsEarlierEntries` | helpers/package.js:175-192 | Everything written before the merge keeps its bytes, the icon path apart. Every other pack entry outside `.mcassetsroot` is added with its bytes, and nothing else is added. |
| `Package.IconCopied` | helpers/package.js:190-191 | With `pack.png` present after the merge, the icon path gets identical bytes and `pack.png` is untouched. Without it nothing is added. |
| `Package.FabricOnly` | helpers/package.js:127-192 | Fabric only and no pack: the original entries plus `fabric.mod.json`, and the icon copy only when `pack.png` was there. |
| `Package.CreateDataPackVersion` | helpers/package.js:4-198 | The returned archive is `DataPack(...)`: the primary archive with the manifests written, the wrapper class injected, the pack merged and the icon copied. |
| `Package.WriteManifests` | helpers/package.js:127-135 | The archive becomes `WithManifests(old, ...)`. |
| `Package.InjectShim` | helpers/package.js:137-173 | The wrapper class is written at its path exactly when `ShimFor` says one is due; otherwise the archive is unchanged. |
| `Package.MergeRequiredPack` | helpers/package.js:175-188 | With a required resource pack, the archive becomes `Merged(old, pack)`; otherwise it is unchanged. |

## Left out

- Network fetches (lines 122, 140, 177) are the `fetchArchive` and `fetchBytes` fields of `Services`. Failed fetches, rejected promises and unreadable zips are not modelled: the model always returns an archive.
- JSZip internals (`loadAsync`, `generateAsync`, the MIME type, lines 124-125, 180-181, 194-197) are left out. So are directory entries, which `file(path)` does not return. The archive is a map from file path to bytes.
- `JSON.stringify` and `TOML.stringify` (lines 128-134) are uninterpreted functions in `Services`, so key order and text format are not modelled.
- `useRuntimeConfig()` (line 21) is replaced by the `siteUrl` and `apiBaseUrl` fields of `Services`.
- `async`/`await` sequencing is left out; the steps run in the code's order.
- `Number.MIN_VALUE` (line 77) is the integer 0 in `ComputeNewForge`. `SentinelActsAsZero` shows on reals that any start strictly between 0 and 1 classifies the same.
- `$` patterns in the replacement strings of `String.replace` (lines 99, 158-162) are not expanded; replacements are literal. This is exact for the slug replacement at line 160: its first character is `String.fromCharCode(newSlug.length)`, which is `$` for a 36-character slug, but it is followed by `m` and the new slug holds only word characters, so no `$` pattern (`$$`, `$&`, `` $` ``, `$'`, `$n`, `$<`) can form. A project id containing `$` is assumed not to occur.
- `\W` and `\d` are the ASCII classes. Strings are sequences of Unicode characters rather than UTF-16 code units. For a character outside the Basic Multilingual Plane the code counts two units where the model counts one. This affects the `substring` cut at line 155 and the `charCodeAt` loop (lines 164-167), which stores two bytes for such a character in a project id where the model stores one. Lone surrogates, which JavaScript strings allow, cannot be represented.
- `project.slug ?? project.id` (lines 31, 59, 105): line 17 already calls `project.slug.replace`, so a missing slug fails before the fallback. The slug is therefore a plain string and the fallback is not modelled.
- `Homepage`, `UpdateJsonUrl`, `ForgeAuthors`, `PatchBytes`, `Assemble`, `PackFor` and `DataPack` are definitions without their own contract. Their properties are stated by the lemmas and builder contracts above.
