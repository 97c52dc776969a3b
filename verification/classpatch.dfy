/**
 * The wrapper class injected for mods.toml files of the javafml dialect. The
 * prebuilt class is a byte template with two patch sites: a length-prefixed
 * placeholder for the mod id, and the package segment "/wrappera/". The code
 * turns the bytes into a string one character per byte, replaces the first
 * occurrence of each site, and stores the character codes back into a
 * Uint8Array (which keeps each code modulo 256).
 */
module ClassPatch {
  import opened JsBuiltins
  import opened Identifiers

  const WrapperUrl: string := "https://cdn.modrinth.com/wrapper/ModrinthWrapperRestiched.class"
  const Placeholder: string := "needs1to1be1changed1modrinth1mod"
  /** The placeholder behind its length, 32: a length-prefixed string of the class's constant pool. */
  const SlugMarker: string := [32 as char] + Placeholder
  const PathMarker: string := "/wrappera/"

  predicate IsLatin1Char(c: char)
  {
    c as int < 256
  }

  /** Every character has a code below 256. */
  predicate IsLatin1(s: string)
  {
    forall i :: 0 <= i < |s| ==> IsLatin1Char(s[i])
  }

  /** `String.fromCharCode(b)` for every byte `b`. */
  function Latin1String(bytes: seq<byte>): (s: string)
    ensures |s| == |bytes|
    ensures forall i :: 0 <= i < |s| ==> s[i] as int == bytes[i] as int
  {
    seq(|bytes|, i requires 0 <= i < |bytes| => bytes[i] as int as char)
  }

  /** `new Uint8Array(codes)` for the character codes of `s`: each code kept modulo 256. */
  function Uint8Array(s: string): (bytes: seq<byte>)
    ensures |bytes| == |s|
    ensures forall i :: 0 <= i < |s| ==> bytes[i] as int == s[i] as int % 256
  {
    seq(|s|, i requires 0 <= i < |s| => (s[i] as int % 256) as byte)
  }

  /** Bytes to string and back is the identity on every byte. */
  lemma BytesRoundTrip(bytes: seq<byte>)
    ensures Uint8Array(Latin1String(bytes)) == bytes
  {
  }

  /** A string of codes below 256 survives the way back through bytes. */
  lemma Latin1RoundTrip(s: string)
    requires IsLatin1(s)
    ensures Latin1String(Uint8Array(s)) == s
  {
  }

  /** Storing Latin-1 strings into bytes loses nothing: different strings give different bytes. */
  lemma Uint8ArrayInjective(x: string, y: string)
    requires IsLatin1(x) && IsLatin1(y)
    requires Uint8Array(x) == Uint8Array(y)
    ensures x == y
  {
    Latin1RoundTrip(x);
    Latin1RoundTrip(y);
  }

  /** A Latin-1 pattern occurs in Latin-1 text exactly where its bytes occur in the text's bytes. */
  lemma OccursAtUint8Array(s: string, pat: string, i: int)
    requires IsLatin1(s) && IsLatin1(pat)
    ensures OccursAt(Uint8Array(s), Uint8Array(pat), i) <==> OccursAt(s, pat, i)
  {
    if 0 <= i && i + |pat| <= |s| {
      assert Uint8Array(s)[i..i + |pat|] == Uint8Array(s[i..i + |pat|]);
      if Uint8Array(s[i..i + |pat|]) == Uint8Array(pat) {
        Uint8ArrayInjective(s[i..i + |pat|], pat);
      }
    }
  }

  /** So the first occurrence is found at the same position in both. */
  lemma IndexOfUint8Array(s: string, pat: string)
    requires IsLatin1(s) && IsLatin1(pat)
    ensures IndexOf(Uint8Array(s), Uint8Array(pat)) == IndexOf(s, pat)
  {
    var b, p := Uint8Array(s), Uint8Array(pat);
    forall i ensures OccursAt(b, p, i) <==> OccursAt(s, pat, i) {
      OccursAtUint8Array(s, pat, i);
    }
    var k, kb := IndexOf(s, pat), IndexOf(b, p);
    if k != -1 {
      assert OccursAt(b, p, k);
    }
  }

  /**
   * On Latin-1 text and pattern, replacing in the string and then storing the
   * codes gives the same bytes as replacing in the stored bytes: the string
   * detour of the code is a byte-level "replace first occurrence".
   */
  lemma Uint8ArrayReplaceFirst(s: string, pat: string, rep: string)
    requires IsLatin1(s) && IsLatin1(pat)
    ensures Uint8Array(ReplaceFirst(s, pat, rep))
         == ReplaceFirst(Uint8Array(s), Uint8Array(pat), Uint8Array(rep))
  {
    IndexOfUint8Array(s, pat);
    ReplaceFirstStored(s, pat, rep);
  }

  /** Once the first occurrence sits at the same position, the two replacements agree. */
  lemma ReplaceFirstStored(s: string, pat: string, rep: string)
    requires IndexOf(Uint8Array(s), Uint8Array(pat)) == IndexOf(s, pat)
    ensures Uint8Array(ReplaceFirst(s, pat, rep))
         == ReplaceFirst(Uint8Array(s), Uint8Array(pat), Uint8Array(rep))
  {
    var k := IndexOf(s, pat);
    var bytes, bytesPat, bytesRep := Uint8Array(s), Uint8Array(pat), Uint8Array(rep);
    if k != -1 {
      Uint8ArraySplice(s, k, k + |pat|, rep);
      ReplaceFirstSplit(s, pat, rep, k);
      ReplaceFirstSplit(bytes, bytesPat, bytesRep, k);
    }
  }

  /** Storing a spliced string equals splicing the stored bytes. */
  lemma Uint8ArraySplice(s: string, i: nat, j: nat, rep: string)
    requires i <= j <= |s|
    ensures Uint8Array(s[..i] + rep + s[j..]) == Uint8Array(s)[..i] + Uint8Array(rep) + Uint8Array(s)[j..]
  {
    Uint8ArrayConcat(s[..i] + rep, s[j..]);
    Uint8ArrayConcat(s[..i], rep);
    Uint8ArrayAround(s, i, j);
  }

  /** Storing codes works piece by piece. */
  lemma Uint8ArrayConcat(a: string, b: string)
    ensures Uint8Array(a + b) == Uint8Array(a) + Uint8Array(b)
  {
  }

  lemma Uint8ArrayAround(s: string, i: nat, j: nat)
    requires i <= j <= |s|
    ensures Uint8Array(s[..i]) == Uint8Array(s)[..i]
    ensures Uint8Array(s[j..]) == Uint8Array(s)[j..]
  {
  }

  /** The replacement for the slug site: the id's length as one byte, then the id. */
  function SlugField(newSlug: string): (r: seq<byte>)
    ensures |r| == 1 + |newSlug|
    ensures r[0] as int == |newSlug| % 256 && r[1..] == Uint8Array(newSlug)
    ensures |newSlug| < 256 ==> r[0] as int == |r| - 1
  {
    [(|newSlug| % 256) as byte] + Uint8Array(newSlug)
  }

  /**
   * The class bytes once the first slug marker is replaced by the slug
   * field: the bytes before and after the site are kept, and the site now
   * holds a length byte and the id.
   */
  function RenameSlug(classFile: seq<byte>, newSlug: string): (r: seq<byte>)
    ensures |Uint8Array(SlugMarker)| == 33
    ensures Includes(classFile, Uint8Array(SlugMarker)) ==> |r| == |classFile| - 32 + |newSlug|
    ensures !Includes(classFile, Uint8Array(SlugMarker)) ==> r == classFile
    ensures Includes(classFile, Uint8Array(SlugMarker)) ==>
              var k := IndexOf(classFile, Uint8Array(SlugMarker));
              && r[..k] == classFile[..k]
              && r[k] as int == |newSlug| % 256
              && r[k + 1..k + 1 + |newSlug|] == Uint8Array(newSlug)
              && r[k + 1 + |newSlug|..] == classFile[k + 33..]
  {
    ReplaceFirst(classFile, Uint8Array(SlugMarker), SlugField(newSlug))
  }

  /**
   * The class bytes once the first "/wrappera/" is replaced by the sanitised
   * id between slashes; the bytes around the site are kept.
   */
  function RenamePackage(classFile: seq<byte>, sanitizedId: string): (r: seq<byte>)
    ensures |Uint8Array(PathMarker)| == 10
    ensures Includes(classFile, Uint8Array(PathMarker)) ==> |r| == |classFile| - 10 + |sanitizedId| + 2
    ensures !Includes(classFile, Uint8Array(PathMarker)) ==> r == classFile
    ensures Includes(classFile, Uint8Array(PathMarker)) ==>
              var k := IndexOf(classFile, Uint8Array(PathMarker));
              var segment := Uint8Array("/" + sanitizedId + "/");
              && r[..k] == classFile[..k]
              && r[k..k + |segment|] == segment
              && r[k + |segment|..] == classFile[k + 10..]
  {
    ReplaceFirst(classFile, Uint8Array(PathMarker), Uint8Array("/" + sanitizedId + "/"))
  }

  /** The patched class: the slug site first, then the package site. */
  function PatchBytes(classFile: seq<byte>, newSlug: string, sanitizedId: string): seq<byte>
  {
    RenamePackage(RenameSlug(classFile, newSlug), sanitizedId)
  }

  /** A template with neither patch site comes out unchanged. */
  lemma PatchWithoutSites(classFile: seq<byte>, newSlug: string, sanitizedId: string)
    requires !Includes(classFile, Uint8Array(SlugMarker))
    requires !Includes(classFile, Uint8Array(PathMarker))
    ensures PatchBytes(classFile, newSlug, sanitizedId) == classFile
  {
  }

  /**
   * The slug site of the template is a length-prefixed string: its first
   * byte, 32, is the length of the placeholder behind it.
   */
  lemma SlugSiteLengthPrefixed()
    ensures Uint8Array(SlugMarker)[0] as int == |Uint8Array(SlugMarker)| - 1
    ensures Uint8Array(SlugMarker)[1..] == Uint8Array(Placeholder)
  {
  }

  /** The generated mod id always fits the one-byte length prefix. */
  lemma NewSlugFitsLengthByte(slug: string)
    ensures SlugField(NewSlug(slug))[0] as int == |NewSlug(slug)|
    ensures Uint8Array(NewSlug(slug)) == SlugField(NewSlug(slug))[1..]
  {
  }

  lemma MarkersAreLatin1()
    ensures IsLatin1(SlugMarker) && IsLatin1(PathMarker)
  {
    assert IsLatin1(Placeholder);
  }

  /** The slug field as text is Latin-1, and its codes are the bytes of SlugField. */
  lemma SlugFieldText(newSlug: string, slugField: string)
    requires |newSlug| <= MaxSlugLength && forall i :: 0 <= i < |newSlug| ==> IsWordChar(newSlug[i])
    requires slugField == [|newSlug| as char] + newSlug
    ensures IsLatin1(slugField)
    ensures Uint8Array(slugField) == SlugField(newSlug)
  {
  }

  /** Lines 144-147: one character per byte. */
  method BinaryString(classFile: array<byte>) returns (binary: string)
    ensures binary == Latin1String(classFile[..])
  {
    binary := "";
    for i := 0 to classFile.Length
      invariant binary == Latin1String(classFile[..i])
    {
      binary := binary + [classFile[i] as int as char];
    }
  }

  /** Lines 164-167 and 171: the character codes, stored into a Uint8Array. */
  method CharCodeBytes(binary: string) returns (bytes: seq<byte>)
    ensures bytes == Uint8Array(binary)
  {
    var newArr: seq<int> := [];
    for i := 0 to |binary|
      invariant |newArr| == i
      invariant forall j :: 0 <= j < i ==> newArr[j] == binary[j] as int
    {
      newArr := newArr + [binary[i] as int];
    }
    bytes := seq(|newArr|, j requires 0 <= j < |newArr| => (newArr[j] % 256) as byte);
  }

  /**
   * Lines 144-171: the wrapper class for a project, and the path it is stored
   * at. The string detour of the code is proved equal to patching the bytes.
   */
  method BuildShim(classFile: array<byte>, slug: string, projectId: string)
    returns (path: string, bytes: seq<byte>)
    ensures path == ShimPath(projectId)
    ensures bytes == PatchBytes(classFile[..], NewSlug(slug), SanitizedId(projectId))
  {
    var newSlug := NewSlug(slug);
    var binary := BinaryString(classFile);
    var sanitizedId := SanitizedId(projectId);

    ghost var original := binary;
    var slugField := [|newSlug| as char] + newSlug;
    binary := ReplaceFirst(binary, SlugMarker, slugField);
    ghost var renamed := binary;
    binary := ReplaceFirst(binary, PathMarker, "/" + sanitizedId + "/");

    bytes := CharCodeBytes(binary);
    path := "com/modrinth/" + sanitizedId + "/ModrinthWrapper.class";

    BytesRoundTrip(classFile[..]);
    MarkersAreLatin1();
    SlugFieldText(newSlug, slugField);
    ReplaceFirstKeeps(original, SlugMarker, slugField, IsLatin1Char);
    Uint8ArrayReplaceFirst(original, SlugMarker, slugField);
    Uint8ArrayReplaceFirst(renamed, PathMarker, "/" + sanitizedId + "/");
  }
}
