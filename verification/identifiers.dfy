/**
 * The identifiers createDataPackVersion derives from the project and the
 * version: the numeric-leading version string, the mod id ("new slug"), the
 * icon path, and the sanitised id that names the package of the wrapper class.
 */
module Identifiers {
  import opened JsBuiltins

  const SlugPrefix: string := "mr_"
  const MaxSlugLength: nat := 63
  const MaxIdLength: nat := 8
  const IconSuffix: string := "_pack.png"

  predicate StartsWithDigit(s: string)
  {
    |s| > 0 && IsDigit(s[0])
  }

  /**
   * The version string handed to the loaders, which require it to start with
   * a digit: unchanged when it already does, otherwise prefixed with "1-".
   */
  function NewVersionNumber(versionNumber: string): (r: string)
    ensures StartsWithDigit(r)
    ensures r == versionNumber <==> StartsWithDigit(versionNumber)
    ensures r != versionNumber ==> r == "1-" + versionNumber
    ensures |versionNumber| <= |r| && r[|r| - |versionNumber|..] == versionNumber
  {
    if StartsWithDigit(versionNumber) then versionNumber else "1-" + versionNumber
  }

  /**
   * The mod id: the first hyphen of the slug becomes an underscore, every
   * remaining non-word character (later hyphens included) is dropped, "mr_"
   * is put in front, and the whole is cut to 63 characters.
   */
  function NewSlug(slug: string): (r: string)
    ensures 3 <= |r| <= MaxSlugLength
    ensures r[..3] == SlugPrefix
    ensures forall i :: 0 <= i < |r| ==> IsWordChar(r[i])
  {
    Prefix(SlugPrefix + DeleteNonWord(ReplaceFirst(slug, "-", "_")), MaxSlugLength)
  }

  /** A slug without any hyphen only loses its non-word characters. */
  lemma NewSlugWithoutHyphen(slug: string)
    requires '-' !in slug
    ensures NewSlug(slug) == Prefix(SlugPrefix + DeleteNonWord(slug), MaxSlugLength)
  {
    ReplaceFirstAbsent(slug, '-', "_");
  }

  /**
   * With a first hyphen between `head` and `tail`, that hyphen becomes the
   * only underscore the replacement adds, and every hyphen in `tail` is
   * deleted.
   */
  lemma NewSlugOfHyphenated(head: string, tail: string)
    requires '-' !in head
    ensures NewSlug(head + "-" + tail)
         == Prefix(SlugPrefix + (DeleteNonWord(head) + "_" + DeleteNonWord(tail)), MaxSlugLength)
  {
    FirstHyphenReplaced(head, tail);
    DeleteNonWordAroundUnderscore(head, tail);
  }

  lemma FirstHyphenReplaced(head: string, tail: string)
    requires '-' !in head
    ensures ReplaceFirst(head + "-" + tail, "-", "_") == head + "_" + tail
  {
    var s := head + "-" + tail;
    forall i | 0 <= i < |head| ensures !OccursAt(s, "-", i) {
      assert s[i] == head[i];
    }
    ReplaceFirstAt(s, "-", "_", head, tail);
  }

  lemma DeleteNonWordAroundUnderscore(head: string, tail: string)
    ensures DeleteNonWord(head + "_" + tail) == DeleteNonWord(head) + "_" + DeleteNonWord(tail)
  {
    DeleteNonWordConcat(head + "_", tail);
    DeleteNonWordConcat(head, "_");
    assert DeleteNonWord("_") == "_";
  }

  /** A short slug made only of word characters is kept whole behind "mr_". */
  lemma NewSlugOfCleanSlug(slug: string)
    requires |slug| <= MaxSlugLength - |SlugPrefix|
    requires forall i :: 0 <= i < |slug| ==> IsWordChar(slug[i])
    ensures NewSlug(slug) == SlugPrefix + slug
  {
    NewSlugWithoutHyphen(slug);
  }

  /** The worked example: "My-Mod!!" becomes "mr_My_Mod". */
  lemma NewSlugExample(slug: string)
    requires slug == "My-Mod!!"
    ensures NewSlug(slug) == "mr_My_Mod"
  {
    var head, tail := "My", "Mod!!";
    assert head + "-" + tail == slug;
    NewSlugOfHyphenated(head, tail);
    ExampleParts(head, tail);
  }

  lemma ExampleParts(head: string, tail: string)
    requires head == "My" && tail == "Mod!!"
    ensures Prefix(SlugPrefix + (DeleteNonWord(head) + "_" + DeleteNonWord(tail)), MaxSlugLength) == "mr_My_Mod"
  {
    ExampleWord(head);
    ExampleWord("Mod");
    ExampleSymbols("!!");
    assert tail == "Mod" + "!!";
    DeleteNonWordConcat("Mod", "!!");
    var joined := SlugPrefix + (DeleteNonWord(head) + "_" + DeleteNonWord(tail));
    assert joined == "mr_My_Mod";
  }

  lemma ExampleWord(s: string)
    requires s == "My" || s == "Mod"
    ensures DeleteNonWord(s) == s
  {
    assert forall i :: 0 <= i < |s| ==> IsWordChar(s[i]);
  }

  lemma ExampleSymbols(s: string)
    requires s == "!!"
    ensures DeleteNonWord(s) == ""
  {
    assert s[1..] == "!";
    assert "!"[1..] == "";
  }

  /**
   * The package segment of the wrapper class: the project id, with "_" put in
   * front when it starts with a digit, cut to 8 characters. It never starts
   * with a digit, and it is a prefix of the id apart from that underscore.
   */
  function SanitizedId(id: string): (r: string)
    ensures |r| == Min(MaxIdLength, |id| + (if StartsWithDigit(id) then 1 else 0))
    ensures !StartsWithDigit(r)
    ensures StartsWithDigit(id) ==> r[0] == '_' && r[1..] == id[..|r| - 1]
    ensures !StartsWithDigit(id) ==> r == id[..|r|]
  {
    var prefixed := if StartsWithDigit(id) then "_" + id else id;
    Prefix(prefixed, MaxIdLength)
  }

  /** The archive path of the copied icon, built from the raw project slug. */
  function IconPath(slug: string): (r: string)
    ensures |r| == |slug| + |IconSuffix| && r[|r| - |IconSuffix|..] == IconSuffix
    ensures r[..|slug|] == slug
  {
    slug + IconSuffix
  }

  /** The archive path of the wrapper class, in the package named by the sanitised id. */
  function ShimPath(id: string): (r: string)
    ensures |r| == 13 + |SanitizedId(id)| + 22
    ensures r[..13] == "com/modrinth/"
    ensures r[13..13 + |SanitizedId(id)|] == SanitizedId(id)
    ensures r[|r| - 22..] == "/ModrinthWrapper.class"
  {
    "com/modrinth/" + SanitizedId(id) + "/ModrinthWrapper.class"
  }
}
