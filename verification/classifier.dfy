/**
 * Which Forge dialect the generated mods.toml targets. The code takes, over
 * the version's game versions, the largest position any of them has in the
 * reference list of all game versions, and compares it with the position of
 * "1.18.2". `newForge` holds when the largest position is below the cutoff's.
 */
module Classifier {
  import opened JsBuiltins
  import opened Records

  const CutoffVersion: string := "1.18.2"

  /** `allGameVersions.findIndex((x) => x.version === v)`. */
  function IndexOfVersion(all: seq<GameVersion>, v: string): (r: int)
    ensures -1 <= r < |all|
    ensures r == -1 <==> forall i :: 0 <= i < |all| ==> all[i].version != v
    ensures r != -1 ==> all[r].version == v && forall i :: 0 <= i < r ==> all[i].version != v
  {
    FindIndex(all, (x: GameVersion) => x.version == v)
  }

  /** The position of the cutoff version, -1 when the list lacks it. */
  function CutoffIndex(all: seq<GameVersion>): (r: int)
    ensures r == -1 <==> forall i :: 0 <= i < |all| ==> all[i].version != CutoffVersion
    ensures r != -1 ==> 0 <= r < |all| && all[r].version == CutoffVersion &&
                        forall i :: 0 <= i < r ==> all[i].version != CutoffVersion
  {
    IndexOfVersion(all, CutoffVersion)
  }

  /**
   * The value the loop leaves in `maximumIndex`, with 0 standing for its
   * starting value Number.MIN_VALUE (see SentinelActsAsZero). A position of
   * -1 (not found) or 0 never raises it.
   */
  function MaxFoundIndex(all: seq<GameVersion>, gameVersions: seq<string>): (r: int)
    ensures 0 <= r
    ensures forall v :: v in gameVersions ==> IndexOfVersion(all, v) <= r
    ensures r == 0 || exists v :: v in gameVersions && IndexOfVersion(all, v) == r
    decreases |gameVersions|
  {
    if |gameVersions| == 0 then 0
    else
      var rest := gameVersions[..|gameVersions| - 1];
      var last := gameVersions[|gameVersions| - 1];
      var m := MaxFoundIndex(all, rest);
      var index := IndexOfVersion(all, last);
      assert forall v :: v in gameVersions ==> v in rest || v == last;
      if index > m then index else m
  }

  /**
   * `newForge`: the largest position found lies below the cutoff's. That is,
   * the cutoff is present and not first, and every game version of the
   * version lies before it in the list (or is missing from it).
   */
  predicate NewForge(all: seq<GameVersion>, gameVersions: seq<string>): (r: bool)
    ensures r <==> 0 < CutoffIndex(all) &&
                   forall v :: v in gameVersions ==> IndexOfVersion(all, v) < CutoffIndex(all)
  {
    MaxFoundIndex(all, gameVersions) < CutoffIndex(all)
  }

  /**
   * Lines 75-85: the loop over the version's game versions, proved to
   * compute `newForge`. It holds exactly when the cutoff is present and not
   * first, and every game version of the version lies before it (or is
   * missing from the reference list).
   */
  method ComputeNewForge(all: seq<GameVersion>, gameVersions: seq<string>) returns (newForge: bool)
    ensures newForge == NewForge(all, gameVersions)
    ensures newForge <==> 0 < CutoffIndex(all) &&
                          forall v :: v in gameVersions ==> IndexOfVersion(all, v) < CutoffIndex(all)
  {
    var cutoffIndex := IndexOfVersion(all, CutoffVersion);
    // Number.MIN_VALUE is positive and below 1, so against whole positions it acts as 0.
    var maximumIndex := 0;
    for i := 0 to |gameVersions|
      invariant maximumIndex == MaxFoundIndex(all, gameVersions[..i])
    {
      MaxFoundIndexStep(all, gameVersions, i);
      var index := IndexOfVersion(all, gameVersions[i]);
      if index > maximumIndex {
        maximumIndex := index;
      }
    }
    assert gameVersions[..|gameVersions|] == gameVersions;
    newForge := maximumIndex < cutoffIndex;
  }

  /** One more game version raises the maximum to its position when that is larger. */
  lemma MaxFoundIndexStep(all: seq<GameVersion>, gameVersions: seq<string>, i: nat)
    requires i < |gameVersions|
    ensures var index := IndexOfVersion(all, gameVersions[i]);
            MaxFoundIndex(all, gameVersions[..i + 1])
            == if index > MaxFoundIndex(all, gameVersions[..i]) then index else MaxFoundIndex(all, gameVersions[..i])
  {
    assert gameVersions[..i + 1][..i] == gameVersions[..i];
  }

  /**
   * The same loop as JavaScript runs it, on Numbers, starting from `start`
   * (Number.MIN_VALUE in the code).
   */
  ghost function JsMaximumIndex(start: real, all: seq<GameVersion>, gameVersions: seq<string>): real
    decreases |gameVersions|
  {
    if |gameVersions| == 0 then start
    else
      var m := JsMaximumIndex(start, all, gameVersions[..|gameVersions| - 1]);
      var index := IndexOfVersion(all, gameVersions[|gameVersions| - 1]) as real;
      if index > m then index else m
  }

  /**
   * Any starting value strictly between 0 and 1, Number.MIN_VALUE among them,
   * gives the same classification as the integer rule with 0: the sentinel
   * survives exactly when no position above 0 is found.
   */
  lemma {:induction false} SentinelActsAsZero(minValue: real, all: seq<GameVersion>, gameVersions: seq<string>)
    requires 0.0 < minValue < 1.0
    ensures JsMaximumIndex(minValue, all, gameVersions)
         == if MaxFoundIndex(all, gameVersions) == 0 then minValue else MaxFoundIndex(all, gameVersions) as real
    ensures (JsMaximumIndex(minValue, all, gameVersions) < CutoffIndex(all) as real) == NewForge(all, gameVersions)
    decreases |gameVersions|
  {
    if |gameVersions| > 0 {
      SentinelActsAsZero(minValue, all, gameVersions[..|gameVersions| - 1]);
    }
  }

  /** A cutoff that is missing or first in the list never gives `newForge`. */
  lemma CutoffMissingOrFirst(all: seq<GameVersion>, gameVersions: seq<string>)
    requires (forall i :: 0 <= i < |all| ==> all[i].version != CutoffVersion)
          || (|all| > 0 && all[0].version == CutoffVersion)
    ensures !NewForge(all, gameVersions)
  {
  }

  /** A game version missing from the list, or first in it, leaves the maximum as it was. */
  lemma UnlistedVersionIgnored(all: seq<GameVersion>, gameVersions: seq<string>, v: string)
    requires IndexOfVersion(all, v) <= 0
    ensures MaxFoundIndex(all, gameVersions + [v]) == MaxFoundIndex(all, gameVersions)
  {
    assert (gameVersions + [v])[..|gameVersions|] == gameVersions;
  }

  /**
   * When none of the version's game versions is found past position 0 (none
   * found at all, in particular), the maximum keeps its starting value and
   * `newForge` holds exactly when the cutoff is present and not first.
   */
  lemma NoVersionFound(all: seq<GameVersion>, gameVersions: seq<string>)
    requires forall v :: v in gameVersions ==> IndexOfVersion(all, v) <= 0
    ensures MaxFoundIndex(all, gameVersions) == 0
    ensures NewForge(all, gameVersions) <==> 0 < CutoffIndex(all)
  {
  }

  /** Only which game versions are listed matters, not their order or repetition. */
  lemma NewForgeOrderIndependent(all: seq<GameVersion>, a: seq<string>, b: seq<string>)
    requires forall v :: v in a <==> v in b
    ensures NewForge(all, a) == NewForge(all, b)
  {
  }

  /**
   * With the list 1.16, 1.17, 1.18, 1.18.2, 1.19 (cutoff at position 3),
   * a version for 1.17 is `newForge` and one for 1.19 is not.
   */
  lemma ClassificationExample(all: seq<GameVersion>)
    requires all == [GameVersion("1.16"), GameVersion("1.17"), GameVersion("1.18"),
                     GameVersion("1.18.2"), GameVersion("1.19")]
    ensures NewForge(all, ["1.17"])
    ensures !NewForge(all, ["1.19"])
  {
    assert all[3].version == CutoffVersion;
    assert all[4].version != CutoffVersion;
    assert CutoffIndex(all) == 3;
    assert all[1].version == "1.17" && all[0].version != "1.17";
    assert IndexOfVersion(all, "1.17") == 1;
    assert all[4].version == "1.19";
    assert IndexOfVersion(all, "1.19") == 4;
  }
}
