/**
 * The JavaScript built-ins that createDataPackVersion relies on, stated over
 * Dafny sequences: String.prototype.indexOf / replace / includes with a
 * string pattern, substring(0, n), Array.prototype.findIndex / find / join,
 * and the global regular-expression replacement `replace(/\W/g, '')`.
 * Strings are sequences of characters; the replacement functions are generic
 * so that the same definition serves strings and byte sequences.
 */
module JsBuiltins {

  /** One element of a Uint8Array. */
  newtype byte = x: int | 0 <= x < 256

  datatype Option<+T> = None | Some(value: T)

  function Min(a: int, b: int): int { if a <= b then a else b }

  /** `pat` occurs in `s` starting at position `i`. */
  predicate OccursAt<T(==)>(s: seq<T>, pat: seq<T>, i: int)
  {
    0 <= i && i + |pat| <= |s| && s[i..i + |pat|] == pat
  }

  /** The first position at or after `from` where `pat` occurs in `s`, or -1. */
  function IndexFrom<T(==)>(s: seq<T>, pat: seq<T>, from: nat): (r: int)
    ensures r == -1 <==> forall i :: from <= i ==> !OccursAt(s, pat, i)
    ensures r != -1 ==> from <= r && OccursAt(s, pat, r)
    ensures r != -1 ==> forall i :: from <= i < r ==> !OccursAt(s, pat, i)
    decreases |s| - from
  {
    if from + |pat| > |s| then -1
    else if s[from..from + |pat|] == pat then assert OccursAt(s, pat, from); from
    else IndexFrom(s, pat, from + 1)
  }

  /** String.prototype.indexOf: the first position where `pat` occurs in `s`, or -1. */
  function IndexOf<T(==)>(s: seq<T>, pat: seq<T>): (r: int)
    ensures r == -1 <==> forall i :: !OccursAt(s, pat, i)
    ensures r != -1 ==> OccursAt(s, pat, r)
    ensures r != -1 ==> forall i :: i < r ==> !OccursAt(s, pat, i)
  {
    IndexFrom(s, pat, 0)
  }

  /** String.prototype.includes. */
  predicate Includes<T(==)>(s: seq<T>, pat: seq<T>)
  {
    IndexOf(s, pat) != -1
  }

  /**
   * String.prototype.replace with a string pattern: only the first
   * occurrence of `pat` is replaced, and the replacement is taken literally.
   */
  function ReplaceFirst<T(==)>(s: seq<T>, pat: seq<T>, rep: seq<T>): (r: seq<T>)
    ensures !Includes(s, pat) ==> r == s
    ensures Includes(s, pat) ==>
              var k := IndexOf(s, pat);
              && |r| == |s| - |pat| + |rep|
              && r[..k] == s[..k]
              && r[k..k + |rep|] == rep
              && r[k + |rep|..] == s[k + |pat|..]
  {
    var k := IndexOf(s, pat);
    if k == -1 then s else s[..k] + rep + s[k + |pat|..]
  }

  /** At the first occurrence `k`, the result is the part before `k`, the replacement and the rest. */
  lemma ReplaceFirstSplit<T>(s: seq<T>, pat: seq<T>, rep: seq<T>, k: int)
    requires k != -1 && IndexOf(s, pat) == k
    ensures 0 <= k && k + |pat| <= |s|
    ensures ReplaceFirst(s, pat, rep) == s[..k] + rep + s[k + |pat|..]
  {
  }

  /**
   * The replacement is determined by the first occurrence alone: whatever
   * follows it, including further occurrences of the pattern, is kept.
   */
  lemma ReplaceFirstAt<T>(s: seq<T>, pat: seq<T>, rep: seq<T>, prefix: seq<T>, suffix: seq<T>)
    requires s == prefix + pat + suffix
    requires forall i :: 0 <= i < |prefix| ==> !OccursAt(s, pat, i)
    ensures ReplaceFirst(s, pat, rep) == prefix + rep + suffix
  {
    assert s[|prefix|..|prefix| + |pat|] == pat;
    assert OccursAt(s, pat, |prefix|);
    var k := IndexOf(s, pat);
    assert k == |prefix|;
    assert s[..k] == prefix;
    assert s[k + |pat|..] == suffix;
  }

  /** A one-element pattern that does not occur leaves the sequence as it is. */
  lemma ReplaceFirstAbsent<T>(s: seq<T>, c: T, rep: seq<T>)
    requires c !in s
    ensures ReplaceFirst(s, [c], rep) == s
  {
    forall i ensures !OccursAt(s, [c], i) {
      if 0 <= i < |s| {
        assert s[i..i + 1][0] == s[i] && s[i] in s;
      }
    }
    assert IndexOf(s, [c]) == -1;
  }

  /** Replacing keeps a property of every element when the replacement has it too. */
  lemma ReplaceFirstKeeps<T>(s: seq<T>, pat: seq<T>, rep: seq<T>, good: T -> bool)
    requires forall i :: 0 <= i < |s| ==> good(s[i])
    requires forall i :: 0 <= i < |rep| ==> good(rep[i])
    ensures forall i :: 0 <= i < |ReplaceFirst(s, pat, rep)| ==> good(ReplaceFirst(s, pat, rep)[i])
  {
    var k := IndexOf(s, pat);
    if k != -1 {
      var r := ReplaceFirst(s, pat, rep);
      ReplaceFirstSplit(s, pat, rep, k);
      forall i | 0 <= i < |r| ensures good(r[i]) {
        if i < k {
          assert r[i] == r[..k][i] == s[..k][i];
        } else if i < k + |rep| {
          assert r[i] == r[k..k + |rep|][i - k] == rep[i - k];
        } else {
          assert r[i] == r[k + |rep|..][i - k - |rep|] == s[k + |pat|..][i - k - |rep|];
        }
      }
    }
  }

  /** String.prototype.substring(0, n). */
  function Prefix<T>(s: seq<T>, n: nat): (r: seq<T>)
    ensures |r| == Min(n, |s|)
    ensures r == s[..|r|]
  {
    if |s| <= n then s else s[..n]
  }

  /** Array.prototype.findIndex, searching from position `from`. */
  function FindIndexFrom<T>(s: seq<T>, p: T -> bool, from: nat): (r: int)
    ensures -1 <= r < |s|
    ensures r == -1 <==> forall i :: from <= i < |s| ==> !p(s[i])
    ensures r != -1 ==> from <= r && p(s[r])
    ensures r != -1 ==> forall i :: from <= i < r ==> !p(s[i])
    decreases |s| - from
  {
    if from >= |s| then -1
    else if p(s[from]) then from
    else FindIndexFrom(s, p, from + 1)
  }

  /** Array.prototype.findIndex: the first index whose element satisfies `p`, or -1. */
  function FindIndex<T>(s: seq<T>, p: T -> bool): (r: int)
    ensures -1 <= r < |s|
    ensures r == -1 <==> forall i :: 0 <= i < |s| ==> !p(s[i])
    ensures r != -1 ==> p(s[r]) && forall i :: 0 <= i < r ==> !p(s[i])
  {
    FindIndexFrom(s, p, 0)
  }

  /** Array.prototype.find: the first element satisfying `p`, if any. */
  function Find<T>(s: seq<T>, p: T -> bool): (r: Option<T>)
    ensures r.None? <==> forall i :: 0 <= i < |s| ==> !p(s[i])
    ensures r.Some? ==> exists k :: 0 <= k < |s| && s[k] == r.value && p(s[k]) &&
                                   forall i :: 0 <= i < k ==> !p(s[i])
  {
    var k := FindIndex(s, p);
    if k == -1 then None else Some(s[k])
  }

  /** Array.prototype.join(sep) over strings. */
  function Join(parts: seq<string>, sep: string): (r: string)
    ensures |parts| == 0 ==> r == ""
    ensures |parts| == 1 ==> r == parts[0]
    ensures |parts| >= 1 ==> |parts[0]| <= |r| && r[..|parts[0]|] == parts[0]
    decreases |parts|
  {
    if |parts| == 0 then ""
    else if |parts| == 1 then parts[0]
    else parts[0] + sep + Join(parts[1..], sep)
  }

  /** Joining two non-empty lists puts exactly one separator between them. */
  lemma {:induction false} JoinConcat(a: seq<string>, b: seq<string>, sep: string)
    requires |a| >= 1 && |b| >= 1
    ensures Join(a + b, sep) == Join(a, sep) + sep + Join(b, sep)
    decreases |a|
  {
    if |a| == 1 {
      assert (a + b)[1..] == b;
    } else {
      assert (a + b)[1..] == a[1..] + b;
      JoinConcat(a[1..], b, sep);
    }
  }

  /** A word character of a JavaScript regular expression without the `u` flag: [A-Za-z0-9_]. */
  predicate IsWordChar(c: char)
  {
    ('A' <= c <= 'Z') || ('a' <= c <= 'z') || ('0' <= c <= '9') || c == '_'
  }

  predicate IsDigit(c: char)
  {
    '0' <= c <= '9'
  }

  /** `s.replace(/\W/g, '')`: every non-word character removed. */
  function DeleteNonWord(s: string): (r: string)
    ensures |r| <= |s|
    ensures forall i :: 0 <= i < |r| ==> IsWordChar(r[i])
    ensures (forall i :: 0 <= i < |s| ==> IsWordChar(s[i])) ==> r == s
    ensures (forall i :: 0 <= i < |s| ==> !IsWordChar(s[i])) ==> r == ""
  {
    if |s| == 0 then ""
    else if IsWordChar(s[0]) then [s[0]] + DeleteNonWord(s[1..])
    else DeleteNonWord(s[1..])
  }

  /** Deleting non-word characters works piece by piece. */
  lemma {:induction false} DeleteNonWordConcat(a: string, b: string)
    ensures DeleteNonWord(a + b) == DeleteNonWord(a) + DeleteNonWord(b)
    decreases |a|
  {
    if |a| > 0 {
      assert (a + b)[0] == a[0];
      assert (a + b)[1..] == a[1..] + b;
      DeleteNonWordConcat(a[1..], b);
    } else {
      assert a + b == b;
    }
  }
}
