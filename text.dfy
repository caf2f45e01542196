/**
 * Character-level helpers shared by the hooks: ASCII lower-casing (what
 * `std::tolower`/`std::towlower` do on the ASCII range in the "C" locale)
 * and `rfind`, the last occurrence of a substring.
 */
module Text {
  import opened Wrappers

  function LowerChar(c: char): (r: char)
    ensures 'A' <= c <= 'Z' ==> r as int == c as int + 32
    ensures !('A' <= c <= 'Z') ==> r == c
  {
    if 'A' <= c <= 'Z' then (c as int + 32) as char else c
  }

  /** The string with every character lower-cased. */
  function Lower(s: seq<char>): (r: seq<char>)
    ensures |r| == |s|
    ensures forall i :: 0 <= i < |s| ==> r[i] == LowerChar(s[i])
  {
    seq(|s|, i requires 0 <= i < |s| => LowerChar(s[i]))
  }

  lemma LowerIdempotent(s: seq<char>)
    ensures Lower(Lower(s)) == Lower(s)
  {
  }

  /** No upper-case ASCII letter is left after lowering. */
  lemma LowerHasNoUpper(s: seq<char>, i: nat)
    requires i < |s|
    ensures !('A' <= Lower(s)[i] <= 'Z')
  {
  }

  /**
   * The loop `for (i = 0; i < s.size(); i++) s[i] = tolower(s[i]);` that the
   * hooks run over a wide string buffer in place.
   */
  method LowerInPlace(a: array<char>)
    modifies a
    ensures a[..] == Lower(old(a[..]))
  {
    var i := 0;
    while i < a.Length
      invariant 0 <= i <= a.Length
      invariant forall k :: 0 <= k < i ==> a[k] == LowerChar(old(a[k]))
      invariant forall k :: i <= k < a.Length ==> a[k] == old(a[k])
    {
      a[i] := LowerChar(a[i]);
      i := i + 1;
    }
  }

  /** `needle` occurs in `hay` starting at `p`. */
  predicate OccursAt(hay: seq<char>, needle: seq<char>, p: nat)
  {
    p + |needle| <= |hay| && hay[p..p + |needle|] == needle
  }

  /** Scan helper for LastIndexOf: the highest occurrence at or below `p`. */
  function LastIndexFrom(hay: seq<char>, needle: seq<char>, p: nat): (r: Option<nat>)
    decreases p
  {
    if OccursAt(hay, needle, p) then Some(p)
    else if p == 0 then None
    else LastIndexFrom(hay, needle, p - 1)
  }

  /**
   * `hay.rfind(needle)`: the position of the last occurrence, or None for
   * `npos`. An empty needle is found at `|hay|`.
   */
  function LastIndexOf(hay: seq<char>, needle: seq<char>): (r: Option<nat>)
  {
    if |needle| > |hay| then None else LastIndexFrom(hay, needle, |hay| - |needle|)
  }

  lemma {:induction false} LastIndexFromSound(hay: seq<char>, needle: seq<char>, p: nat)
    ensures LastIndexFrom(hay, needle, p).Some? ==>
              LastIndexFrom(hay, needle, p).value <= p && OccursAt(hay, needle, LastIndexFrom(hay, needle, p).value)
    ensures forall q: nat :: (LastIndexFrom(hay, needle, p).None? || LastIndexFrom(hay, needle, p).value < q) && q <= p
                        ==> !OccursAt(hay, needle, q)
    decreases p
  {
    if !OccursAt(hay, needle, p) && p > 0 {
      LastIndexFromSound(hay, needle, p - 1);
    }
  }

  /** rfind returns an occurrence, and no occurrence lies after it. */
  lemma LastIndexOfCorrect(hay: seq<char>, needle: seq<char>)
    ensures LastIndexOf(hay, needle).Some? ==>
              OccursAt(hay, needle, LastIndexOf(hay, needle).value)
    ensures forall q: nat :: OccursAt(hay, needle, q) ==>
              LastIndexOf(hay, needle).Some? && q <= LastIndexOf(hay, needle).value
  {
    if |needle| <= |hay| {
      LastIndexFromSound(hay, needle, |hay| - |needle|);
    }
  }
}
