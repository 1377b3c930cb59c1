/** Substring search. */
module Strings {
  import opened Common

  predicate OccursAt(s: string, p: string, i: nat) {
    i + |p| <= |s| && s[i..i + |p|] == p
  }

  predicate Contains(s: string, p: string) {
    exists i: nat :: i <= |s| && OccursAt(s, p, i)
  }

  /** The first occurrence at or after `from`. */
  function Find(s: string, p: string, from: nat): (r: Option<nat>)
    ensures r.Some? ==> from <= r.value && OccursAt(s, p, r.value)
    ensures r.Some? ==> forall j: nat :: from <= j < r.value ==> !OccursAt(s, p, j)
    ensures r.None? ==> forall j: nat :: from <= j ==> !OccursAt(s, p, j)
    decreases |s| - from
  {
    if from + |p| > |s| then None
    else if OccursAt(s, p, from) then Some(from)
    else Find(s, p, from + 1)
  }

  lemma FindIs(s: string, p: string, from: nat, at: nat)
    requires from <= at && OccursAt(s, p, at) && forall j: nat :: from <= j < at ==> !OccursAt(s, p, j)
    ensures Find(s, p, from) == Some(at)
  {
  }

  /** The pieces between successive occurrences, found from the left without overlap. */
  function Split(s: string, d: string): (r: seq<string>)
    requires d != ""
    ensures |r| >= 1
    ensures Find(s, d, 0).None? ==> r == [s]
    decreases |s|
  {
    var i := Find(s, d, 0);
    if i.None? then [s] else [s[..i.value]] + Split(s[i.value + |d|..], d)
  }

  lemma SplitAt(x: string, d: string, t: string)
    requires d != "" && forall j: nat :: j < |x| ==> !OccursAt(x + d + t, d, j)
    ensures Split(x + d + t, d) == [x] + Split(t, d)
  {
    var s := x + d + t;
    assert s[|x|..|x| + |d|] == d;
    FindIs(s, d, 0, |x|);
    assert s[..|x|] == x && s[|x| + |d|..] == t;
  }

  lemma NotIn(s: string, p: string, i: nat)
    requires !Contains(s, p)
    ensures !OccursAt(s, p, i)
  {
  }

  /** One wrong character rules an occurrence out. */
  lemma Mismatch(s: string, p: string, at: nat, k: nat)
    requires k < |p| && (at + k < |s| ==> s[at + k] != p[k])
    ensures !OccursAt(s, p, at)
  {
    assert at + |p| <= |s| ==> s[at..at + |p|][k] == s[at + k];
  }

  /** What does not occur in a piece of s does not occur at the same place of s. */
  lemma Inside(s: string, a: string, offset: nat, p: string, at: nat)
    requires offset + |a| <= |s| && s[offset..offset + |a|] == a && !Contains(a, p)
    requires offset <= at && at + |p| <= offset + |a|
    ensures !OccursAt(s, p, at)
  {
    NotIn(a, p, at - offset);
    SliceOfSlice(s, offset, offset + |a|, at - offset, |p|);
  }

  lemma SliceOfSlice(s: string, lo: nat, hi: nat, i: nat, n: nat)
    requires lo <= hi <= |s| && i + n <= hi - lo
    ensures s[lo..hi][i..i + n] == s[lo + i..lo + i + n]
  {
    var a, b := s[lo..hi][i..i + n], s[lo + i..lo + i + n];
    forall k | 0 <= k < n
      ensures a[k] == b[k]
    {
      assert s[lo..hi][i + k] == s[lo + i + k];
    }
  }
}
