/** Small facts about sequences, stated once for any element type. */
module Seqs {

  /** Extending a prefix by the next element. */
  lemma TakeNext<T>(xs: seq<T>, i: nat)
    requires i < |xs|
    ensures xs[..i + 1] == xs[..i] + [xs[i]]
  {
  }

  lemma TakeAll<T>(xs: seq<T>)
    ensures xs[..|xs|] == xs
  {
  }

  /** Dropping position `k + 1` of `xs` is keeping its head and dropping `k` of its tail. */
  lemma DropInTail<T>(xs: seq<T>, k: nat)
    requires k + 1 < |xs|
    ensures [xs[0]] + (xs[1..][..k] + xs[1..][k + 1..]) == xs[..k + 1] + xs[k + 2..]
  {
  }

  /** Dropping one position takes exactly one copy of its element out. */
  lemma DropCount<T>(xs: seq<T>, i: nat)
    requires i < |xs|
    ensures multiset(xs[..i] + xs[i + 1..]) == multiset(xs) - multiset{xs[i]}
  {
    assert xs == xs[..i] + [xs[i]] + xs[i + 1..];
  }

  lemma HeadCount<T>(xs: seq<T>)
    requires xs != []
    ensures multiset(xs) == multiset{xs[0]} + multiset(xs[1..])
  {
    assert xs == [xs[0]] + xs[1..];
  }

  /** Python's `xs[lo:hi]` for non-negative bounds: both are clamped to the length, and a
      slice whose start passes its end is empty. */
  function Slice<T>(xs: seq<T>, lo: nat, hi: nat): (r: seq<T>)
    ensures lo <= hi <= |xs| ==> r == xs[lo..hi]
    ensures |xs| <= lo ==> r == []
  {
    var l := if lo <= |xs| then lo else |xs|;
    var h := if hi <= |xs| then hi else |xs|;
    if l <= h then xs[l..h] else []
  }
}
