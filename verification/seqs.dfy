/**
  Sequence helpers shared by the document model and the sort: taking one
  position out of a sequence, and what that does to its multiset.
 */
module Seqs {

  /** The sequence without its item at position `k`. */
  function RemoveAt<T>(s: seq<T>, k: nat): (r: seq<T>)
    requires k < |s|
    ensures |r| == |s| - 1
    ensures forall i :: 0 <= i < |r| ==> r[i] == if i < k then s[i] else s[i + 1]
  {
    s[..k] + s[k + 1..]
  }

  /** Removing position `k > 0` keeps the head and removes position
      `k - 1` of the tail. */
  lemma {:induction false} RemoveCons<T>(s: seq<T>, k: nat)
    requires 0 < k < |s|
    ensures (s[..k] + s[k + 1..])[0] == s[0]
    ensures (s[..k] + s[k + 1..])[1..] == s[1..][..k - 1] + s[1..][k..]
  {
    assert s[1..][..k - 1] == s[1..k];
    assert s[1..][k..] == s[k + 1..];
  }

  /** Taking position `k` out of a sequence takes one copy of its item out
      of the sequence's multiset. */
  lemma {:induction false} MultisetRemove<T>(s: seq<T>, k: nat)
    requires k < |s|
    ensures multiset(s[..k] + s[k + 1..]) == multiset(s) - multiset{s[k]}
  {
    assert s == s[..k] + [s[k]] + s[k + 1..];
  }

  lemma {:induction false} MultisetTail<T>(s: seq<T>)
    requires |s| > 0
    ensures multiset(s[1..]) == multiset(s) - multiset{s[0]}
  {
    assert s == [s[0]] + s[1..];
  }

  lemma {:induction false} IndexOf<T>(x: T, s: seq<T>) returns (k: nat)
    requires x in multiset(s)
    ensures k < |s| && s[k] == x
  {
    k :| 0 <= k < |s| && s[k] == x;
  }
}
