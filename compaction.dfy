/**
 * Mask-driven compaction of one attribute array: the step that deleting
 * vertices applies, in lock-step, to the vertex positions and to every
 * per-vertex attribute array that is present. Entry i of the mask marks
 * entry i of the array for removal; survivors keep their relative order.
 */
module Compaction {

  /** Number of entries the deletion mask `d` marks. */
  function Marked(d: seq<bool>): (n: nat)
    ensures n <= |d|
  {
    if d == [] then 0
    else Marked(d[..|d| - 1]) + (if d[|d| - 1] then 1 else 0)
  }

  /** The indices the mask `d` does NOT mark, in increasing order. */
  function Survivors(d: seq<bool>): (ix: seq<nat>)
    ensures |ix| == |d| - Marked(d)
    ensures forall k :: 0 <= k < |ix| ==> ix[k] < |d| && !d[ix[k]]
    ensures forall k, l :: 0 <= k < l < |ix| ==> ix[k] < ix[l]
    ensures forall i :: 0 <= i < |d| && !d[i] ==> i in ix
  {
    if d == [] then []
    else Survivors(d[..|d| - 1]) + (if d[|d| - 1] then [] else [|d| - 1])
  }

  /** `s` with every entry that `d` marks removed. */
  function Compact<T>(s: seq<T>, d: seq<bool>): (r: seq<T>)
    requires |d| == |s|
    ensures |r| == |s| - Marked(d)
  {
    if s == [] then []
    else Compact(s[..|s| - 1], d[..|s| - 1]) + (if d[|s| - 1] then [] else [s[|s| - 1]])
  }

  /**
   * Entry k of the compacted array is the entry of `s` at the k-th surviving
   * index: exactly the marked entries are gone and the order is kept.
   */
  lemma {:induction false} CompactAt<T>(s: seq<T>, d: seq<bool>, k: nat)
    requires |d| == |s|
    requires k < |Compact(s, d)|
    ensures |Survivors(d)| == |Compact(s, d)|
    ensures Compact(s, d)[k] == s[Survivors(d)[k]]
  {
    var n := |s| - 1;
    var pre, ixs := Compact(s[..n], d[..n]), Survivors(d[..n]);
    assert Compact(s, d) == pre + (if d[n] then [] else [s[n]]);
    assert Survivors(d) == ixs + (if d[n] then [] else [n]);
    if k < |pre| {
      CompactAt(s[..n], d[..n], k);
      assert Compact(s, d)[k] == pre[k] == s[..n][ixs[k]];
    }
  }

  /** A mask that marks nothing leaves the array as it was. */
  lemma {:induction false} CompactNothing<T>(s: seq<T>, d: seq<bool>)
    requires |d| == |s|
    requires forall i :: 0 <= i < |d| ==> !d[i]
    ensures Compact(s, d) == s
  {
    if s != [] {
      var n := |s| - 1;
      CompactNothing(s[..n], d[..n]);
      assert s == s[..n] + [s[n]];
    }
  }

  /** A mask that marks only entry i removes exactly that entry. */
  lemma {:induction false} CompactOne<T>(s: seq<T>, d: seq<bool>, i: nat)
    requires |d| == |s| && i < |s|
    requires forall j :: 0 <= j < |d| ==> d[j] == (j == i)
    ensures Compact(s, d) == s[..i] + s[i + 1..]
  {
    var n := |s| - 1;
    if i == n {
      CompactNothing(s[..n], d[..n]);
    } else {
      CompactOne(s[..n], d[..n], i);
      assert s[..i] + s[i + 1..] == s[..i] + s[i + 1..n] + [s[n]];
    }
  }

  /** Compacting one entry further extends the compacted prefix by that entry, if kept. */
  lemma CompactPrefixStep<T>(s: seq<T>, d: seq<bool>, i: nat)
    requires |d| == |s| && i < |s|
    ensures Compact(s[..i + 1], d[..i + 1]) == Compact(s[..i], d[..i]) + (if d[i] then [] else [s[i]])
  {
    assert s[..i + 1][..i] == s[..i] && d[..i + 1][..i] == d[..i];
  }

  /**
   * One in-place way to carry out the compaction (the mesh header declares
   * vertex deletion without a body): a read cursor i walks a working copy of
   * the array, a write cursor w trails it, every unmarked entry is moved
   * down to w, and the tail past w is cut off at the end.
   */
  method Clean<T>(d: seq<bool>, s: seq<T>) returns (r: seq<T>)
    requires |d| == |s|
    ensures r == Compact(s, d)
  {
    var a := s;
    var w, i := 0, 0;
    while i < |a|
      invariant |a| == |s|
      invariant 0 <= w <= i <= |s|
      invariant a[..w] == Compact(s[..i], d[..i])
      invariant forall j :: i <= j < |s| ==> a[j] == s[j]
    {
      CompactPrefixStep(s, d, i);
      if !d[i] {
        var x := a[i];
        assert x == s[i];
        ghost var kept := a[..w];
        a := a[w := x];
        assert a[..w + 1] == kept + [x];
        w := w + 1;
      }
      i := i + 1;
    }
    assert s[..i] == s && d[..i] == d;
    r := a[..w];
  }
}
