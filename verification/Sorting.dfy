/** sort.Sort, of which nothing is known but that it sorts. */
module Sorting {

  ghost predicate TotalPreorder<T(!new)>(le: (T, T) -> bool) {
    && (forall x, y :: le(x, y) || le(y, x))
    && (forall x, y, z :: le(x, y) && le(y, z) ==> le(x, z))
  }

  predicate Sorted<T>(xs: seq<T>, le: (T, T) -> bool) {
    forall i, j :: 0 <= i < j < |xs| ==> le(xs[i], xs[j])
  }

  /** `ys` is `xs` rearranged: element `i` of it is element `perm[i]` of `xs`. */
  predicate Rearranged<T(==)>(xs: seq<T>, ys: seq<T>, perm: seq<nat>) {
    && |ys| == |xs| == |perm|
    && (forall i :: 0 <= i < |perm| ==> perm[i] < |xs| && ys[i] == xs[perm[i]])
    && (forall i, j :: 0 <= i < j < |perm| ==> perm[i] != perm[j])
  }

  /** sort.Sort: some order in which no element comes before a smaller one. */
  method SortBy<T(!new,==)>(xs: seq<T>, le: (T, T) -> bool) returns (ys: seq<T>, ghost perm: seq<nat>)
    requires TotalPreorder(le)
    ensures Sorted(ys, le) && Rearranged(xs, ys, perm)
  {
    ys, perm := [], [];
    var i := 0;
    while i < |xs|
      invariant 0 <= i <= |xs| && Sorted(ys, le) && Rearranged(xs[..i], ys, perm)
    {
      var j := i;
      while j > 0 && !le(ys[j - 1], xs[i])
        invariant 0 <= j <= i && forall k :: j <= k < i ==> !le(ys[k], xs[i])
      {
        j := j - 1;
      }
      InsertSorted(ys, le, xs[i], j);
      InsertRearranged(xs, ys, perm, i, j);
      ys := ys[..j] + [xs[i]] + ys[j..];
      perm := perm[..j] + [i] + perm[j..];
      i := i + 1;
    }
    assert xs[..i] == xs;
  }

  lemma InsertSorted<T(!new)>(ys: seq<T>, le: (T, T) -> bool, x: T, j: nat)
    requires TotalPreorder(le) && Sorted(ys, le) && j <= |ys|
    requires (j > 0 ==> le(ys[j - 1], x)) && forall k :: j <= k < |ys| ==> !le(ys[k], x)
    ensures Sorted(ys[..j] + [x] + ys[j..], le)
  {
    forall k | 0 <= k < j ensures le(ys[k], x) {
      assert k < j - 1 ==> le(ys[k], ys[j - 1]);
    }
    forall k | j <= k < |ys| ensures le(x, ys[k]) {
      assert !le(ys[k], x);
    }
  }

  lemma InsertRearranged<T>(xs: seq<T>, ys: seq<T>, perm: seq<nat>, i: nat, j: nat)
    requires i < |xs| && Rearranged(xs[..i], ys, perm) && j <= i
    ensures Rearranged(xs[..i + 1], ys[..j] + [xs[i]] + ys[j..], perm[..j] + [i] + perm[j..])
  {
  }

  /** Rearranging loses nothing. */
  lemma {:induction false} EveryPosition(perm: seq<nat>, n: nat, k: nat)
    requires |perm| == n && (forall i :: 0 <= i < n ==> perm[i] < n) && k < n
    requires forall i, j :: 0 <= i < j < n ==> perm[i] != perm[j]
    ensures k in perm
    decreases n
  {
    var m := n - 1;
    var last := perm[m];
    if n > 1 && last != k {
      // move the value m, if it occurs before the end, to where `last` was
      var rest := seq(m, i requires 0 <= i < m => if perm[i] == m then last else perm[i]);
      EveryPosition(rest, m, if k == m then last else k);
      var i :| 0 <= i < m && rest[i] == if k == m then last else k;
    }
  }
}
