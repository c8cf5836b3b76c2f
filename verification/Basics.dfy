/** Bytes, results and the few sequence facts that every component shares. */
module Basics {

  type Byte = x: int | 0 <= x < 256

  type Bytes = seq<Byte>

  datatype Option<+T> = None | Some(value: T)

  datatype Result<+T> = Ok(value: T) | Err

  function Min(a: int, b: int): int {
    if a < b then a else b
  }

  function Flatten<T>(parts: seq<seq<T>>): seq<T> {
    if parts == [] then [] else parts[0] + Flatten(parts[1..])
  }

  lemma {:induction false} FlattenAppend<T>(a: seq<seq<T>>, b: seq<seq<T>>)
    ensures Flatten(a + b) == Flatten(a) + Flatten(b)
    decreases |a|
  {
    if a == [] {
      assert a + b == b;
    } else {
      assert (a + b)[1..] == a[1..] + b;
      FlattenAppend(a[1..], b);
    }
  }

  lemma FlattenSnoc<T>(a: seq<seq<T>>, x: seq<T>)
    ensures Flatten(a + [x]) == Flatten(a) + x
  {
    FlattenAppend(a, [x]);
    assert Flatten([x]) == x + Flatten<T>([]);
  }

  /** Position in `Flatten(parts)` at which part `k` begins. */
  function StartOf<T>(parts: seq<seq<T>>, k: nat): nat
    requires k <= |parts|
  {
    |Flatten(parts[..k])|
  }

  lemma {:induction false} FlattenAt<T>(parts: seq<seq<T>>, k: nat)
    requires k < |parts|
    ensures StartOf(parts, k + 1) == StartOf(parts, k) + |parts[k]|
    ensures StartOf(parts, k + 1) <= |Flatten(parts)|
    ensures Flatten(parts)[StartOf(parts, k)..StartOf(parts, k + 1)] == parts[k]
  {
    assert parts == parts[..k] + [parts[k]] + parts[k + 1..];
    assert parts[..k + 1] == parts[..k] + [parts[k]];
    FlattenSnoc(parts[..k], parts[k]);
    FlattenAppend(parts[..k + 1], parts[k + 1..]);
  }

  lemma StartOfMonotone<T>(parts: seq<seq<T>>, j: nat, k: nat)
    requires j <= k <= |parts|
    ensures StartOf(parts, j) <= StartOf(parts, k) <= |Flatten(parts)|
  {
    assert parts == parts[..k] + parts[k..];
    FlattenAppend(parts[..k], parts[k..]);
    assert parts[..k] == parts[..j] + parts[j..k];
    FlattenAppend(parts[..j], parts[j..k]);
  }

  /** Every position of a flattened sequence lies in exactly one part. */
  lemma {:induction false} FlattenFind<T>(parts: seq<seq<T>>, i: nat) returns (k: nat)
    requires i < |Flatten(parts)|
    ensures k < |parts| && StartOf(parts, k) <= i < StartOf(parts, k + 1)
    ensures StartOf(parts, k) + |parts[k]| == StartOf(parts, k + 1)
    ensures Flatten(parts)[i] == parts[k][i - StartOf(parts, k)]
    decreases |parts|
  {
    var n := |parts| - 1;
    assert parts == parts[..n] + [parts[n]];
    FlattenSnoc(parts[..n], parts[n]);
    if i < |Flatten(parts[..n])| {
      k := FlattenFind(parts[..n], i);
      assert parts[..n][..k] == parts[..k] && parts[..n][..k + 1] == parts[..k + 1];
    } else {
      k := n;
      assert parts[..n + 1] == parts;
    }
  }
}
