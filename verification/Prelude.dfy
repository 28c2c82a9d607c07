/** Vocabulary shared by the models: bytes, optional results and small sequence helpers. */
module Prelude {
  type byte = x: int | 0 <= x < 256

  /** A Go string or byte slice; nil and empty are the same value. */
  type Bytes = seq<byte>

  datatype Option<+T> = None | Some(value: T)

  const TWO_31: int := 0x8000_0000
  const TWO_32: int := 0x1_0000_0000
  const TWO_63: int := 0x8000_0000_0000_0000
  const TWO_64: int := 0x1_0000_0000_0000_0000

  function Last<T>(s: seq<T>, default: T): T {
    if s == [] then default else s[|s| - 1]
  }

  function Get<K, V>(m: map<K, V>, k: K, default: V): V {
    if k in m then m[k] else default
  }

  type int32 = x: int | -TWO_31 <= x < TWO_31

  predicate Distinct<T(==)>(s: seq<T>) {
    forall i, j :: 0 <= i < j < |s| ==> s[i] != s[j]
  }

  lemma MoveAcross<T>(a: seq<T>, x: T, b: seq<T>)
    ensures a + ([x] + b) == (a + [x]) + b
  {
  }

  lemma Regroup<T>(a: seq<T>, b: seq<T>, c: seq<T>)
    ensures (a + b) + c == a + (b + c)
  {
  }

  /** A shared prefix splits into a shared prefix and a shared remainder. */
  lemma SplitPrefix<T>(b: seq<T>, c: seq<T>, k: nat, n: nat)
    requires k <= n <= |b| && b[..n] <= c
    ensures b[..k] <= c && b[k..][..n - k] <= c[k..] && b[k..n] == c[k..n]
  {
    assert b[..n] == c[..n];
    assert b[..k] == b[..n][..k] == c[..n][..k] == c[..k];
    assert b[k..n] == b[..n][k..] == c[..n][k..] == c[k..n];
  }
}
