/**
 Base 128 varints and two's complement, as section "Base 128 Varints" of the
 Protocol Buffers Encoding specification defines them.
 */
module Varint {
  import opened Prelude

  /** A successful read from the front of a buffer: the value and the bytes it took. */
  datatype Read<+T> = Read(value: T, size: nat)

  /** The minimal encoding: seven bits a byte, low group first. */
  function AppendVarint(v: nat): Bytes {
    if v < 128 then [v] else [v % 128 + 128] + AppendVarint(v / 128)
  }

  /** What the bytes from position `at` of a varint may still hold: the tenth byte holds one bit. */
  function Limit(at: nat): (r: nat)
    requires at <= 9
    ensures r >= if at == 9 then 2 else 256
    decreases 9 - at
  {
    if at == 9 then 2 else 128 * Limit(at + 1)
  }

  /** Reads the rest of a varint of which `at` bytes have been read. */
  function ConsumeFrom(b: Bytes, at: nat): (r: Option<Read<nat>>)
    requires at <= 9
    ensures r.Some? ==> 1 <= r.value.size <= |b| && r.value.size <= 10 - at && r.value.value < Limit(at)
    decreases |b|
  {
    if b == [] then None
    else if at == 9 then (if b[0] < 2 then Some(Read(b[0], 1)) else None)
    else if b[0] < 128 then Some(Read(b[0], 1))
    else match ConsumeFrom(b[1..], at + 1)
      case None => None
      case Some(Read(v, n)) => Some(Read(b[0] - 128 + 128 * v, n + 1))
  }

  function ConsumeVarint(b: Bytes): (r: Option<Read<nat>>)
    ensures r.Some? ==> 1 <= r.value.size <= |b| && r.value.size <= 10 && r.value.value < TWO_64
  {
    LimitIsTwo64();
    ConsumeFrom(b, 0)
  }

  lemma LimitIsTwo64()
    ensures Limit(0) == TWO_64
  {
    calc {
      Limit(0);
      128 * 128 * 128 * Limit(3);
      128 * 128 * 128 * 128 * 128 * 128 * Limit(6);
      128 * 128 * 128 * 128 * 128 * 128 * 128 * 128 * 128 * Limit(9);
    }
  }

  lemma {:induction false} ConsumeFromInvertsAppend(v: nat, rest: Bytes, at: nat)
    requires at <= 9 && v < Limit(at)
    ensures ConsumeFrom(AppendVarint(v) + rest, at) == Some(Read(v, |AppendVarint(v)|))
    decreases v
  {
    if v >= 128 {
      var tail := AppendVarint(v / 128) + rest;
      assert (AppendVarint(v) + rest)[1..] == tail;
      ConsumeFromInvertsAppend(v / 128, rest, at + 1);
    }
  }

  /** Reading inverts writing for every uint64, whatever follows, within ten bytes. */
  lemma ConsumeInvertsAppend(v: nat, rest: Bytes)
    requires v < TWO_64
    ensures ConsumeVarint(AppendVarint(v) + rest) == Some(Read(v, |AppendVarint(v)|))
    ensures 1 <= |AppendVarint(v)| <= 10
  {
    LimitIsTwo64();
    ConsumeFromInvertsAppend(v, rest, 0);
  }

  /** A read looks at its own bytes only: neither cutting the rest off nor replacing it matters. */
  lemma {:induction false} ConsumeFromLocal(b: Bytes, c: Bytes, at: nat)
    requires at <= 9 && ConsumeFrom(b, at).Some?
    requires b[..ConsumeFrom(b, at).value.size] <= c
    ensures ConsumeFrom(c, at) == ConsumeFrom(b, at)
    decreases 9 - at
  {
    var n := ConsumeFrom(b, at).value.size;
    assert b[..n][0] == b[0] == c[0];
    if at < 9 && b[0] >= 128 {
      assert b[1..][..n - 1] == b[..n][1..] <= c[1..];
      ConsumeFromLocal(b[1..], c[1..], at + 1);
    }
  }

  /** Re-encoding what was read never needs more bytes than were read: minimal encodings are shortest. */
  lemma {:induction false} CanonicalIsShortest(b: Bytes, at: nat)
    requires at <= 9 && ConsumeFrom(b, at).Some?
    ensures |AppendVarint(ConsumeFrom(b, at).value.value)| <= ConsumeFrom(b, at).value.size
    decreases 9 - at
  {
    if at < 9 && b[0] >= 128 {
      CanonicalIsShortest(b[1..], at + 1);
    }
  }

  /** The number that seven-bit groups stand for, low group first. */
  function GroupsValue(b: Bytes): nat {
    if b == [] then 0 else b[0] % 128 + 128 * GroupsValue(b[1..])
  }

  /**
   The first `n` of the bytes that are left after `at` bytes of a varint end
   it: only the last one lacks the continuation bit, and a tenth byte is at most 1.
   */
  ghost predicate EndsVarint(b: Bytes, n: nat, at: nat) {
    && 1 <= n <= |b| && at + n <= 10
    && (forall i :: 0 <= i < n - 1 ==> b[i] >= 128) && b[n - 1] < 128
    && (at + n == 10 ==> b[n - 1] <= 1)
  }

  lemma EndsOfCons(b: Bytes, n: nat, at: nat)
    requires b != [] && n > 1
    ensures EndsVarint(b, n, at) <==> b[0] >= 128 && EndsVarint(b[1..], n - 1, at + 1)
    ensures n <= |b| ==> GroupsValue(b[..n]) == b[0] % 128 + 128 * GroupsValue(b[1..][..n - 1])
  {
    assert forall i :: 0 < i < |b| ==> b[i] == b[1..][i - 1];
    if n <= |b| {
      assert b[..n][1..] == b[1..][..n - 1];
    }
    if b[0] >= 128 && EndsVarint(b[1..], n - 1, at + 1) {
      assert forall i :: 0 < i < n - 1 ==> b[i] == b[1..][i - 1];
    }
    if EndsVarint(b, n, at) {
      assert forall i :: 0 <= i < n - 2 ==> b[1..][i] == b[i + 1];
    }
  }

  lemma SplitGroup(v: nat, low: nat, high: nat)
    requires low < 128
    ensures v == low + 128 * high <==> v % 128 == low && v / 128 == high
  {
  }

  lemma {:induction false} ConsumeFromMeans(b: Bytes, at: nat, v: nat, n: nat)
    requires at <= 9
    ensures ConsumeFrom(b, at) == Some(Read(v, n)) <==> EndsVarint(b, n, at) && v == GroupsValue(b[..n])
    decreases 9 - at
  {
    if b != [] && n > 1 {
      EndsOfCons(b, n, at);
      if at < 9 && b[0] >= 128 {
        ConsumeFromMeans(b[1..], at + 1, v / 128, n - 1);
        SplitGroup(v, b[0] % 128, GroupsValue(b[1..][..if n <= |b| then n - 1 else 0]));
        var rest := ConsumeFrom(b[1..], at + 1);
        if rest.Some? {
          SplitGroup(v, b[0] - 128, rest.value.value);
        }
      }
    } else if b != [] && n == 1 {
      assert b[..1] == [b[0]] && [b[0]][1..] == [];
    }
  }

  /**
   A varint read, by the bytes: it succeeds with `n` bytes exactly when these
   end a varint, at most ten and the tenth at most 1, and gives the number that
   their seven-bit groups stand for.
   */
  lemma VarintMeans(b: Bytes, v: nat, n: nat)
    ensures ConsumeVarint(b) == Some(Read(v, n)) <==> EndsVarint(b, n, 0) && v == GroupsValue(b[..n])
  {
    LimitIsTwo64();
    ConsumeFromMeans(b, 0, v, n);
  }

  /** The example of the specification: 150 is 0x96 0x01. */
  lemma VarintOf150()
    ensures AppendVarint(150) == [0x96, 0x01]
  {
  }

  function Pow128(k: nat): nat {
    if k == 0 then 1 else 128 * Pow128(k - 1)
  }

  lemma {:induction false} AppendSize(v: nat, k: nat)
    requires Pow128(k) <= v < Pow128(k + 1)
    ensures |AppendVarint(v)| == k + 1
    decreases k
  {
    if k > 0 {
      assert Pow128(k) >= 128 by { Pow128Positive(k - 1); }
      AppendSize(v / 128, k - 1);
    }
  }

  lemma {:induction false} Pow128Positive(k: nat)
    ensures Pow128(k) >= 1
  {
    if k > 0 { Pow128Positive(k - 1); }
  }

  // Two's complement.

  function ToUint64(v: int): nat {
    v % TWO_64
  }

  function ToInt64(u: int): int {
    var w := u % TWO_64;
    if w < TWO_63 then w else w - TWO_64
  }

  function ToInt32(u: int): int32 {
    var w := u % TWO_32;
    if w < TWO_31 then w else w - TWO_32
  }

  /** Conversions keep the number modulo the width and land in range. */
  lemma ConversionsKeepResidue(v: int)
    ensures exists k: int :: ToUint64(v) == v + k * TWO_64
    ensures exists k: int :: ToInt64(v) == v + k * TWO_64
    ensures exists k: int :: ToInt32(v) == v + k * TWO_32
    ensures ToUint64(v) < TWO_64 && -TWO_63 <= ToInt64(v) < TWO_63
  {
    assert ToUint64(v) == v + (-(v / TWO_64)) * TWO_64;
    var k := if ToInt64(v) >= 0 then -(v / TWO_64) else -(v / TWO_64) - 1;
    assert ToInt64(v) == v + k * TWO_64;
    var j := if ToInt32(v) >= 0 then -(v / TWO_32) else -(v / TWO_32) - 1;
    assert ToInt32(v) == v + j * TWO_32;
  }

  /** An int32 survives sign extension to 64 bits and truncation back; negative ones take ten bytes. */
  lemma Int32SurvivesSignExtension(v: int32)
    ensures ToInt32(ToUint64(v)) == v
    ensures v < 0 ==> |AppendVarint(ToUint64(v))| == 10
  {
    if v < 0 {
      assert ToUint64(v) == v + TWO_64;
      assert v + TWO_64 == (v + TWO_32) + (TWO_32 - 1) * TWO_32;
      assert Pow128(9) == TWO_63;
      AppendSize(v + TWO_64, 9);
    }
  }

  /** The int64 that ScanVarint returns is the one Int64 wrote. */
  lemma Int64SurvivesUint64(v: int)
    requires -TWO_63 <= v < TWO_63
    ensures ToInt64(ToUint64(v)) == v
  {
    if v < 0 {
      assert ToUint64(v) == v + TWO_64;
    }
  }
}
