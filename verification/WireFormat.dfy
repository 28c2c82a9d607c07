/**
 What the bytes of a protobuf message mean: the list of fields they hold, up to
 the first one that does not parse (sections "Message Structure" and
 "Length-Delimited Records" of the Protocol Buffers Encoding specification).
 */
module WireFormat {
  import opened Prelude
  import opened Varint

  const VARINT: nat := 0
  const FIXED64: nat := 1
  const BYTES: nat := 2
  const FIXED32: nat := 5

  /** The longest buffer a 64-bit Go program can hold. */
  const MAX_LEN: int := TWO_63 - 1

  datatype Tag = Tag(num: int, typ: int)

  datatype Field = Field(num: int, typ: int, val: Bytes)

  // Writing.

  /** `uint64(int32(num))<<3 | typ&7`, with the shift dropping what leaves 64 bits. */
  function TagValue(num: int, typ: int): nat {
    (ToInt32(num) * 8) % TWO_64 + typ % 8
  }

  function AppendTag(num: int, typ: int): Bytes {
    AppendVarint(TagValue(num, typ))
  }

  function AppendBytes(v: Bytes): Bytes {
    AppendVarint(|v| % TWO_64) + v
  }

  function AppendFixed(v: nat, width: nat): (r: Bytes)
    ensures |r| == width
  {
    if width == 0 then [] else [v % 256] + AppendFixed(v / 256, width - 1)
  }

  function StringField(num: int, v: Bytes): Field { Field(num, BYTES, v) }

  function VarintField(num: int, v: nat): Field { Field(num, VARINT, AppendVarint(v)) }

  function FixedField(num: int, typ: int, v: nat, width: nat): Field { Field(num, typ, AppendFixed(v, width)) }

  /** The value as the writers put it: length first when it is a record. */
  function Payload(f: Field): Bytes {
    if f.typ == BYTES then AppendBytes(f.val) else f.val
  }

  function FieldBytes(f: Field): Bytes {
    AppendTag(f.num, f.typ) + Payload(f)
  }

  function Encode(fs: seq<Field>): Bytes {
    if fs == [] then [] else Encode(fs[..|fs| - 1]) + FieldBytes(fs[|fs| - 1])
  }

  /** A field that the writers can produce and that a reader gives back. */
  predicate Canonical(f: Field) {
    && 1 <= f.num < TWO_31
    && (f.typ == BYTES
        || (f.typ == VARINT && ConsumeVarint(f.val).Some? && AppendVarint(ConsumeVarint(f.val).value.value) == f.val)
        || (f.typ == FIXED64 && |f.val| == 8)
        || (f.typ == FIXED32 && |f.val| == 4))
  }

  // Reading.

  function ConsumeTag(b: Bytes): (r: Option<Read<Tag>>)
    ensures r.Some? ==> 1 <= r.value.size <= |b| && 1 <= r.value.value.num < TWO_31
  {
    match ConsumeVarint(b)
    case None => None
    case Some(Read(v, n)) =>
      if 1 <= v / 8 < TWO_31 then Some(Read(Tag(v / 8, v % 8), n)) else None
  }

  function FromFixed(b: Bytes): nat {
    if b == [] then 0 else b[0] + 256 * FromFixed(b[1..])
  }

  function ConsumeFixed(b: Bytes, width: nat): Option<Read<nat>> {
    if |b| < width then None else Some(Read(FromFixed(b[..width]), width))
  }

  function ConsumeBytes(b: Bytes): (r: Option<Read<Bytes>>)
    ensures r.Some? ==> 1 <= r.value.size <= |b|
  {
    match ConsumeVarint(b)
    case None => None
    case Some(Read(m, n)) => if m > |b| - n then None else Some(Read(b[n..n + m], n + m))
  }

  /** The value part of a field: varints come back in minimal form, fixed widths and records as they stand. */
  function ConsumeValue(typ: int, b: Bytes): (r: Option<Read<Bytes>>)
    ensures r.Some? ==> 1 <= r.value.size <= |b|
  {
    if typ == VARINT then
      match ConsumeVarint(b)
      case None => None
      case Some(Read(v, n)) => Some(Read(AppendVarint(v), n))
    else if typ == FIXED64 then (if |b| < 8 then None else Some(Read(b[..8], 8)))
    else if typ == FIXED32 then (if |b| < 4 then None else Some(Read(b[..4], 4)))
    else if typ == BYTES then ConsumeBytes(b)
    else None
  }

  /** The first field of `b` and the bytes it takes. */
  function ConsumeField(b: Bytes): (r: Option<Read<Field>>)
    ensures r.Some? ==> 2 <= r.value.size <= |b|
  {
    match ConsumeTag(b)
    case None => None
    case Some(Read(tag, n)) =>
      match ConsumeValue(tag.typ, b[n..])
      case None => None
      case Some(Read(val, m)) => Some(Read(Field(tag.num, tag.typ, val), n + m))
  }

  /** The fields a decoding loop sees in `b`. */
  function Fields(b: Bytes): seq<Field> {
    match ConsumeField(b)
    case None => []
    case Some(Read(f, n)) => [f] + Fields(b[n..])
  }

  /** What is left in front of the loop when it stops. */
  function Residue(b: Bytes): Bytes {
    match ConsumeField(b)
    case None => b
    case Some(Read(f, n)) => Residue(b[n..])
  }

  lemma StepOver(b: Bytes, tag: Tag, k: nat, val: Bytes, n: nat)
    requires ConsumeTag(b) == Some(Read(tag, k)) && ConsumeValue(tag.typ, b[k..]) == Some(Read(val, n))
    ensures ConsumeField(b) == Some(Read(Field(tag.num, tag.typ, val), k + n))
  {
  }

  lemma FirstField(b: Bytes, f: Field, n: nat)
    requires ConsumeField(b) == Some(Read(f, n))
    ensures Fields(b) == [f] + Fields(b[n..])
  {
  }

  lemma NoStep(b: Bytes)
    requires ConsumeTag(b).Some? ==>
               ConsumeValue(ConsumeTag(b).value.value.typ, b[ConsumeTag(b).value.size..]).None?
    ensures ConsumeField(b).None? && Fields(b) == []
  {
  }

  predicate WellFormed(b: Bytes) {
    Residue(b) == []
  }

  /** `p` is exactly one field. */
  predicate IsField(p: Bytes, f: Field) {
    ConsumeField(p) == Some(Read(f, |p|))
  }

  // A read depends on its own bytes only.

  lemma ValueLocal(typ: int, b: Bytes, c: Bytes)
    requires ConsumeValue(typ, b).Some? && b[..ConsumeValue(typ, b).value.size] <= c
    ensures ConsumeValue(typ, c) == ConsumeValue(typ, b)
  {
    var n := ConsumeValue(typ, b).value.size;
    if typ == VARINT {
      ConsumeFromLocal(b, c, 0);
    } else if typ == BYTES {
      var k := ConsumeVarint(b).value.size;
      SplitPrefix(b, c, k, n);
      ConsumeFromLocal(b, c, 0);
    } else {
      assert c[..n] == b[..n];
    }
  }

  lemma TagLocal(b: Bytes, c: Bytes)
    requires ConsumeTag(b).Some? && b[..ConsumeTag(b).value.size] <= c
    ensures ConsumeTag(c) == ConsumeTag(b)
  {
    ConsumeFromLocal(b, c, 0);
  }

  /**
   Neither cutting the buffer off after a field nor changing what follows it
   changes how the field reads.
   */
  lemma FieldLocal(b: Bytes, c: Bytes)
    requires ConsumeField(b).Some? && b[..ConsumeField(b).value.size] <= c
    ensures ConsumeField(c) == ConsumeField(b)
  {
    var n := ConsumeField(b).value.size;
    var k := ConsumeTag(b).value.size;
    SplitPrefix(b, c, k, n);
    TagLocal(b, c);
    ValueLocal(ConsumeTag(b).value.value.typ, b[k..], c[k..]);
  }

  /** The first field of a buffer stays first when bytes are appended. */
  lemma FieldGrows(a: Bytes, b: Bytes)
    requires ConsumeField(a).Some?
    ensures ConsumeField(a + b) == ConsumeField(a)
    ensures (a + b)[ConsumeField(a).value.size..] == a[ConsumeField(a).value.size..] + b
  {
    assert a[..ConsumeField(a).value.size] <= a + b;
    FieldLocal(a, a + b);
  }

  lemma FirstOfConcat(a: Bytes, b: Bytes)
    requires ConsumeField(a).Some?
    ensures var Read(f, n) := ConsumeField(a).value;
            Fields(a + b) == [f] + Fields(a[n..] + b) && Residue(a + b) == Residue(a[n..] + b)
  {
    FieldGrows(a, b);
  }

  /** The merge law on bytes: fields of a concatenation are the concatenated fields. */
  lemma {:induction false} FieldsOfConcat(a: Bytes, b: Bytes)
    requires WellFormed(a)
    ensures Fields(a + b) == Fields(a) + Fields(b) && Residue(a + b) == Residue(b)
    decreases |a|
  {
    if a == [] {
      assert a + b == b && [] + Fields(b) == Fields(b);
    } else {
      var Read(f, n) := ConsumeField(a).value;
      var rest := a[n..];
      FirstOfConcat(a, b);
      FieldsOfConcat(rest, b);
      Regroup([f], Fields(rest), Fields(b));
    }
  }

  /** Bytes appended to any buffer, well formed or not, leave the fields already seen as they were. */
  lemma {:induction false} FieldsGrow(a: Bytes, b: Bytes)
    ensures Fields(a) <= Fields(a + b)
    decreases |a|
  {
    if ConsumeField(a).Some? {
      FieldGrows(a, b);
      FieldsGrow(a[ConsumeField(a).value.size..], b);
    }
  }

  /** The leading fields of `b` that end at or before byte `k`. */
  function CompleteFields(b: Bytes, k: nat): seq<Field> {
    match ConsumeField(b)
    case None => []
    case Some(Read(f, n)) => if n <= k then [f] + CompleteFields(b[n..], k - n) else []
  }

  /** Prefix-freeness: a cut buffer holds the first field if the cut leaves it whole, and no field otherwise. */
  lemma FirstFieldOfTruncated(b: Bytes, k: nat)
    requires k <= |b|
    ensures ConsumeField(b[..k])
         == if ConsumeField(b).Some? && ConsumeField(b).value.size <= k then ConsumeField(b) else None
  {
    if ConsumeField(b[..k]).Some? {
      var n := ConsumeField(b[..k]).value.size;
      assert b[..k][..n] == b[..n];
      FieldLocal(b[..k], b);
    } else if ConsumeField(b).Some? && ConsumeField(b).value.size <= k {
      var n := ConsumeField(b).value.size;
      assert b[..n] == b[..k][..n];
      FieldLocal(b, b[..k]);
    }
  }

  /** A truncated buffer decodes to exactly its complete leading fields. */
  lemma {:induction false} FieldsOfTruncated(b: Bytes, k: nat)
    requires k <= |b|
    ensures Fields(b[..k]) == CompleteFields(b, k)
    decreases k
  {
    FirstFieldOfTruncated(b, k);
    if ConsumeField(b[..k]).Some? {
      var n := ConsumeField(b).value.size;
      assert b[..k][n..] == b[n..][..k - n];
      FieldsOfTruncated(b[n..], k - n);
    }
  }

  lemma OneField(p: Bytes, f: Field)
    requires IsField(p, f)
    ensures WellFormed(p) && Fields(p) == [f]
  {
    assert p[|p|..] == [];
  }

  // Writers produce what readers expect.

  lemma TagValueParts(num: int, typ: int)
    ensures TagValue(num, typ) < TWO_64 && TagValue(num, typ) % 8 == typ % 8
    ensures var n := ToInt32(num); TagValue(num, typ) / 8 == if n >= 0 then n else n + TWO_64 / 8
  {
    var n := ToInt32(num);
    assert (n * 8) % TWO_64 == if n >= 0 then n * 8 else n * 8 + TWO_64;
  }

  /** A tag reads back, whatever follows, as its int32 number; numbers that are not positive are rejected. */
  lemma TagRoundTrip(num: int, typ: int, rest: Bytes)
    ensures ConsumeTag(AppendTag(num, typ) + rest)
         == if ToInt32(num) >= 1 then Some(Read(Tag(ToInt32(num), typ % 8), |AppendTag(num, typ)|)) else None
  {
    TagValueParts(num, typ);
    ConsumeInvertsAppend(TagValue(num, typ), rest);
  }

  lemma ValidTagRoundTrip(num: int, typ: int, rest: Bytes)
    requires 1 <= num < TWO_31 && 0 <= typ < 8
    ensures ConsumeTag(AppendTag(num, typ) + rest) == Some(Read(Tag(num, typ), |AppendTag(num, typ)|))
  {
    SmallTag(num, typ);
    TagRoundTrip(num, typ, rest);
  }

  lemma SmallTag(num: int, typ: int)
    requires 1 <= num < TWO_31 && 0 <= typ < 8
    ensures ToInt32(num) == num && typ % 8 == typ
  {
  }

  lemma {:induction false} FixedRoundTrip(b: Bytes)
    ensures AppendFixed(FromFixed(b), |b|) == b
  {
    if b != [] {
      FixedRoundTrip(b[1..]);
      assert FromFixed(b) / 256 == FromFixed(b[1..]);
    }
  }

  lemma VarintFieldIsCanonical(num: int, v: nat)
    requires 1 <= num < TWO_31 && v < TWO_64
    ensures Canonical(VarintField(num, v)) && ConsumeVarint(VarintField(num, v).val) == Some(Read(v, |AppendVarint(v)|))
  {
    assert AppendVarint(v) + [] == AppendVarint(v);
    ConsumeInvertsAppend(v, []);
  }

  lemma FieldOfParts(t: Bytes, tag: Tag, v: Bytes, val: Bytes)
    requires ConsumeTag(t + v) == Some(Read(tag, |t|)) && ConsumeValue(tag.typ, v) == Some(Read(val, |v|))
    ensures IsField(t + v, Field(tag.num, tag.typ, val))
  {
    assert (t + v)[|t|..] == v;
  }

  lemma RecordOfParts(h: Bytes, v: Bytes)
    requires ConsumeVarint(h + v) == Some(Read(|v|, |h|))
    ensures ConsumeBytes(h + v) == Some(Read(v, |h| + |v|))
  {
    assert (h + v)[|h|..|h| + |v|] == v;
  }

  lemma RecordRoundTrip(v: Bytes)
    requires |v| <= MAX_LEN
    ensures ConsumeBytes(AppendBytes(v)) == Some(Read(v, |AppendBytes(v)|))
  {
    assert |v| % TWO_64 == |v|;
    ConsumeInvertsAppend(|v|, v);
    RecordOfParts(AppendVarint(|v|), v);
  }

  lemma ValueRoundTrip(f: Field)
    requires Canonical(f) && |f.val| <= MAX_LEN
    ensures ConsumeValue(f.typ, Payload(f)) == Some(Read(f.val, |Payload(f)|))
  {
    if f.typ == BYTES {
      RecordRoundTrip(f.val);
    } else if f.typ == VARINT {
      ConsumeInvertsAppend(ConsumeVarint(f.val).value.value, []);
      assert f.val + [] == f.val;
    } else {
      assert f.val[..|f.val|] == f.val;
    }
  }

  /** Writing one field and reading it back, for every number, type and value a writer can use. */
  lemma FieldRoundTrip(f: Field)
    requires Canonical(f) && |f.val| <= MAX_LEN
    ensures IsField(FieldBytes(f), f)
  {
    ValueRoundTrip(f);
    ValidTagRoundTrip(f.num, f.typ, Payload(f));
    FieldOfParts(AppendTag(f.num, f.typ), Tag(f.num, f.typ), Payload(f), f.val);
  }

  lemma FieldsOfSnoc(b: Bytes, p: Bytes, f: Field)
    requires WellFormed(b) && IsField(p, f)
    ensures WellFormed(b + p) && Fields(b + p) == Fields(b) + [f]
  {
    OneField(p, f);
    FieldsOfConcat(b, p);
  }

  /** Reading a list of fields back from their encoding. */
  lemma {:induction false} FieldsInvertEncode(fs: seq<Field>)
    requires |Encode(fs)| <= MAX_LEN
    requires forall i :: 0 <= i < |fs| ==> Canonical(fs[i])
    ensures WellFormed(Encode(fs)) && Fields(Encode(fs)) == fs
  {
    if fs != [] {
      var k := |fs| - 1;
      var head, f := fs[..k], fs[k];
      assert fs == head + [f];
      FieldsInvertEncode(head);
      FieldRoundTrip(f);
      FieldsOfSnoc(Encode(head), FieldBytes(f), f);
    }
  }

  // Re-encoding what was read.

  lemma ReadTagIsNoShorter(b: Bytes)
    requires ConsumeTag(b).Some?
    ensures |AppendTag(ConsumeTag(b).value.value.num, ConsumeTag(b).value.value.typ)| <= ConsumeTag(b).value.size
  {
    var v := ConsumeVarint(b).value.value;
    var Tag(num, typ) := ConsumeTag(b).value.value;
    CanonicalIsShortest(b, 0);
    assert ToInt32(num) == num && (num * 8) % TWO_64 == num * 8;
    assert TagValue(num, typ) == v;
  }

  lemma ReadRecordIsNoShorter(b: Bytes)
    requires ConsumeBytes(b).Some? && |b| <= MAX_LEN
    ensures |AppendBytes(ConsumeBytes(b).value.value)| <= ConsumeBytes(b).value.size
  {
    CanonicalIsShortest(b, 0);
    var m := ConsumeVarint(b).value.value;
    assert m % TWO_64 == m;
  }

  lemma ReadValueIsCanonical(num: int, typ: int, b: Bytes)
    requires 1 <= num < TWO_31 && ConsumeValue(typ, b).Some? && |b| <= MAX_LEN
    ensures var Read(val, n) := ConsumeValue(typ, b).value; var f := Field(num, typ, val);
            Canonical(f) && |val| <= MAX_LEN && |Payload(f)| <= n
  {
    if typ == VARINT {
      VarintFieldIsCanonical(num, ConsumeVarint(b).value.value);
      CanonicalIsShortest(b, 0);
    } else if typ == BYTES {
      ReadRecordIsNoShorter(b);
    }
  }

  /** A field that was read is canonical, and its minimal encoding is no longer than the bytes read. */
  lemma ReadFieldIsCanonical(b: Bytes)
    requires ConsumeField(b).Some? && |b| <= MAX_LEN
    ensures var Read(f, n) := ConsumeField(b).value; Canonical(f) && |f.val| <= MAX_LEN && |FieldBytes(f)| <= n
  {
    var Read(tag, k) := ConsumeTag(b).value;
    ReadTagIsNoShorter(b);
    ReadValueIsCanonical(tag.num, tag.typ, b[k..]);
  }

  lemma EncodeSnoc(fs: seq<Field>, f: Field)
    ensures Encode(fs + [f]) == Encode(fs) + FieldBytes(f)
  {
    assert (fs + [f])[..|fs|] == fs;
  }

  lemma {:induction false} EncodeOfConcat(a: seq<Field>, b: seq<Field>)
    ensures Encode(a + b) == Encode(a) + Encode(b)
  {
    if b == [] {
      assert a + b == a && Encode(a) + [] == Encode(a);
    } else {
      var init, f := b[..|b| - 1], b[|b| - 1];
      calc {
        Encode(a + b);
        { assert a + b == (a + init) + [f]; EncodeSnoc(a + init, f); }
        Encode(a + init) + FieldBytes(f);
        { EncodeOfConcat(a, init); }
        (Encode(a) + Encode(init)) + FieldBytes(f);
        { Regroup(Encode(a), Encode(init), FieldBytes(f)); }
        Encode(a) + (Encode(init) + FieldBytes(f));
        { assert b == init + [f]; EncodeSnoc(init, f); }
        Encode(a) + Encode(b);
      }
    }
  }

  lemma EncodeOfCons(f: Field, fs: seq<Field>)
    ensures Encode([f] + fs) == FieldBytes(f) + Encode(fs)
  {
    EncodeOfConcat([f], fs);
    EncodeSnoc([], f);
    assert [] + [f] == [f] && [] + FieldBytes(f) == FieldBytes(f);
  }

  lemma {:induction false} ReadFieldsAreCanonical(b: Bytes)
    requires |b| <= MAX_LEN
    ensures forall i :: 0 <= i < |Fields(b)| ==> Canonical(Fields(b)[i])
    ensures |Encode(Fields(b))| <= |b|
    decreases |b|
  {
    if ConsumeField(b).Some? {
      var Read(f, n) := ConsumeField(b).value;
      ReadFieldIsCanonical(b);
      ReadFieldsAreCanonical(b[n..]);
      EncodeOfCons(f, Fields(b[n..]));
    }
  }

  /** Re-encoding the fields of any buffer gives one that is no longer and has the same fields. */
  lemma Normalisation(b: Bytes)
    requires |b| <= MAX_LEN
    ensures var c := Encode(Fields(b)); |c| <= |b| && WellFormed(c) && Fields(c) == Fields(b)
  {
    ReadFieldsAreCanonical(b);
    FieldsInvertEncode(Fields(b));
  }
}
