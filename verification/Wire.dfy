/** The encoder and the decoding cursor of internal/protow/wire.go. */
module Wire {
  import opened Prelude
  import opened Varint
  import opened WireFormat

  class Encoder {
    var buf: Bytes

    constructor ()
      ensures buf == []
    {
      buf := [];
    }

    method Tag(num: int, typ: int)
      modifies this
      ensures buf == old(buf) + AppendTag(num, typ)
    {
      buf := buf + AppendTag(num, typ);
    }

    method Int64(num: int, v: int)
      modifies this
      ensures buf == old(buf) + FieldBytes(VarintField(num, ToUint64(v)))
    {
      buf := buf + AppendTag(num, VARINT);
      buf := buf + AppendVarint(ToUint64(v));
    }

    method Uint64(num: int, v: nat)
      modifies this
      ensures buf == old(buf) + FieldBytes(VarintField(num, v))
    {
      buf := buf + AppendTag(num, VARINT);
      buf := buf + AppendVarint(v);
    }

    method Int32(num: int, v: int)
      modifies this
      ensures buf == old(buf) + FieldBytes(VarintField(num, ToUint64(v)))
    {
      Int64(num, v);
    }

    method Bool(num: int, v: bool)
      modifies this
      ensures buf == old(buf) + FieldBytes(VarintField(num, if v then 1 else 0))
    {
      buf := buf + AppendTag(num, VARINT);
      if v {
        buf := buf + AppendVarint(1);
      } else {
        buf := buf + AppendVarint(0);
      }
    }

    /** Also BytesField. */
    method String(num: int, v: Bytes)
      modifies this
      ensures buf == old(buf) + FieldBytes(StringField(num, v))
    {
      buf := buf + AppendTag(num, BYTES);
      buf := buf + AppendBytes(v);
    }

    /** The caller passes the IEEE bits of the value. */
    method Float64(num: int, bits: nat)
      modifies this
      ensures buf == old(buf) + FieldBytes(FixedField(num, FIXED64, bits, 8))
    {
      buf := buf + AppendTag(num, FIXED64);
      buf := buf + AppendFixed(bits, 8);
    }

    method Float32(num: int, bits: nat)
      modifies this
      ensures buf == old(buf) + FieldBytes(FixedField(num, FIXED32, bits, 4))
    {
      buf := buf + AppendTag(num, FIXED32);
      buf := buf + AppendFixed(bits, 4);
    }

    method AppendMessage(num: int, raw: Bytes)
      modifies this
      ensures buf == old(buf) + FieldBytes(StringField(num, raw))
    {
      String(num, raw);
    }

    method MapEntry(num: int, key: Bytes, value: Bytes)
      modifies this
      ensures buf == old(buf) + FieldBytes(StringField(num, EntryBytes(key, value)))
    {
      var inner := new Encoder();
      inner.String(1, key);
      inner.String(2, value);
      EncodeSnoc([], StringField(1, key));
      EncodeSnoc([StringField(1, key)], StringField(2, value));
      assert inner.buf == EntryBytes(key, value);
      AppendMessage(num, inner.buf);
    }

    method RepeatedString(num: int, vals: seq<Bytes>)
      modifies this
      ensures buf == old(buf) + Encode(StringFields(num, vals))
    {
      for i := 0 to |vals|
        invariant buf == old(buf) + Encode(StringFields(num, vals[..i]))
      {
        StringsSnoc(old(buf), num, vals, i);
        String(num, vals[i]);
      }
      assert vals[..|vals|] == vals;
    }
  }

  /** The body of a map entry: the key is field 1, the value field 2. */
  function EntryBytes(key: Bytes, value: Bytes): Bytes {
    Encode([StringField(1, key)] + [StringField(2, value)])
  }

  /** One length-delimited field per value. */
  function StringFields(num: int, vals: seq<Bytes>): seq<Field> {
    seq(|vals|, i requires 0 <= i < |vals| => StringField(num, vals[i]))
  }

  lemma StringsSnoc(base: Bytes, num: int, vals: seq<Bytes>, i: nat)
    requires i < |vals|
    ensures base + Encode(StringFields(num, vals[..i + 1]))
         == base + Encode(StringFields(num, vals[..i])) + FieldBytes(StringField(num, vals[i]))
  {
    assert StringFields(num, vals[..i + 1]) == StringFields(num, vals[..i]) + [StringField(num, vals[i])];
    EncodeSnoc(StringFields(num, vals[..i]), StringField(num, vals[i]));
  }

  /** The values of the fields with this number and wire type, in order of appearance. */
  function Vals(fs: seq<Field>, num: int, typ: int): seq<Bytes> {
    if fs == [] then []
    else
      var f := fs[|fs| - 1];
      var init := Vals(fs[..|fs| - 1], num, typ);
      if f.num == num && f.typ == typ then init + [f.val] else init
  }

  lemma {:induction false} ValsOfConcat(a: seq<Field>, b: seq<Field>, num: int, typ: int)
    ensures Vals(a + b, num, typ) == Vals(a, num, typ) + Vals(b, num, typ)
  {
    if b == [] {
      assert a + b == a;
    } else {
      assert (a + b)[..|a + b| - 1] == a + b[..|b| - 1];
      ValsOfConcat(a, b[..|b| - 1], num, typ);
    }
  }

  /** What follows the first field with this number and type. */
  function After(fs: seq<Field>, num: int, typ: int): seq<Field> {
    if fs == [] then []
    else if fs[0].num == num && fs[0].typ == typ then fs[1..]
    else After(fs[1..], num, typ)
  }

  lemma ValsOfSnoc(a: seq<Field>, f: Field, num: int, typ: int)
    ensures var vs := Vals(a, num, typ);
            Vals(a + [f], num, typ) == if f.num == num && f.typ == typ then vs + [f.val] else vs
  {
    assert (a + [f])[..|a|] == a;
  }

  lemma ValsOfCons(f: Field, b: seq<Field>, num: int, typ: int)
    ensures var vs := Vals(b, num, typ);
            Vals([f] + b, num, typ) == if f.num == num && f.typ == typ then [f.val] + vs else vs
    ensures After([f] + b, num, typ) == if f.num == num && f.typ == typ then b else After(b, num, typ)
  {
    ValsOfConcat([f], b, num, typ);
    assert ([f] + b)[1..] == b;
  }

  class Decoder {
    const buf: Bytes
    var pos: nat

    ghost predicate Valid()
      reads this
    {
      pos <= |buf|
    }

    ghost function Rest(): Bytes
      requires Valid()
      reads this
    {
      buf[pos..]
    }

    constructor (buf: Bytes)
      ensures Valid() && this.buf == buf && Rest() == buf
    {
      this.buf := buf;
      pos := 0;
    }

    /** The switch of Next on the wire type: reads the value and re-encodes it. */
    method Value(typ: int) returns (val: Bytes, ok: bool)
      requires Valid()
      modifies this
      ensures Valid()
      ensures ok == ConsumeValue(typ, old(Rest())).Some?
      ensures ok ==> pos > old(pos) && ConsumeValue(typ, old(Rest())) == Some(Read(val, pos - old(pos)))
      ensures !ok ==> val == [] && pos == old(pos)
    {
      if typ == VARINT {
        var v := ConsumeVarint(buf[pos..]);
        if v.None? {
          return [], false;
        }
        pos := pos + v.value.size;
        val := AppendVarint(v.value.value);
      } else if typ == FIXED64 {
        var v := ConsumeFixed(buf[pos..], 8);
        if v.None? {
          return [], false;
        }
        FixedRoundTrip(buf[pos..][..8]);
        pos := pos + v.value.size;
        val := AppendFixed(v.value.value, 8);
      } else if typ == FIXED32 {
        var v := ConsumeFixed(buf[pos..], 4);
        if v.None? {
          return [], false;
        }
        FixedRoundTrip(buf[pos..][..4]);
        pos := pos + v.value.size;
        val := AppendFixed(v.value.value, 4);
      } else if typ == BYTES {
        var v := ConsumeBytes(buf[pos..]);
        if v.None? {
          return [], false;
        }
        pos := pos + v.value.size;
        val := v.value.value;
      } else {
        return [], false;
      }
      ok := true;
    }

    /**
     Steps over one field. A failing step still moves past the tag when the tag
     itself could be read.
     */
    method Next() returns (num: int, typ: int, val: Bytes, ok: bool)
      requires Valid()
      modifies this
      ensures Valid()
      ensures ok == ConsumeField(old(Rest())).Some?
      ensures ok ==> pos >= old(pos) + 2
                     && ConsumeField(old(Rest())) == Some(Read(Field(num, typ, val), pos - old(pos)))
      ensures old(Fields(Rest())) == if ok then [Field(num, typ, val)] + Fields(Rest()) else []
      ensures !ok ==> (num, typ, val) == (0, 0, [])
      ensures !ok ==> pos == old(pos) + (if ConsumeTag(old(Rest())).Some? then ConsumeTag(old(Rest())).value.size else 0)
    {
      ghost var start := Rest();
      if pos >= |buf| {
        NoStep(start);
        return 0, 0, [], false;
      }
      var tag := ConsumeTag(buf[pos..]);
      if tag.None? {
        NoStep(start);
        return 0, 0, [], false;
      }
      ghost var k := tag.value.size;
      pos := pos + tag.value.size;
      num, typ := tag.value.value.num, tag.value.value.typ;
      assert Rest() == start[k..];
      val, ok := Value(typ);
      if !ok {
        NoStep(start);
        return 0, 0, [], false;
      }
      StepOver(start, Tag(num, typ), k, val, pos - old(pos) - k);
      FirstField(start, Field(num, typ, val), pos - old(pos));
      assert Rest() == start[pos - old(pos)..];
    }

    /** The first varint field with this number, or nothing; the cursor stops right after it. */
    method ScanVarint(num: int) returns (v: int, ok: bool)
      requires Valid()
      modifies this
      ensures Valid()
      ensures ok == (Vals(old(Fields(Rest())), num, VARINT) != [])
      ensures ok ==> v == ToInt64(VarintOf(Vals(old(Fields(Rest())), num, VARINT)[0]))
                     && Fields(Rest()) == After(old(Fields(Rest())), num, VARINT)
      ensures !ok ==> v == 0
    {
      ghost var fs := Fields(Rest());
      while true
        invariant Valid()
        invariant Vals(fs, num, VARINT) == Vals(Fields(Rest()), num, VARINT)
        invariant After(fs, num, VARINT) == After(Fields(Rest()), num, VARINT)
        decreases |buf| - pos
      {
        var n, typ, val, more := Next();
        if !more {
          return 0, false;
        }
        ValsOfCons(Field(n, typ, val), Fields(Rest()), num, VARINT);
        if n == num && typ == VARINT {
          return ToInt64(VarintOf(val)), true;
        }
      }
    }

    /** The first length-delimited field with this number, or nothing; the cursor stops right after it. */
    method ScanString(num: int) returns (s: Bytes, ok: bool)
      requires Valid()
      modifies this
      ensures Valid()
      ensures ok == (Vals(old(Fields(Rest())), num, BYTES) != [])
      ensures ok ==> s == Vals(old(Fields(Rest())), num, BYTES)[0]
                     && Fields(Rest()) == After(old(Fields(Rest())), num, BYTES)
      ensures !ok ==> s == []
    {
      ghost var fs := Fields(Rest());
      while true
        invariant Valid()
        invariant Vals(fs, num, BYTES) == Vals(Fields(Rest()), num, BYTES)
        invariant After(fs, num, BYTES) == After(Fields(Rest()), num, BYTES)
        decreases |buf| - pos
      {
        var n, typ, val, more := Next();
        if !more {
          return [], false;
        }
        ValsOfCons(Field(n, typ, val), Fields(Rest()), num, BYTES);
        if n == num && typ == BYTES {
          return val, true;
        }
      }
    }

    /** Every length-delimited value with this number, up to the end or the first bad field. */
    method ScanRepeatedStrings(num: int) returns (out: seq<Bytes>)
      requires Valid()
      modifies this
      ensures Valid()
      ensures out == Vals(old(Fields(Rest())), num, BYTES)
    {
      ghost var fs, seen := Fields(Rest()), [];
      out := [];
      while true
        invariant Valid()
        invariant fs == seen + Fields(Rest()) && out == Vals(seen, num, BYTES)
        decreases |buf| - pos
      {
        var n, typ, val, more := Next();
        if !more {
          assert fs == seen;
          return;
        }
        ValsOfSnoc(seen, Field(n, typ, val), num, BYTES);
        MoveAcross(seen, Field(n, typ, val), Fields(Rest()));
        if n == num && typ == BYTES {
          out := out + [val];
        }
        seen := seen + [Field(n, typ, val)];
      }
    }
  }

  /** The number in the value of a varint field. */
  function VarintOf(val: Bytes): nat {
    match ConsumeVarint(val)
    case None => 0
    case Some(Read(v, _)) => v
  }

  lemma VarintOfAppend(v: nat)
    requires v < TWO_64
    ensures VarintOf(AppendVarint(v)) == v
  {
    ConsumeInvertsAppend(v, []);
    assert AppendVarint(v) + [] == AppendVarint(v);
  }

  ghost predicate Record(fs: seq<Field>, i: nat, num: int) {
    i < |fs| && fs[i].num == num && fs[i].typ == BYTES
  }

  ghost predicate InOrder(fs: seq<Field>, first: int, second: int) {
    exists i: nat, j: nat :: i < j && Record(fs, i, first) && Record(fs, j, second)
  }

  lemma InOrderOfCons(f: Field, fs: seq<Field>, first: int, second: int)
    requires first != second
    ensures InOrder([f] + fs, first, second)
       <==> InOrder(fs, first, second) || (f.num == first && f.typ == BYTES && exists j: nat :: Record(fs, j, second))
  {
    var gs := [f] + fs;
    if i: nat, j: nat :| i < j && Record(gs, i, first) && Record(gs, j, second) {
      assert Record(fs, j - 1, second);
      assert i > 0 ==> Record(fs, i - 1, first);
    }
    if i: nat, j: nat :| i < j && Record(fs, i, first) && Record(fs, j, second) {
      assert Record(gs, i + 1, first) && Record(gs, j + 1, second);
    }
    if j: nat :| f.num == first && f.typ == BYTES && Record(fs, j, second) {
      assert Record(gs, 0, first) && Record(gs, j + 1, second);
    }
  }

  /**
   Two ScanString calls in a row find a field of each number exactly when one
   with the second number comes after the first one with the first number.
   This is why CreateSubscription scans in a single pass.
   */
  lemma {:induction false} SequentialScansNeedOrder(fs: seq<Field>, first: int, second: int)
    requires first != second
    ensures Vals(fs, first, BYTES) != [] && Vals(After(fs, first, BYTES), second, BYTES) != []
       <==> InOrder(fs, first, second)
  {
    if fs != [] {
      var f, rest := fs[0], fs[1..];
      assert fs == [f] + rest;
      ValsOfCons(f, rest, first, BYTES);
      ValsNonempty(rest, second);
      InOrderOfCons(f, rest, first, second);
      SequentialScansNeedOrder(rest, first, second);
    }
  }

  /** It does happen: of field 2 followed by field 1, a scan for 1 and then for 2 misses the second. */
  lemma SwappedFieldsAreMissed(name: Bytes, topic: Bytes)
    ensures var fs := [StringField(2, topic), StringField(1, name)];
            Vals(fs, 1, BYTES) == [name] && Vals(fs, 2, BYTES) == [topic] && Vals(After(fs, 1, BYTES), 2, BYTES) == []
  {
    var b, a := StringField(2, topic), StringField(1, name);
    assert [b, a] == [b] + [a] && [a] == [a] + [];
    ValsOfCons(b, [a], 1, BYTES);
    ValsOfCons(b, [a], 2, BYTES);
    ValsOfCons(a, [], 1, BYTES);
    ValsOfCons(a, [], 2, BYTES);
  }

  lemma {:induction false} ValsNonempty(fs: seq<Field>, num: int)
    ensures Vals(fs, num, BYTES) != [] <==> exists i: nat :: Record(fs, i, num)
  {
    if fs != [] {
      var k := |fs| - 1;
      ValsNonempty(fs[..k], num);
      if i: nat :| Record(fs, i, num) {
        assert i < k ==> Record(fs[..k], i, num);
      }
      if i: nat :| Record(fs[..k], i, num) {
        assert Record(fs, i, num);
      }
      assert Record(fs, k, num) <==> fs[k].num == num && fs[k].typ == BYTES;
    }
  }
}
