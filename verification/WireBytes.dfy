/**
 The codec against the bytes of the specification: field numbers and wire types
 are spelled out as tag bytes, and each decoder and encoder is stated on them.
 */
module WireBytes {
  import opened Prelude
  import opened Varint
  import opened WireFormat
  import opened Wire
  import opened Messages

  // One field.

  lemma TagBytes(num: int, typ: int)
    requires 1 <= num < TWO_31 && 0 <= typ < 8
    ensures AppendTag(num, typ) == AppendVarint(num * 8 + typ)
    ensures num < 16 ==> AppendTag(num, typ) == [num * 8 + typ]
  {
    SmallTag(num, typ);
    assert (num * 8) % TWO_64 == num * 8;
  }

  lemma TagReads(num: int, typ: int, rest: Bytes)
    requires 1 <= num < TWO_31 && 0 <= typ < 8
    ensures ConsumeTag(AppendVarint(num * 8 + typ) + rest) == Some(Read(Tag(num, typ), |AppendVarint(num * 8 + typ)|))
    ensures (AppendVarint(num * 8 + typ) + rest)[|AppendVarint(num * 8 + typ)|..] == rest
  {
    TagBytes(num, typ);
    ValidTagRoundTrip(num, typ, rest);
  }

  /** Wire type 0 is a varint, whatever follows. */
  lemma VarintBytes(num: int, v: nat, rest: Bytes)
    requires 1 <= num < TWO_31 && v < TWO_64
    ensures var t := AppendVarint(num * 8 + 0);
            ConsumeField(t + (AppendVarint(v) + rest)) == Some(Read(Field(num, 0, AppendVarint(v)), |t| + |AppendVarint(v)|))
  {
    var t, b := AppendVarint(num * 8 + 0), AppendVarint(v) + rest;
    TagReads(num, 0, b);
    ConsumeInvertsAppend(v, rest);
    StepOver(t + b, Tag(num, 0), |t|, AppendVarint(v), |AppendVarint(v)|);
  }

  /** Wire type 1 takes eight bytes and wire type 5 four, as they stand. */
  lemma FixedBytes(num: int, val: Bytes, rest: Bytes)
    requires 1 <= num < TWO_31
    ensures var t := AppendVarint(num * 8 + 1);
            |val| == 8 ==> ConsumeField(t + (val + rest)) == Some(Read(Field(num, 1, val), |t| + 8))
    ensures var t := AppendVarint(num * 8 + 5);
            |val| == 4 ==> ConsumeField(t + (val + rest)) == Some(Read(Field(num, 5, val), |t| + 4))
  {
    var t, u := AppendVarint(num * 8 + 1), AppendVarint(num * 8 + 5);
    assert (val + rest)[..|val|] == val;
    if |val| == 8 {
      TagReads(num, 1, val + rest);
      StepOver(t + (val + rest), Tag(num, 1), |t|, val, 8);
    }
    if |val| == 4 {
      TagReads(num, 5, val + rest);
      StepOver(u + (val + rest), Tag(num, 5), |u|, val, 4);
    }
  }

  lemma RecordReads(v: Bytes, rest: Bytes)
    requires |v| <= MAX_LEN
    ensures ConsumeBytes(AppendVarint(|v|) + (v + rest)) == Some(Read(v, |AppendVarint(|v|)| + |v|))
  {
    var h := AppendVarint(|v|);
    ConsumeInvertsAppend(|v|, v + rest);
    assert (h + (v + rest))[|h|..|h| + |v|] == v;
  }

  /** Wire type 2 is a length and that many bytes, whatever follows. */
  lemma RecordBytes(num: int, v: Bytes, rest: Bytes)
    requires 1 <= num < TWO_31 && |v| <= MAX_LEN
    ensures var t, h := AppendVarint(num * 8 + 2), AppendVarint(|v|);
            ConsumeField(t + (h + (v + rest))) == Some(Read(Field(num, 2, v), |t| + (|h| + |v|)))
  {
    var t, h := AppendVarint(num * 8 + 2), AppendVarint(|v|);
    TagReads(num, 2, h + (v + rest));
    RecordReads(v, rest);
    StepOver(t + (h + (v + rest)), Tag(num, 2), |t|, v, |h| + |v|);
  }

  /** The other wire types stop the decoder, whatever follows. */
  lemma OtherTypes(num: int, typ: int, rest: Bytes)
    requires 1 <= num < TWO_31 && (typ == 3 || typ == 4 || typ == 6 || typ == 7)
    ensures ConsumeField(AppendVarint(num * 8 + typ) + rest) == None
  {
    TagReads(num, typ, rest);
    NoStep(AppendVarint(num * 8 + typ) + rest);
  }

  /** So do field number 0 and the numbers that an int32 cannot hold. */
  lemma OtherNumbers(tag: nat, rest: Bytes)
    requires tag < 8 || 8 * TWO_31 <= tag < TWO_64
    ensures ConsumeField(AppendVarint(tag) + rest) == None
  {
    ConsumeInvertsAppend(tag, rest);
  }

  /** Fixed widths are written low byte first. */
  lemma FixedIsLittleEndian(a: byte, b: byte, c: byte, d: byte)
    ensures AppendFixed(a + 0x100 * b + 0x1_0000 * c + 0x100_0000 * d, 4) == [a, b, c, d]
  {
    var v := [a, b, c, d];
    assert v[1..] == [b, c, d] && [b, c, d][1..] == [c, d] && [c, d][1..] == [d] && [d][1..] == [];
    assert FromFixed([d]) == d + 256 * FromFixed([]) && FromFixed([]) == 0;
    assert FromFixed([c, d]) == c + 256 * FromFixed([d]) == c + 0x100 * d;
    assert FromFixed([b, c, d]) == b + 256 * FromFixed([c, d]) == b + 0x100 * c + 0x1_0000 * d;
    FixedRoundTrip(v);
  }

  // Records and varints behind a tag byte.

  /** A tag byte, a length, and the bytes. */
  function Tagged(tag: byte, v: Bytes): Bytes { [tag] + (AppendVarint(|v|) + v) }

  function TaggedAll(tag: byte, vs: seq<Bytes>): Bytes {
    if vs == [] then [] else TaggedAll(tag, vs[..|vs| - 1]) + Tagged(tag, vs[|vs| - 1])
  }

  function Number(tag: byte, v: nat): Bytes { [tag] + AppendVarint(v) }

  lemma TaggedIsField(num: nat, v: Bytes)
    requires 1 <= num < 16 && |v| <= MAX_LEN
    ensures IsField(Tagged(num * 8 + 2, v), Field(num, 2, v))
  {
    TagBytes(num, 2);
    RecordBytes(num, v, []);
    assert v + [] == v;
  }

  lemma NumberIsField(num: nat, v: nat)
    requires 1 <= num < 16 && v < TWO_64
    ensures IsField(Number(num * 8, v), Field(num, 0, AppendVarint(v)))
  {
    TagBytes(num, 0);
    VarintBytes(num, v, []);
    assert AppendVarint(v) + [] == AppendVarint(v);
  }

  lemma FoldOne<M>(step: (M, Field) -> M, m: M, f: Field)
    ensures Fold(step, m, [f]) == step(m, f)
  {
    assert [f][1..] == [];
    assert Fold(step, step(m, f), []) == step(m, f);
  }

  // The decoders, one field at a time: what each does with a further field of any number and type.

  lemma EntryDecodes(a: Bytes, p: Bytes, f: Field)
    requires WellFormed(a) && IsField(p, f)
    ensures EntryOf([]) == Entry([], [])
    ensures var m := EntryOf(Fields(a));
            EntryOf(Fields(a + p))
            == if (f.num, f.typ) == (1, 2) then m.(key := f.val)
               else if (f.num, f.typ) == (2, 2) then m.(value := f.val)
               else m
  {
    FieldsOfSnoc(a, p, f);
    EntryMerge(Fields(a), [f]);
    FoldOne(EntryStep, EntryOf(Fields(a)), f);
  }

  lemma PubsubDecodes(a: Bytes, p: Bytes, f: Field)
    requires WellFormed(a) && IsField(p, f)
    ensures PubsubOf([]) == PubsubMessage([], map[], [])
    ensures var m, e := PubsubOf(Fields(a)), EntryOf(Fields(f.val));
            PubsubOf(Fields(a + p))
            == if (f.num, f.typ) == (1, 2) then m.(data := f.val)
               else if (f.num, f.typ) == (2, 2) then m.(attributes := m.attributes[e.key := e.value])
               else if (f.num, f.typ) == (3, 2) then m.(messageId := f.val)
               else m
  {
    FieldsOfSnoc(a, p, f);
    PubsubMerge(Fields(a), [f]);
    FoldOne(PubsubStep, PubsubOf(Fields(a)), f);
  }

  lemma PublishDecodes(a: Bytes, p: Bytes, f: Field)
    requires WellFormed(a) && IsField(p, f)
    ensures PublishOf([]) == PublishRequest([], [])
    ensures var m := PublishOf(Fields(a));
            PublishOf(Fields(a + p))
            == if (f.num, f.typ) == (1, 2) then m.(topic := f.val)
               else if (f.num, f.typ) == (2, 2) then m.(messages := m.messages + [PubsubOf(Fields(f.val))])
               else m
  {
    FieldsOfSnoc(a, p, f);
    PublishMerge(Fields(a), [f]);
    FoldOne(PublishStep, PublishOf(Fields(a)), f);
  }

  lemma PullAppends(a: Bytes, p: Bytes, f: Field)
    requires WellFormed(a) && IsField(p, f)
    ensures PullOf(Fields(a + p)) == PullStep(PullOf(Fields(a)), f)
  {
    FieldsOfSnoc(a, p, f);
    PullMerge(Fields(a), [f]);
    FoldOne(PullStep, PullOf(Fields(a)), f);
  }

  lemma PullOfNothing()
    ensures PullOf([]) == PullRequest([], 0, false)
  {
  }

  lemma PullDecodes(a: Bytes, p: Bytes, f: Field)
    requires WellFormed(a) && IsField(p, f)
    ensures var m := PullOf(Fields(a));
            PullOf(Fields(a + p))
            == if (f.num, f.typ) == (1, 2) then m.(subscription := f.val)
               else if (f.num, f.typ) == (2, 0) then m.(maxMessages := ToInt32(VarintOf(f.val)))
               else if (f.num, f.typ) == (3, 0) then m.(returnImmediately := VarintOf(f.val) != 0)
               else m
  {
    PullAppends(a, p, f);
  }

  lemma AckDecodes(a: Bytes, p: Bytes, f: Field)
    requires WellFormed(a) && IsField(p, f)
    ensures AckOf([]) == AckRequest([], [])
    ensures var m := AckOf(Fields(a));
            AckOf(Fields(a + p))
            == if (f.num, f.typ) == (1, 2) then m.(subscription := f.val)
               else if (f.num, f.typ) == (2, 2) then m.(ackIds := m.ackIds + [f.val])
               else m
  {
    FieldsOfSnoc(a, p, f);
    AckMerge(Fields(a), [f]);
    FoldOne(AckStep, AckOf(Fields(a)), f);
  }

  lemma SubscriptionDecodes(a: Bytes, p: Bytes, f: Field)
    requires WellFormed(a) && IsField(p, f)
    ensures SubscriptionOf([]) == SubscriptionMsg([], [])
    ensures var m := SubscriptionOf(Fields(a));
            SubscriptionOf(Fields(a + p))
            == if f.num == 1 then m.(name := f.val) else if f.num == 2 then m.(topic := f.val) else m
  {
    FieldsOfSnoc(a, p, f);
    SubscriptionMerge(Fields(a), [f]);
    FoldOne(SubscriptionStep, SubscriptionOf(Fields(a)), f);
  }

  /** The number of a pull request is the varint behind the byte 16, cut to an int32, wherever it stands. */
  lemma PullNumberDecodes(a: Bytes, n: nat)
    requires WellFormed(a) && n < TWO_64
    ensures PullOf(Fields(a + ([16] + AppendVarint(n)))) == PullOf(Fields(a)).(maxMessages := ToInt32(n))
  {
    NumberIsField(2, n);
    PullDecodes(a, Number(16, n), Field(2, 0, AppendVarint(n)));
    VarintOfAppend(n);
  }

  /** What a client sends for five messages at most. */
  lemma PullOfFive()
    ensures PullOf(Fields([16, 5])) == PullRequest([], 5, false)
  {
    PullNumberDecodes([], 5);
    PullOfNothing();
    assert AppendVarint(5) == [5] && [] + ([16] + [5]) == [16, 5] && Fields([]) == [];
  }

  // The encoders, byte by byte.

  lemma RecordIsTagged(num: nat, v: Bytes)
    requires 1 <= num < 16 && |v| <= MAX_LEN
    ensures FieldBytes(StringField(num, v)) == Tagged(num * 8 + 2, v)
  {
    TagBytes(num, 2);
    assert |v| % TWO_64 == |v|;
  }

  lemma VarintIsNumber(num: nat, v: nat)
    requires 1 <= num < 16
    ensures FieldBytes(VarintField(num, v)) == Number(num * 8, v)
  {
    TagBytes(num, 0);
  }

  lemma FixedIsTagged(num: nat, v: nat)
    requires 1 <= num < 16
    ensures FieldBytes(FixedField(num, FIXED64, v, 8)) == [num * 8 + 1] + AppendFixed(v, 8)
    ensures FieldBytes(FixedField(num, FIXED32, v, 4)) == [num * 8 + 5] + AppendFixed(v, 4)
  {
    TagBytes(num, 1);
    TagBytes(num, 5);
  }

  lemma {:induction false} StringsAreTagged(num: nat, vs: seq<Bytes>)
    requires 1 <= num < 16 && forall i :: 0 <= i < |vs| ==> |vs[i]| <= MAX_LEN
    ensures Encode(StringFields(num, vs)) == TaggedAll(num * 8 + 2, vs)
  {
    if vs != [] {
      var k := |vs| - 1;
      var init, f := StringFields(num, vs[..k]), StringField(num, vs[k]);
      calc {
        Encode(StringFields(num, vs));
        { assert StringFields(num, vs) == init + [f]; EncodeSnoc(init, f); }
        Encode(init) + FieldBytes(f);
        { StringsAreTagged(num, vs[..k]); RecordIsTagged(num, vs[k]); }
        TaggedAll(num * 8 + 2, vs[..k]) + Tagged(num * 8 + 2, vs[k]);
      }
    }
  }

  lemma EncodeOne(f: Field)
    ensures Encode([f]) == FieldBytes(f)
  {
    EncodeSnoc([], f);
    assert [] + [f] == [f] && [] + FieldBytes(f) == FieldBytes(f);
  }

  lemma EncodeThree(a: seq<Field>, b: seq<Field>, c: seq<Field>)
    ensures Encode(a + b + c) == Encode(a) + Encode(b) + Encode(c)
  {
    EncodeOfConcat(a + b, c);
    EncodeOfConcat(a, b);
  }

  /** A map entry is written as 10 and the key, 18 and the value. */
  lemma EntryEncodes(key: Bytes, value: Bytes)
    requires |key| <= MAX_LEN && |value| <= MAX_LEN
    ensures EntryBytes(key, value) == Tagged(10, key) + Tagged(18, value)
  {
    EncodeOne(StringField(1, key));
    EncodeSnoc([StringField(1, key)], StringField(2, value));
    RecordIsTagged(1, key);
    RecordIsTagged(2, value);
  }

  /** Nothing when empty, otherwise the tagged bytes. */
  function TaggedUnlessEmpty(tag: byte, v: Bytes): Bytes { if v == [] then [] else Tagged(tag, v) }

  lemma OptionalEncodes(num: nat, v: Bytes)
    requires 1 <= num < 16 && |v| <= MAX_LEN
    ensures Encode(Optional(num, v)) == TaggedUnlessEmpty(num * 8 + 2, v)
  {
    if v != [] {
      EncodeOne(StringField(num, v));
      RecordIsTagged(num, v);
    }
  }

  lemma MessageEncodes(data: Bytes, entries: seq<Bytes>, id: Bytes)
    requires |data| <= MAX_LEN && |id| <= MAX_LEN && forall i :: 0 <= i < |entries| ==> |entries[i]| <= MAX_LEN
    ensures Encode(Optional(1, data) + StringFields(2, entries) + Optional(3, id))
         == TaggedUnlessEmpty(10, data) + TaggedAll(18, entries) + TaggedUnlessEmpty(26, id)
  {
    EncodeThree(Optional(1, data), StringFields(2, entries), Optional(3, id));
    OptionalEncodes(1, data);
    OptionalEncodes(3, id);
    StringsAreTagged(2, entries);
  }

  /** A message is written as 10 and the data, 18 and each entry, 26 and the id. */
  lemma PubsubEncodes(m: PubsubMessage, order: seq<Bytes>)
    requires IsOrder(order, m.attributes) && |m.data| <= MAX_LEN && |m.messageId| <= MAX_LEN
    requires forall i :: 0 <= i < |order| ==> |Entries(m.attributes, order)[i]| <= MAX_LEN
    ensures Encode(PubsubFields(m, order))
         == TaggedUnlessEmpty(10, m.data) + TaggedAll(18, Entries(m.attributes, order)) + TaggedUnlessEmpty(26, m.messageId)
  {
    MessageEncodes(m.data, Entries(m.attributes, order), m.messageId);
  }

  /** A publish request is written as 10 and the topic, 18 and each message. */
  lemma PublishEncodes(topic: Bytes, bodies: seq<Bytes>)
    requires |topic| <= MAX_LEN && forall i :: 0 <= i < |bodies| ==> |bodies[i]| <= MAX_LEN
    ensures Encode(PublishFields(topic, bodies)) == Tagged(10, topic) + TaggedAll(18, bodies)
  {
    EncodeOfConcat([StringField(1, topic)], StringFields(2, bodies));
    EncodeOne(StringField(1, topic));
    RecordIsTagged(1, topic);
    StringsAreTagged(2, bodies);
  }

  /** An acknowledge request is written as 10 and the subscription, 18 and each ack id. */
  lemma AckEncodes(m: AckRequest)
    requires |m.subscription| <= MAX_LEN && forall i :: 0 <= i < |m.ackIds| ==> |m.ackIds[i]| <= MAX_LEN
    ensures Encode(AckFields(m)) == Tagged(10, m.subscription) + TaggedAll(18, m.ackIds)
  {
    assert AckFields(m) == PublishFields(m.subscription, m.ackIds);
    PublishEncodes(m.subscription, m.ackIds);
  }

  /** A pull request is written as 10 and the subscription, 16 and the number in 64 bits, 24 and 1 or 0. */
  lemma PullEncodes(m: PullRequest)
    requires |m.subscription| <= MAX_LEN
    ensures Encode(PullFields(m))
         == Tagged(10, m.subscription)
            + Number(16, if m.maxMessages < 0 then m.maxMessages + TWO_64 else m.maxMessages)
            + [24, if m.returnImmediately then 1 else 0]
  {
    var u, w := ToUint64(m.maxMessages), if m.returnImmediately then 1 else 0;
    RequestEncodes(m.subscription, u, w);
    assert AppendVarint(w) == [w] && Number(24, w) == [24, w];
  }

  lemma RequestEncodes(subscription: Bytes, u: nat, w: nat)
    requires |subscription| <= MAX_LEN
    ensures Encode([StringField(1, subscription)] + [VarintField(2, u)] + [VarintField(3, w)])
         == Tagged(10, subscription) + Number(16, u) + Number(24, w)
  {
    EncodeThree([StringField(1, subscription)], [VarintField(2, u)], [VarintField(3, w)]);
    EncodeOne(StringField(1, subscription));
    EncodeOne(VarintField(2, u));
    EncodeOne(VarintField(3, w));
    RecordIsTagged(1, subscription);
    VarintIsNumber(2, u);
    VarintIsNumber(3, w);
  }

  /** A subscription is written as 10 and the name, 18 and the topic. */
  lemma SubscriptionEncodes(m: SubscriptionMsg)
    requires |m.name| <= MAX_LEN && |m.topic| <= MAX_LEN
    ensures Encode(SubscriptionFields(m)) == Tagged(10, m.name) + Tagged(18, m.topic)
  {
    EntryEncodes(m.name, m.topic);
    assert SubscriptionFields(m) == [StringField(1, m.name)] + [StringField(2, m.topic)];
  }
}
