/** What the codecs promise together: round trips, and independence of field order and of unknown fields. */
module CodecTheorems {
  import opened Prelude
  import opened Varint
  import opened WireFormat
  import opened Wire
  import opened Messages

  // Round trips.

  lemma {:induction false} EncodeBounds(fs: seq<Field>, i: nat)
    requires i < |fs|
    ensures |FieldBytes(fs[i])| <= |Encode(fs)|
  {
    if i < |fs| - 1 {
      EncodeBounds(fs[..|fs| - 1], i);
    }
  }

  lemma {:induction false} ValsOfStrings(num: int, vals: seq<Bytes>, n: int, typ: int)
    ensures Vals(StringFields(num, vals), n, typ) == if n == num && typ == BYTES then vals else []
  {
    if vals != [] {
      var k := |vals| - 1;
      ValsOfStrings(num, vals[..k], n, typ);
      assert StringFields(num, vals)[..k] == StringFields(num, vals[..k]);
      assert vals == vals[..k] + [vals[k]];
    }
  }

  lemma EntryRoundTrip(key: Bytes, value: Bytes)
    requires |EntryBytes(key, value)| <= MAX_LEN
    ensures EntryOf(Fields(EntryBytes(key, value))) == Entry(key, value)
  {
    var k, v := StringField(1, key), StringField(2, value);
    FieldsInvertEncode([k] + [v]);
    ValsOfSnoc([k], v, 1, BYTES);
    ValsOfSnoc([k], v, 2, BYTES);
    ValsOfSnoc([], k, 1, BYTES);
    ValsOfSnoc([], k, 2, BYTES);
    assert [] + [k] == [k];
  }

  ghost predicate IsEntryOf(body: Bytes, attrs: map<Bytes, Bytes>, key: Bytes) {
    key in attrs && EntryOf(Fields(body)) == Entry(key, attrs[key])
  }

  /** Whatever the order of enumeration, the entries rebuild the map. */
  lemma {:induction false} EntriesRebuildMap(attrs: map<Bytes, Bytes>, order: seq<Bytes>, bodies: seq<Bytes>)
    requires |bodies| == |order| && forall i :: 0 <= i < |order| ==> IsEntryOf(bodies[i], attrs, order[i])
    ensures forall k :: k in order ==> k in attrs
    ensures AttrsOf(bodies) == map k | k in order :: attrs[k]
  {
    forall i | 0 <= i < |order| ensures order[i] in attrs {
      assert IsEntryOf(bodies[i], attrs, order[i]);
    }
    if order != [] {
      var n := |order| - 1;
      EntriesRebuildMap(attrs, order[..n], bodies[..n]);
      assert bodies == bodies[..n] + [bodies[n]] && IsEntryOf(bodies[n], attrs, order[n]);
      AttrsOfSnoc(bodies[..n], bodies[n]);
      AddKey(attrs, order);
    }
  }

  lemma AddKey(attrs: map<Bytes, Bytes>, order: seq<Bytes>)
    requires order != [] && forall i :: 0 <= i < |order| ==> order[i] in attrs
    ensures var n := |order| - 1;
            (map k | k in order :: attrs[k]) == (map k | k in order[..n] :: attrs[k])[order[n] := attrs[order[n]]]
  {
    assert order == order[..|order| - 1] + [order[|order| - 1]];
  }

  lemma ValsOfOptional(num: int, v: Bytes, n: int)
    ensures Vals(Optional(num, v), n, BYTES) == if n == num && v != [] then [v] else []
  {
    ValsOfSnoc([], StringField(num, v), n, BYTES);
    assert [] + [StringField(num, v)] == [StringField(num, v)];
  }

  lemma ValsOfPubsubField(m: PubsubMessage, order: seq<Bytes>, n: int)
    requires IsOrder(order, m.attributes)
    ensures Vals(PubsubFields(m, order), n, BYTES)
         == Vals(Optional(1, m.data), n, BYTES)
            + (if n == 2 then Entries(m.attributes, order) else [])
            + Vals(Optional(3, m.messageId), n, BYTES)
  {
    var d, es, i := Optional(1, m.data), StringFields(2, Entries(m.attributes, order)), Optional(3, m.messageId);
    ValsOfConcat(d + es, i, n, BYTES);
    ValsOfConcat(d, es, n, BYTES);
    ValsOfStrings(2, Entries(m.attributes, order), n, BYTES);
  }

  lemma ValsOfPubsubFields(m: PubsubMessage, order: seq<Bytes>)
    requires IsOrder(order, m.attributes)
    ensures var fs := PubsubFields(m, order);
            && Last(Vals(fs, 1, BYTES), []) == m.data
            && Vals(fs, 2, BYTES) == Entries(m.attributes, order)
            && Last(Vals(fs, 3, BYTES), []) == m.messageId
  {
    ValsOfPubsubField(m, order, 1); ValsOfPubsubField(m, order, 2); ValsOfPubsubField(m, order, 3);
    ValsOfOptional(1, m.data, 1); ValsOfOptional(1, m.data, 2); ValsOfOptional(1, m.data, 3);
    ValsOfOptional(3, m.messageId, 1); ValsOfOptional(3, m.messageId, 2); ValsOfOptional(3, m.messageId, 3);
  }

  ghost predicate Records(fs: seq<Field>) {
    forall i :: 0 <= i < |fs| ==> 1 <= fs[i].num <= 3 && fs[i].typ == BYTES
  }

  lemma RecordFieldsAreCanonical(fs: seq<Field>)
    requires Records(fs) && |Encode(fs)| <= MAX_LEN
    ensures Fields(Encode(fs)) == fs
    ensures forall i :: 0 <= i < |fs| ==> |fs[i].val| <= |Encode(fs)|
  {
    FieldsInvertEncode(fs);
    forall i | 0 <= i < |fs| ensures |fs[i].val| <= |Encode(fs)| {
      EncodeBounds(fs, i);
    }
  }

  lemma BodiesAmongFieldsFit(head: seq<Field>, bodies: seq<Bytes>, tail: seq<Field>)
    requires Records(head) && Records(tail)
    requires |Encode(head + StringFields(2, bodies) + tail)| <= MAX_LEN
    ensures Fields(Encode(head + StringFields(2, bodies) + tail)) == head + StringFields(2, bodies) + tail
    ensures forall i :: 0 <= i < |bodies| ==> |bodies[i]| <= MAX_LEN
  {
    var fs := head + StringFields(2, bodies) + tail;
    RecordFieldsAreCanonical(fs);
    forall i | 0 <= i < |bodies| ensures |bodies[i]| <= MAX_LEN {
      assert fs[|head| + i] == StringField(2, bodies[i]);
    }
  }

  /** A message survives its encoding for every enumeration of its attributes. */
  lemma PubsubRoundTrip(m: PubsubMessage, b: Bytes)
    requires PubsubEncoding(m, b) && |b| <= MAX_LEN
    ensures PubsubOf(Fields(b)) == m
  {
    var order :| IsOrder(order, m.attributes) && b == Encode(PubsubFields(m, order));
    PubsubRoundTripIn(m, order);
  }

  lemma PubsubFieldsFit(m: PubsubMessage, order: seq<Bytes>)
    requires IsOrder(order, m.attributes) && |Encode(PubsubFields(m, order))| <= MAX_LEN
    ensures Fields(Encode(PubsubFields(m, order))) == PubsubFields(m, order)
    ensures forall i :: 0 <= i < |order| ==> |Entries(m.attributes, order)[i]| <= MAX_LEN
  {
    var head, es, tail := Optional(1, m.data), Entries(m.attributes, order), Optional(3, m.messageId);
    assert Records(head) && Records(tail) && |es| == |order|;
    var fs := head + StringFields(2, es) + tail;
    assert PubsubFields(m, order) == fs;
    BodiesAmongFieldsFit(head, es, tail);
  }

  lemma PubsubRoundTripIn(m: PubsubMessage, order: seq<Bytes>)
    requires IsOrder(order, m.attributes) && |Encode(PubsubFields(m, order))| <= MAX_LEN
    ensures PubsubOf(Fields(Encode(PubsubFields(m, order)))) == m
  {
    PubsubFieldsFit(m, order);
    RebuildMessage(m, order);
  }

  lemma RebuildMessage(m: PubsubMessage, order: seq<Bytes>)
    requires IsOrder(order, m.attributes)
    requires forall i :: 0 <= i < |order| ==> |Entries(m.attributes, order)[i]| <= MAX_LEN
    ensures PubsubOf(PubsubFields(m, order)) == m
  {
    forall i | 0 <= i < |order|
      ensures IsEntryOf(Entries(m.attributes, order)[i], m.attributes, order[i])
    {
      assert Entries(m.attributes, order)[i] == EntryBytes(order[i], m.attributes[order[i]]);
      EntryRoundTrip(order[i], m.attributes[order[i]]);
    }
    EntriesRebuildMap(m.attributes, order, Entries(m.attributes, order));
    ValsOfPubsubFields(m, order);
  }

  lemma PubsubsRoundTrip(ms: seq<PubsubMessage>, bodies: seq<Bytes>)
    requires PubsubEncodings(ms, bodies)
    requires forall i :: 0 <= i < |bodies| ==> |bodies[i]| <= MAX_LEN
    ensures PubsubsOf(bodies) == ms
  {
    forall i | 0 <= i < |bodies| ensures PubsubOf(Fields(bodies[i])) == ms[i] {
      PubsubRoundTrip(ms[i], bodies[i]);
    }
  }

  /**
   The nested round trip: a publish request survives its encoding, for every
   list of messages and every enumeration of every message's attributes.
   */
  lemma PublishRoundTrip(r: PublishRequest, b: Bytes)
    requires PublishEncoding(r, b) && |b| <= MAX_LEN
    ensures PublishOf(Fields(b)) == r
  {
    var bodies :| PubsubEncodings(r.messages, bodies) && b == Encode(PublishFields(r.topic, bodies));
    BodiesFit(r.topic, bodies);
    PubsubsRoundTrip(r.messages, bodies);
    ValsOfPublishFields(r.topic, bodies);
  }

  lemma BodiesFit(topic: Bytes, bodies: seq<Bytes>)
    requires |Encode(PublishFields(topic, bodies))| <= MAX_LEN
    ensures Fields(Encode(PublishFields(topic, bodies))) == PublishFields(topic, bodies)
    ensures forall i :: 0 <= i < |bodies| ==> |bodies[i]| <= MAX_LEN
  {
    var head := [StringField(1, topic)];
    assert PublishFields(topic, bodies) == head + StringFields(2, bodies) + [];
    BodiesAmongFieldsFit(head, bodies, []);
  }

  lemma ValsOfPublishFields(topic: Bytes, bodies: seq<Bytes>)
    ensures var fs := PublishFields(topic, bodies); Vals(fs, 1, BYTES) == [topic] && Vals(fs, 2, BYTES) == bodies
  {
    ValsOfStrings(2, bodies, 1, BYTES);
    ValsOfStrings(2, bodies, 2, BYTES);
    ValsOfCons(StringField(1, topic), StringFields(2, bodies), 1, BYTES);
    ValsOfCons(StringField(1, topic), StringFields(2, bodies), 2, BYTES);
    assert [topic] + [] == [topic];
  }

  lemma AckRoundTrip(m: AckRequest)
    requires |Encode(AckFields(m))| <= MAX_LEN
    ensures AckOf(Fields(Encode(AckFields(m)))) == m
  {
    assert AckFields(m) == PublishFields(m.subscription, m.ackIds);
    BodiesFit(m.subscription, m.ackIds);
    ValsOfPublishFields(m.subscription, m.ackIds);
  }

  /** Every int32, negative ones included, and every bool survive a pull request. */
  lemma PullRoundTrip(m: PullRequest)
    requires |Encode(PullFields(m))| <= MAX_LEN
    ensures PullOf(Fields(Encode(PullFields(m)))) == m
  {
    var u, w := ToUint64(m.maxMessages), if m.returnImmediately then 1 else 0;
    var a, b, c := StringField(1, m.subscription), VarintField(2, u), VarintField(3, w);
    VarintFieldIsCanonical(2, u);
    VarintFieldIsCanonical(3, w);
    FieldsInvertEncode([a] + [b] + [c]);
    Int32SurvivesSignExtension(m.maxMessages);
    ThreeFields(a, b, c);
  }

  lemma ThreeFields(a: Field, b: Field, c: Field)
    requires (a.num, a.typ) == (1, BYTES) && (b.num, b.typ) == (2, VARINT) && (c.num, c.typ) == (3, VARINT)
    ensures var fs := [a] + [b] + [c];
            Vals(fs, 1, BYTES) == [a.val] && Vals(fs, 2, VARINT) == [b.val] && Vals(fs, 3, VARINT) == [c.val]
  {
    assert [] + [a] == [a];
    assert [b.val] == [] + [b.val] && [a.val] == [] + [a.val] && [c.val] == [] + [c.val];
    ValsOfSnoc([], a, 1, BYTES); ValsOfSnoc([], a, 2, VARINT); ValsOfSnoc([], a, 3, VARINT);
    ValsOfSnoc([a], b, 1, BYTES); ValsOfSnoc([a], b, 2, VARINT); ValsOfSnoc([a], b, 3, VARINT);
    ValsOfSnoc([a] + [b], c, 1, BYTES); ValsOfSnoc([a] + [b], c, 2, VARINT); ValsOfSnoc([a] + [b], c, 3, VARINT);
  }

  /** The single-pass scan finds both fields of an encoded subscription. */
  lemma SubscriptionRoundTrip(m: SubscriptionMsg)
    requires |Encode(SubscriptionFields(m))| <= MAX_LEN
    ensures SubscriptionOf(Fields(Encode(SubscriptionFields(m)))) == m
  {
    var a, b := StringField(1, m.name), StringField(2, m.topic);
    FieldsInvertEncode([a] + [b]);
    TwoFields(a, b);
  }

  lemma TwoFields(a: Field, b: Field)
    requires a.num == 1 && b.num == 2
    ensures AnyVals([a] + [b], 1) == [a.val] && AnyVals([a] + [b], 2) == [b.val]
  {
    assert ([a] + [b])[..1] == [a] && [a][..0] == [];
    assert AnyVals([a], 1) == [a.val] && AnyVals([a], 2) == [] && [] + [b.val] == [b.val];
  }

  /**
   ScanVarint returns the int64 that Int64 wrote, for every value, behind any
   fields that are not varints of this number and in front of anything.
   */
  lemma ScanReturnsInt64(a: Bytes, num: int, v: int, b: Bytes)
    requires 1 <= num < TWO_31 && -TWO_63 <= v < TWO_63
    requires WellFormed(a) && Vals(Fields(a), num, VARINT) == []
    ensures var vs := Vals(Fields(a + (FieldBytes(VarintField(num, ToUint64(v))) + b)), num, VARINT);
            vs != [] && ToInt64(VarintOf(vs[0])) == v
  {
    var f := VarintField(num, ToUint64(v));
    VarintFieldIsCanonical(num, ToUint64(v));
    ConsumeInvertsAppend(ToUint64(v), []);
    FieldRoundTrip(f);
    OneField(FieldBytes(f), f);
    FieldsOfConcat(a, FieldBytes(f) + b);
    FieldsOfConcat(FieldBytes(f), b);
    ValsOfConcat(Fields(a), [f] + Fields(b), num, VARINT);
    ValsOfCons(f, Fields(b), num, VARINT);
    VarintOfAppend(ToUint64(v));
    Int64SurvivesUint64(v);
  }

  // Field order and unknown fields.

  /** The fields with this number, in order. */
  function WithNumber(fs: seq<Field>, num: int): seq<Field> {
    if fs == [] then []
    else
      var init := WithNumber(fs[..|fs| - 1], num);
      if fs[|fs| - 1].num == num then init + [fs[|fs| - 1]] else init
  }

  /**
   The two lists agree on the modelled numbers: same-numbered fields come in
   the same order, but fields of different numbers may be interleaved
   differently and any fields of other numbers may be there or not.
   */
  ghost predicate SameNumbered(fs: seq<Field>, gs: seq<Field>, nums: set<int>) {
    forall num :: num in nums ==> WithNumber(fs, num) == WithNumber(gs, num)
  }

  lemma {:induction false} ValsComeFromNumber(fs: seq<Field>, num: int, typ: int)
    ensures Vals(fs, num, typ) == Vals(WithNumber(fs, num), num, typ)
    ensures AnyVals(fs, num) == AnyVals(WithNumber(fs, num), num)
  {
    if fs != [] {
      var k := |fs| - 1;
      ValsComeFromNumber(fs[..k], num, typ);
      var init := WithNumber(fs[..k], num);
      assert (init + [fs[k]])[..|init|] == init;
    }
  }

  lemma SameNumberedVals(fs: seq<Field>, gs: seq<Field>, nums: set<int>)
    requires SameNumbered(fs, gs, nums)
    ensures forall num, typ :: num in nums ==> Vals(fs, num, typ) == Vals(gs, num, typ)
    ensures forall num :: num in nums ==> AnyVals(fs, num) == AnyVals(gs, num)
  {
    forall num, typ | num in nums
      ensures Vals(fs, num, typ) == Vals(gs, num, typ)
    {
      ValsComeFromNumber(fs, num, typ);
      ValsComeFromNumber(gs, num, typ);
    }
    forall num | num in nums
      ensures AnyVals(fs, num) == AnyVals(gs, num)
    {
      ValsComeFromNumber(fs, num, BYTES);
      ValsComeFromNumber(gs, num, BYTES);
    }
  }

  /** No loop decoder can tell two lists apart that agree on the numbers it models. */
  lemma DecodersIgnoreOrder(fs: seq<Field>, gs: seq<Field>)
    ensures SameNumbered(fs, gs, {1, 2}) ==>
              && PublishOf(fs) == PublishOf(gs)
              && AckOf(fs) == AckOf(gs)
              && SubscriptionOf(fs) == SubscriptionOf(gs)
              && EntryOf(fs) == EntryOf(gs)
    ensures SameNumbered(fs, gs, {1, 2, 3}) ==> PubsubOf(fs) == PubsubOf(gs) && PullOf(fs) == PullOf(gs)
  {
    if SameNumbered(fs, gs, {1, 2}) {
      SameNumberedVals(fs, gs, {1, 2});
    }
    if SameNumbered(fs, gs, {1, 2, 3}) {
      SameNumberedVals(fs, gs, {1, 2, 3});
    }
  }

  /**
   On bytes: encodings whose fields are the same for each modelled number, in
   the same order within each number, decode alike, however the fields are
   permuted and whatever others are among them.
   */
  lemma ReorderedEncodingsDecodeAlike(fs: seq<Field>, gs: seq<Field>)
    requires |Encode(fs)| <= MAX_LEN && |Encode(gs)| <= MAX_LEN
    requires forall i :: 0 <= i < |fs| ==> Canonical(fs[i])
    requires forall i :: 0 <= i < |gs| ==> Canonical(gs[i])
    requires SameNumbered(fs, gs, {1, 2, 3})
    ensures var a, b := Fields(Encode(fs)), Fields(Encode(gs));
            && PublishOf(a) == PublishOf(b) && PubsubOf(a) == PubsubOf(b) && PullOf(a) == PullOf(b)
            && AckOf(a) == AckOf(b) && SubscriptionOf(a) == SubscriptionOf(b) && EntryOf(a) == EntryOf(b)
  {
    FieldsInvertEncode(fs);
    FieldsInvertEncode(gs);
    assert SameNumbered(fs, gs, {1, 2});
    DecodersIgnoreOrder(fs, gs);
  }

  lemma {:induction false} WithNumberOfConcat(a: seq<Field>, b: seq<Field>, num: int)
    ensures WithNumber(a + b, num) == WithNumber(a, num) + WithNumber(b, num)
  {
    if b == [] {
      assert a + b == a;
    } else {
      assert (a + b)[..|a + b| - 1] == a + b[..|b| - 1];
      WithNumberOfConcat(a, b[..|b| - 1], num);
    }
  }

  lemma {:induction false} WithNumberAbsent(fs: seq<Field>, num: int)
    requires forall i :: 0 <= i < |fs| ==> fs[i].num != num
    ensures WithNumber(fs, num) == []
  {
    if fs != [] {
      WithNumberAbsent(fs[..|fs| - 1], num);
    }
  }

  lemma InsertUnknown(fa: seq<Field>, fu: seq<Field>, fb: seq<Field>, num: int)
    requires forall i :: 0 <= i < |fu| ==> fu[i].num != num
    ensures WithNumber(fa + (fu + fb), num) == WithNumber(fa + fb, num)
  {
    WithNumberOfConcat(fa, fu + fb, num);
    WithNumberOfConcat(fu, fb, num);
    WithNumberOfConcat(fa, fb, num);
    WithNumberAbsent(fu, num);
  }

  /**
   On bytes: well-formed fields with unmodelled numbers, inserted after any
   whole number of fields, change nothing; what follows may even be garbage.
   */
  lemma UnknownFieldsAreInvisible(a: Bytes, u: Bytes, b: Bytes, nums: set<int>)
    requires WellFormed(a) && WellFormed(u)
    requires forall i :: 0 <= i < |Fields(u)| ==> Fields(u)[i].num !in nums
    ensures SameNumbered(Fields(a + (u + b)), Fields(a + b), nums)
  {
    FieldsOfConcat(a, u + b);
    FieldsOfConcat(u, b);
    FieldsOfConcat(a, b);
    forall num | num in nums
      ensures WithNumber(Fields(a + (u + b)), num) == WithNumber(Fields(a + b), num)
    {
      InsertUnknown(Fields(a), Fields(u), Fields(b), num);
    }
  }

  lemma WithNumberOfFour(fa: seq<Field>, fp: seq<Field>, fq: seq<Field>, fb: seq<Field>, num: int)
    ensures WithNumber(fa + (fp + (fq + fb)), num)
         == WithNumber(fa, num) + (WithNumber(fp, num) + (WithNumber(fq, num) + WithNumber(fb, num)))
  {
    WithNumberOfConcat(fa, fp + (fq + fb), num);
    WithNumberOfConcat(fp, fq + fb, num);
    WithNumberOfConcat(fq, fb, num);
  }

  lemma EmptyMoves<T>(p: seq<T>, q: seq<T>, b: seq<T>)
    requires p == [] || q == []
    ensures p + (q + b) == q + (p + b)
  {
  }

  lemma Exchange(fa: seq<Field>, fp: seq<Field>, fq: seq<Field>, fb: seq<Field>, num: int)
    requires forall i, j :: 0 <= i < |fp| && 0 <= j < |fq| ==> fp[i].num != fq[j].num
    ensures WithNumber(fa + (fp + (fq + fb)), num) == WithNumber(fa + (fq + (fp + fb)), num)
  {
    WithNumberOfFour(fa, fp, fq, fb, num);
    WithNumberOfFour(fa, fq, fp, fb, num);
    if i :| 0 <= i < |fp| && fp[i].num == num {
      WithNumberAbsent(fq, num);
    } else {
      WithNumberAbsent(fp, num);
    }
    EmptyMoves(WithNumber(fp, num), WithNumber(fq, num), WithNumber(fb, num));
  }

  /** On bytes: neighbouring groups of fields that share no number can be exchanged. */
  lemma DisjointFieldsCommute(a: Bytes, p: Bytes, q: Bytes, b: Bytes, nums: set<int>)
    requires WellFormed(a) && WellFormed(p) && WellFormed(q)
    requires forall i, j :: 0 <= i < |Fields(p)| && 0 <= j < |Fields(q)| ==> Fields(p)[i].num != Fields(q)[j].num
    ensures SameNumbered(Fields(a + (p + (q + b))), Fields(a + (q + (p + b))), nums)
  {
    FieldsOfFour(a, p, q, b);
    FieldsOfFour(a, q, p, b);
    forall num | num in nums
      ensures WithNumber(Fields(a + (p + (q + b))), num) == WithNumber(Fields(a + (q + (p + b))), num)
    {
      Exchange(Fields(a), Fields(p), Fields(q), Fields(b), num);
    }
  }

  lemma FieldsOfFour(a: Bytes, p: Bytes, q: Bytes, b: Bytes)
    requires WellFormed(a) && WellFormed(p) && WellFormed(q)
    ensures Fields(a + (p + (q + b))) == Fields(a) + (Fields(p) + (Fields(q) + Fields(b)))
  {
    FieldsOfConcat(a, p + (q + b));
    FieldsOfConcat(p, q + b);
    FieldsOfConcat(q, b);
  }

  /** The merge law on bytes, for the nested decoder. */
  lemma PublishOfConcat(a: Bytes, b: Bytes)
    requires WellFormed(a)
    ensures PublishOf(Fields(a + b)) == Fold(PublishStep, PublishOf(Fields(a)), Fields(b))
    ensures var p, q, r := PublishOf(Fields(a)), PublishOf(Fields(b)), PublishOf(Fields(a + b));
            && r.messages == p.messages + q.messages
            && r.topic == if Vals(Fields(b), 1, BYTES) == [] then p.topic else q.topic
  {
    FieldsOfConcat(a, b);
    PublishMerge(Fields(a), Fields(b));
    ValsOfConcat(Fields(a), Fields(b), 1, BYTES);
    ValsOfConcat(Fields(a), Fields(b), 2, BYTES);
    PubsubsOfConcat(Vals(Fields(a), 2, BYTES), Vals(Fields(b), 2, BYTES));
  }

  lemma MessagesOfPrefix(fs: seq<Field>, gs: seq<Field>)
    requires fs <= gs
    ensures PublishOf(fs).messages <= PublishOf(gs).messages
  {
    var rest := gs[|fs|..];
    assert gs == fs + rest;
    ValsOfConcat(fs, rest, 2, BYTES);
    PubsubsOfConcat(Vals(fs, 2, BYTES), Vals(rest, 2, BYTES));
  }

  /** A truncated publish request decodes to what its complete leading fields say. */
  lemma PublishOfTruncated(b: Bytes, k: nat)
    requires k <= |b|
    ensures PublishOf(Fields(b[..k])) == PublishOf(CompleteFields(b, k))
    ensures PublishOf(Fields(b[..k])).messages <= PublishOf(Fields(b)).messages
  {
    FieldsOfTruncated(b, k);
    FieldsGrow(b[..k], b[k..]);
    assert b[..k] + b[k..] == b;
    MessagesOfPrefix(Fields(b[..k]), Fields(b));
  }

  // The same through nesting.

  /** Two bodies that agree on these numbers. */
  ghost predicate AlikeBodies(v: Bytes, w: Bytes, nums: set<int>) {
    SameNumbered(Fields(v), Fields(w), nums)
  }

  /** Field lists of a message that agree on data and id, and whose map entries are alike one by one. */
  ghost predicate AlikeMessages(fs: seq<Field>, gs: seq<Field>) {
    && SameNumbered(fs, gs, {1, 3})
    && |Vals(fs, 2, BYTES)| == |Vals(gs, 2, BYTES)|
    && forall i :: 0 <= i < |Vals(fs, 2, BYTES)| ==> AlikeBodies(Vals(fs, 2, BYTES)[i], Vals(gs, 2, BYTES)[i], {1, 2})
  }

  /** Field lists of a request that agree on the topic, and whose messages are alike one by one. */
  ghost predicate AlikeRequests(fs: seq<Field>, gs: seq<Field>) {
    && SameNumbered(fs, gs, {1})
    && |Vals(fs, 2, BYTES)| == |Vals(gs, 2, BYTES)|
    && forall i :: 0 <= i < |Vals(fs, 2, BYTES)| ==> AlikeMessages(Fields(Vals(fs, 2, BYTES)[i]), Fields(Vals(gs, 2, BYTES)[i]))
  }

  lemma {:induction false} AlikeEntries(vs: seq<Bytes>, ws: seq<Bytes>)
    requires |vs| == |ws| && forall i :: 0 <= i < |vs| ==> AlikeBodies(vs[i], ws[i], {1, 2})
    ensures AttrsOf(vs) == AttrsOf(ws)
  {
    if vs != [] {
      var n := |vs| - 1;
      AlikeEntries(vs[..n], ws[..n]);
      assert AlikeBodies(vs[n], ws[n], {1, 2});
      DecodersIgnoreOrder(Fields(vs[n]), Fields(ws[n]));
    }
  }

  lemma AlikeMessagesDecodeAlike(fs: seq<Field>, gs: seq<Field>)
    requires AlikeMessages(fs, gs)
    ensures PubsubOf(fs) == PubsubOf(gs)
  {
    SameNumberedVals(fs, gs, {1, 3});
    AlikeEntries(Vals(fs, 2, BYTES), Vals(gs, 2, BYTES));
  }

  /**
   Through nesting: at each level, in the request, in each message and in each
   map entry, the fields may be permuted and unmodelled ones inserted, and the
   request decodes alike.
   */
  lemma AlikeRequestsDecodeAlike(fs: seq<Field>, gs: seq<Field>)
    requires AlikeRequests(fs, gs)
    ensures PublishOf(fs) == PublishOf(gs)
  {
    SameNumberedVals(fs, gs, {1});
    var vs, ws := Vals(fs, 2, BYTES), Vals(gs, 2, BYTES);
    forall i | 0 <= i < |vs| ensures PubsubOf(Fields(vs[i])) == PubsubOf(Fields(ws[i])) {
      AlikeMessagesDecodeAlike(Fields(vs[i]), Fields(ws[i]));
    }
  }

  lemma UnknownFieldsInBody(a: Bytes, u: Bytes, b: Bytes)
    requires WellFormed(a) && WellFormed(u)
    requires forall j :: 0 <= j < |Fields(u)| ==> Fields(u)[j].num !in {1, 2, 3}
    ensures PubsubOf(Fields(a + (u + b))) == PubsubOf(Fields(a + b))
  {
    UnknownFieldsAreInvisible(a, u, b, {1, 2, 3});
    DecodersIgnoreOrder(Fields(a + (u + b)), Fields(a + b));
  }

  lemma SameMessagesDecodeAlike(topic: Bytes, vs: seq<Bytes>, ws: seq<Bytes>)
    requires |Encode(PublishFields(topic, vs))| <= MAX_LEN && |Encode(PublishFields(topic, ws))| <= MAX_LEN
    requires PubsubsOf(vs) == PubsubsOf(ws)
    ensures PublishOf(Fields(Encode(PublishFields(topic, vs)))) == PublishOf(Fields(Encode(PublishFields(topic, ws))))
  {
    BodiesFit(topic, vs);
    BodiesFit(topic, ws);
    ValsOfPublishFields(topic, vs);
    ValsOfPublishFields(topic, ws);
  }

  /** On bytes: unknown fields inside one message of an encoded request change nothing. */
  lemma UnknownFieldsInMessage(topic: Bytes, bodies: seq<Bytes>, i: nat, a: Bytes, u: Bytes, b: Bytes)
    requires i < |bodies| && WellFormed(a) && WellFormed(u)
    requires forall j :: 0 <= j < |Fields(u)| ==> Fields(u)[j].num !in {1, 2, 3}
    requires |Encode(PublishFields(topic, bodies[i := a + (u + b)]))| <= MAX_LEN
    requires |Encode(PublishFields(topic, bodies[i := a + b]))| <= MAX_LEN
    ensures PublishOf(Fields(Encode(PublishFields(topic, bodies[i := a + (u + b)]))))
         == PublishOf(Fields(Encode(PublishFields(topic, bodies[i := a + b]))))
  {
    UnknownFieldsInBody(a, u, b);
    var v, w := a + (u + b), a + b;
    assert PubsubsOf(bodies[i := v]) == PubsubsOf(bodies[i := w]);
    SameMessagesDecodeAlike(topic, bodies[i := v], bodies[i := w]);
  }
}
