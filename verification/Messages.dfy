/** The Pub/Sub messages of internal/protow/messages.go and their codecs. */
module Messages {
  import opened Prelude
  import opened Varint
  import opened WireFormat
  import opened Wire

  datatype PubsubMessage = PubsubMessage(data: Bytes, attributes: map<Bytes, Bytes>, messageId: Bytes)

  datatype PublishRequest = PublishRequest(topic: Bytes, messages: seq<PubsubMessage>)

  datatype PullRequest = PullRequest(subscription: Bytes, maxMessages: int32, returnImmediately: bool)

  /** AcknowledgeRequest and StreamingPullRequest have the same two fields. */
  datatype AckRequest = AckRequest(subscription: Bytes, ackIds: seq<Bytes>)

  datatype SubscriptionMsg = SubscriptionMsg(name: Bytes, topic: Bytes)

  /** One entry of the attributes map. */
  datatype Entry = Entry(key: Bytes, value: Bytes)

  // What a list of fields means, field by field.

  function EntryOf(fs: seq<Field>): Entry {
    Entry(Last(Vals(fs, 1, BYTES), []), Last(Vals(fs, 2, BYTES), []))
  }

  /** The map that a list of entries builds; the last entry for a key wins. */
  function AttrsOf(entries: seq<Bytes>): map<Bytes, Bytes> {
    if entries == [] then map[]
    else
      var e := EntryOf(Fields(entries[|entries| - 1]));
      AttrsOf(entries[..|entries| - 1])[e.key := e.value]
  }

  function PubsubOf(fs: seq<Field>): PubsubMessage {
    PubsubMessage(Last(Vals(fs, 1, BYTES), []), AttrsOf(Vals(fs, 2, BYTES)), Last(Vals(fs, 3, BYTES), []))
  }

  function PubsubsOf(raws: seq<Bytes>): seq<PubsubMessage> {
    seq(|raws|, i requires 0 <= i < |raws| => PubsubOf(Fields(raws[i])))
  }

  function PublishOf(fs: seq<Field>): PublishRequest {
    PublishRequest(Last(Vals(fs, 1, BYTES), []), PubsubsOf(Vals(fs, 2, BYTES)))
  }

  function PullOf(fs: seq<Field>): PullRequest {
    PullRequest(Last(Vals(fs, 1, BYTES), []),
                ToInt32(VarintOf(Last(Vals(fs, 2, VARINT), []))),
                VarintOf(Last(Vals(fs, 3, VARINT), [])) != 0)
  }

  function AckOf(fs: seq<Field>): AckRequest {
    AckRequest(Last(Vals(fs, 1, BYTES), []), Vals(fs, 2, BYTES))
  }

  /** The values of the fields with this number, whatever their wire type. */
  function AnyVals(fs: seq<Field>, num: int): seq<Bytes> {
    if fs == [] then []
    else
      var init := AnyVals(fs[..|fs| - 1], num);
      if fs[|fs| - 1].num == num then init + [fs[|fs| - 1].val] else init
  }

  /** CreateSubscription ignores the wire type of its two fields. */
  function SubscriptionOf(fs: seq<Field>): SubscriptionMsg {
    SubscriptionMsg(Last(AnyVals(fs, 1), []), Last(AnyVals(fs, 2), []))
  }

  // What one field does to a message: the switch in each decoding loop.

  function EntryStep(m: Entry, f: Field): Entry {
    if f.typ != BYTES then m
    else if f.num == 1 then m.(key := f.val)
    else if f.num == 2 then m.(value := f.val)
    else m
  }

  function PubsubStep(m: PubsubMessage, f: Field): PubsubMessage {
    if f.num == 1 && f.typ == BYTES then m.(data := f.val)
    else if f.num == 2 && f.typ == BYTES then
      var e := EntryOf(Fields(f.val));
      m.(attributes := m.attributes[e.key := e.value])
    else if f.num == 3 && f.typ == BYTES then m.(messageId := f.val)
    else m
  }

  function PublishStep(m: PublishRequest, f: Field): PublishRequest {
    if f.num == 1 && f.typ == BYTES then m.(topic := f.val)
    else if f.num == 2 && f.typ == BYTES then m.(messages := m.messages + [PubsubOf(Fields(f.val))])
    else m
  }

  function PullStep(m: PullRequest, f: Field): PullRequest {
    if f.num == 1 && f.typ == BYTES then m.(subscription := f.val)
    else if f.num == 2 && f.typ == VARINT then m.(maxMessages := ToInt32(VarintOf(f.val)))
    else if f.num == 3 && f.typ == VARINT then m.(returnImmediately := VarintOf(f.val) != 0)
    else m
  }

  function AckStep(m: AckRequest, f: Field): AckRequest {
    if f.num == 1 && f.typ == BYTES then m.(subscription := f.val)
    else if f.num == 2 && f.typ == BYTES then m.(ackIds := m.ackIds + [f.val])
    else m
  }

  function SubscriptionStep(m: SubscriptionMsg, f: Field): SubscriptionMsg {
    if f.num == 1 then m.(name := f.val)
    else if f.num == 2 then m.(topic := f.val)
    else m
  }

  function Fold<M>(step: (M, Field) -> M, m: M, fs: seq<Field>): M {
    if fs == [] then m else Fold(step, step(m, fs[0]), fs[1..])
  }

  lemma FoldCons<M>(step: (M, Field) -> M, m: M, f: Field, fs: seq<Field>)
    ensures Fold(step, m, [f] + fs) == Fold(step, step(m, f), fs)
  {
    assert ([f] + fs)[1..] == fs;
  }

  lemma {:induction false} FoldMeans<M>(step: (M, Field) -> M, meaning: seq<Field> -> M, seen: seq<Field>, fs: seq<Field>)
    requires forall a: seq<Field>, f: Field :: meaning(a + [f]) == step(meaning(a), f)
    ensures Fold(step, meaning(seen), fs) == meaning(seen + fs)
    decreases |fs|
  {
    if fs == [] {
      assert seen + fs == seen;
    } else {
      FoldMeans(step, meaning, seen + [fs[0]], fs[1..]);
      assert seen + [fs[0]] + fs[1..] == seen + fs;
    }
  }

  // The merge law: decoding goes on from what was decoded before.

  lemma EntryMerge(a: seq<Field>, b: seq<Field>)
    ensures Fold(EntryStep, EntryOf(a), b) == EntryOf(a + b)
  {
    forall a: seq<Field>, f: Field ensures EntryOf(a + [f]) == EntryStep(EntryOf(a), f) {
      ValsOfSnoc(a, f, 1, BYTES);
      ValsOfSnoc(a, f, 2, BYTES);
    }
    FoldMeans(EntryStep, EntryOf, a, b);
  }

  lemma PubsubMerge(a: seq<Field>, b: seq<Field>)
    ensures Fold(PubsubStep, PubsubOf(a), b) == PubsubOf(a + b)
  {
    forall a: seq<Field>, f: Field ensures PubsubOf(a + [f]) == PubsubStep(PubsubOf(a), f) {
      ValsOfSnoc(a, f, 1, BYTES);
      ValsOfSnoc(a, f, 2, BYTES);
      ValsOfSnoc(a, f, 3, BYTES);
      AttrsOfSnoc(Vals(a, 2, BYTES), f.val);
    }
    FoldMeans(PubsubStep, PubsubOf, a, b);
  }

  lemma AttrsOfSnoc(entries: seq<Bytes>, raw: Bytes)
    ensures var e := EntryOf(Fields(raw)); AttrsOf(entries + [raw]) == AttrsOf(entries)[e.key := e.value]
  {
    assert (entries + [raw])[..|entries|] == entries;
  }

  lemma PublishMerge(a: seq<Field>, b: seq<Field>)
    ensures Fold(PublishStep, PublishOf(a), b) == PublishOf(a + b)
  {
    forall a: seq<Field>, f: Field ensures PublishOf(a + [f]) == PublishStep(PublishOf(a), f) {
      ValsOfSnoc(a, f, 1, BYTES);
      ValsOfSnoc(a, f, 2, BYTES);
      PubsubsOfConcat(Vals(a, 2, BYTES), [f.val]);
    }
    FoldMeans(PublishStep, PublishOf, a, b);
  }

  lemma PubsubsOfConcat(a: seq<Bytes>, b: seq<Bytes>)
    ensures PubsubsOf(a + b) == PubsubsOf(a) + PubsubsOf(b)
  {
  }

  lemma PullMerge(a: seq<Field>, b: seq<Field>)
    ensures Fold(PullStep, PullOf(a), b) == PullOf(a + b)
  {
    forall a: seq<Field>, f: Field ensures PullOf(a + [f]) == PullStep(PullOf(a), f) {
      ValsOfSnoc(a, f, 1, BYTES);
      ValsOfSnoc(a, f, 2, VARINT);
      ValsOfSnoc(a, f, 3, VARINT);
    }
    FoldMeans(PullStep, PullOf, a, b);
  }

  lemma AckMerge(a: seq<Field>, b: seq<Field>)
    ensures Fold(AckStep, AckOf(a), b) == AckOf(a + b)
  {
    forall a: seq<Field>, f: Field ensures AckOf(a + [f]) == AckStep(AckOf(a), f) {
      ValsOfSnoc(a, f, 1, BYTES);
      ValsOfSnoc(a, f, 2, BYTES);
    }
    FoldMeans(AckStep, AckOf, a, b);
  }

  lemma SubscriptionMerge(a: seq<Field>, b: seq<Field>)
    ensures Fold(SubscriptionStep, SubscriptionOf(a), b) == SubscriptionOf(a + b)
  {
    forall a: seq<Field>, f: Field ensures SubscriptionOf(a + [f]) == SubscriptionStep(SubscriptionOf(a), f) {
      assert (a + [f])[..|a|] == a;
    }
    FoldMeans(SubscriptionStep, SubscriptionOf, a, b);
  }

  // The decoding loops.

  /** The inner loop of DecodePubsubMessage over one map entry. */
  method DecodeEntry(raw: Bytes) returns (m: Entry)
    ensures m == EntryOf(Fields(raw))
  {
    m := Entry([], []);
    var d := new Decoder(raw);
    EntryMerge([], Fields(raw));
    assert [] + Fields(raw) == Fields(raw);
    while true
      invariant d.Valid() && d.buf == raw
      invariant Fold(EntryStep, m, Fields(d.Rest())) == EntryOf(Fields(raw))
      decreases |raw| - d.pos
    {
      var num, typ, val, ok := d.Next();
      if !ok {
        break;
      }
      FoldCons(EntryStep, m, Field(num, typ, val), Fields(d.Rest()));
      if typ != BYTES {
        continue;
      }
      if num == 1 {
        m := m.(key := val);
      } else if num == 2 {
        m := m.(value := val);
      }
    }
  }

  lemma PubsubFromNothing(fs: seq<Field>)
    ensures Fold(PubsubStep, PubsubMessage([], map[], []), fs) == PubsubOf(fs)
  {
    PubsubMerge([], fs);
    assert [] + fs == fs;
  }

  method DecodePubsubMessage(raw: Bytes) returns (m: PubsubMessage)
    ensures m == PubsubOf(Fields(raw))
  {
    m := PubsubMessage([], map[], []);
    var d := new Decoder(raw);
    PubsubFromNothing(Fields(raw));
    while true
      invariant d.Valid() && d.buf == raw
      invariant Fold(PubsubStep, m, Fields(d.Rest())) == PubsubOf(Fields(raw))
      decreases |raw| - d.pos
    {
      var num, typ, val, ok := d.Next();
      if !ok {
        break;
      }
      FoldCons(PubsubStep, m, Field(num, typ, val), Fields(d.Rest()));
      if num == 1 && typ == BYTES {
        m := m.(data := val);
      } else if num == 2 && typ == BYTES {
        var e := DecodeEntry(val);
        m := m.(attributes := m.attributes[e.key := e.value]);
      } else if num == 3 && typ == BYTES {
        m := m.(messageId := val);
      }
    }
  }

  lemma PublishFromNothing(fs: seq<Field>)
    ensures Fold(PublishStep, PublishRequest([], []), fs) == PublishOf(fs)
  {
    PublishMerge([], fs);
    assert PubsubsOf([]) == [];
    assert [] + fs == fs;
  }

  method DecodePublishRequest(raw: Bytes) returns (m: PublishRequest)
    ensures m == PublishOf(Fields(raw))
  {
    m := PublishRequest([], []);
    var d := new Decoder(raw);
    PublishFromNothing(Fields(raw));
    while true
      invariant d.Valid() && d.buf == raw
      invariant Fold(PublishStep, m, Fields(d.Rest())) == PublishOf(Fields(raw))
      decreases |raw| - d.pos
    {
      var num, typ, val, ok := d.Next();
      if !ok {
        break;
      }
      FoldCons(PublishStep, m, Field(num, typ, val), Fields(d.Rest()));
      if num == 1 && typ == BYTES {
        m := m.(topic := val);
      } else if num == 2 && typ == BYTES {
        var msg := DecodePubsubMessage(val);
        m := m.(messages := m.messages + [msg]);
      }
    }
  }

  lemma PullFromNothing(fs: seq<Field>)
    ensures Fold(PullStep, PullRequest([], 0, false), fs) == PullOf(fs)
  {
    assert PullOf([]) == PullRequest([], 0, false);
    PullMerge([], fs);
    assert [] + fs == fs;
  }

  method DecodePullRequest(raw: Bytes) returns (m: PullRequest)
    ensures m == PullOf(Fields(raw))
  {
    m := PullRequest([], 0, false);
    var d := new Decoder(raw);
    PullFromNothing(Fields(raw));
    while true
      invariant d.Valid() && d.buf == raw
      invariant Fold(PullStep, m, Fields(d.Rest())) == PullOf(Fields(raw))
      decreases |raw| - d.pos
    {
      var num, typ, val, ok := d.Next();
      if !ok {
        break;
      }
      FoldCons(PullStep, m, Field(num, typ, val), Fields(d.Rest()));
      if num == 1 && typ == BYTES {
        m := m.(subscription := val);
      } else if num == 2 && typ == VARINT {
        m := m.(maxMessages := ToInt32(VarintOf(val)));
      } else if num == 3 && typ == VARINT {
        m := m.(returnImmediately := VarintOf(val) != 0);
      }
    }
  }

  /** Also DecodeStreamingPullRequest, whose loop is the same. */
  method DecodeAckRequest(raw: Bytes) returns (m: AckRequest)
    ensures m == AckOf(Fields(raw))
  {
    m := AckRequest([], []);
    var d := new Decoder(raw);
    AckMerge([], Fields(raw));
    assert [] + Fields(raw) == Fields(raw);
    while true
      invariant d.Valid() && d.buf == raw
      invariant Fold(AckStep, m, Fields(d.Rest())) == AckOf(Fields(raw))
      decreases |raw| - d.pos
    {
      var num, typ, val, ok := d.Next();
      if !ok {
        break;
      }
      FoldCons(AckStep, m, Field(num, typ, val), Fields(d.Rest()));
      if num == 1 && typ == BYTES {
        m := m.(subscription := val);
      } else if num == 2 && typ == BYTES {
        m := m.(ackIds := m.ackIds + [val]);
      }
    }
  }

  /** The single-pass scan of the CreateSubscription handler. */
  method ScanSubscription(raw: Bytes) returns (m: SubscriptionMsg)
    ensures m == SubscriptionOf(Fields(raw))
  {
    m := SubscriptionMsg([], []);
    var d := new Decoder(raw);
    SubscriptionMerge([], Fields(raw));
    assert [] + Fields(raw) == Fields(raw);
    while true
      invariant d.Valid() && d.buf == raw
      invariant Fold(SubscriptionStep, m, Fields(d.Rest())) == SubscriptionOf(Fields(raw))
      decreases |raw| - d.pos
    {
      var num, typ, val, ok := d.Next();
      if !ok {
        break;
      }
      FoldCons(SubscriptionStep, m, Field(num, typ, val), Fields(d.Rest()));
      if num == 1 {
        m := m.(name := val);
      } else if num == 2 {
        m := m.(topic := val);
      }
    }
  }

  method DecodeStringMsg(raw: Bytes) returns (s: Bytes)
    ensures var vs := Vals(Fields(raw), 1, BYTES); s == if vs == [] then [] else vs[0]
  {
    var d := new Decoder(raw);
    var ok;
    s, ok := d.ScanString(1);
  }

  // What the encoders write.

  /** One order in which Go may enumerate a map. */
  ghost predicate IsOrder(order: seq<Bytes>, attrs: map<Bytes, Bytes>) {
    Distinct(order) && forall k :: k in order <==> k in attrs
  }

  ghost function Entries(attrs: map<Bytes, Bytes>, order: seq<Bytes>): seq<Bytes>
    requires forall k :: k in order ==> k in attrs
  {
    seq(|order|, i requires 0 <= i < |order| => EntryBytes(order[i], attrs[order[i]]))
  }

  function Optional(num: int, v: Bytes): seq<Field> {
    if v == [] then [] else [StringField(num, v)]
  }

  ghost function PubsubFields(m: PubsubMessage, order: seq<Bytes>): seq<Field>
    requires IsOrder(order, m.attributes)
  {
    Optional(1, m.data) + StringFields(2, Entries(m.attributes, order)) + Optional(3, m.messageId)
  }

  ghost predicate PubsubEncoding(m: PubsubMessage, b: Bytes) {
    exists order :: IsOrder(order, m.attributes) && b == Encode(PubsubFields(m, order))
  }

  function PublishFields(topic: Bytes, bodies: seq<Bytes>): seq<Field> {
    [StringField(1, topic)] + StringFields(2, bodies)
  }

  ghost predicate PubsubEncodings(ms: seq<PubsubMessage>, bodies: seq<Bytes>) {
    |bodies| == |ms| && forall i :: 0 <= i < |ms| ==> PubsubEncoding(ms[i], bodies[i])
  }

  ghost predicate PublishEncoding(r: PublishRequest, b: Bytes) {
    exists bodies :: PubsubEncodings(r.messages, bodies) && b == Encode(PublishFields(r.topic, bodies))
  }

  function PullFields(m: PullRequest): seq<Field> {
    [StringField(1, m.subscription)] + [VarintField(2, ToUint64(m.maxMessages))]
    + [VarintField(3, if m.returnImmediately then 1 else 0)]
  }

  function AckFields(m: AckRequest): seq<Field> {
    [StringField(1, m.subscription)] + StringFields(2, m.ackIds)
  }

  function SubscriptionFields(m: SubscriptionMsg): seq<Field> {
    [StringField(1, m.name)] + [StringField(2, m.topic)]
  }

  // The encoders.

  lemma EncodeStart(f: Field)
    ensures [] + FieldBytes(f) == Encode([f])
  {
    EncodeSnoc([], f);
  }

  /** The map entries, in an order the caller does not choose. */
  method EncodeAttributes(e: Encoder, attrs: map<Bytes, Bytes>, ghost head: seq<Field>) returns (ghost order: seq<Bytes>)
    requires e.buf == Encode(head)
    modifies e
    ensures IsOrder(order, attrs) && e.buf == Encode(head + StringFields(2, Entries(attrs, order)))
  {
    order := [];
    assert head + StringFields(2, Entries(attrs, order)) == head;
    var keys := attrs.Keys;
    while keys != {}
      invariant keys <= attrs.Keys && Distinct(order)
      invariant forall k :: k in order <==> k in attrs && k !in keys
      invariant e.buf == Encode(head + StringFields(2, Entries(attrs, order)))
      decreases keys
    {
      var k :| k in keys;
      e.MapEntry(2, k, attrs[k]);
      EntriesSnoc(head, attrs, order, k);
      order := order + [k];
      keys := keys - {k};
    }
  }

  method EncodePubsubMessage(m: PubsubMessage) returns (b: Bytes)
    ensures PubsubEncoding(m, b)
  {
    var e := new Encoder();
    if |m.data| > 0 {
      e.String(1, m.data);
      EncodeStart(StringField(1, m.data));
    }
    ghost var order := EncodeAttributes(e, m.attributes, Optional(1, m.data));
    ghost var fs := Optional(1, m.data) + StringFields(2, Entries(m.attributes, order));
    assert fs + [] == fs;
    if m.messageId != [] {
      e.String(3, m.messageId);
      EncodeSnoc(fs, StringField(3, m.messageId));
    }
    b := e.buf;
    assert IsOrder(order, m.attributes) && b == Encode(PubsubFields(m, order));
  }

  lemma EntriesSnoc(head: seq<Field>, attrs: map<Bytes, Bytes>, order: seq<Bytes>, k: Bytes)
    requires k in attrs && forall k :: k in order ==> k in attrs
    ensures forall j :: j in order + [k] ==> j in attrs
    ensures Encode(head + StringFields(2, Entries(attrs, order + [k])))
         == Encode(head + StringFields(2, Entries(attrs, order))) + FieldBytes(StringField(2, EntryBytes(k, attrs[k])))
  {
    var fs, f := head + StringFields(2, Entries(attrs, order)), StringField(2, EntryBytes(k, attrs[k]));
    assert Entries(attrs, order + [k]) == Entries(attrs, order) + [EntryBytes(k, attrs[k])];
    assert head + StringFields(2, Entries(attrs, order + [k])) == fs + [f];
    EncodeSnoc(fs, f);
  }

  method EncodePublishRequest(r: PublishRequest) returns (b: Bytes)
    ensures PublishEncoding(r, b)
  {
    var e := new Encoder();
    e.String(1, r.topic);
    EncodeStart(StringField(1, r.topic));
    ghost var bodies := [];
    assert PublishFields(r.topic, []) == [StringField(1, r.topic)];
    for i := 0 to |r.messages|
      invariant PubsubEncodings(r.messages[..i], bodies)
      invariant e.buf == Encode(PublishFields(r.topic, bodies))
    {
      var body := EncodePubsubMessage(r.messages[i]);
      e.AppendMessage(2, body);
      BodiesSnoc(r.topic, bodies, body);
      EncodingsSnoc(r.messages, bodies, body);
      bodies := bodies + [body];
    }
    assert r.messages[..|r.messages|] == r.messages;
    b := e.buf;
  }

  lemma EncodingsSnoc(ms: seq<PubsubMessage>, bodies: seq<Bytes>, body: Bytes)
    requires |bodies| < |ms| && PubsubEncodings(ms[..|bodies|], bodies) && PubsubEncoding(ms[|bodies|], body)
    ensures PubsubEncodings(ms[..|bodies| + 1], bodies + [body])
  {
    forall i | 0 <= i < |bodies| + 1 ensures PubsubEncoding(ms[..|bodies| + 1][i], (bodies + [body])[i]) {
      if i < |bodies| {
        assert PubsubEncoding(ms[..|bodies|][i], bodies[i]);
      }
    }
  }

  lemma BodiesSnoc(topic: Bytes, bodies: seq<Bytes>, body: Bytes)
    ensures Encode(PublishFields(topic, bodies + [body]))
         == Encode(PublishFields(topic, bodies)) + FieldBytes(StringField(2, body))
  {
    var f := StringField(2, body);
    assert PublishFields(topic, bodies + [body]) == PublishFields(topic, bodies) + [f];
    EncodeSnoc(PublishFields(topic, bodies), f);
  }

  method EncodePullRequest(m: PullRequest) returns (b: Bytes)
    ensures b == Encode(PullFields(m))
  {
    var e := new Encoder();
    ghost var s, v, w := StringField(1, m.subscription), VarintField(2, ToUint64(m.maxMessages)),
                   VarintField(3, if m.returnImmediately then 1 else 0);
    e.String(1, m.subscription);
    EncodeStart(s);
    e.Int32(2, m.maxMessages);
    EncodeSnoc([s], v);
    e.Bool(3, m.returnImmediately);
    EncodeSnoc([s] + [v], w);
    b := e.buf;
  }

  method EncodeAckRequest(m: AckRequest) returns (b: Bytes)
    ensures b == Encode(AckFields(m))
  {
    var e := new Encoder();
    e.String(1, m.subscription);
    EncodeStart(StringField(1, m.subscription));
    e.RepeatedString(2, m.ackIds);
    EncodeOfConcat([StringField(1, m.subscription)], StringFields(2, m.ackIds));
    b := e.buf;
  }

  method EncodeSubscriptionMsg(m: SubscriptionMsg) returns (b: Bytes)
    ensures b == Encode(SubscriptionFields(m))
  {
    var e := new Encoder();
    e.String(1, m.name);
    EncodeStart(StringField(1, m.name));
    e.String(2, m.topic);
    EncodeSnoc([StringField(1, m.name)], StringField(2, m.topic));
    b := e.buf;
  }
}
