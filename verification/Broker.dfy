/** The Pub/Sub broker of internal/grpcsvc/pubsub/pubsub.go: one locked backend call is one transition. */
module Broker {
  import opened Prelude
  import opened Messages

  const DASH: byte := 45
  const ACK_SUFFIX: Bytes := [45, 97, 99, 107]  // "-ack"

  datatype Received = Received(ackId: Bytes, message: PubsubMessage)

  /**
   The backend's maps, and one piece of history: the topic for which each
   message id was issued. An id without an entry there was never used.
   */
  datatype State = State(
    topics: set<Bytes>,
    subs: map<Bytes, Bytes>,
    queues: map<Bytes, seq<PubsubMessage>>,
    delivered: map<Bytes, set<Bytes>>,
    origin: map<Bytes, Bytes>
  ) {
    function Queue(topic: Bytes): seq<PubsubMessage> { Get(queues, topic, []) }

    function Seen(sub: Bytes): set<Bytes> { Get(delivered, sub, {}) }
  }

  const EMPTY := State({}, map[], map[], map[], map[])

  // Queues.

  function Ids(q: seq<PubsubMessage>): set<Bytes> {
    set i | 0 <= i < |q| :: q[i].messageId
  }

  predicate DistinctIds(q: seq<PubsubMessage>) {
    forall i, j :: 0 <= i < j < |q| ==> q[i].messageId != q[j].messageId
  }

  /** The messages of `q` whose ids are in `ids`, in order. */
  function Keep(q: seq<PubsubMessage>, ids: set<Bytes>): seq<PubsubMessage> {
    if q == [] then []
    else
      var init, m := Keep(q[..|q| - 1], ids), q[|q| - 1];
      if m.messageId in ids then init + [m] else init
  }

  /** The messages of `q` whose ids are not in `ids`, in order. */
  function Drop(q: seq<PubsubMessage>, ids: set<Bytes>): seq<PubsubMessage> {
    if q == [] then []
    else
      var init, m := Drop(q[..|q| - 1], ids), q[|q| - 1];
      if m.messageId in ids then init else init + [m]
  }

  /** What was delivered comes before what was not. */
  predicate DeliveredPrefix(q: seq<PubsubMessage>, delivered: set<Bytes>) {
    forall i, j :: 0 <= i < j < |q| && q[j].messageId in delivered ==> q[i].messageId in delivered
  }

  lemma {:induction false} KeepAll(q: seq<PubsubMessage>, ids: set<Bytes>)
    requires forall i :: 0 <= i < |q| ==> q[i].messageId in ids
    ensures Keep(q, ids) == q && Drop(q, ids) == []
  {
    if q != [] {
      KeepAll(q[..|q| - 1], ids);
      assert q == q[..|q| - 1] + [q[|q| - 1]];
    }
  }

  lemma {:induction false} DropAll(q: seq<PubsubMessage>, ids: set<Bytes>)
    requires forall i :: 0 <= i < |q| ==> q[i].messageId !in ids
    ensures Keep(q, ids) == [] && Drop(q, ids) == q
  {
    if q != [] {
      DropAll(q[..|q| - 1], ids);
      assert q == q[..|q| - 1] + [q[|q| - 1]];
    }
  }

  lemma {:induction false} KeepIsIn(q: seq<PubsubMessage>, ids: set<Bytes>)
    ensures forall i :: 0 <= i < |Keep(q, ids)| ==> Keep(q, ids)[i].messageId in ids
    ensures forall i :: 0 <= i < |Drop(q, ids)| ==> Drop(q, ids)[i].messageId !in ids
  {
    if q != [] {
      KeepIsIn(q[..|q| - 1], ids);
    }
  }

  /**
   Pull puts the queue back together as "delivered before" followed by
   "delivered now". That changes nothing exactly when the messages delivered
   before form a prefix.
   */
  lemma {:induction false} RebuildIsIdentity(q: seq<PubsubMessage>, delivered: set<Bytes>)
    ensures Keep(q, delivered) + Drop(q, delivered) == q <==> DeliveredPrefix(q, delivered)
  {
    if DeliveredPrefix(q, delivered) {
      RebuildOfPrefix(q, delivered);
    }
    if Keep(q, delivered) + Drop(q, delivered) == q {
      KeepIsIn(q, delivered);
      var k := |Keep(q, delivered)|;
      forall i, j | 0 <= i < j < |q| && q[j].messageId in delivered ensures q[i].messageId in delivered {
        var m := q[j];
        assert j >= k ==> m in Drop(q, delivered);
        assert q[i] == Keep(q, delivered)[i];
      }
    }
  }

  lemma {:induction false} RebuildOfPrefix(q: seq<PubsubMessage>, delivered: set<Bytes>)
    requires DeliveredPrefix(q, delivered)
    ensures Keep(q, delivered) + Drop(q, delivered) == q
  {
    if q != [] {
      var n := |q| - 1;
      assert q == q[..n] + [q[n]];
      if q[n].messageId in delivered {
        KeepAll(q, delivered);
      } else {
        RebuildOfPrefix(q[..n], delivered);
      }
    }
  }

  lemma {:induction false} DropIds(q: seq<PubsubMessage>, gone: set<Bytes>)
    ensures Ids(Drop(q, gone)) == Ids(q) - gone
  {
    if q != [] {
      var n := |q| - 1;
      DropIds(q[..n], gone);
      assert q == q[..n] + [q[n]];
      IdsOfConcat(q[..n], [q[n]]);
      IdsOfConcat(Drop(q[..n], gone), [q[n]]);
    }
  }

  lemma {:induction false} DropKeepsOrder(q: seq<PubsubMessage>, gone: set<Bytes>, delivered: set<Bytes>)
    requires DeliveredPrefix(q, delivered) && DistinctIds(q)
    ensures DeliveredPrefix(Drop(q, gone), delivered) && DistinctIds(Drop(q, gone))
  {
    if q != [] {
      var n := |q| - 1;
      var init := Drop(q[..n], gone);
      DropKeepsOrder(q[..n], gone, delivered);
      DropIds(q[..n], gone);
      forall i | 0 <= i < |init|
        ensures init[i].messageId != q[n].messageId && (q[n].messageId in delivered ==> init[i].messageId in delivered)
      {
        assert init[i].messageId in Ids(init);
      }
    }
  }

  lemma IdsOfConcat(a: seq<PubsubMessage>, b: seq<PubsubMessage>)
    ensures Ids(a + b) == Ids(a) + Ids(b)
  {
    forall id | id in Ids(a) + Ids(b) ensures id in Ids(a + b) {
      if id in Ids(a) {
        var i :| 0 <= i < |a| && a[i].messageId == id;
        assert (a + b)[i].messageId == id;
      } else {
        var i :| 0 <= i < |b| && b[i].messageId == id;
        assert (a + b)[|a| + i].messageId == id;
      }
    }
  }

  // Transitions.

  function Stamp(messages: seq<PubsubMessage>, ids: seq<Bytes>): seq<PubsubMessage>
    requires |ids| == |messages|
  {
    seq(|messages|, i requires 0 <= i < |messages| => messages[i].(messageId := ids[i]))
  }

  function Published(b: State, topic: Bytes, messages: seq<PubsubMessage>, ids: seq<Bytes>): State
    requires |ids| == |messages|
  {
    b.(queues := b.queues[topic := b.Queue(topic) + Stamp(messages, ids)],
       origin := b.origin + map id | id in ids :: topic)
  }

  function TopicCreated(b: State, name: Bytes): State {
    b.(topics := b.topics + {name}, queues := b.queues[name := b.Queue(name)])
  }

  function TopicDeleted(b: State, name: Bytes): State {
    if name !in b.topics then b
    else b.(topics := b.topics - {name}, queues := b.queues - {name})
  }

  function SubscriptionCreated(b: State, name: Bytes, topic: Bytes): State {
    b.(subs := b.subs[name := topic], delivered := b.delivered[name := b.Seen(name)])
  }

  function SubscriptionDeleted(b: State, name: Bytes): State {
    b.(subs := b.subs - {name})
  }

  function Pulled(b: State, sub: Bytes): State {
    if sub !in b.subs then b
    else
      var topic, seen := b.subs[sub], b.Seen(sub);
      var q := b.Queue(topic);
      b.(queues := b.queues[topic := Keep(q, seen) + Drop(q, seen)],
         delivered := b.delivered[sub := seen + Ids(q)])
  }

  /** What a pull returns: the queued messages this subscription name was never given. */
  function PullResult(b: State, sub: Bytes): seq<PubsubMessage> {
    if sub !in b.subs then [] else Drop(b.Queue(b.subs[sub]), b.Seen(sub))
  }

  function WithAckIds(ms: seq<PubsubMessage>): seq<Received> {
    seq(|ms|, i requires 0 <= i < |ms| => Received(ms[i].messageId + ACK_SUFFIX, ms[i]))
  }

  /** The message id in an ack id: the suffix is optional. */
  function Stripped(id: Bytes): Bytes {
    if |id| > 4 && id[|id| - 4..] == ACK_SUFFIX then id[..|id| - 4] else id
  }

  function AckSet(ackIds: seq<Bytes>): set<Bytes> {
    set i | 0 <= i < |ackIds| :: Stripped(ackIds[i])
  }

  function Acknowledged(b: State, sub: Bytes, ackIds: seq<Bytes>): State {
    if sub !in b.subs then b
    else b.(queues := b.queues[b.subs[sub] := Drop(b.Queue(b.subs[sub]), AckSet(ackIds))])
  }

  // The invariant of every reachable state.

  /** An id as protow.ID makes it: not empty and without a dash. */
  predicate PlainId(id: Bytes) {
    id != [] && DASH !in id
  }

  ghost predicate Fresh(b: State, ids: seq<Bytes>) {
    Distinct(ids) && forall i :: 0 <= i < |ids| ==> PlainId(ids[i]) && ids[i] !in b.origin
  }

  predicate IssuedFor(q: seq<PubsubMessage>, topic: Bytes, origin: map<Bytes, Bytes>) {
    forall i :: 0 <= i < |q| ==> q[i].messageId in origin && origin[q[i].messageId] == topic
  }

  ghost predicate Inv(b: State) {
    && b.subs.Keys <= b.delivered.Keys
    && (forall id :: id in b.origin ==> PlainId(id))
    && (forall topic :: IssuedFor(b.Queue(topic), topic, b.origin) && DistinctIds(b.Queue(topic)))
    && (forall sub :: b.Seen(sub) <= b.origin.Keys)
    && (forall sub, topic :: DeliveredPrefix(b.Queue(topic), b.Seen(sub)))
  }

  /** A queue with the caller's messages behind it, in the caller's order, each with its data and attributes under its id. */
  ghost predicate Extends(before: seq<PubsubMessage>, after: seq<PubsubMessage>, messages: seq<PubsubMessage>, ids: seq<Bytes>)
    requires |ids| == |messages|
  {
    && |after| == |before| + |messages| && after[..|before|] == before
    && forall k :: 0 <= k < |messages| ==>
         after[|before| + k] == PubsubMessage(messages[k].data, messages[k].attributes, ids[k])
  }

  /** Publishing appends the messages to the topic's queue and touches nothing else. */
  lemma PublishAppendsMessages(b: State, topic: Bytes, messages: seq<PubsubMessage>, ids: seq<Bytes>)
    requires |ids| == |messages|
    ensures var c := Published(b, topic, messages, ids);
            && Extends(b.Queue(topic), c.Queue(topic), messages, ids)
            && (forall t :: t != topic ==> c.Queue(t) == b.Queue(t))
            && (c.topics, c.subs, c.delivered) == (b.topics, b.subs, b.delivered)
  {
  }

  lemma InitInv()
    ensures Inv(EMPTY)
  {
  }

  lemma FreshLog(log: seq<PubsubMessage>, new_: seq<PubsubMessage>, topic: Bytes, origin: map<Bytes, Bytes>, v: map<Bytes, Bytes>)
    requires DistinctIds(log) && IssuedFor(log, topic, origin) && DistinctIds(new_) && IssuedFor(new_, topic, v)
    requires forall i :: 0 <= i < |new_| ==> new_[i].messageId !in origin
    requires forall id :: id in origin ==> id in v && v[id] == origin[id]
    ensures DistinctIds(log + new_) && IssuedFor(log + new_, topic, v)
  {
  }

  lemma StampIsFresh(b: State, topic: Bytes, messages: seq<PubsubMessage>, ids: seq<Bytes>)
    requires |ids| == |messages| && Fresh(b, ids)
    ensures var new_, v := Stamp(messages, ids), Published(b, topic, messages, ids).origin;
            && DistinctIds(new_) && IssuedFor(new_, topic, v)
            && (forall i :: 0 <= i < |new_| ==> new_[i].messageId !in b.origin)
            && (forall id :: id in b.origin ==> id in v && v[id] == b.origin[id])
  {
  }

  lemma NewIsUndelivered(q: seq<PubsubMessage>, new_: seq<PubsubMessage>, delivered: set<Bytes>)
    requires DeliveredPrefix(q, delivered) && forall i :: 0 <= i < |new_| ==> new_[i].messageId !in delivered
    ensures DeliveredPrefix(q + new_, delivered)
  {
  }

  lemma PublishedInv(b: State, topic: Bytes, messages: seq<PubsubMessage>, ids: seq<Bytes>)
    requires Inv(b) && |ids| == |messages| && Fresh(b, ids)
    ensures Inv(Published(b, topic, messages, ids))
  {
    var c, new_ := Published(b, topic, messages, ids), Stamp(messages, ids);
    StampIsFresh(b, topic, messages, ids);
    forall t ensures IssuedFor(c.Queue(t), t, c.origin) && DistinctIds(c.Queue(t)) {
      assert IssuedFor(b.Queue(t), t, b.origin) && DistinctIds(b.Queue(t));
      if t == topic {
        FreshLog(b.Queue(t), new_, topic, b.origin, c.origin);
      } else {
        assert c.Queue(t) == b.Queue(t);
      }
    }
    forall s, t ensures DeliveredPrefix(c.Queue(t), c.Seen(s)) {
      assert DeliveredPrefix(b.Queue(t), b.Seen(s)) && b.Seen(s) <= b.origin.Keys && c.Seen(s) == b.Seen(s);
      if t == topic {
        NewIsUndelivered(b.Queue(t), new_, b.Seen(s));
      } else {
        assert c.Queue(t) == b.Queue(t);
      }
    }
    forall s ensures c.Seen(s) <= c.origin.Keys {
      assert b.Seen(s) <= b.origin.Keys;
    }
  }

  lemma TopicCreatedInv(b: State, name: Bytes)
    requires Inv(b)
    ensures Inv(TopicCreated(b, name))
  {
    var c := TopicCreated(b, name);
    assert forall t :: c.Queue(t) == b.Queue(t);
    assert forall s :: c.Seen(s) == b.Seen(s);
  }

  lemma TopicDeletedInv(b: State, name: Bytes)
    requires Inv(b)
    ensures Inv(TopicDeleted(b, name))
  {
    var c := TopicDeleted(b, name);
    assert forall t :: c.Queue(t) == b.Queue(t) || c.Queue(t) == [];
    assert forall s :: c.Seen(s) == b.Seen(s);
  }

  lemma SubscriptionInv(b: State, name: Bytes, topic: Bytes)
    requires Inv(b)
    ensures Inv(SubscriptionCreated(b, name, topic)) && Inv(SubscriptionDeleted(b, name))
  {
    var c, d := SubscriptionCreated(b, name, topic), SubscriptionDeleted(b, name);
    assert forall t :: c.Queue(t) == b.Queue(t) && d.Queue(t) == b.Queue(t);
    assert forall s :: c.Seen(s) == b.Seen(s) && d.Seen(s) == b.Seen(s);
  }

  /** Pull's rebuild of the queue changes no queue, and every queued message is delivered afterwards. */
  lemma PullKeepsQueues(b: State, sub: Bytes)
    requires Inv(b)
    ensures forall t :: Pulled(b, sub).Queue(t) == b.Queue(t)
    ensures sub in b.subs ==> Pulled(b, sub).Seen(sub) == b.Seen(sub) + Ids(b.Queue(b.subs[sub]))
    ensures forall s :: s != sub ==> Pulled(b, sub).Seen(s) == b.Seen(s)
  {
    if sub in b.subs {
      var topic := b.subs[sub];
      assert DeliveredPrefix(b.Queue(topic), b.Seen(sub));
      RebuildIsIdentity(b.Queue(topic), b.Seen(sub));
    }
  }

  lemma PulledInv(b: State, sub: Bytes)
    requires Inv(b)
    ensures Inv(Pulled(b, sub))
  {
    PullKeepsQueues(b, sub);
    var c := Pulled(b, sub);
    if sub in b.subs {
      var topic := b.subs[sub];
      var new_ := Ids(b.Queue(topic));
      forall s, t ensures DeliveredPrefix(c.Queue(t), c.Seen(s)) {
        var q := b.Queue(t);
        assert DeliveredPrefix(q, b.Seen(s)) && IssuedFor(q, t, b.origin) && IssuedFor(b.Queue(topic), topic, b.origin);
        if s == sub && t == topic {
          assert forall i :: 0 <= i < |q| ==> q[i].messageId in new_;
        } else if s == sub {
          assert forall i :: 0 <= i < |q| ==> q[i].messageId !in new_;
        }
      }
      forall s ensures c.Seen(s) <= c.origin.Keys {
        assert b.Seen(s) <= b.origin.Keys && IssuedFor(b.Queue(topic), topic, b.origin);
      }
      forall t ensures IssuedFor(c.Queue(t), t, c.origin) && DistinctIds(c.Queue(t)) {
        assert IssuedFor(b.Queue(t), t, b.origin) && DistinctIds(b.Queue(t));
      }
    }
  }

  lemma AcknowledgedInv(b: State, sub: Bytes, ackIds: seq<Bytes>)
    requires Inv(b)
    ensures Inv(Acknowledged(b, sub, ackIds))
  {
    if sub in b.subs {
      var c, topic := Acknowledged(b, sub, ackIds), b.subs[sub];
      forall s, t
        ensures DeliveredPrefix(c.Queue(t), c.Seen(s))
      {
        assert DeliveredPrefix(b.Queue(t), b.Seen(s)) && DistinctIds(b.Queue(t));
        if t == topic {
          DropKeepsOrder(b.Queue(t), AckSet(ackIds), b.Seen(s));
        }
      }
      forall t ensures IssuedFor(c.Queue(t), t, c.origin) && DistinctIds(c.Queue(t)) {
        var q := b.Queue(t);
        assert DeliveredPrefix(q, {}) && IssuedFor(q, t, b.origin) && DistinctIds(q);
        if t == topic {
          DropKeepsOrder(q, AckSet(ackIds), {});
          DropIds(q, AckSet(ackIds));
          forall i | 0 <= i < |c.Queue(t)| ensures c.Queue(t)[i].messageId in Ids(q) {
            assert c.Queue(t)[i].messageId in Ids(c.Queue(t));
          }
        }
      }
      assert forall s :: c.Seen(s) == b.Seen(s);
    }
  }

  /** Of the ack ids, exactly the issued id itself and the one Pull handed out name a message. */
  lemma AckIdNamesMessage(id: Bytes, ackId: Bytes)
    requires PlainId(id)
    ensures Stripped(ackId) == id <==> ackId == id || ackId == id + ACK_SUFFIX
  {
    var n := |ackId|;
    if ackId == id + ACK_SUFFIX {
      assert ackId[n - 4..] == ACK_SUFFIX && ackId[..n - 4] == id;
    } else if n > 4 && ackId[n - 4..] == ACK_SUFFIX {
      assert ackId == ackId[..n - 4] + ACK_SUFFIX;
      assert ackId[n - 4..][0] == ackId[n - 4] == DASH;
    }
  }

  // The backend.

  class MergeBackend {
    var Topics: set<Bytes>
    var Subscriptions: map<Bytes, Bytes>
    var Messages: map<Bytes, seq<PubsubMessage>>
    var Acked: map<Bytes, set<Bytes>>
    ghost var Origin: map<Bytes, Bytes>

    ghost function Value(): State
      reads this
    {
      State(Topics, Subscriptions, Messages, Acked, Origin)
    }

    ghost predicate Valid()
      reads this
    {
      Inv(Value())
    }

    constructor ()
      ensures Value() == EMPTY
      ensures Valid()
    {
      Topics, Subscriptions, Messages, Acked, Origin := {}, map[], map[], map[], map[];
      new;
      InitInv();
    }

    /** The ids come from protow.ID. */
    method Publish(topic: Bytes, messages: seq<PubsubMessage>, newIds: seq<Bytes>) returns (ids: seq<Bytes>)
      requires Valid() && |newIds| == |messages| && Fresh(Value(), newIds)
      modifies this
      ensures Value() == Published(old(Value()), topic, messages, newIds)
      ensures Extends(old(Value()).Queue(topic), Value().Queue(topic), messages, newIds)
      ensures Valid()
      ensures ids == newIds
    {
      PublishedInv(Value(), topic, messages, newIds);
      PublishAppendsMessages(Value(), topic, messages, newIds);
      var stamped;
      ids, stamped := StampAll(messages, newIds);
      Messages := Messages[topic := Get(Messages, topic, []) + stamped];
      Origin := Origin + map id | id in newIds :: topic;
    }

    method CreateTopic(name: Bytes)
      requires Valid()
      modifies this
      ensures Value() == TopicCreated(old(Value()), name)
      ensures Valid()
    {
      TopicCreatedInv(Value(), name);
      Topics := Topics + {name};
      if name !in Messages {
        Messages := Messages[name := []];
      }
      assert Messages == old(Messages)[name := old(Value()).Queue(name)];
    }

    method DeleteTopic(name: Bytes) returns (ok: bool)
      requires Valid()
      modifies this
      ensures Value() == TopicDeleted(old(Value()), name)
      ensures Valid()
      ensures ok == (name in old(Topics))
    {
      TopicDeletedInv(Value(), name);
      if name !in Topics {
        return false;
      }
      Topics := Topics - {name};
      Messages := Messages - {name};
      return true;
    }

    method CreateSubscription(name: Bytes, topic: Bytes) returns (ok: bool)
      requires Valid()
      modifies this
      ensures Value() == SubscriptionCreated(old(Value()), name, topic)
      ensures Valid()
      ensures ok
    {
      SubscriptionInv(Value(), name, topic);
      Subscriptions := Subscriptions[name := topic];
      if name !in Acked {
        Acked := Acked[name := {}];
      }
      assert Acked == old(Acked)[name := old(Value()).Seen(name)];
      return true;
    }

    method DeleteSubscription(name: Bytes) returns (ok: bool)
      requires Valid()
      modifies this
      ensures Value() == SubscriptionDeleted(old(Value()), name)
      ensures Valid()
      ensures ok == (name in old(Subscriptions))
    {
      SubscriptionInv(Value(), name, []);
      if name !in Subscriptions {
        return false;
      }
      Subscriptions := Subscriptions - {name};
      return true;
    }

    /**
     Delivers what this subscription name was not given before. The queue is
     rebuilt from two lists, and comes out as it was.
     */
    method Pull(subscription: Bytes) returns (received: seq<Received>, ok: bool)
      requires Valid()
      modifies this
      ensures Value() == Pulled(old(Value()), subscription)
      ensures Valid()
      ensures ok == (subscription in old(Subscriptions))
      ensures received == WithAckIds(PullResult(old(Value()), subscription))
      ensures forall t :: Value().Queue(t) == old(Value()).Queue(t)
    {
      PulledInv(Value(), subscription);
      PullKeepsQueues(Value(), subscription);
      if subscription !in Subscriptions {
        return [], false;
      }
      var topic := Subscriptions[subscription];
      var msgs := Get(Messages, topic, []);
      assert DistinctIds(Value().Queue(topic));
      ghost var seen := Acked[subscription];
      var remaining, acked;
      received, remaining, acked := Deliver(msgs, Acked[subscription]);
      Messages := Messages[topic := remaining];
      var again := MsgsFromReceived(received);
      assert again == Drop(msgs, seen);
      Messages := Messages[topic := Messages[topic] + again];
      Acked := Acked[subscription := acked];
      ok := true;
      assert Messages == old(Messages)[topic := Keep(msgs, seen) + Drop(msgs, seen)];
    }

    method Acknowledge(subscription: Bytes, ackIds: seq<Bytes>) returns (ok: bool)
      requires Valid()
      modifies this
      ensures Value() == Acknowledged(old(Value()), subscription, ackIds)
      ensures Valid()
      ensures ok == (subscription in old(Subscriptions))
    {
      AcknowledgedInv(Value(), subscription, ackIds);
      if subscription !in Subscriptions {
        return false;
      }
      var topic := Subscriptions[subscription];
      var ackSet := {};
      for i := 0 to |ackIds|
        invariant Value() == old(Value()) && ackSet == AckSet(ackIds[..i])
      {
        var id := ackIds[i];
        var msgId := id;
        if |id| > 4 && id[|id| - 4..] == ACK_SUFFIX {
          msgId := id[..|id| - 4];
        }
        AckSetSnoc(ackIds, i);
        ackSet := ackSet + {msgId};
      }
      assert ackIds[..|ackIds|] == ackIds;
      var remaining := [];
      var msgs := Get(Messages, topic, []);
      for i := 0 to |msgs|
        invariant Value() == old(Value()) && remaining == Drop(msgs[..i], ackSet)
      {
        assert msgs[..i + 1][..i] == msgs[..i];
        if msgs[i].messageId !in ackSet {
          remaining := remaining + [msgs[i]];
        }
      }
      assert msgs[..|msgs|] == msgs;
      Messages := Messages[topic := remaining];
      assert Value() == Acknowledged(old(Value()), subscription, ackIds);
      return true;
    }
  }

  /** The loop of Publish. */
  method StampAll(messages: seq<PubsubMessage>, newIds: seq<Bytes>) returns (ids: seq<Bytes>, stamped: seq<PubsubMessage>)
    requires |newIds| == |messages|
    ensures ids == newIds && stamped == Stamp(messages, newIds)
    ensures Extends([], stamped, messages, newIds)
  {
    ids, stamped := [], [];
    for i := 0 to |messages|
      invariant ids == newIds[..i] && stamped == Stamp(messages[..i], newIds[..i])
    {
      var m := messages[i].(messageId := newIds[i]);
      ids := ids + [m.messageId];
      stamped := stamped + [m];
    }
    assert messages[..|messages|] == messages && newIds[..|newIds|] == newIds;
  }

  /** The loop of Pull: a message not marked yet is received, and marked at once. */
  method Deliver(msgs: seq<PubsubMessage>, seen: set<Bytes>)
    returns (received: seq<Received>, remaining: seq<PubsubMessage>, acked: set<Bytes>)
    requires DistinctIds(msgs)
    ensures received == WithAckIds(Drop(msgs, seen)) && remaining == Keep(msgs, seen)
    ensures acked == seen + Ids(msgs)
  {
    received, remaining, acked := [], [], seen;
    for i := 0 to |msgs|
      invariant acked == seen + Ids(msgs[..i])
      invariant remaining == Keep(msgs[..i], seen) && received == WithAckIds(Drop(msgs[..i], seen))
    {
      var m := msgs[i];
      PullOne(msgs, i, seen);
      if m.messageId in acked {
        remaining := remaining + [m];
        continue;
      }
      received := received + [Received(m.messageId + ACK_SUFFIX, m)];
      acked := acked + {m.messageId};
    }
    assert msgs[..|msgs|] == msgs;
  }

  /** One round of Pull's loop: only messages delivered before are seen as delivered. */
  lemma PullOne(msgs: seq<PubsubMessage>, i: nat, seen: set<Bytes>)
    requires i < |msgs| && DistinctIds(msgs)
    ensures var m, done := msgs[i], msgs[..i];
            && (m.messageId in seen + Ids(done) <==> m.messageId in seen)
            && Ids(msgs[..i + 1]) == Ids(done) + {m.messageId}
            && (m.messageId in seen ==> Keep(msgs[..i + 1], seen) == Keep(done, seen) + [m]
                                        && Drop(msgs[..i + 1], seen) == Drop(done, seen))
            && (m.messageId !in seen ==> Keep(msgs[..i + 1], seen) == Keep(done, seen)
                                         && WithAckIds(Drop(msgs[..i + 1], seen))
                                            == WithAckIds(Drop(done, seen)) + [Received(m.messageId + ACK_SUFFIX, m)])
  {
    assert msgs[..i + 1] == msgs[..i] + [msgs[i]];
    IdsOfConcat(msgs[..i], [msgs[i]]);
  }

  lemma AckSetSnoc(ackIds: seq<Bytes>, i: nat)
    requires i < |ackIds|
    ensures AckSet(ackIds[..i + 1]) == AckSet(ackIds[..i]) + {Stripped(ackIds[i])}
  {
    forall id | id in AckSet(ackIds[..i]) ensures id in AckSet(ackIds[..i + 1]) {
      var j :| 0 <= j < i && Stripped(ackIds[..i][j]) == id;
      assert ackIds[..i + 1][j] == ackIds[j];
    }
    assert ackIds[..i + 1][i] == ackIds[i];
    forall id | id in AckSet(ackIds[..i + 1]) ensures id in AckSet(ackIds[..i]) + {Stripped(ackIds[i])} {
      var j :| 0 <= j < i + 1 && Stripped(ackIds[..i + 1][j]) == id;
      assert j < i ==> ackIds[..i][j] == ackIds[j];
    }
  }

  method MsgsFromReceived(received: seq<Received>) returns (out: seq<PubsubMessage>)
    ensures |out| == |received| && forall i :: 0 <= i < |out| ==> out[i] == received[i].message
  {
    out := [];
    for i := 0 to |received|
      invariant |out| == i && forall j :: 0 <= j < i ==> out[j] == received[j].message
    {
      out := out + [received[i].message];
    }
  }
}
