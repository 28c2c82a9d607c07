/**
 Whole runs of the broker: any interleaving of backend calls and of any number
 of StreamingPull loops, with the history needed to say what was delivered.
 */
module Delivery {
  import opened Prelude
  import opened Messages
  import opened Broker

  datatype Channel = Unary | Stream(id: nat)

  /** One message handed out by one pull. */
  datatype Handout = Handout(channel: Channel, sub: Bytes, topic: Bytes, message: PubsubMessage)

  /**
   The backend, the subscription variable of every open StreamingPull loop, and history:
   everything published to a topic, where its log stood when the topic was last
   deleted, which of its published messages were acked on it, where its log
   stood when a subscription last pulled from it, and all handouts in order.
   */
  datatype World = World(
    b: State,
    streams: map<nat, Bytes>,
    log: map<Bytes, seq<PubsubMessage>>,
    base: map<Bytes, nat>,
    gone: map<Bytes, set<Bytes>>,
    cut: map<(Bytes, Bytes), nat>,
    handouts: seq<Handout>
  ) {
    function Log(topic: Bytes): seq<PubsubMessage> { Get(log, topic, []) }

    function Base(topic: Bytes): nat { Get(base, topic, 0) }

    function Gone(topic: Bytes): set<Bytes> { Get(gone, topic, {}) }

    function Cut(sub: Bytes, topic: Bytes): nat { Get(cut, (sub, topic), 0) }

    /** What this subscription name was given from this topic, in order. */
    function Got(sub: Bytes, topic: Bytes): seq<PubsubMessage> { GotFrom(handouts, sub, topic) }
  }

  const START := World(EMPTY, map[], map[], map[], map[], map[], [])

  function GotFrom(hs: seq<Handout>, sub: Bytes, topic: Bytes): seq<PubsubMessage> {
    if hs == [] then []
    else
      var init, h := GotFrom(hs[..|hs| - 1], sub, topic), hs[|hs| - 1];
      if h.sub == sub && h.topic == topic then init + [h.message] else init
  }

  datatype Step =
    | Publish(topic: Bytes, messages: seq<PubsubMessage>, ids: seq<Bytes>)
    | CreateTopic(name: Bytes)
    | DeleteTopic(name: Bytes)
    | CreateSubscription(name: Bytes, on: Bytes)
    | DeleteSubscription(name: Bytes)
    | Pull(sub: Bytes)
    | Acknowledge(sub: Bytes, ackIds: seq<Bytes>)
    | OpenStream(stream: nat)
    | StreamRequest(stream: nat, request: AckRequest)
    | StreamTick(stream: nat, sent: bool)
    | CloseStream(stream: nat)

  ghost predicate Enabled(w: World, step: Step) {
    step.Publish? ==> |step.ids| == |step.messages| && Fresh(w.b, step.ids)
  }

  function AfterPublish(w: World, topic: Bytes, messages: seq<PubsubMessage>, ids: seq<Bytes>): World
    requires |ids| == |messages|
  {
    w.(b := Published(w.b, topic, messages, ids),
       log := w.log[topic := w.Log(topic) + Stamp(messages, ids)])
  }

  function AfterDelete(w: World, name: Bytes): World {
    if name !in w.b.topics then w
    else w.(b := TopicDeleted(w.b, name), base := w.base[name := |w.Log(name)|])
  }

  function HandoutsOf(channel: Channel, sub: Bytes, topic: Bytes, ms: seq<PubsubMessage>): seq<Handout> {
    seq(|ms|, i requires 0 <= i < |ms| => Handout(channel, sub, topic, ms[i]))
  }

  function AfterPull(w: World, channel: Channel, sub: Bytes): World {
    if sub !in w.b.subs then w
    else
      var topic := w.b.subs[sub];
      w.(b := Pulled(w.b, sub),
         cut := w.cut[(sub, topic) := |w.Log(topic)|],
         handouts := w.handouts + HandoutsOf(channel, sub, topic, PullResult(w.b, sub)))
  }

  function AfterAck(w: World, sub: Bytes, ackIds: seq<Bytes>): World {
    if sub !in w.b.subs then w
    else
      var topic := w.b.subs[sub];
      w.(b := Acknowledged(w.b, sub, ackIds),
         gone := w.gone[topic := w.Gone(topic) + AckSet(ackIds) * Ids(w.Log(topic))])
  }

  /** The subscription variable of a loop after a request. */
  function Chosen(w: World, stream: nat, request: AckRequest): Bytes
    requires stream in w.streams
  {
    if request.subscription != [] then request.subscription else w.streams[stream]
  }

  function AfterRequest(w: World, stream: nat, request: AckRequest): World
    requires stream in w.streams
  {
    var sub := Chosen(w, stream, request);
    var v := w.(streams := w.streams[stream := sub]);
    if request.ackIds != [] && sub != [] then AfterAck(v, sub, request.ackIds) else v
  }

  /** A tick pulls and sends; when the send fails the loop ends, and what was pulled stays delivered. */
  function AfterTick(w: World, stream: nat, sent: bool): World
    requires stream in w.streams
  {
    var sub := w.streams[stream];
    if sub == [] then w
    else
      var v := AfterPull(w, Stream(stream), sub);
      if PullResult(w.b, sub) != [] && !sent then v.(streams := v.streams - {stream}) else v
  }

  function Apply(w: World, step: Step): World
    requires step.Publish? ==> |step.ids| == |step.messages|
  {
    match step
    case Publish(topic, messages, ids) => AfterPublish(w, topic, messages, ids)
    case CreateTopic(name) => w.(b := TopicCreated(w.b, name))
    case DeleteTopic(name) => AfterDelete(w, name)
    case CreateSubscription(name, on) => w.(b := SubscriptionCreated(w.b, name, on))
    case DeleteSubscription(name) => w.(b := SubscriptionDeleted(w.b, name))
    case Pull(sub) => AfterPull(w, Unary, sub)
    case Acknowledge(sub, ackIds) => AfterAck(w, sub, ackIds)
    case OpenStream(stream) => w.(streams := w.streams[stream := []])
    case StreamRequest(stream, request) => if stream in w.streams then AfterRequest(w, stream, request) else w
    case StreamTick(stream, sent) => if stream in w.streams then AfterTick(w, stream, sent) else w
    case CloseStream(stream) => w.(streams := w.streams - {stream})
  }

  ghost predicate Legal(w: World, steps: seq<Step>)
    decreases |steps|
  {
    steps == [] || (Enabled(w, steps[0]) && Legal(Apply(w, steps[0]), steps[1..]))
  }

  ghost function Run(w: World, steps: seq<Step>): World
    requires Legal(w, steps)
    decreases |steps|
  {
    if steps == [] then w else Run(Apply(w, steps[0]), steps[1..])
  }

  // The invariant.

  /** A queue is the topic's log since its last deletion without what was acked. */
  ghost predicate TopicInv(w: World, t: Bytes) {
    && w.Base(t) <= |w.Log(t)|
    && DistinctIds(w.Log(t)) && IssuedFor(w.Log(t), t, w.b.origin)
    && w.Gone(t) <= w.b.origin.Keys
    && w.b.Queue(t) == Drop(w.Log(t)[w.Base(t)..], w.Gone(t))
  }

  /** What was published after the last pull is undelivered. */
  ghost predicate Unseen(log: seq<PubsubMessage>, cut: nat, seen: set<Bytes>) {
    cut <= |log| && forall i :: cut <= i < |log| ==> log[i].messageId !in seen
  }

  /** What the last pull could return was delivered. */
  ghost predicate CaughtUp(log: seq<PubsubMessage>, base: nat, cut: nat, gone: set<Bytes>, seen: set<Bytes>) {
    cut <= |log| && forall i :: base <= i < cut && log[i].messageId !in gone ==> log[i].messageId in seen
  }

  ghost predicate PairInv(w: World, s: Bytes, t: Bytes) {
    && Unseen(w.Log(t), w.Cut(s, t), w.b.Seen(s))
    && CaughtUp(w.Log(t), w.Base(t), w.Cut(s, t), w.Gone(t), w.b.Seen(s))
    && w.Got(s, t) == Keep(w.Log(t), w.b.Seen(s))
  }

  /** No message id was handed to the same subscription name twice. */
  ghost predicate HandedOnce(w: World) {
    && (forall i :: 0 <= i < |w.handouts| ==> w.handouts[i].message.messageId in w.b.Seen(w.handouts[i].sub))
    && (forall i, j :: 0 <= i < j < |w.handouts| && w.handouts[i].sub == w.handouts[j].sub
          ==> w.handouts[i].message.messageId != w.handouts[j].message.messageId)
  }

  ghost predicate WorldInv(w: World) {
    && Inv(w.b)
    && (forall t :: TopicInv(w, t))
    && (forall s, t :: PairInv(w, s, t))
    && HandedOnce(w)
  }

  // Filters over logs.

  lemma {:induction false} FiltersOfConcat(a: seq<PubsubMessage>, b: seq<PubsubMessage>, ids: set<Bytes>)
    ensures Keep(a + b, ids) == Keep(a, ids) + Keep(b, ids)
    ensures Drop(a + b, ids) == Drop(a, ids) + Drop(b, ids)
  {
    if b == [] {
      assert a + b == a;
    } else {
      assert (a + b)[..|a + b| - 1] == a + b[..|b| - 1];
      FiltersOfConcat(a, b[..|b| - 1], ids);
    }
  }

  lemma {:induction false} FiltersAgree(q: seq<PubsubMessage>, x: set<Bytes>, y: set<Bytes>)
    requires forall i :: 0 <= i < |q| ==> (q[i].messageId in x <==> q[i].messageId in y)
    ensures Keep(q, x) == Keep(q, y) && Drop(q, x) == Drop(q, y)
  {
    if q != [] {
      FiltersAgree(q[..|q| - 1], x, y);
    }
  }

  lemma {:induction false} DropTwice(q: seq<PubsubMessage>, x: set<Bytes>, y: set<Bytes>)
    ensures Drop(Drop(q, x), y) == Drop(q, x + y)
  {
    if q != [] {
      DropTwice(q[..|q| - 1], x, y);
      var init, m := Drop(q[..|q| - 1], x), q[|q| - 1];
      assert (init + [m])[..|init|] == init;
    }
  }

  lemma {:induction false} KeepIsDrop(q: seq<PubsubMessage>, x: set<Bytes>, y: set<Bytes>)
    requires forall i :: 0 <= i < |q| ==> (q[i].messageId in x <==> q[i].messageId !in y)
    ensures Keep(q, x) == Drop(q, y)
  {
    if q != [] {
      KeepIsDrop(q[..|q| - 1], x, y);
    }
  }

  lemma InSuffix(log: seq<PubsubMessage>, base: nat, i: nat)
    requires base <= |log| && i < |log| && DistinctIds(log)
    ensures log[i].messageId in Ids(log[base..]) <==> i >= base
  {
    var suffix := log[base..];
    forall j | 0 <= j < |suffix| ensures suffix[j].messageId == log[i].messageId ==> i == base + j {
      assert suffix[j] == log[base + j];
    }
    if i >= base {
      assert suffix[i - base] == log[i];
    }
  }

  /** Later of two log positions. */
  function Max(a: nat, b: nat): nat { if a < b then b else a }

  /** What a queue built from a log holds. */
  lemma InQueue(log: seq<PubsubMessage>, base: nat, gone: set<Bytes>, i: nat)
    requires base <= |log| && i < |log| && DistinctIds(log)
    ensures log[i].messageId in Ids(Drop(log[base..], gone)) <==> i >= base && log[i].messageId !in gone
  {
    DropIds(log[base..], gone);
    InSuffix(log, base, i);
  }

  /**
   Pulling, in terms of the log: what is pulled is what was published after
   both the last pull and the last deletion and not acked since.
   */
  lemma PullTakesNew(log: seq<PubsubMessage>, base: nat, cut: nat, gone: set<Bytes>, seen: set<Bytes>)
    requires base <= |log| && Unseen(log, cut, seen) && CaughtUp(log, base, cut, gone, seen)
    ensures Drop(Drop(log[base..], gone), seen) == Drop(log[Max(base, cut)..], gone)
  {
    var k := Max(base, cut);
    var mid, new_ := log[base..k], log[k..];
    assert log[base..] == mid + new_;
    DropTwice(log[base..], gone, seen);
    FiltersOfConcat(mid, new_, gone + seen);
    KeepAll(mid, gone + seen);
    FiltersAgree(new_, gone + seen, gone);
  }

  /** The pulled ids are those of the queue that the log leaves. */
  ghost predicate QueueIds(log: seq<PubsubMessage>, base: nat, gone: set<Bytes>, ids: set<Bytes>) {
    forall i :: 0 <= i < |log| ==> (log[i].messageId in ids <==> i >= base && log[i].messageId !in gone)
  }

  /** Afterwards the delivered part of the log is what it was, followed by what was pulled. */
  lemma PullExtends(log: seq<PubsubMessage>, base: nat, cut: nat, gone: set<Bytes>, seen: set<Bytes>, ids: set<Bytes>)
    requires base <= |log| && Unseen(log, cut, seen) && CaughtUp(log, base, cut, gone, seen) && QueueIds(log, base, gone, ids)
    ensures Keep(log, seen + ids) == Keep(log, seen) + Drop(log[Max(base, cut)..], gone)
  {
    var k := Max(base, cut);
    PullOldPart(log, k, base, cut, gone, seen, ids);
    PullNewPart(log, k, base, cut, gone, seen, ids);
    KeepOfSplit(log, k, seen);
    KeepOfSplit(log, k, seen + ids);
  }

  lemma KeepOfSplit(q: seq<PubsubMessage>, k: nat, ids: set<Bytes>)
    requires k <= |q|
    ensures Keep(q, ids) == Keep(q[..k], ids) + Keep(q[k..], ids)
  {
    assert q == q[..k] + q[k..];
    FiltersOfConcat(q[..k], q[k..], ids);
  }

  lemma PullOldPart(log: seq<PubsubMessage>, k: nat, base: nat, cut: nat, gone: set<Bytes>, seen: set<Bytes>, ids: set<Bytes>)
    requires CaughtUp(log, base, cut, gone, seen) && QueueIds(log, base, gone, ids)
    requires k == Max(base, cut) <= |log|
    ensures Keep(log[..k], seen + ids) == Keep(log[..k], seen)
  {
    var old_ := log[..k];
    forall i | 0 <= i < |old_| ensures old_[i].messageId in seen <==> old_[i].messageId in seen + ids {
      assert old_[i] == log[i];
    }
    FiltersAgree(old_, seen, seen + ids);
  }

  lemma PullNewPart(log: seq<PubsubMessage>, k: nat, base: nat, cut: nat, gone: set<Bytes>, seen: set<Bytes>, ids: set<Bytes>)
    requires Unseen(log, cut, seen) && QueueIds(log, base, gone, ids)
    requires k == Max(base, cut) <= |log|
    ensures Keep(log[k..], seen) == [] && Keep(log[k..], seen + ids) == Drop(log[k..], gone)
  {
    var new_ := log[k..];
    forall i | 0 <= i < |new_|
      ensures new_[i].messageId !in seen && (new_[i].messageId in seen + ids <==> new_[i].messageId !in gone)
    {
      assert new_[i] == log[k + i];
    }
    DropAll(new_, seen);
    KeepIsDrop(new_, seen + ids, gone);
  }

  /** Publishing fresh messages appends them to whatever the log leaves in the queue. */
  lemma PublishAppends(log: seq<PubsubMessage>, base: nat, gone: set<Bytes>, new_: seq<PubsubMessage>)
    requires base <= |log| && forall i :: 0 <= i < |new_| ==> new_[i].messageId !in gone
    ensures Drop((log + new_)[base..], gone) == Drop(log[base..], gone) + new_
  {
    assert (log + new_)[base..] == log[base..] + new_;
    FiltersOfConcat(log[base..], new_, gone);
    DropAll(new_, gone);
  }

  // Each transition keeps the invariant.

  ghost predicate SameHistory(v: World, w: World) {
    && (v.log, v.base, v.gone, v.cut, v.handouts) == (w.log, w.base, w.gone, w.cut, w.handouts)
    && v.b.origin == w.b.origin
    && (forall t :: v.b.Queue(t) == w.b.Queue(t))
    && (forall s :: v.b.Seen(s) == w.b.Seen(s))
  }

  lemma SameHistoryKeepsInv(v: World, w: World)
    requires WorldInv(v) && SameHistory(v, w) && Inv(w.b)
    ensures WorldInv(w)
  {
    forall t ensures TopicInv(w, t) {
      assert TopicInv(v, t);
    }
    forall s, t ensures PairInv(w, s, t) {
      assert PairInv(v, s, t);
    }
  }

  lemma PublishTopic(w: World, topic: Bytes, messages: seq<PubsubMessage>, ids: seq<Bytes>, t: Bytes)
    requires TopicInv(w, t) && |ids| == |messages| && Fresh(w.b, ids)
    ensures TopicInv(AfterPublish(w, topic, messages, ids), t)
  {
    var v := AfterPublish(w, topic, messages, ids);
    StampIsFresh(w.b, topic, messages, ids);
    assert v.Base(t) == w.Base(t) && v.Gone(t) == w.Gone(t);
    if t == topic {
      assert v.Log(t) == w.Log(t) + Stamp(messages, ids) && v.b.Queue(t) == w.b.Queue(t) + Stamp(messages, ids);
      FreshLog(w.Log(t), Stamp(messages, ids), topic, w.b.origin, AfterPublish(w, topic, messages, ids).b.origin);
      PublishAppends(w.Log(t), w.Base(t), w.Gone(t), Stamp(messages, ids));
    } else {
      assert v.Log(t) == w.Log(t) && v.b.Queue(t) == w.b.Queue(t);
    }
  }

  lemma UnseenAppended(log: seq<PubsubMessage>, new_: seq<PubsubMessage>, base: nat, cut: nat, gone: set<Bytes>, seen: set<Bytes>)
    requires Unseen(log, cut, seen) && CaughtUp(log, base, cut, gone, seen)
    requires forall i :: 0 <= i < |new_| ==> new_[i].messageId !in seen
    ensures Unseen(log + new_, cut, seen) && CaughtUp(log + new_, base, cut, gone, seen)
    ensures Keep(log + new_, seen) == Keep(log, seen)
  {
    FiltersOfConcat(log, new_, seen);
    DropAll(new_, seen);
  }

  lemma PublishPair(w: World, topic: Bytes, messages: seq<PubsubMessage>, ids: seq<Bytes>, s: Bytes, t: Bytes)
    requires PairInv(w, s, t) && w.b.Seen(s) <= w.b.origin.Keys && |ids| == |messages| && Fresh(w.b, ids)
    ensures PairInv(AfterPublish(w, topic, messages, ids), s, t)
  {
    var v := AfterPublish(w, topic, messages, ids);
    assert v.b.Seen(s) == w.b.Seen(s) && v.Cut(s, t) == w.Cut(s, t) && v.Base(t) == w.Base(t) && v.Gone(t) == w.Gone(t);
    assert v.Got(s, t) == w.Got(s, t);
    if t == topic {
      StampIsFresh(w.b, topic, messages, ids);
      UnseenAppended(w.Log(t), Stamp(messages, ids), w.Base(t), w.Cut(s, t), w.Gone(t), w.b.Seen(s));
    } else {
      assert v.Log(t) == w.Log(t);
    }
  }

  lemma PublishKeepsInv(w: World, topic: Bytes, messages: seq<PubsubMessage>, ids: seq<Bytes>)
    requires WorldInv(w) && |ids| == |messages| && Fresh(w.b, ids)
    ensures WorldInv(AfterPublish(w, topic, messages, ids))
  {
    PublishedInv(w.b, topic, messages, ids);
    forall t ensures TopicInv(AfterPublish(w, topic, messages, ids), t) {
      assert TopicInv(w, t);
      PublishTopic(w, topic, messages, ids, t);
    }
    forall s, t ensures PairInv(AfterPublish(w, topic, messages, ids), s, t) {
      assert PairInv(w, s, t) && w.b.Seen(s) <= w.b.origin.Keys;
      PublishPair(w, topic, messages, ids, s, t);
    }
  }

  lemma DeleteTopicInv(w: World, name: Bytes, t: Bytes)
    requires TopicInv(w, t)
    ensures TopicInv(AfterDelete(w, name), t)
  {
    var v := AfterDelete(w, name);
    if name in w.b.topics && t == name {
      assert w.Log(t)[|w.Log(t)|..] == [];
    } else {
      assert v.b.Queue(t) == w.b.Queue(t) && v.Base(t) == w.Base(t);
    }
  }

  lemma DeletePair(w: World, name: Bytes, s: Bytes, t: Bytes)
    requires PairInv(w, s, t) && TopicInv(w, t)
    ensures PairInv(AfterDelete(w, name), s, t)
  {
    var v := AfterDelete(w, name);
    assert v.b.Seen(s) == w.b.Seen(s) && v.Cut(s, t) == w.Cut(s, t) && v.Gone(t) == w.Gone(t) && v.Log(t) == w.Log(t);
    assert v.Got(s, t) == w.Got(s, t) && w.Base(t) <= v.Base(t);
  }

  lemma DeleteKeepsInv(w: World, name: Bytes)
    requires WorldInv(w)
    ensures WorldInv(AfterDelete(w, name))
  {
    TopicDeletedInv(w.b, name);
    forall t ensures TopicInv(AfterDelete(w, name), t) {
      assert TopicInv(w, t);
      DeleteTopicInv(w, name, t);
    }
    forall s, t ensures PairInv(AfterDelete(w, name), s, t) {
      assert PairInv(w, s, t) && TopicInv(w, t);
      DeletePair(w, name, s, t);
    }
  }

  /** Acking drops from the queue the published messages named, and those count as gone. */
  lemma AckedQueue(log: seq<PubsubMessage>, base: nat, gone: set<Bytes>, acked: set<Bytes>)
    requires base <= |log|
    ensures Drop(Drop(log[base..], gone), acked) == Drop(log[base..], gone + acked * Ids(log))
  {
    var rest := log[base..];
    DropTwice(rest, gone, acked);
    forall i | 0 <= i < |rest| ensures rest[i].messageId in Ids(log) {
      assert rest[i] == log[base + i];
    }
    FiltersAgree(rest, gone + acked, gone + acked * Ids(log));
  }

  lemma AckTopicInv(w: World, sub: Bytes, ackIds: seq<Bytes>, t: Bytes)
    requires TopicInv(w, t) && sub in w.b.subs
    ensures TopicInv(AfterAck(w, sub, ackIds), t)
  {
    var v := AfterAck(w, sub, ackIds);
    assert v.Log(t) == w.Log(t) && v.Base(t) == w.Base(t) && v.b.origin == w.b.origin;
    if t == w.b.subs[sub] {
      AckedQueue(w.Log(t), w.Base(t), w.Gone(t), AckSet(ackIds));
      assert Ids(w.Log(t)) <= w.b.origin.Keys;
    } else {
      assert v.b.Queue(t) == w.b.Queue(t) && v.Gone(t) == w.Gone(t);
    }
  }

  lemma AckPair(w: World, sub: Bytes, ackIds: seq<Bytes>, s: Bytes, t: Bytes)
    requires PairInv(w, s, t) && sub in w.b.subs
    ensures PairInv(AfterAck(w, sub, ackIds), s, t)
  {
    var v := AfterAck(w, sub, ackIds);
    assert v.b.Seen(s) == w.b.Seen(s) && v.Cut(s, t) == w.Cut(s, t) && v.Base(t) == w.Base(t) && v.Log(t) == w.Log(t);
    assert v.Got(s, t) == w.Got(s, t) && w.Gone(t) <= v.Gone(t);
  }

  lemma AckKeepsInv(w: World, sub: Bytes, ackIds: seq<Bytes>)
    requires WorldInv(w)
    ensures WorldInv(AfterAck(w, sub, ackIds))
  {
    AcknowledgedInv(w.b, sub, ackIds);
    if sub in w.b.subs {
      forall t ensures TopicInv(AfterAck(w, sub, ackIds), t) {
        assert TopicInv(w, t);
        AckTopicInv(w, sub, ackIds, t);
      }
      forall s, t ensures PairInv(AfterAck(w, sub, ackIds), s, t) {
        assert PairInv(w, s, t);
        AckPair(w, sub, ackIds, s, t);
      }
    }
  }

  lemma {:induction false} GotOfConcat(a: seq<Handout>, b: seq<Handout>, s: Bytes, t: Bytes)
    ensures GotFrom(a + b, s, t) == GotFrom(a, s, t) + GotFrom(b, s, t)
  {
    if b == [] {
      assert a + b == a;
    } else {
      assert (a + b)[..|a + b| - 1] == a + b[..|b| - 1];
      GotOfConcat(a, b[..|b| - 1], s, t);
    }
  }

  lemma {:induction false} GotOfHandouts(channel: Channel, sub: Bytes, topic: Bytes, ms: seq<PubsubMessage>, s: Bytes, t: Bytes)
    ensures GotFrom(HandoutsOf(channel, sub, topic, ms), s, t) == if s == sub && t == topic then ms else []
  {
    if ms != [] {
      var n := |ms| - 1;
      var hs := HandoutsOf(channel, sub, topic, ms);
      assert hs[..n] == HandoutsOf(channel, sub, topic, ms[..n]);
      GotOfHandouts(channel, sub, topic, ms[..n], s, t);
      assert ms == ms[..n] + [ms[n]];
    }
  }

  lemma PullGot(w: World, channel: Channel, sub: Bytes, s: Bytes, t: Bytes)
    requires sub in w.b.subs
    ensures AfterPull(w, channel, sub).Got(s, t)
         == w.Got(s, t) + if s == sub && t == w.b.subs[sub] then PullResult(w.b, sub) else []
  {
    GotOfConcat(w.handouts, HandoutsOf(channel, sub, w.b.subs[sub], PullResult(w.b, sub)), s, t);
    GotOfHandouts(channel, sub, w.b.subs[sub], PullResult(w.b, sub), s, t);
  }

  lemma PullOwnPair(w: World, channel: Channel, sub: Bytes)
    requires Inv(w.b) && sub in w.b.subs && PairInv(w, sub, w.b.subs[sub]) && TopicInv(w, w.b.subs[sub])
    ensures PairInv(AfterPull(w, channel, sub), sub, w.b.subs[sub])
  {
    var t := w.b.subs[sub];
    var v := AfterPull(w, channel, sub);
    var log, base, seen, ids := w.Log(t), w.Base(t), w.b.Seen(sub), Ids(w.b.Queue(t));
    PulledSeen(w, channel, sub);
    QueueIdsOfLog(log, base, w.Gone(t));
    PullGot(w, channel, sub, sub, t);
    PullTakesNew(log, base, w.Cut(sub, t), w.Gone(t), seen);
    PullExtends(log, base, w.Cut(sub, t), w.Gone(t), seen, ids);
    assert v.Log(t) == log && v.Cut(sub, t) == |log| && v.Base(t) == base && v.Gone(t) == w.Gone(t);
  }

  lemma QueueIdsOfLog(log: seq<PubsubMessage>, base: nat, gone: set<Bytes>)
    requires base <= |log| && DistinctIds(log)
    ensures QueueIds(log, base, gone, Ids(Drop(log[base..], gone)))
  {
    forall i | 0 <= i < |log|
      ensures log[i].messageId in Ids(Drop(log[base..], gone)) <==> i >= base && log[i].messageId !in gone
    {
      InQueue(log, base, gone, i);
    }
  }

  lemma PulledSeen(w: World, channel: Channel, sub: Bytes)
    requires Inv(w.b) && sub in w.b.subs
    ensures var v := AfterPull(w, channel, sub);
            && v.b.Seen(sub) == w.b.Seen(sub) + Ids(w.b.Queue(w.b.subs[sub]))
            && (forall s :: s != sub ==> v.b.Seen(s) == w.b.Seen(s))
  {
    PullKeepsQueues(w.b, sub);
  }

  /** Delivering ids of other messages changes nothing. */
  lemma OthersSeen(log: seq<PubsubMessage>, base: nat, cut: nat, gone: set<Bytes>, seen: set<Bytes>, ids: set<Bytes>)
    requires Unseen(log, cut, seen) && CaughtUp(log, base, cut, gone, seen)
    requires forall i :: 0 <= i < |log| ==> log[i].messageId !in ids
    ensures Unseen(log, cut, seen + ids) && CaughtUp(log, base, cut, gone, seen + ids)
    ensures Keep(log, seen + ids) == Keep(log, seen)
  {
    FiltersAgree(log, seen, seen + ids);
  }

  lemma OtherTopicsIds(log: seq<PubsubMessage>, t: Bytes, q: seq<PubsubMessage>, topic: Bytes, origin: map<Bytes, Bytes>)
    requires IssuedFor(log, t, origin) && IssuedFor(q, topic, origin) && t != topic
    ensures forall i :: 0 <= i < |log| ==> log[i].messageId !in Ids(q)
  {
  }

  lemma PullOtherPair(w: World, channel: Channel, sub: Bytes, s: Bytes, t: Bytes)
    requires Inv(w.b) && sub in w.b.subs && (s != sub || t != w.b.subs[sub]) && PairInv(w, s, t) && TopicInv(w, t)
    ensures PairInv(AfterPull(w, channel, sub), s, t)
  {
    var topic := w.b.subs[sub];
    var v := AfterPull(w, channel, sub);
    var log := w.Log(t);
    PulledSeen(w, channel, sub);
    PullGot(w, channel, sub, s, t);
    assert v.Log(t) == log && v.Cut(s, t) == w.Cut(s, t) && v.Base(t) == w.Base(t) && v.Gone(t) == w.Gone(t);
    if s == sub {
      assert IssuedFor(w.b.Queue(topic), topic, w.b.origin);
      OtherTopicsIds(log, t, w.b.Queue(topic), topic, w.b.origin);
      OthersSeen(log, w.Base(t), w.Cut(s, t), w.Gone(t), w.b.Seen(s), Ids(w.b.Queue(topic)));
    }
  }

  /** A pull returns distinct messages that were not delivered, and all are delivered afterwards. */
  lemma PullIsNew(b: State, sub: Bytes)
    requires Inv(b) && sub in b.subs
    ensures var r := PullResult(b, sub);
            && DistinctIds(r)
            && (forall i :: 0 <= i < |r| ==> r[i].messageId !in b.Seen(sub) && r[i].messageId in Pulled(b, sub).Seen(sub))
  {
    var q := b.Queue(b.subs[sub]);
    assert DistinctIds(q) && DeliveredPrefix(q, b.Seen(sub));
    KeepIsIn(q, b.Seen(sub));
    DropIds(q, b.Seen(sub));
    DropKeepsOrder(q, b.Seen(sub), b.Seen(sub));
    forall i | 0 <= i < |PullResult(b, sub)| ensures PullResult(b, sub)[i].messageId in Ids(q) {
      assert PullResult(b, sub)[i].messageId in Ids(PullResult(b, sub));
    }
  }

  lemma PullHandsOutOnce(w: World, channel: Channel, sub: Bytes)
    requires Inv(w.b) && HandedOnce(w) && sub in w.b.subs
    ensures HandedOnce(AfterPull(w, channel, sub))
  {
    PullIsNew(w.b, sub);
  }

  lemma PullKeepsInv(w: World, channel: Channel, sub: Bytes)
    requires WorldInv(w)
    ensures WorldInv(AfterPull(w, channel, sub))
  {
    if sub in w.b.subs {
      var v := AfterPull(w, channel, sub);
      PulledInv(w.b, sub);
      PullKeepsQueues(w.b, sub);
      forall t ensures TopicInv(v, t) {
        assert TopicInv(w, t);
      }
      forall s, t ensures PairInv(v, s, t) {
        assert PairInv(w, s, t) && TopicInv(w, t);
        if s == sub && t == w.b.subs[sub] {
          PullOwnPair(w, channel, sub);
        } else {
          PullOtherPair(w, channel, sub, s, t);
        }
      }
      PullHandsOutOnce(w, channel, sub);
    }
  }

  lemma StreamsKeepInv(w: World, streams: map<nat, Bytes>)
    requires WorldInv(w)
    ensures WorldInv(w.(streams := streams))
  {
    SameHistoryKeepsInv(w, w.(streams := streams));
  }

  lemma CreateTopicKeepsInv(w: World, name: Bytes)
    requires WorldInv(w)
    ensures WorldInv(w.(b := TopicCreated(w.b, name)))
  {
    TopicCreatedInv(w.b, name);
    SameHistoryKeepsInv(w, w.(b := TopicCreated(w.b, name)));
  }

  lemma SubscriptionsKeepInv(w: World, name: Bytes, on: Bytes)
    requires WorldInv(w)
    ensures WorldInv(w.(b := SubscriptionCreated(w.b, name, on))) && WorldInv(w.(b := SubscriptionDeleted(w.b, name)))
  {
    SubscriptionInv(w.b, name, on);
    SameHistoryKeepsInv(w, w.(b := SubscriptionCreated(w.b, name, on)));
    SameHistoryKeepsInv(w, w.(b := SubscriptionDeleted(w.b, name)));
  }

  /** Every step keeps the invariant. */
  lemma StepKeepsInv(w: World, step: Step)
    requires WorldInv(w) && Enabled(w, step)
    ensures WorldInv(Apply(w, step))
  {
    match step
    case Publish(topic, messages, ids) => PublishKeepsInv(w, topic, messages, ids);
    case CreateTopic(name) => CreateTopicKeepsInv(w, name);
    case DeleteTopic(name) => DeleteKeepsInv(w, name);
    case CreateSubscription(name, on) => SubscriptionsKeepInv(w, name, on);
    case DeleteSubscription(name) => SubscriptionsKeepInv(w, name, []);
    case Pull(sub) => PullKeepsInv(w, Unary, sub);
    case Acknowledge(sub, ackIds) => AckKeepsInv(w, sub, ackIds);
    case OpenStream(stream) => StreamsKeepInv(w, w.streams[stream := []]);
    case CloseStream(stream) => StreamsKeepInv(w, w.streams - {stream});
    case StreamRequest(stream, request) =>
      if stream in w.streams {
        RequestKeepsInv(w, stream, request);
      }
    case StreamTick(stream, sent) =>
      if stream in w.streams {
        TickKeepsInv(w, stream, sent);
      }
  }

  lemma RequestKeepsInv(w: World, stream: nat, request: AckRequest)
    requires WorldInv(w) && stream in w.streams
    ensures WorldInv(AfterRequest(w, stream, request))
  {
    var sub := Chosen(w, stream, request);
    var v := w.(streams := w.streams[stream := sub]);
    StreamsKeepInv(w, w.streams[stream := sub]);
    AckKeepsInv(v, sub, request.ackIds);
  }

  lemma TickKeepsInv(w: World, stream: nat, sent: bool)
    requires WorldInv(w) && stream in w.streams
    ensures WorldInv(AfterTick(w, stream, sent))
  {
    var sub := w.streams[stream];
    var v := AfterPull(w, Stream(stream), sub);
    PullKeepsInv(w, Stream(stream), sub);
    StreamsKeepInv(v, v.streams - {stream});
  }

  /** The invariant holds in every state that any run from the empty backend reaches. */
  lemma {:induction false} RunKeepsInv(w: World, steps: seq<Step>)
    requires WorldInv(w) && Legal(w, steps)
    ensures WorldInv(Run(w, steps))
    decreases |steps|
  {
    if steps != [] {
      StepKeepsInv(w, steps[0]);
      RunKeepsInv(Apply(w, steps[0]), steps[1..]);
    }
  }

  lemma StartInv()
    ensures WorldInv(START)
  {
    InitInv();
    assert forall t: Bytes :: START.Log(t) == [] && Drop([], START.Gone(t)) == [];
  }

  // What every run guarantees.

  /** `a` is obtained from `b` by leaving elements out. */
  ghost predicate IsSubsequence<T>(a: seq<T>, b: seq<T>) {
    exists at: seq<nat> :: PicksOut(at, a, b)
  }

  ghost predicate PicksOut<T>(at: seq<nat>, a: seq<T>, b: seq<T>) {
    && |at| == |a|
    && (forall i :: 0 <= i < |at| ==> at[i] < |b| && a[i] == b[at[i]])
    && (forall i, j :: 0 <= i < j < |at| ==> at[i] < at[j])
  }

  lemma {:induction false} KeepIsSubsequence(q: seq<PubsubMessage>, ids: set<Bytes>) returns (at: seq<nat>)
    ensures PicksOut(at, Keep(q, ids), q)
  {
    if q == [] {
      at := [];
    } else {
      var n := |q| - 1;
      at := KeepIsSubsequence(q[..n], ids);
      if q[n].messageId in ids {
        at := at + [n];
      }
    }
  }

  /**
   Whole-run delivery. What a subscription name receives from a topic, over all
   its pulls and streams, is an order-preserving subsequence of what was
   published there, and no id is handed to the same subscription name twice,
   so no message reaches two streams of one subscription.
   */
  lemma RunDelivers(steps: seq<Step>, s: Bytes, t: Bytes)
    requires Legal(START, steps)
    ensures var w := Run(START, steps);
            && IsSubsequence(w.Got(s, t), w.Log(t))
            && (forall i, j :: 0 <= i < j < |w.handouts| && w.handouts[i].sub == w.handouts[j].sub
                  ==> w.handouts[i].message.messageId != w.handouts[j].message.messageId)
  {
    StartInv();
    RunKeepsInv(START, steps);
    var w := Run(START, steps);
    assert PairInv(w, s, t);
    var at := KeepIsSubsequence(w.Log(t), w.b.Seen(s));
  }

  /**
   Conservation. In every reachable state a queue is the topic's log since its
   last deletion without the messages acked on it, and the delivered messages
   form a prefix of it, for every subscription name.
   */
  lemma RunConserves(steps: seq<Step>, s: Bytes, t: Bytes)
    requires Legal(START, steps)
    ensures var w := Run(START, steps);
            && w.Base(t) <= |w.Log(t)|
            && w.b.Queue(t) == Drop(w.Log(t)[w.Base(t)..], w.Gone(t))
            && DeliveredPrefix(w.b.Queue(t), w.b.Seen(s))
            && Keep(w.b.Queue(t), w.b.Seen(s)) + Drop(w.b.Queue(t), w.b.Seen(s)) == w.b.Queue(t)
  {
    StartInv();
    RunKeepsInv(START, steps);
    var w := Run(START, steps);
    assert TopicInv(w, t) && DeliveredPrefix(w.b.Queue(t), w.b.Seen(s));
    RebuildIsIdentity(w.b.Queue(t), w.b.Seen(s));
  }

  /**
   What a pull returns, exactly: the messages published after this
   subscription name's last pull on the topic and after the topic's last
   deletion, less those acked since, in publish order.
   */
  lemma PullReturnsExactly(steps: seq<Step>, s: Bytes)
    requires Legal(START, steps)
    ensures var w := Run(START, steps);
            s in w.b.subs ==>
              var t := w.b.subs[s];
              Max(w.Base(t), w.Cut(s, t)) <= |w.Log(t)|
              && PullResult(w.b, s) == Drop(w.Log(t)[Max(w.Base(t), w.Cut(s, t))..], w.Gone(t))
  {
    StartInv();
    RunKeepsInv(START, steps);
    var w := Run(START, steps);
    if s in w.b.subs {
      var t := w.b.subs[s];
      assert TopicInv(w, t) && PairInv(w, s, t);
      PullTakesNew(w.Log(t), w.Base(t), w.Cut(s, t), w.Gone(t), w.b.Seen(s));
    }
  }

  // A subscriber that acks only what it received.

  ghost predicate AcksOnlyReceived(w: World, sub: Bytes, ackIds: seq<Bytes>, s: Bytes, t: Bytes) {
    sub in w.b.subs && w.b.subs[sub] == t ==> AckSet(ackIds) * Ids(w.Log(t)) <= Ids(w.Got(s, t))
  }

  /** The step neither deletes `t` nor acks, on `t`, a message that `s` did not get from it. */
  ghost predicate Careful(w: World, step: Step, s: Bytes, t: Bytes) {
    match step
    case DeleteTopic(name) => name != t
    case Acknowledge(sub, ackIds) => AcksOnlyReceived(w, sub, ackIds, s, t)
    case StreamRequest(stream, request) =>
      stream in w.streams ==> AcksOnlyReceived(w, Chosen(w, stream, request), request.ackIds, s, t)
    case _ => true
  }

  ghost predicate CarefulRun(w: World, steps: seq<Step>, s: Bytes, t: Bytes)
    requires Legal(w, steps)
    decreases |steps|
  {
    steps == [] || (Careful(w, steps[0], s, t) && CarefulRun(Apply(w, steps[0]), steps[1..], s, t))
  }

  ghost predicate NothingLost(w: World, s: Bytes, t: Bytes) {
    w.Base(t) == 0 && w.Gone(t) <= w.b.Seen(s)
  }

  lemma CarefulAck(w: World, sub: Bytes, ackIds: seq<Bytes>, s: Bytes, t: Bytes)
    requires WorldInv(w) && NothingLost(w, s, t) && AcksOnlyReceived(w, sub, ackIds, s, t)
    ensures NothingLost(AfterAck(w, sub, ackIds), s, t)
  {
    assert PairInv(w, s, t);
    KeepIsIn(w.Log(t), w.b.Seen(s));
    assert Ids(w.Got(s, t)) <= w.b.Seen(s);
  }

  lemma CarefulPull(w: World, channel: Channel, sub: Bytes, s: Bytes, t: Bytes)
    requires Inv(w.b) && NothingLost(w, s, t)
    ensures NothingLost(AfterPull(w, channel, sub), s, t)
  {
    PullKeepsQueues(w.b, sub);
  }

  lemma CarefulStep(w: World, step: Step, s: Bytes, t: Bytes)
    requires WorldInv(w) && NothingLost(w, s, t) && Enabled(w, step) && Careful(w, step, s, t)
    ensures NothingLost(Apply(w, step), s, t)
  {
    match step
    case Acknowledge(sub, ackIds) => CarefulAck(w, sub, ackIds, s, t);
    case StreamRequest(stream, request) =>
      if stream in w.streams {
        var sub := Chosen(w, stream, request);
        var v := w.(streams := w.streams[stream := sub]);
        StreamsKeepInv(w, w.streams[stream := sub]);
        CarefulAck(v, sub, request.ackIds, s, t);
      }
    case Pull(sub) => CarefulPull(w, Unary, sub, s, t);
    case StreamTick(stream, sent) =>
      if stream in w.streams {
        CarefulPull(w, Stream(stream), w.streams[stream], s, t);
      }
    case _ =>
  }

  lemma {:induction false} CarefulRunLosesNothing(w: World, steps: seq<Step>, s: Bytes, t: Bytes)
    requires WorldInv(w) && NothingLost(w, s, t) && Legal(w, steps) && CarefulRun(w, steps, s, t)
    ensures WorldInv(Run(w, steps)) && NothingLost(Run(w, steps), s, t)
    decreases |steps|
  {
    if steps != [] {
      StepKeepsInv(w, steps[0]);
      CarefulStep(w, steps[0], s, t);
      CarefulRunLosesNothing(Apply(w, steps[0]), steps[1..], s, t);
    }
  }

  lemma UpToDateLog(log: seq<PubsubMessage>, cut: nat, gone: set<Bytes>, seen: set<Bytes>)
    requires Unseen(log, cut, seen) && CaughtUp(log, 0, cut, gone, seen) && gone <= seen
    ensures Keep(log, seen) == log[..cut] && Drop(log[cut..], gone) == log[cut..]
  {
    KeepOfSplit(log, cut, seen);
    forall i | 0 <= i < cut ensures log[..cut][i].messageId in seen {
      assert log[..cut][i] == log[i];
    }
    forall i | 0 <= i < |log| - cut ensures log[cut..][i].messageId !in seen {
      assert log[cut..][i] == log[cut + i];
    }
    KeepAll(log[..cut], seen);
    DropAll(log[cut..], seen);
    DropAll(log[cut..], gone);
  }

  lemma UpToDate(w: World, s: Bytes, t: Bytes)
    requires WorldInv(w) && NothingLost(w, s, t)
    ensures w.Cut(s, t) <= |w.Log(t)| && w.Got(s, t) == w.Log(t)[..w.Cut(s, t)]
    ensures s in w.b.subs && w.b.subs[s] == t ==> PullResult(w.b, s) == w.Log(t)[w.Cut(s, t)..]
  {
    assert PairInv(w, s, t) && TopicInv(w, t);
    UpToDateLog(w.Log(t), w.Cut(s, t), w.Gone(t), w.b.Seen(s));
    PullTakesNew(w.Log(t), 0, w.Cut(s, t), w.Gone(t), w.b.Seen(s));
    assert w.Log(t)[0..] == w.Log(t);
  }

  /**
   Exactly once. When the topic is not deleted and nothing is acked on it but
   what `s` received, `s` has been given everything published up to its last
   pull, each message once and in order, and its next pull returns everything
   published since: every message is returned by the first pull after it.
   */
  lemma ExactlyOnce(steps: seq<Step>, s: Bytes, t: Bytes)
    requires Legal(START, steps) && CarefulRun(START, steps, s, t)
    ensures var w := Run(START, steps);
            && w.Cut(s, t) <= |w.Log(t)|
            && w.Got(s, t) == w.Log(t)[..w.Cut(s, t)]
            && (s in w.b.subs && w.b.subs[s] == t ==> PullResult(w.b, s) == w.Log(t)[w.Cut(s, t)..])
  {
    StartInv();
    CarefulRunLosesNothing(START, steps, s, t);
    UpToDate(Run(START, steps), s, t);
  }

  ghost predicate PullsOn(w: World, step: Step, s: Bytes, t: Bytes) {
    && s in w.b.subs && w.b.subs[s] == t
    && (step == Pull(s) || (step.StreamTick? && step.stream in w.streams && w.streams[step.stream] == s))
  }

  ghost predicate NoPull(w: World, steps: seq<Step>, s: Bytes, t: Bytes)
    requires Legal(w, steps)
    decreases |steps|
  {
    steps == [] || (!PullsOn(w, steps[0], s, t) && NoPull(Apply(w, steps[0]), steps[1..], s, t))
  }

  ghost predicate MarkKept(v: World, w: World, s: Bytes, t: Bytes) {
    w.Cut(s, t) == v.Cut(s, t) && v.Log(t) <= w.Log(t)
  }

  lemma PublishKeepsMark(w: World, topic: Bytes, messages: seq<PubsubMessage>, ids: seq<Bytes>, s: Bytes, t: Bytes)
    requires |ids| == |messages|
    ensures MarkKept(w, AfterPublish(w, topic, messages, ids), s, t)
  {
  }

  lemma DeleteKeepsMark(w: World, name: Bytes, s: Bytes, t: Bytes)
    ensures MarkKept(w, AfterDelete(w, name), s, t)
  {
  }

  lemma AckKeepsMark(w: World, sub: Bytes, ackIds: seq<Bytes>, s: Bytes, t: Bytes)
    ensures MarkKept(w, AfterAck(w, sub, ackIds), s, t)
  {
  }

  lemma PullKeepsMark(w: World, channel: Channel, sub: Bytes, s: Bytes, t: Bytes)
    requires !(sub in w.b.subs && sub == s && w.b.subs[sub] == t)
    ensures MarkKept(w, AfterPull(w, channel, sub), s, t)
  {
  }

  lemma RequestKeepsMark(w: World, stream: nat, request: AckRequest, s: Bytes, t: Bytes)
    requires stream in w.streams
    ensures MarkKept(w, AfterRequest(w, stream, request), s, t)
  {
    var sub := Chosen(w, stream, request);
    AckKeepsMark(w.(streams := w.streams[stream := sub]), sub, request.ackIds, s, t);
  }

  lemma MarkStaysStep(w: World, step: Step, s: Bytes, t: Bytes)
    requires Enabled(w, step) && !PullsOn(w, step, s, t)
    ensures MarkKept(w, Apply(w, step), s, t)
  {
    match step
    case Publish(topic, messages, ids) => PublishKeepsMark(w, topic, messages, ids, s, t);
    case DeleteTopic(name) => DeleteKeepsMark(w, name, s, t);
    case Pull(sub) => PullKeepsMark(w, Unary, sub, s, t);
    case Acknowledge(sub, ackIds) => AckKeepsMark(w, sub, ackIds, s, t);
    case StreamRequest(stream, request) =>
      if stream in w.streams {
        RequestKeepsMark(w, stream, request, s, t);
      }
    case StreamTick(stream, sent) =>
      if stream in w.streams {
        PullKeepsMark(w, Stream(stream), w.streams[stream], s, t);
      }
    case _ =>
  }

  lemma {:induction false} MarkStays(w: World, steps: seq<Step>, s: Bytes, t: Bytes)
    requires Legal(w, steps) && NoPull(w, steps, s, t)
    ensures Run(w, steps).Cut(s, t) == w.Cut(s, t) && w.Log(t) <= Run(w, steps).Log(t)
    decreases |steps|
  {
    if steps != [] {
      MarkStaysStep(w, steps[0], s, t);
      MarkStays(Apply(w, steps[0]), steps[1..], s, t);
    }
  }

  /**
   Every message is returned by the first pull after it: a message published
   but not pulled yet comes back, at its place, from the next pull of `s` on
   `t`, however many other steps a careful run takes in between.
   */
  lemma NextPullReturnsIt(w: World, steps: seq<Step>, s: Bytes, t: Bytes, p: nat)
    requires WorldInv(w) && NothingLost(w, s, t)
    requires Legal(w, steps) && CarefulRun(w, steps, s, t) && NoPull(w, steps, s, t)
    requires w.Cut(s, t) <= p < |w.Log(t)|
    ensures var b := Run(w, steps).b;
            s in b.subs && b.subs[s] == t ==>
              var k := p - w.Cut(s, t); k < |PullResult(b, s)| && PullResult(b, s)[k] == w.Log(t)[p]
  {
    CarefulRunLosesNothing(w, steps, s, t);
    UpToDate(Run(w, steps), s, t);
    MarkStays(w, steps, s, t);
  }
  // One subscription's acknowledgement counts for all.

  lemma {:induction false} KeepIds(q: seq<PubsubMessage>, ids: set<Bytes>)
    ensures Ids(Keep(q, ids)) == Ids(q) * ids
  {
    if q != [] {
      var n := |q| - 1;
      KeepIds(q[..n], ids);
      assert q == q[..n] + [q[n]];
      IdsOfConcat(q[..n], [q[n]]);
      IdsOfConcat(Keep(q[..n], ids), [q[n]]);
    }
  }

  /**
   What reaches a subscription. In every reachable state, a message published
   to its topic was given to this subscription name or will be by its next
   pull exactly when it was delivered to it, or neither fell to a deletion of
   the topic nor was acked, through whatever subscription.
   */
  lemma ReachesSubscription(steps: seq<Step>, s: Bytes, t: Bytes, p: nat)
    requires Legal(START, steps)
    ensures var w := Run(START, steps);
            s in w.b.subs && w.b.subs[s] == t && p < |w.Log(t)| ==>
              var id := w.Log(t)[p].messageId;
              id in Ids(w.Got(s, t)) + Ids(PullResult(w.b, s))
              <==> id in w.b.Seen(s) || (p >= w.Base(t) && id !in w.Gone(t))
  {
    StartInv();
    RunKeepsInv(START, steps);
    var w := Run(START, steps);
    if s in w.b.subs && w.b.subs[s] == t && p < |w.Log(t)| {
      assert TopicInv(w, t) && PairInv(w, s, t);
      assert w.Log(t)[p].messageId in Ids(w.Log(t));
      KeepIds(w.Log(t), w.b.Seen(s));
      DropIds(w.b.Queue(t), w.b.Seen(s));
      InQueue(w.Log(t), w.Base(t), w.Gone(t), p);
    }
  }

  lemma FirstStep(w: World, step: Step, steps: seq<Step>)
    requires Enabled(w, step) && Legal(Apply(w, step), steps)
    ensures Legal(w, [step] + steps) && Run(w, [step] + steps) == Run(Apply(w, step), steps)
  {
    assert ([step] + steps)[1..] == steps;
  }

  /** A topic with two subscriptions; the first one pulls what is published and acks. */
  function OneAcks(t: Bytes, s: Bytes, other: Bytes, ms: seq<PubsubMessage>, ids: seq<Bytes>, ackIds: seq<Bytes>): seq<Step> {
    [CreateSubscription(s, t)] + ([CreateSubscription(other, t)] + ([Publish(t, ms, ids)]
    + ([Pull(s)] + [Acknowledge(s, ackIds)])))
  }

  function TwoSubscribed(t: Bytes, s: Bytes, other: Bytes): World {
    START.(b := SubscriptionCreated(SubscriptionCreated(EMPTY, s, t), other, t))
  }

  lemma TwoSteps(w: World, a: Step, b: Step)
    requires Enabled(w, a) && Enabled(Apply(w, a), b)
    ensures Legal(w, [a] + [b]) && Run(w, [a] + [b]) == Apply(Apply(w, a), b)
  {
    var v := Apply(w, a);
    assert Run(Apply(v, b), []) == Apply(v, b);
    FirstStep(v, b, []);
    assert [b] + [] == [b];
    FirstStep(w, a, [b]);
  }

  lemma FiveSteps(w: World, a: Step, b: Step, c: Step, d: Step, e: Step, v: World, x: World, y: World)
    requires Enabled(w, a) && Enabled(Apply(w, a), b) && Apply(Apply(w, a), b) == v
    requires Enabled(v, c) && Apply(v, c) == x && Enabled(x, d) && Apply(x, d) == y && Enabled(y, e)
    ensures var steps := [a] + ([b] + ([c] + ([d] + [e]))); Legal(w, steps) && Run(w, steps) == Apply(y, e)
  {
    TwoSteps(x, d, e);
    FirstStep(v, c, [d] + [e]);
    FirstStep(Apply(w, a), b, [c] + ([d] + [e]));
    FirstStep(w, a, [b] + ([c] + ([d] + [e])));
  }

  lemma TwoSubscribe(t: Bytes, s: Bytes, other: Bytes)
    ensures Apply(Apply(START, CreateSubscription(s, t)), CreateSubscription(other, t)) == TwoSubscribed(t, s, other)
  {
  }

  lemma FirstPublish(t: Bytes, s: Bytes, other: Bytes, ms: seq<PubsubMessage>, ids: seq<Bytes>)
    requires |ids| == |ms| && Fresh(EMPTY, ids)
    ensures Enabled(TwoSubscribed(t, s, other), Publish(t, ms, ids))
  {
  }

  lemma StepsAre(w: World, t: Bytes, ms: seq<PubsubMessage>, ids: seq<Bytes>, s: Bytes, ackIds: seq<Bytes>)
    requires |ids| == |ms|
    ensures Apply(w, Publish(t, ms, ids)) == AfterPublish(w, t, ms, ids)
    ensures Apply(w, Pull(s)) == AfterPull(w, Unary, s) && Enabled(w, Pull(s))
    ensures Apply(w, Acknowledge(s, ackIds)) == AfterAck(w, s, ackIds) && Enabled(w, Acknowledge(s, ackIds))
  {
  }

  lemma OneAcksRun(t: Bytes, s: Bytes, other: Bytes, ms: seq<PubsubMessage>, ids: seq<Bytes>, ackIds: seq<Bytes>)
    requires |ids| == |ms| && Fresh(EMPTY, ids)
    ensures var steps := OneAcks(t, s, other, ms, ids, ackIds);
            Legal(START, steps) &&
            Run(START, steps) == AfterAck(AfterPull(AfterPublish(TwoSubscribed(t, s, other), t, ms, ids), Unary, s), s, ackIds)
  {
    var w := TwoSubscribed(t, s, other);
    var x := AfterPublish(w, t, ms, ids);
    TwoSubscribe(t, s, other);
    FirstPublish(t, s, other, ms, ids);
    StepsAre(w, t, ms, ids, s, ackIds);
    StepsAre(x, t, ms, ids, s, ackIds);
    StepsAre(AfterPull(x, Unary, s), t, ms, ids, s, ackIds);
    FiveSteps(START, CreateSubscription(s, t), CreateSubscription(other, t), Publish(t, ms, ids), Pull(s),
              Acknowledge(s, ackIds), w, x, AfterPull(x, Unary, s));
  }

  /** It does happen: the other subscription never gets the message. */
  lemma AckRemovesForAll(t: Bytes, s: Bytes, other: Bytes, m: PubsubMessage, id: Bytes)
    requires s != other && PlainId(id)
    ensures var steps := OneAcks(t, s, other, [m], [id], [id + ACK_SUFFIX]);
            Legal(START, steps) &&
            var w := Run(START, steps);
            && w.Log(t) == [m.(messageId := id)] && other in w.b.subs && w.b.subs[other] == t
            && w.Got(s, t) == w.Log(t)
            && w.Got(other, t) == [] && PullResult(w.b, other) == []
  {
    OneAcksRun(t, s, other, [m], [id], [id + ACK_SUFFIX]);
    OneMessagePulledAndAcked(TwoSubscribed(t, s, other), t, s, other, m, id);
  }

  lemma OnePublished(w: World, t: Bytes, m: PubsubMessage, id: Bytes)
    requires w.Log(t) == [] && w.b.Queue(t) == []
    ensures var v, x := AfterPublish(w, t, [m], [id]), m.(messageId := id);
            && v.Log(t) == [x] && v.b.Queue(t) == [x]
            && (v.b.subs, v.b.delivered, v.handouts) == (w.b.subs, w.b.delivered, w.handouts)
  {
    assert Stamp([m], [id]) == [m.(messageId := id)];
  }

  lemma OnePulled(w: World, t: Bytes, s: Bytes, other: Bytes, x: PubsubMessage)
    requires s != other && s in w.b.subs && w.b.subs[s] == t
    requires w.b.Queue(t) == [x] && w.b.Seen(s) == {} && w.handouts == []
    ensures var v := AfterPull(w, Unary, s);
            && v.log == w.log && v.b.subs == w.b.subs && v.b.Queue(t) == [x]
            && v.Got(s, t) == [x] && v.Got(other, t) == []
  {
    DropAll([x], {});
    assert PullResult(w.b, s) == [x];
    PullGot(w, Unary, s, s, t);
    PullGot(w, Unary, s, other, t);
    assert [] + [x] == [x];
  }

  lemma OneAcked(w: World, t: Bytes, s: Bytes, x: PubsubMessage)
    requires PlainId(x.messageId) && s in w.b.subs && w.b.subs[s] == t && w.b.Queue(t) == [x]
    ensures var v := AfterAck(w, s, [x.messageId + ACK_SUFFIX]);
            v.log == w.log && v.b.subs == w.b.subs && v.b.Queue(t) == [] && v.handouts == w.handouts
  {
    var acks := [x.messageId + ACK_SUFFIX];
    AckIdNamesMessage(x.messageId, acks[0]);
    assert x.messageId in AckSet(acks);
    KeepAll([x], AckSet(acks));
  }

  lemma OneMessagePulledAndAcked(w: World, t: Bytes, s: Bytes, other: Bytes, m: PubsubMessage, id: Bytes)
    requires s != other && PlainId(id) && s in w.b.subs && w.b.subs[s] == t
    requires w.Log(t) == [] && w.b.Queue(t) == [] && w.b.Seen(s) == {} && w.handouts == []
    ensures var v := AfterAck(AfterPull(AfterPublish(w, t, [m], [id]), Unary, s), s, [id + ACK_SUFFIX]);
            && v.Log(t) == [m.(messageId := id)] && v.b.subs == w.b.subs && v.b.Queue(t) == []
            && v.Got(s, t) == v.Log(t) && v.Got(other, t) == []
  {
    var w1, x := AfterPublish(w, t, [m], [id]), m.(messageId := id);
    OnePublished(w, t, m, id);
    assert w1.b.Seen(s) == {};
    OnePulled(w1, t, s, other, x);
    OneAcked(AfterPull(w1, Unary, s), t, s, x);
  }
}
