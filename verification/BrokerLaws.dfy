/** What the broker's callers see, stated on queues and messages: one law per operation, and what a run publishes. */
module BrokerLaws {
  import opened Prelude
  import opened Messages
  import opened Broker
  import opened Delivery

  // Publishing.

  /** What callers asked to publish: data and attributes theirs, in their order, each under its id. */
  function Sending(messages: seq<PubsubMessage>, ids: seq<Bytes>): seq<PubsubMessage>
    requires |ids| == |messages|
  {
    if messages == [] then []
    else [PubsubMessage(messages[0].data, messages[0].attributes, ids[0])] + Sending(messages[1..], ids[1..])
  }

  lemma {:induction false} SendingAt(messages: seq<PubsubMessage>, ids: seq<Bytes>)
    requires |ids| == |messages|
    ensures |Sending(messages, ids)| == |messages|
    ensures forall k :: 0 <= k < |messages| ==>
              Sending(messages, ids)[k] == PubsubMessage(messages[k].data, messages[k].attributes, ids[k])
  {
    if messages != [] {
      SendingAt(messages[1..], ids[1..]);
    }
  }

  /** Everything the steps publish to a topic, in order. */
  function Sent(steps: seq<Step>, t: Bytes): seq<PubsubMessage>
    requires forall i :: 0 <= i < |steps| && steps[i].Publish? ==> |steps[i].ids| == |steps[i].messages|
  {
    if steps == [] then []
    else
      (if steps[0].Publish? && steps[0].topic == t then Sending(steps[0].messages, steps[0].ids) else [])
      + Sent(steps[1..], t)
  }

  lemma {:induction false} LegalStepsMatch(w: World, steps: seq<Step>)
    requires Legal(w, steps)
    ensures forall i :: 0 <= i < |steps| && steps[i].Publish? ==> |steps[i].ids| == |steps[i].messages|
    decreases |steps|
  {
    if steps != [] {
      LegalStepsMatch(Apply(w, steps[0]), steps[1..]);
      forall i | 0 <= i < |steps| && steps[i].Publish? ensures |steps[i].ids| == |steps[i].messages| {
        assert i > 0 ==> steps[i] == steps[1..][i - 1];
      }
    }
  }

  lemma AckSends(w: World, sub: Bytes, ackIds: seq<Bytes>, t: Bytes)
    ensures AfterAck(w, sub, ackIds).Log(t) == w.Log(t)
  {
  }

  lemma PullSends(w: World, channel: Channel, sub: Bytes, t: Bytes)
    ensures AfterPull(w, channel, sub).Log(t) == w.Log(t)
  {
  }

  lemma PublishSends(w: World, topic: Bytes, messages: seq<PubsubMessage>, ids: seq<Bytes>, t: Bytes)
    requires |ids| == |messages|
    ensures AfterPublish(w, topic, messages, ids).Log(t) == w.Log(t) + if topic == t then Sending(messages, ids) else []
  {
    SendingAt(messages, ids);
    assert Stamp(messages, ids) == Sending(messages, ids);
  }

  lemma StepSends(w: World, step: Step, t: Bytes)
    requires Enabled(w, step)
    ensures Apply(w, step).Log(t)
         == w.Log(t) + if step.Publish? && step.topic == t then Sending(step.messages, step.ids) else []
  {
    match step
    case Publish(topic, messages, ids) => PublishSends(w, topic, messages, ids, t);
    case Pull(sub) => PullSends(w, Unary, sub, t);
    case Acknowledge(sub, ackIds) => AckSends(w, sub, ackIds, t);
    case StreamRequest(stream, request) =>
      if stream in w.streams {
        var sub := Chosen(w, stream, request);
        AckSends(w.(streams := w.streams[stream := sub]), sub, request.ackIds, t);
      }
    case StreamTick(stream, sent) =>
      if stream in w.streams {
        PullSends(w, Stream(stream), w.streams[stream], t);
      }
    case _ =>
  }

  /** The publish log of a run is what its callers published, in their order. */
  lemma {:induction false} LogIsSent(w: World, steps: seq<Step>, t: Bytes)
    requires Legal(w, steps)
    ensures forall i :: 0 <= i < |steps| && steps[i].Publish? ==> |steps[i].ids| == |steps[i].messages|
    ensures Run(w, steps).Log(t) == w.Log(t) + Sent(steps, t)
    decreases |steps|
  {
    LegalStepsMatch(w, steps);
    if steps == [] {
      assert w.Log(t) + [] == w.Log(t);
    } else {
      var sent := if steps[0].Publish? && steps[0].topic == t then Sending(steps[0].messages, steps[0].ids) else [];
      StepSends(w, steps[0], t);
      LogIsSent(Apply(w, steps[0]), steps[1..], t);
      Regroup(w.Log(t), sent, Sent(steps[1..], t));
    }
  }

  /** So what a subscription name receives from a topic is a subsequence of what was published there. */
  lemma ReceivedWasSent(steps: seq<Step>, s: Bytes, t: Bytes)
    requires Legal(START, steps)
    ensures forall i :: 0 <= i < |steps| && steps[i].Publish? ==> |steps[i].ids| == |steps[i].messages|
    ensures IsSubsequence(Run(START, steps).Got(s, t), Sent(steps, t))
  {
    RunDelivers(steps, s, t);
    LogIsSent(START, steps, t);
    assert [] + Sent(steps, t) == Sent(steps, t);
  }

  // Pulling.

  lemma {:induction false} DropIsSubsequence(q: seq<PubsubMessage>, ids: set<Bytes>) returns (at: seq<nat>)
    ensures PicksOut(at, Drop(q, ids), q)
  {
    if q == [] {
      at := [];
    } else {
      var n := |q| - 1;
      at := DropIsSubsequence(q[..n], ids);
      if q[n].messageId !in ids {
        at := at + [n];
      }
    }
  }

  lemma {:induction false} InDrop(q: seq<PubsubMessage>, ids: set<Bytes>, m: PubsubMessage)
    ensures m in Drop(q, ids) <==> m in q && m.messageId !in ids
  {
    if q != [] {
      var n := |q| - 1;
      InDrop(q[..n], ids, m);
      assert q == q[..n] + [q[n]];
    }
  }

  /**
   A pull gives exactly the queued messages of the subscription's topic that
   this name was never given, in queue order, each with its id and "-ack" as
   ack id, and another pull right after it gives nothing.
   */
  lemma PullGives(b: State, sub: Bytes)
    requires Inv(b) && sub in b.subs
    ensures var q, r := b.Queue(b.subs[sub]), PullResult(b, sub);
            && (forall m :: m in r <==> m in q && m.messageId !in b.Seen(sub))
            && IsSubsequence(r, q)
            && |WithAckIds(r)| == |r|
            && (forall k :: 0 <= k < |r| ==> WithAckIds(r)[k] == Received(r[k].messageId + [45, 97, 99, 107], r[k]))
            && PullResult(Pulled(b, sub), sub) == []
  {
    var q := b.Queue(b.subs[sub]);
    forall m ensures m in PullResult(b, sub) <==> m in q && m.messageId !in b.Seen(sub) {
      InDrop(q, b.Seen(sub), m);
    }
    var at := DropIsSubsequence(q, b.Seen(sub));
    PullKeepsQueues(b, sub);
    forall i | 0 <= i < |q| ensures q[i].messageId in b.Seen(sub) + Ids(q) {
    }
    KeepAll(q, b.Seen(sub) + Ids(q));
  }

  // Acknowledging.

  lemma AckNames(id: Bytes, ackIds: seq<Bytes>)
    requires PlainId(id)
    ensures id in AckSet(ackIds) <==> id in ackIds || id + [45, 97, 99, 107] in ackIds
  {
    forall i | 0 <= i < |ackIds| ensures Stripped(ackIds[i]) == id <==> ackIds[i] == id || ackIds[i] == id + ACK_SUFFIX {
      AckIdNamesMessage(id, ackIds[i]);
    }
  }

  /**
   An acknowledgement removes from the subscription's topic exactly the messages
   whose id is listed, as it is or with "-ack", keeps the rest in order, and
   touches nothing else.
   */
  lemma AckRemoves(b: State, sub: Bytes, ackIds: seq<Bytes>)
    requires Inv(b) && sub in b.subs
    ensures var t, c := b.subs[sub], Acknowledged(b, sub, ackIds);
            && (forall m :: m in c.Queue(t) <==>
                  m in b.Queue(t) && m.messageId !in ackIds && m.messageId + [45, 97, 99, 107] !in ackIds)
            && IsSubsequence(c.Queue(t), b.Queue(t))
            && (forall other :: other != t ==> c.Queue(other) == b.Queue(other))
            && (c.topics, c.subs, c.delivered) == (b.topics, b.subs, b.delivered)
  {
    var t, c := b.subs[sub], Acknowledged(b, sub, ackIds);
    var q := b.Queue(t);
    forall m
      ensures m in c.Queue(t) <==> m in q && m.messageId !in ackIds && m.messageId + [45, 97, 99, 107] !in ackIds
    {
      InDrop(q, AckSet(ackIds), m);
      if m in q {
        assert IssuedFor(q, t, b.origin);
        AckNames(m.messageId, ackIds);
      }
    }
    var at := DropIsSubsequence(q, AckSet(ackIds));
  }

  // Topics and subscriptions.

  /** A created topic is there and keeps its messages; a deleted one is gone with them; nothing else changes. */
  lemma TopicLaws(b: State, name: Bytes)
    ensures var c := TopicCreated(b, name);
            && c.topics == b.topics + {name} && (c.subs, c.delivered) == (b.subs, b.delivered)
            && (forall t :: c.Queue(t) == b.Queue(t))
    ensures var c := TopicDeleted(TopicCreated(b, name), name);
            && c.topics == b.topics - {name} && (c.subs, c.delivered) == (b.subs, b.delivered)
            && c.Queue(name) == [] && (forall t :: t != name ==> c.Queue(t) == b.Queue(t))
    ensures name !in b.topics ==> TopicDeleted(b, name) == b
  {
  }

  /**
   A created subscription pulls from its topic, all of it when the name is new;
   a deleted one pulls and acks nothing; what the name was given stays on
   record, and nothing else changes.
   */
  lemma SubscriptionLaws(b: State, name: Bytes, topic: Bytes, ackIds: seq<Bytes>)
    ensures var c := SubscriptionCreated(b, name, topic);
            && c.subs == b.subs[name := topic] && c.Seen(name) == b.Seen(name) && c.topics == b.topics
            && (forall s :: c.Seen(s) == b.Seen(s)) && (forall t :: c.Queue(t) == b.Queue(t))
            && (name !in b.delivered ==> PullResult(c, name) == b.Queue(topic))
    ensures var c := SubscriptionDeleted(b, name);
            && c.subs == b.subs - {name} && (c.topics, c.queues, c.delivered) == (b.topics, b.queues, b.delivered)
            && PullResult(c, name) == [] && Pulled(c, name) == c && Acknowledged(c, name, ackIds) == c
  {
    DropAll(b.Queue(topic), {});
  }

  // A stream.

  lemma RequestChooses(w: World, stream: nat, request: AckRequest)
    requires stream in w.streams && request.subscription != [] && request.subscription in w.b.subs
    ensures var s, v := request.subscription, AfterRequest(w, stream, request);
            && v.b == (if request.ackIds == [] then w.b else Acknowledged(w.b, s, request.ackIds))
            && v.streams == w.streams[stream := s] && v.b.subs == w.b.subs
  {
  }

  lemma TickSends(v: World, stream: nat, s: Bytes)
    requires WorldInv(v) && stream in v.streams && v.streams[stream] == s && s != [] && s in v.b.subs
    ensures var t, x := v.b.subs[s], AfterTick(v, stream, true);
            && Max(v.Base(t), v.Cut(s, t)) <= |v.Log(t)|
            && x.Got(s, t) == v.Got(s, t) + Drop(v.Log(t)[Max(v.Base(t), v.Cut(s, t))..], v.Gone(t))
            && x.streams == v.streams
  {
    var t := v.b.subs[s];
    assert TopicInv(v, t) && PairInv(v, s, t);
    PullTakesNew(v.Log(t), v.Base(t), v.Cut(s, t), v.Gone(t), v.b.Seen(s));
    PullGot(v, Stream(stream), s, s, t);
  }

  /**
   A request that names a subscription makes its acks and the next tick go to
   that one: the tick hands out what was published after the last pull and the
   last deletion and not acked, and the stream stays with the subscription.
   */
  lemma NextTickPulls(w: World, stream: nat, request: AckRequest)
    requires WorldInv(w) && stream in w.streams
    requires request.subscription != [] && request.subscription in w.b.subs
    ensures var s := request.subscription;
            var t, v := w.b.subs[s], AfterRequest(w, stream, request);
            var x := AfterTick(v, stream, true);
            && v.b == (if request.ackIds == [] then w.b else Acknowledged(w.b, s, request.ackIds))
            && Max(v.Base(t), v.Cut(s, t)) <= |v.Log(t)|
            && x.Got(s, t) == v.Got(s, t) + Drop(v.Log(t)[Max(v.Base(t), v.Cut(s, t))..], v.Gone(t))
            && v.streams == x.streams == w.streams[stream := s]
  {
    RequestKeepsInv(w, stream, request);
    RequestChooses(w, stream, request);
    TickSends(AfterRequest(w, stream, request), stream, request.subscription);
  }

  /**
   A tick whose send fails ends the stream, if there was anything to send, and
   leaves the backend as a successful one would: what was pulled stays delivered.
   */
  lemma FailedSend(w: World, stream: nat)
    requires stream in w.streams
    ensures var s, v, x := w.streams[stream], AfterTick(w, stream, false), AfterTick(w, stream, true);
            && v.b == x.b && v.handouts == x.handouts && x.streams == w.streams
            && v.streams == (if s == [] || PullResult(w.b, s) == [] then w.streams else w.streams - {stream})
  {
  }

  /** A request that names none keeps the stream's subscription; a stream without one ignores acks and ticks. */
  lemma SilentRequest(w: World, stream: nat, request: AckRequest, sent: bool)
    requires stream in w.streams && request.subscription == []
    ensures AfterRequest(w, stream, request).streams == w.streams
    ensures w.streams[stream] == [] ==> AfterRequest(w, stream, request).b == w.b && AfterTick(w, stream, sent) == w
  {
    assert w.streams[stream := w.streams[stream]] == w.streams;
  }
}
