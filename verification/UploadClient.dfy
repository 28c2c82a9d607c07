/**
 A client that uploads a file chunk by chunk over a channel that loses
 requests and answers, always resending from the last offset it was told.
 */
module UploadClient {
  import opened Prelude
  import opened ContentRange
  import opened Storage
  import opened Uploads

  /** The span the client states for the bytes from `from` up to `end`. */
  function ClientSpan(from: nat, end: nat): Span {
    if from >= end then Rest(from) else Chunk(from, end - 1)
  }

  function ChunkEnd(from: nat, c: nat, size: nat): nat {
    if from + c < size then from + c else size
  }

  /** The client's request for the chunk at `known`, as the server reads its printed header. */
  function ClientOp(id: string, f: Bytes, c: nat, known: nat): Op
    requires known <= |f|
  {
    var end := ChunkEnd(known, c, |f|);
    Resume(id, ParseContentRange(Print(ClientSpan(known, end), Some(|f|))), f[known..end])
  }

  /** What an answer tells the client: the offset in its Range header, if that is an offset of the file. */
  function Learned(known: nat, r: Response, size: nat): (k: nat)
    requires known <= size
    ensures k <= size
  {
    if !r.Incomplete? then known
    else
      var offset := ResumeOffset(RangeHeader(r.persisted));
      if 0 <= offset <= size then offset else known
  }

  /**
   A step that is not the client's, or one of its requests that reached the
   server, whose answer may get lost. A lost request is no event at all.
   */
  datatype Event = Other(op: Op) | Exchange(answered: bool)

  /** The steps that the events amount to, for a client that believes `known` bytes to be persisted. */
  function Conversation(g: State, id: string, f: Bytes, c: nat, known: nat, events: seq<Event>): (ops: seq<Op>)
    requires known <= |f|
    ensures |ops| == |events|
    decreases |events|
  {
    if events == [] then []
    else match events[0]
      case Other(op) => [op] + Conversation(Apply(g, op).0, id, f, c, known, events[1..])
      case Exchange(answered) =>
        var op := ClientOp(id, f, c, known);
        var (h, r) := Apply(g, op);
        [op] + Conversation(h, id, f, c, if answered then Learned(known, r, |f|) else known, events[1..])
  }

  /** The others leave this session alone. */
  predicate OthersOnly(events: seq<Event>, id: string) {
    forall i :: 0 <= i < |events| && events[i].Other? ==> !On(events[i].op, id) && !(events[i].op.Start? && events[i].op.id == id)
  }

  function Exchanges(events: seq<Event>): nat {
    if events == [] then 0 else (if events[0].Exchange? then 1 else 0) + Exchanges(events[1..])
  }

  function Answered(events: seq<Event>): nat {
    if events == [] then 0 else (if events[0] == Exchange(true) then 1 else 0) + Answered(events[1..])
  }

  /** The same request in terms of what its header means. */
  function ChunkAt(id: string, f: Bytes, c: nat, known: nat): Op
    requires known <= |f|
  {
    var end := ChunkEnd(known, c, |f|);
    Resume(id, Some(Meaning(ClientSpan(known, end), Some(|f|))), f[known..end])
  }

  lemma ClientOpMeans(id: string, f: Bytes, c: nat, known: nat)
    requires known <= |f| < TWO_63
    ensures ClientOp(id, f, c, known) == ChunkAt(id, f, c, known)
  {
    ParseInvertsPrint(ClientSpan(known, ChunkEnd(known, c, |f|)), Some(|f|));
  }

  lemma ChunkIsHonest(id: string, f: Bytes, c: nat, known: nat)
    requires known <= |f| && c > 0
    ensures Honest(ChunkAt(id, f, c, known), f)
  {
  }

  lemma FirstThenRest(op: Op, ops: seq<Op>, id: string, f: Bytes)
    requires !(op.Start? && op.id == id) && (On(op, id) ==> Honest(op, f))
    requires NotRestarted(ops, id) && HonestFor(ops, id, f)
    ensures NotRestarted([op] + ops, id) && HonestFor([op] + ops, id, f)
  {
  }

  lemma {:induction false} ConversationIsHonest(g: State, id: string, f: Bytes, c: nat, known: nat, events: seq<Event>)
    requires known <= |f| < TWO_63 && c > 0 && OthersOnly(events, id)
    ensures var ops := Conversation(g, id, f, c, known, events); NotRestarted(ops, id) && HonestFor(ops, id, f)
    decreases |events|
  {
    if events != [] {
      if events[0].Other? {
        var op := events[0].op;
        var h := Apply(g, op).0;
        ConversationIsHonest(h, id, f, c, known, events[1..]);
        FirstThenRest(op, Conversation(h, id, f, c, known, events[1..]), id, f);
      } else {
        var op := ClientOp(id, f, c, known);
        var (h, r) := Apply(g, op);
        var next := if events[0].answered then Learned(known, r, |f|) else known;
        ConversationIsHonest(h, id, f, c, next, events[1..]);
        ClientOpMeans(id, f, c, known);
        ChunkIsHonest(id, f, c, known);
        FirstThenRest(op, Conversation(h, id, f, c, next, events[1..]), id, f);
      }
    }
  }

  /** The open session holds a proper prefix of the file, and the client knows of no more than that. */
  predicate Behind(g: State, id: string, f: Bytes, known: nat) {
    && id in g.sessions && g.sessions[id].data <= f && known <= |g.sessions[id].data|
    && (|g.sessions[id].data| < |f| || f == [])
  }

  /** A request from the persisted offset is applied; from an older one it changes nothing, and its answer puts the client right. */
  lemma ExchangeStep(g: State, id: string, f: Bytes, c: nat, known: nat)
    requires Behind(g, id, f, known) && c > 0
    ensures var (h, r) := Apply(g, ChunkAt(id, f, c, known)); var s := g.sessions[id]; var n := |s.data|;
            if known < n then h == g && r == Incomplete(n)
            else if n + c < |f| then h == g.(sessions := g.sessions[id := s.(data := f[..n + c])]) && r == Incomplete(n + c)
            else id !in h.sessions
  {
    var s := g.sessions[id];
    var n := |s.data|;
    assert s.data == f[..n];
    if known < n {
      assert g.sessions[id := s] == g.sessions;
    } else {
      var end := ChunkEnd(n, c, |f|);
      assert f[..n] + f[n..end] == f[..end];
    }
  }

  lemma LearnedOffset(known: nat, n: nat, size: nat)
    requires known <= size && n <= size < TWO_63
    ensures Learned(known, Incomplete(n), size) == n
  {
    OffsetIsPersisted(n);
  }

  /** One more answered exchange than chunks are lacking is needed when the client is not up to date. */
  function Due(g: State, id: string, f: Bytes, c: nat, known: nat): nat
    requires Behind(g, id, f, known) && c > 0
  {
    var n := |g.sessions[id].data|;
    Chunks(|f| - n, c) + if known < n then 1 else 0
  }

  lemma OtherStep(g: State, op: Op, id: string)
    requires id in g.sessions && !On(op, id) && !(op.Start? && op.id == id)
    ensures id in Apply(g, op).0.sessions && Apply(g, op).0.sessions[id] == g.sessions[id]
  {
  }

  /** The session stays open for as long as fewer requests arrive than chunks are lacking, and ends once enough are answered. */
  ghost predicate Progress(g: State, id: string, f: Bytes, c: nat, known: nat, events: seq<Event>)
    requires Behind(g, id, f, known) && c > 0
  {
    var h := Run(g, Conversation(g, id, f, c, known, events));
    && (Exchanges(events) < Chunks(|f| - |g.sessions[id].data|, c) ==> id in h.sessions)
    && (Answered(events) >= Due(g, id, f, c, known) ==> id !in h.sessions)
  }

  lemma {:induction false} ConversationProgress(g: State, id: string, f: Bytes, c: nat, known: nat, events: seq<Event>)
    requires Behind(g, id, f, known) && c > 0 && |f| < TWO_63 && OthersOnly(events, id)
    ensures Progress(g, id, f, c, known, events)
    decreases |events|
  {
    if events != [] {
      var rest := events[1..];
      if events[0].Other? {
        var h := Apply(g, events[0].op).0;
        OtherStep(g, events[0].op, id);
        RunOfCons(g, events[0].op, Conversation(h, id, f, c, known, rest));
        ConversationProgress(h, id, f, c, known, rest);
      } else {
        ExchangeProgress(g, id, f, c, known, events);
      }
    }
  }

  lemma RunOfCons(g: State, op: Op, ops: seq<Op>)
    ensures Run(g, [op] + ops) == Run(Apply(g, op).0, ops)
  {
    assert ([op] + ops)[1..] == ops;
  }

  lemma ConversationOfExchange(g: State, id: string, f: Bytes, c: nat, known: nat, events: seq<Event>)
    requires known <= |f| < TWO_63 && events != [] && events[0].Exchange?
    ensures var (h, r) := Apply(g, ChunkAt(id, f, c, known));
            var next := if events[0].answered then Learned(known, r, |f|) else known;
            Run(g, Conversation(g, id, f, c, known, events)) == Run(h, Conversation(h, id, f, c, next, events[1..]))
  {
    ClientOpMeans(id, f, c, known);
    var op := ClientOp(id, f, c, known);
    var (h, r) := Apply(g, op);
    RunOfCons(g, op, Conversation(h, id, f, c, if events[0].answered then Learned(known, r, |f|) else known, events[1..]));
  }

  /** An applied chunk is one chunk less to come; an unapplied one leaves a client that is right again once it is answered. */
  lemma ExchangeIsDue(g: State, id: string, f: Bytes, c: nat, known: nat, answered: bool)
    requires Behind(g, id, f, known) && c > 0 && |f| < TWO_63
    ensures var (h, r) := Apply(g, ChunkAt(id, f, c, known));
            var next, left := if answered then Learned(known, r, |f|) else known, Chunks(|f| - |g.sessions[id].data|, c);
            if id in h.sessions then
              && Behind(h, id, f, next)
              && Chunks(|f| - |h.sessions[id].data|, c) >= left - 1
              && Due(h, id, f, c, next) <= Due(g, id, f, c, known) - (if answered then 1 else 0)
            else left == 1
  {
    ExchangeStep(g, id, f, c, known);
    var h := Apply(g, ChunkAt(id, f, c, known)).0;
    if id in h.sessions {
      LearnedOffset(known, |h.sessions[id].data|, |f|);
    }
  }

  lemma ExchangeProgress(g: State, id: string, f: Bytes, c: nat, known: nat, events: seq<Event>)
    requires Behind(g, id, f, known) && c > 0 && |f| < TWO_63 && OthersOnly(events, id)
    requires events != [] && events[0].Exchange?
    ensures Progress(g, id, f, c, known, events)
    decreases |events|, 0
  {
    var (h, r) := Apply(g, ChunkAt(id, f, c, known));
    var next := if events[0].answered then Learned(known, r, |f|) else known;
    ConversationOfExchange(g, id, f, c, known, events);
    ExchangeIsDue(g, id, f, c, known, events[0].answered);
    if id in h.sessions {
      ConversationProgress(h, id, f, c, next, events[1..]);
    } else {
      ConversationIsHonest(h, id, f, c, next, events[1..]);
      GoneSessionStaysGone(h, Conversation(h, id, f, c, next, events[1..]), id);
    }
  }

  /**
   Whatever requests and answers get lost and whatever others do meanwhile, a
   client that resends from the last offset it was told is done with the
   session once as many of its requests were answered as the file has chunks
   of `c` bytes, and never before as many arrived: one of them stored the
   file, unless its bucket was gone at that instant.
   */
  lemma ClientCommits(g: State, id: string, f: Bytes, c: nat, events: seq<Event>)
    requires c > 0 && |f| < TWO_63 && OthersOnly(events, id)
    requires id in g.sessions && g.sessions[id].data == []
    ensures var ops := Conversation(g, id, f, c, 0, events);
            && (Exchanges(events) < Chunks(|f|, c) ==> id in Run(g, ops).sessions)
            && (Answered(events) >= Chunks(|f|, c) ==> exists k :: 0 <= k < |ops| && EndsAt(g, ops, id, f, k))
  {
    var ops := Conversation(g, id, f, c, 0, events);
    ConversationProgress(g, id, f, c, 0, events);
    ConversationIsHonest(g, id, f, c, 0, events);
    if Answered(events) >= Chunks(|f|, c) {
      var k := SessionEndsInCommit(g, ops, id, f);
    }
  }
  lemma {:induction false} BucketStays(g: State, ops: seq<Op>, b: string, k: nat)
    requires b in g.buckets && k <= |ops| && forall i :: 0 <= i < |ops| ==> ops[i] != DeleteBucket(b)
    ensures b in Run(g, ops[..k]).buckets
    decreases |ops|
  {
    if k > 0 {
      BucketStays(Apply(g, ops[0]).0, ops[1..], b, k - 1);
      assert ops[..k][1..] == ops[1..][..k - 1];
    }
  }

  lemma {:induction false} ConversationDeletes(g: State, id: string, f: Bytes, c: nat, known: nat, events: seq<Event>, b: string)
    requires known <= |f| && Other(DeleteBucket(b)) !in events
    ensures forall i :: 0 <= i < |events| ==> Conversation(g, id, f, c, known, events)[i] != DeleteBucket(b)
    decreases |events|
  {
    if events != [] {
      var op := if events[0].Other? then events[0].op else ClientOp(id, f, c, known);
      var (h, r) := Apply(g, op);
      ConversationDeletes(h, id, f, c, if events[0] == Exchange(true) then Learned(known, r, |f|) else known, events[1..], b);
    }
  }

  /** When nobody deletes the bucket, the file gets stored. */
  lemma ClientStoresFile(g: State, id: string, f: Bytes, c: nat, events: seq<Event>)
    requires c > 0 && |f| < TWO_63 && OthersOnly(events, id)
    requires id in g.sessions && g.sessions[id].data == []
    requires g.sessions[id].bucket in g.buckets && Other(DeleteBucket(g.sessions[id].bucket)) !in events
    requires Answered(events) >= Chunks(|f|, c)
    ensures FileStored(g.sessions[id], f) in Responses(g, Conversation(g, id, f, c, 0, events))
  {
    var ops, b := Conversation(g, id, f, c, 0, events), g.sessions[id].bucket;
    ClientCommits(g, id, f, c, events);
    var k :| 0 <= k < |ops| && EndsAt(g, ops, id, f, k);
    ConversationDeletes(g, id, f, c, 0, events, b);
    BucketStays(g, ops, b, k);
    assert Responses(g, ops)[k] == FileStored(g.sessions[id], f);
  }
}
