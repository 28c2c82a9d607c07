/** Runs of the storage service: an unreliable client, sessions that end once, and buckets that come and go. */
module Uploads {
  import opened Prelude
  import opened ContentRange
  import opened Storage

  /**
   One locked section, as requests of any number of clients interleave them.
   A resumable request comes with its parsed Content-Range, or without one when it is malformed.
   */
  datatype Op =
    | CreateBucket(name: string)
    | DeleteBucket(name: string)
    | DeleteObject(bucket: string, name: string)
    | CheckBucket(bucket: string)
    | StoreObject(bucket: string, obj: Object)
    | Start(id: string, bucket: string, name: string, contentType: string)
    | Resume(id: string, range: Option<Range>, body: Bytes)

  function Apply(g: State, op: Op): (State, Response) {
    match op
    case CreateBucket(name) => BucketCreated(g, name)
    case DeleteBucket(name) => BucketDeleted(g, name)
    case DeleteObject(bucket, name) => ObjectDeleted(g, bucket, name)
    case CheckBucket(bucket) => (g, BucketChecked(g, bucket))
    case StoreObject(bucket, obj) => ObjectStored(g, bucket, obj)
    case Start(id, bucket, name, contentType) => SessionStarted(g, id, bucket, name, contentType)
    case Resume(id, range, body) => Resumed(g, id, range, body)
  }

  function Run(g: State, ops: seq<Op>): State
    decreases |ops|
  {
    if ops == [] then g else Run(Apply(g, ops[0]).0, ops[1..])
  }

  /** The responses of a run, one per op. */
  function Responses(g: State, ops: seq<Op>): (rs: seq<Response>)
    ensures |rs| == |ops|
    decreases |ops|
  {
    if ops == [] then [] else [Apply(g, ops[0]).1] + Responses(Apply(g, ops[0]).0, ops[1..])
  }

  predicate On(op: Op, id: string) {
    op.Resume? && op.id == id
  }

  /** Session ids are never issued twice. */
  predicate NotRestarted(ops: seq<Op>, id: string) {
    forall i :: 0 <= i < |ops| ==> !(ops[i].Start? && ops[i].id == id)
  }

  // Safety.

  /**
   A request of a client that holds the file `f`: the body is what the file
   has at the stated start, a body said to be the last one ends the file, and
   a stated size is the file's. A missing header states start 0 and last.
   */
  predicate Honest(op: Op, f: Bytes) {
    op.Resume? ==>
      match op.range
      case None => true
      case Some(r) =>
        && (r.total == -1 || r.total == |f|)
        && (!r.query ==>
              && r.start + |op.body| <= |f|
              && op.body == f[r.start..r.start + |op.body|]
              && (r.last ==> r.start + |op.body| == |f|))
  }

  predicate HonestFor(ops: seq<Op>, id: string, f: Bytes) {
    forall i :: 0 <= i < |ops| && On(ops[i], id) ==> Honest(ops[i], f)
  }

  lemma HonestContinues(s: Session, r: Range, body: Bytes, f: Bytes)
    requires s.data <= f && (r.total == -1 || r.total == |f|)
    requires !r.query ==> r.start + |body| <= |f| && body == f[r.start..r.start + |body|]
                          && (r.last ==> r.start + |body| == |f|)
    ensures s.data <= Continued(s, r, body).data <= f
    ensures Completes(s, r, body) ==> Continued(s, r, body).data == f
  {
    if Takes(s, r) {
      var n := |s.data|;
      assert s.data == f[..n];
      assert f[..n] + f[n..n + |body|] == f[..n + |body|];
    }
  }

  /** The answer that says the session's object was stored with this content. */
  function FileStored(s: Session, f: Bytes): Response {
    Stored(s.bucket, Object(s.name, s.contentType, f))
  }

  /** One step of a run, seen from one session of an honest client. */
  lemma HonestStep(g: State, op: Op, id: string, f: Bytes)
    requires !(op.Start? && op.id == id) && (On(op, id) ==> Honest(op, f))
    requires id in g.sessions ==> g.sessions[id].data <= f
    ensures var (h, r) := Apply(g, op);
            && (id in h.sessions ==> id in g.sessions && g.sessions[id].data <= h.sessions[id].data <= f
                                     && h.sessions[id] == g.sessions[id].(data := h.sessions[id].data))
            && (On(op, id) && r.Stored? ==> r.obj.data == f && r.bucket in g.buckets
                                            && h.Table(r.bucket)[r.obj.name] == r.obj)
            && (id in g.sessions && id !in h.sessions ==>
                  On(op, id) && r == if g.sessions[id].bucket in g.buckets then FileStored(g.sessions[id], f) else NotFound)
  {
    if On(op, id) && id in g.sessions && op.range.Some? {
      HonestContinues(g.sessions[id], op.range.value, op.body, f);
    }
  }

  /**
   Upload safety. Whatever the requests of an honest client (duplicated,
   reordered, with gaps, mixed with status queries) and whatever others do in
   between, the session's data is always a prefix of the file, and an object
   the session commits is the file.
   */
  lemma {:induction false} UploadIsSafe(g: State, ops: seq<Op>, id: string, f: Bytes)
    requires id in g.sessions ==> g.sessions[id].data <= f
    requires NotRestarted(ops, id) && HonestFor(ops, id, f)
    ensures id in Run(g, ops).sessions ==> Run(g, ops).sessions[id].data <= f
    ensures forall k :: 0 <= k < |ops| && On(ops[k], id) && Responses(g, ops)[k].Stored?
              ==> Responses(g, ops)[k].obj.data == f
    decreases |ops|
  {
    if ops != [] {
      HonestStep(g, ops[0], id, f);
      UploadIsSafe(Apply(g, ops[0]).0, ops[1..], id, f);
      forall k | 0 <= k < |ops| && On(ops[k], id) && Responses(g, ops)[k].Stored?
        ensures Responses(g, ops)[k].obj.data == f
      {
        if k > 0 {
          assert ops[1..][k - 1] == ops[k];
        }
      }
    }
  }

  // A session ends once.

  /** For any client, honest or not, persisted data only grows, and no other op touches it. */
  lemma {:induction false} PersistedGrows(g: State, ops: seq<Op>, id: string)
    requires NotRestarted(ops, id) && id in Run(g, ops).sessions
    ensures id in g.sessions && g.sessions[id].data <= Run(g, ops).sessions[id].data
    ensures (forall i :: 0 <= i < |ops| ==> !On(ops[i], id)) ==> Run(g, ops).sessions[id] == g.sessions[id]
    decreases |ops|
  {
    if ops != [] {
      PersistedGrows(Apply(g, ops[0]).0, ops[1..], id);
    }
  }

  /**
   After a session is gone, every request on it leaves the whole state alone
   and is answered "not found", exactly when its Content-Range parses:
   a malformed header is refused before the session is looked up.
   */
  lemma {:induction false} GoneSessionStaysGone(g: State, ops: seq<Op>, id: string)
    requires NotRestarted(ops, id) && id !in g.sessions
    ensures id !in Run(g, ops).sessions
    ensures forall k :: 0 <= k < |ops| && On(ops[k], id) ==>
              && Run(g, ops[..k + 1]) == Run(g, ops[..k])
              && (Responses(g, ops)[k] == NotFound <==> ops[k].range.Some?)
              && (Responses(g, ops)[k] == BadRequest <==> ops[k].range.None?)
    decreases |ops|
  {
    if ops != [] {
      var h := Apply(g, ops[0]).0;
      GoneSessionStaysGone(h, ops[1..], id);
      forall k | 0 <= k < |ops| && On(ops[k], id)
        ensures Run(g, ops[..k + 1]) == Run(g, ops[..k])
        ensures Responses(g, ops)[k] == NotFound <==> ops[k].range.Some?
        ensures Responses(g, ops)[k] == BadRequest <==> ops[k].range.None?
      {
        if k > 0 {
          assert ops[1..][k - 1] == ops[k];
          assert ops[..k + 1][1..] == ops[1..][..k] && ops[..k][1..] == ops[1..][..k - 1];
        } else {
          assert ops[..1][1..] == [];
        }
      }
    }
  }

  /** It does happen: a stored upload, asked about with a malformed header, is a bad request. */
  lemma MalformedAfterStored()
    ensures var ops := [CreateBucket("b"), Start("u", "b", "o", ""), Resume("u", ParseContentRange(""), []),
                        Resume("u", ParseContentRange("junk"), [])];
            Responses(EMPTY, ops)[2].Stored? && Responses(EMPTY, ops)[3] == BadRequest
  {
    var junk := [Resume("u", ParseContentRange("junk"), [])];
    var put := [Resume("u", ParseContentRange(""), [])] + junk;
    var start := [Start("u", "b", "o", "")] + put;
    var ops := [CreateBucket("b")] + start;
    assert ops[1..] == start && start[1..] == put && put[1..] == junk;
    var g1 := Apply(EMPTY, ops[0]).0;
    var g2 := Apply(g1, start[0]).0;
    var (g3, stored) := Apply(g2, put[0]);
    assert Responses(EMPTY, ops)[2] == Responses(g1, start)[1] == Responses(g2, put)[0] == stored;
    assert Responses(EMPTY, ops)[3] == Responses(g1, start)[2] == Responses(g2, put)[1] == Responses(g3, junk)[0];
    assert ops == [CreateBucket("b"), Start("u", "b", "o", ""), Resume("u", ParseContentRange(""), []),
                   Resume("u", ParseContentRange("junk"), [])];
  }

  /** A session commits at most once. */
  lemma {:induction false} CommitsAtMostOnce(g: State, ops: seq<Op>, id: string, j: nat, k: nat)
    requires NotRestarted(ops, id) && j < k < |ops| && On(ops[j], id) && On(ops[k], id)
    requires Responses(g, ops)[j].Stored?
    ensures !Responses(g, ops)[k].Stored?
    decreases |ops|
  {
    var h := Apply(g, ops[0]).0;
    assert ops[1..][k - 1] == ops[k];
    if j == 0 {
      assert id !in h.sessions;
      GoneSessionStaysGone(h, ops[1..], id);
    } else {
      CommitsAtMostOnce(h, ops[1..], id, j - 1, k - 1);
    }
  }

  // Progress.

  /** The op delivers a body that the session takes. */
  predicate Applied(g: State, op: Op, id: string) {
    On(op, id) && id in g.sessions && op.range.Some?
    && Takes(g.sessions[id], op.range.value)
  }

  function AppliedCount(g: State, ops: seq<Op>, id: string): nat
    decreases |ops|
  {
    if ops == [] then 0
    else (if Applied(g, ops[0], id) then 1 else 0) + AppliedCount(Apply(g, ops[0]).0, ops[1..], id)
  }

  /** A chunk of `c` bytes, or a shorter one that ends the file; none is empty unless the file is. */
  predicate FullChunk(op: Op, f: Bytes, c: nat) {
    op.Resume? ==>
      match op.range
      case None => true
      case Some(r) =>
        !r.query ==> r.total == |f| && (|op.body| == c || (|op.body| < c && r.start + |op.body| == |f|))
                     && (|op.body| > 0 || f == [])
  }

  /** How many chunks of `c` bytes a file of `n` bytes takes; an empty file takes one. */
  function Chunks(n: nat, c: nat): (r: nat)
    requires c > 0
    ensures r >= 1
  {
    if n <= c then 1 else 1 + Chunks(n - c, c)
  }

  lemma {:induction false} ChunksIsCeiling(n: nat, c: nat)
    requires c > 0
    ensures Chunks(n, c) * c >= n && (n > 0 ==> (Chunks(n, c) - 1) * c < n)
  {
    if n > c {
      ChunksIsCeiling(n - c, c);
    }
  }

  /**
   The measure: what is left to persist never grows under a request of an
   honest client, and an applied one takes exactly its body off it.
   */
  lemma RemainingDrops(g: State, op: Op, id: string, f: Bytes)
    requires id in g.sessions && g.sessions[id].data <= f && On(op, id) && Honest(op, f)
    ensures var h := Apply(g, op).0;
            id in h.sessions ==>
              |f| - |h.sessions[id].data|
              == |f| - |g.sessions[id].data| - (if Applied(g, op, id) then |op.body| else 0)
    ensures Applied(g, op, id) ==> |g.sessions[id].data| + |op.body| <= |f|
  {
  }

  /**
   Progress. However the requests of an honest client are ordered, repeated or
   interleaved, a session that is still open has had fewer full chunks applied
   than what it lacked has chunks.
   */
  lemma {:induction false} OpenSessionLacksChunks(g: State, ops: seq<Op>, id: string, f: Bytes, c: nat)
    requires c > 0 && id in g.sessions && g.sessions[id].data <= f
    requires NotRestarted(ops, id) && HonestFor(ops, id, f)
    requires forall i :: 0 <= i < |ops| && On(ops[i], id) ==> FullChunk(ops[i], f, c)
    ensures id in Run(g, ops).sessions ==> AppliedCount(g, ops, id) < Chunks(|f| - |g.sessions[id].data|, c)
    decreases |ops|
  {
    if ops != [] && id in Run(g, ops).sessions {
      var h := Apply(g, ops[0]).0;
      PersistedGrows(h, ops[1..], id);
      HonestStep(g, ops[0], id, f);
      ChunkStep(g, ops[0], id, f, c);
      OpenSessionLacksChunks(h, ops[1..], id, f, c);
    }
  }

  lemma ChunkStep(g: State, op: Op, id: string, f: Bytes, c: nat)
    requires c > 0 && id in g.sessions && g.sessions[id].data <= f && !(op.Start? && op.id == id)
    requires On(op, id) ==> Honest(op, f) && FullChunk(op, f, c)
    requires id in Apply(g, op).0.sessions
    ensures var s, t := g.sessions[id], Apply(g, op).0.sessions[id];
            if Applied(g, op, id) then |t.data| == |s.data| + c < |f| else t == s
  {
  }

  /**
   Request `k` ends the session: its answer is that the file was stored, or,
   when the bucket is gone at that instant, "not found".
   */
  ghost predicate EndsAt(g: State, ops: seq<Op>, id: string, f: Bytes, k: nat)
    requires id in g.sessions && k < |ops|
  {
    var before, s, r := Run(g, ops[..k]), g.sessions[id], Responses(g, ops)[k];
    && On(ops[k], id) && id in before.sessions && id !in Run(g, ops[..k + 1]).sessions
    && r == if s.bucket in before.buckets then FileStored(s, f) else NotFound
  }

  /** A session of an honest client does not just vanish: one of its requests ended it. */
  lemma {:induction false} SessionEndsInCommit(g: State, ops: seq<Op>, id: string, f: Bytes) returns (k: nat)
    requires id in g.sessions && g.sessions[id].data <= f
    requires NotRestarted(ops, id) && HonestFor(ops, id, f) && id !in Run(g, ops).sessions
    ensures k < |ops| && EndsAt(g, ops, id, f, k)
    decreases |ops|
  {
    var h := Apply(g, ops[0]).0;
    HonestStep(g, ops[0], id, f);
    if id !in h.sessions {
      k := 0;
      assert ops[..1][1..] == [];
    } else {
      var j := SessionEndsInCommit(h, ops[1..], id, f);
      k := j + 1;
      assert ops[..k][1..] == ops[1..][..j] && ops[..k + 1][1..] == ops[1..][..j + 1];
    }
  }

  /**
   The unreliable channel. For any interleaving, duplication, reordering and
   loss of an honest client's requests: once as many full chunks were applied
   as the file has, one of the requests ended the session, by storing the file
   unless its bucket was gone.
   */
  lemma CommitsAfterItsChunks(g: State, ops: seq<Op>, id: string, f: Bytes, c: nat)
    requires c > 0 && id in g.sessions && g.sessions[id].data <= f
    requires NotRestarted(ops, id) && HonestFor(ops, id, f)
    requires forall i :: 0 <= i < |ops| && On(ops[i], id) ==> FullChunk(ops[i], f, c)
    requires AppliedCount(g, ops, id) >= Chunks(|f| - |g.sessions[id].data|, c)
    ensures exists k :: 0 <= k < |ops| && EndsAt(g, ops, id, f, k)
  {
    OpenSessionLacksChunks(g, ops, id, f, c);
    var k := SessionEndsInCommit(g, ops, id, f);
  }

  // Reported offsets.

  lemma {:induction false} ReportsAtLeast(g: State, ops: seq<Op>, id: string, k: nat)
    requires NotRestarted(ops, id) && k < |ops| && On(ops[k], id) && Responses(g, ops)[k].Incomplete?
    ensures id in g.sessions && Responses(g, ops)[k].persisted >= |g.sessions[id].data|
    decreases |ops|
  {
    if k > 0 {
      var h := Apply(g, ops[0]).0;
      assert ops[1..][k - 1] == ops[k];
      ReportsAtLeast(h, ops[1..], id, k - 1);
      PersistedGrows(g, [ops[0]], id);
    }
  }

  /** The offsets reported to any client of a session never decrease. */
  lemma {:induction false} ReportsGrow(g: State, ops: seq<Op>, id: string, j: nat, k: nat)
    requires NotRestarted(ops, id) && j < k < |ops| && On(ops[j], id) && On(ops[k], id)
    requires Responses(g, ops)[j].Incomplete? && Responses(g, ops)[k].Incomplete?
    ensures Responses(g, ops)[j].persisted <= Responses(g, ops)[k].persisted
    decreases |ops|
  {
    var h := Apply(g, ops[0]).0;
    assert ops[1..][k - 1] == ops[k];
    if j == 0 {
      ReportsAtLeast(h, ops[1..], id, k - 1);
    } else {
      assert ops[1..][j - 1] == ops[j];
      ReportsGrow(h, ops[1..], id, j - 1, k - 1);
    }
  }
}
