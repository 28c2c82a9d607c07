/** What clients of the storage service see: objects, buckets, and when an upload is complete. */
module ObjectLaws {
  import opened Prelude
  import opened ContentRange
  import opened Storage
  import opened Uploads
  import opened Tables

  function Lookup(g: State, bucket: string, name: string): Option<Object> {
    if bucket in g.objects && name in g.objects[bucket] then Some(g.objects[bucket][name]) else None
  }

  // Buckets and objects.

  predicate StoresAt(r: Response, bucket: string, name: string) {
    r.Stored? && r.bucket == bucket && r.obj.name == name
  }

  /** The step takes the object away: its own deletion, that of its bucket, or a bucket created afresh. */
  predicate Erases(g: State, op: Op, bucket: string, name: string) {
    || op == DeleteObject(bucket, name)
    || (op == DeleteBucket(bucket) && bucket in g.buckets)
    || (op == CreateBucket(bucket) && bucket != "" && bucket !in g.buckets)
  }

  /** An object is found after a step exactly when the step's answer says it was stored, or it was there and not taken away. */
  lemma LookupStep(g: State, op: Op, bucket: string, name: string)
    ensures var (h, r) := Apply(g, op);
            Lookup(h, bucket, name)
            == if StoresAt(r, bucket, name) then Some(r.obj)
               else if Erases(g, op, bucket, name) then None
               else Lookup(g, bucket, name)
  {
  }

  /** A simple upload of a named object is answered with that object, whatever the state; of an unnamed one nothing comes. */
  lemma StoreAnswers(g: State, bucket: string, o: Object)
    ensures var (h, r) := Apply(g, StoreObject(bucket, o));
            if o.name == "" then r == BadRequest && h == g
            else r == Stored(bucket, o) && Lookup(h, bucket, o.name) == Some(o)
                 && h.buckets == g.buckets && h.sessions == g.sessions
  {
  }

  ghost predicate Untouched(g: State, ops: seq<Op>, bucket: string, name: string, from: nat) {
    forall j :: from <= j < |ops| ==>
      !StoresAt(Responses(g, ops)[j], bucket, name) && !Erases(Run(g, ops[..j]), ops[j], bucket, name)
  }

  lemma {:induction false} NothingHappens(g: State, ops: seq<Op>, bucket: string, name: string)
    requires Untouched(g, ops, bucket, name, 0)
    ensures Lookup(Run(g, ops), bucket, name) == Lookup(g, bucket, name)
    decreases |ops|
  {
    if ops != [] {
      var h, rest := Apply(g, ops[0]).0, ops[1..];
      assert ops[..0] == [] && Run(g, []) == g;
      assert !StoresAt(Responses(g, ops)[0], bucket, name) && !Erases(Run(g, ops[..0]), ops[0], bucket, name);
      LookupStep(g, ops[0], bucket, name);
      forall j | 0 <= j < |rest|
        ensures !StoresAt(Responses(h, rest)[j], bucket, name) && !Erases(Run(h, rest[..j]), rest[j], bucket, name)
      {
        assert ops[..j + 1][1..] == rest[..j];
        assert Responses(g, ops)[j + 1] == Responses(h, rest)[j];
      }
      NothingHappens(h, rest, bucket, name);
    }
  }

  /** Read your write: what a request was told is stored is found after the run, unless a later step stored or took it away. */
  lemma {:induction false} StoredStays(g: State, ops: seq<Op>, bucket: string, name: string, k: nat)
    requires k < |ops| && StoresAt(Responses(g, ops)[k], bucket, name) && Untouched(g, ops, bucket, name, k + 1)
    ensures Lookup(Run(g, ops), bucket, name) == Some(Responses(g, ops)[k].obj)
    decreases |ops|
  {
    var h, rest := Apply(g, ops[0]).0, ops[1..];
    forall j | k <= j < |rest|
      ensures !StoresAt(Responses(h, rest)[j], bucket, name) && !Erases(Run(h, rest[..j]), rest[j], bucket, name)
    {
      assert ops[..j + 1][1..] == rest[..j];
      assert Responses(g, ops)[j + 1] == Responses(h, rest)[j];
    }
    if k == 0 {
      LookupStep(g, ops[0], bucket, name);
      NothingHappens(h, rest, bucket, name);
    } else {
      StoredStays(h, rest, bucket, name, k - 1);
    }
  }

  /** A created bucket is there and empty, refuses to be created again, and is gone when deleted; sessions and other buckets stay. */
  lemma BucketLaws(g: State, bucket: string, name: string)
    requires bucket != ""
    ensures var (h, r) := Apply(g, CreateBucket(bucket));
            && r == (if bucket in g.buckets then AlreadyExists else Done)
            && Apply(h, CheckBucket(bucket)) == (h, Found) && Apply(h, CreateBucket(bucket)) == (h, AlreadyExists)
            && (r == AlreadyExists ==> h == g) && (r == Done ==> Lookup(h, bucket, name) == None)
            && h.buckets == g.buckets + {bucket} && h.sessions == g.sessions
    ensures var (h, r) := Apply(g, DeleteBucket(bucket));
            && r == (if bucket in g.buckets then Done else NotFound) && (r == NotFound ==> h == g)
            && Apply(h, CheckBucket(bucket)) == (h, NotFound)
            && (r == Done ==> Lookup(h, bucket, name) == None)
            && h.buckets == g.buckets - {bucket} && h.sessions == g.sessions
    ensures Apply(g, CreateBucket("")) == (g, BadRequest)
  {
  }

  /** A deleted object is not found; deleting what is not there changes nothing. */
  lemma DeleteAnswers(g: State, bucket: string, name: string)
    ensures var (h, r) := Apply(g, DeleteObject(bucket, name));
            && Lookup(h, bucket, name) == None && h.buckets == g.buckets && h.sessions == g.sessions
            && (if Lookup(g, bucket, name).Some? then r == Done else r == NotFound && h == g)
  {
  }

  // Upload sessions.

  /** A started session is empty, with the name and type it was given; an empty name starts none. */
  lemma StartAnswers(g: State, id: string, bucket: string, name: string, contentType: string)
    ensures var (h, r) := Apply(g, Start(id, bucket, name, contentType));
            if name == "" then (h, r) == (g, BadRequest)
            else r == Done && h == g.(sessions := g.sessions[id := Session(bucket, name, contentType, [])])
  {
  }

  /**
   When a request completes an upload, for any client. A body is taken exactly
   when the request is no query and starts where the data ends. The session
   stays open exactly when the body was not a taken last one and the data is
   not as long as the stated size, which also holds of a query and of a body
   that was not taken; it is then told the length. Otherwise the session ends,
   and all of its data is stored, if its bucket is there.
   */
  lemma CompletesExactly(g: State, id: string, r: Range, body: Bytes)
    requires id in g.sessions
    ensures var s := g.sessions[id];
            var taken := !r.query && r.start == |s.data|;
            var data := if taken then s.data + body else s.data;
            var (h, answer) := Apply(g, Resume(id, Some(r), body));
            && (id in h.sessions <==> !(taken && r.last) && |data| != r.total)
            && (id in h.sessions ==>
                  answer == Incomplete(|data|) && h == g.(sessions := g.sessions[id := s.(data := data)]))
            && (id !in h.sessions ==>
                  && h.sessions == g.sessions - {id} && h.buckets == g.buckets
                  && if s.bucket in g.buckets
                     then answer == Stored(s.bucket, Object(s.name, s.contentType, data))
                          && Lookup(h, s.bucket, s.name) == Some(Object(s.name, s.contentType, data))
                     else answer == NotFound && h.objects == g.objects)
  {
  }

  /** A malformed header changes nothing, on any session. */
  lemma MalformedChangesNothing(g: State, id: string, body: Bytes)
    ensures Apply(g, Resume(id, None, body)) == (g, BadRequest)
  {
  }

  /** For any client, a session keeps the bucket, name and type it was started with, and its commit carries them. */
  lemma {:induction false} CommitCarriesStart(g: State, ops: seq<Op>, id: string)
    requires id in g.sessions && NotRestarted(ops, id)
    ensures var s := g.sessions[id];
            && (id in Run(g, ops).sessions ==>
                  Run(g, ops).sessions[id] == s.(data := Run(g, ops).sessions[id].data))
            && (forall k :: 0 <= k < |ops| && On(ops[k], id) && Responses(g, ops)[k].Stored? ==>
                  var r := Responses(g, ops)[k]; r == Stored(s.bucket, Object(s.name, s.contentType, r.obj.data)))
    decreases |ops|
  {
    if ops != [] {
      var (h, r) := Apply(g, ops[0]);
      var rest := ops[1..];
      assert forall k :: 0 < k < |ops| ==> ops[k] == rest[k - 1] && Responses(g, ops)[k] == Responses(h, rest)[k - 1];
      if id in h.sessions {
        CommitCarriesStart(h, rest, id);
      } else {
        GoneSessionStaysGone(h, rest, id);
      }
    }
  }

  lemma {:induction false} ResponseAfter(g: State, ops: seq<Op>, op: Op)
    ensures Responses(g, ops + [op])[|ops|] == Apply(Run(g, ops), op).1
    decreases |ops|
  {
    if ops == [] {
      assert [] + [op] == [op];
    } else {
      assert (ops + [op])[1..] == ops[1..] + [op];
      ResponseAfter(Apply(g, ops[0]).0, ops[1..], op);
    }
  }

  function AppliedBytes(g: State, ops: seq<Op>, id: string): nat
    decreases |ops|
  {
    if ops == [] then 0
    else (if Applied(g, ops[0], id) then |ops[0].body| else 0) + AppliedBytes(Apply(g, ops[0]).0, ops[1..], id)
  }

  /** For any client, an open session holds as many bytes as it held plus those of the applied bodies. */
  lemma {:induction false} PersistedIsApplied(g: State, ops: seq<Op>, id: string)
    requires NotRestarted(ops, id) && id in Run(g, ops).sessions
    ensures id in g.sessions
    ensures |Run(g, ops).sessions[id].data| == |g.sessions[id].data| + AppliedBytes(g, ops, id)
    decreases |ops|
  {
    if ops != [] {
      PersistedIsApplied(Apply(g, ops[0]).0, ops[1..], id);
    }
  }

  /** The status query a client sends that now knows the size. */
  function SizeQuery(id: string, size: nat, body: Bytes): Op {
    Resume(id, ParseContentRange(Print(Query, Some(size))), body)
  }

  /**
   Chunks of unknown total: when the applied bodies of an honest client amount
   to the file and the session is still open, a query that states the size,
   which carries no data itself, commits the file, unless the bucket is gone.
   */
  lemma QueryCommits(g: State, ops: seq<Op>, id: string, f: Bytes, body: Bytes)
    requires id in g.sessions && g.sessions[id].data <= f && |f| < TWO_63
    requires NotRestarted(ops, id) && HonestFor(ops, id, f)
    requires id in Run(g, ops).sessions && |g.sessions[id].data| + AppliedBytes(g, ops, id) == |f|
    ensures Responses(g, ops + [SizeQuery(id, |f|, body)])[|ops|]
         == if g.sessions[id].bucket in Run(g, ops).buckets then FileStored(g.sessions[id], f) else NotFound
  {
    var h := Run(g, ops);
    ResponseAfter(g, ops, SizeQuery(id, |f|, body));
    ParseInvertsPrint(Query, Some(|f|));
    UploadIsSafe(g, ops, id, f);
    PersistedIsApplied(g, ops, id);
    CommitCarriesStart(g, ops, id);
    assert h.sessions[id].data == f[..|f|] == f;
    CompletesExactly(h, id, Meaning(Query, Some(|f|)), body);
  }

  // Handlers.

  /** What a whole handler does: a POST of any kind stops at a missing bucket. */
  lemma PostRuns(g: State, bucket: string, id: string, o: Object, range: Option<Range>, body: Bytes)
    ensures Run(g, Sections(g, Upload(bucket, o))) == if bucket in g.buckets then ObjectStored(g, bucket, o).0 else g
    ensures Run(g, Sections(g, Open(bucket, id, o.name, o.contentType)))
         == if bucket in g.buckets then SessionStarted(g, id, bucket, o.name, o.contentType).0 else g
    ensures Run(g, Sections(g, Post(bucket, id, range, body))) == if bucket in g.buckets then Resumed(g, id, range, body).0 else g
  {
    CheckedRuns(g, bucket, StoreObject(bucket, o));
    CheckedRuns(g, bucket, Start(id, bucket, o.name, o.contentType));
    CheckedRuns(g, bucket, Resume(id, range, body));
    AppliesAs(g, bucket, id, o, range, body);
  }

  lemma CheckedRuns(g: State, bucket: string, op: Op)
    ensures Run(g, Checked(g, bucket, op)) == if bucket in g.buckets then Apply(g, op).0 else g
  {
    RunOfChecked(g, bucket, op);
  }

  lemma AppliesAs(g: State, bucket: string, id: string, o: Object, range: Option<Range>, body: Bytes)
    ensures Apply(g, StoreObject(bucket, o)) == ObjectStored(g, bucket, o)
    ensures Apply(g, Start(id, bucket, o.name, o.contentType)) == SessionStarted(g, id, bucket, o.name, o.contentType)
    ensures Apply(g, Resume(id, range, body)) == Resumed(g, id, range, body)
  {
  }

  /** The others are one section each. */
  lemma SingleRuns(g: State, bucket: string, name: string, id: string, range: Option<Range>, body: Bytes)
    ensures Run(g, Sections(g, Put(id, range, body))) == Resumed(g, id, range, body).0
    ensures Run(g, Sections(g, MakeBucket(bucket))) == BucketCreated(g, bucket).0
    ensures Run(g, Sections(g, DropBucket(bucket))) == BucketDeleted(g, bucket).0
    ensures Run(g, Sections(g, DropObject(bucket, name))) == ObjectDeleted(g, bucket, name).0
  {
    RunOfOne(g, Resume(id, range, body));
    RunOfOne(g, CreateBucket(bucket));
    RunOfOne(g, DeleteBucket(bucket));
    RunOfOne(g, DeleteObject(bucket, name));
  }
}
