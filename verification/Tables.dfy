/** Buckets and object tables over whole runs of the storage service. */
module Tables {
  import opened Prelude
  import opened ContentRange
  import opened Storage
  import opened Uploads

  predicate TablesCoverBuckets(g: State) { g.buckets <= g.objects.Keys }

  predicate KeysAgree(g: State) { g.buckets == g.objects.Keys }

  /** In every interleaving, every existing bucket has an object table. */
  lemma {:induction false} RunKeepsTables(g: State, ops: seq<Op>)
    requires TablesCoverBuckets(g)
    ensures TablesCoverBuckets(Run(g, ops))
    decreases |ops|
  {
    if ops != [] {
      RunKeepsTables(Apply(g, ops[0]).0, ops[1..]);
    }
  }

  /** A resumable commit puts its object under a bucket that exists at that instant, and changes no other bucket's table. */
  lemma {:induction false} CommitsHaveTheirBucket(g: State, ops: seq<Op>, k: nat)
    requires k < |ops| && ops[k].Resume? && Responses(g, ops)[k].Stored?
    ensures var before, after, r := Run(g, ops[..k]), Run(g, ops[..k + 1]), Responses(g, ops)[k];
            && r.bucket in before.buckets && after.buckets == before.buckets
            && after.objects == before.objects[r.bucket := before.Table(r.bucket)[r.obj.name := r.obj]]
    decreases |ops|
  {
    if k > 0 {
      CommitsHaveTheirBucket(Apply(g, ops[0]).0, ops[1..], k - 1);
      assert ops[1..][k - 1] == ops[k];
      assert ops[..k + 1][1..] == ops[1..][..k] && ops[..k][1..] == ops[1..][..k - 1];
    } else {
      assert ops[..1][1..] == [];
    }
  }

  /**
   The one step that makes the two key sets differ: the second half of a
   simple upload whose bucket is missing by then. Resumable commits look again
   and never do.
   */
  lemma KeysDisagreeOnlyByLateStore(g: State, op: Op)
    requires KeysAgree(g)
    ensures KeysAgree(Apply(g, op).0) <==> !(op.StoreObject? && op.obj.name != "" && op.bucket !in g.buckets)
  {
    if op.StoreObject? && op.obj.name != "" && op.bucket !in g.buckets {
      assert op.bucket in Apply(g, op).0.objects.Keys;
    }
  }

  /** It does happen: check, delete, store. */
  lemma LateStoreLeavesOrphan(o: Object)
    requires o.name != ""
    ensures var g := Run(EMPTY, [CreateBucket("b"), CheckBucket("b"), DeleteBucket("b"), StoreObject("b", o)]);
            "b" !in g.buckets && "b" in g.objects
  {
    var store := [StoreObject("b", o)];
    var delete := [DeleteBucket("b")] + store;
    var check := [CheckBucket("b")] + delete;
    var ops := [CreateBucket("b")] + check;
    assert ops[1..] == check && check[1..] == delete && delete[1..] == store && store[1..] == [];
    var g1 := Apply(EMPTY, CreateBucket("b")).0;
    var g2 := Apply(g1, DeleteBucket("b")).0;
    assert Run(EMPTY, ops) == Run(g1, check) == Run(g1, delete) == Run(g2, store) == Apply(g2, store[0]).0;
    assert ops == [CreateBucket("b"), CheckBucket("b"), DeleteBucket("b"), StoreObject("b", o)];
  }

  // When an orphan is there.

  ghost predicate Orphan(g: State, b: string) { b in g.objects && b !in g.buckets }

  predicate LateStore(g: State, op: Op, b: string) {
    op.StoreObject? && op.bucket == b && op.obj.name != "" && b !in g.buckets
  }

  predicate Creates(op: Op, b: string) { op == CreateBucket(b) && b != "" }

  lemma OrphanStep(g: State, op: Op, b: string)
    ensures Orphan(Apply(g, op).0, b) <==> LateStore(g, op, b) || (Orphan(g, b) && !Creates(op, b))
  {
  }

  /** Some store of the run came too late, and the bucket was not created again after it. */
  ghost predicate StoredTooLate(g: State, ops: seq<Op>, b: string) {
    exists k :: 0 <= k < |ops| && LateStore(Run(g, ops[..k]), ops[k], b) && NotCreatedFrom(ops, k + 1, b)
  }

  ghost predicate NotCreatedFrom(ops: seq<Op>, from: nat, b: string) {
    forall j :: from <= j < |ops| ==> !Creates(ops[j], b)
  }

  /**
   After any run, a bucket name has a table without a bucket exactly when a
   store found the bucket missing, and the bucket was not created after it, or
   when that was so from the start and the bucket was never created.
   */
  lemma {:induction false} OrphanExactly(g: State, ops: seq<Op>, b: string)
    ensures Orphan(Run(g, ops), b) <==> StoredTooLate(g, ops, b) || (Orphan(g, b) && NotCreatedFrom(ops, 0, b))
    decreases |ops|
  {
    if ops != [] {
      var h, rest := Apply(g, ops[0]).0, ops[1..];
      OrphanStep(g, ops[0], b);
      OrphanExactly(h, rest, b);
      TooLateOfCons(g, ops, b);
      assert ops == [ops[0]] + rest;
    }
  }

  lemma TooLateOfCons(g: State, ops: seq<Op>, b: string)
    requires ops != []
    ensures StoredTooLate(g, ops, b)
       <==> StoredTooLate(Apply(g, ops[0]).0, ops[1..], b) || (LateStore(g, ops[0], b) && NotCreatedFrom(ops, 1, b))
  {
    var h, rest := Apply(g, ops[0]).0, ops[1..];
    forall k | 0 < k < |ops| ensures Run(g, ops[..k]) == Run(h, rest[..k - 1]) && ops[k] == rest[k - 1] {
      assert ops[..k][1..] == rest[..k - 1];
    }
    forall k | 0 < k <= |ops| ensures NotCreatedFrom(ops, k, b) <==> NotCreatedFrom(rest, k - 1, b) {
      assert forall j :: k <= j < |ops| ==> ops[j] == rest[j - 1];
      assert forall j :: k - 1 <= j < |rest| ==> rest[j] == ops[j + 1];
    }
    if StoredTooLate(h, rest, b) {
      var k :| 0 <= k < |rest| && LateStore(Run(h, rest[..k]), rest[k], b) && NotCreatedFrom(rest, k + 1, b);
      assert LateStore(Run(g, ops[..k + 1]), ops[k + 1], b) && NotCreatedFrom(ops, k + 2, b);
    }
    if StoredTooLate(g, ops, b) {
      var k :| 0 <= k < |ops| && LateStore(Run(g, ops[..k]), ops[k], b) && NotCreatedFrom(ops, k + 1, b);
      if k > 0 {
        assert LateStore(Run(h, rest[..k - 1]), rest[k - 1], b) && NotCreatedFrom(rest, k, b);
      }
    }
    if LateStore(g, ops[0], b) && NotCreatedFrom(ops, 1, b) {
      assert LateStore(Run(g, ops[..0]), ops[0], b);
    }
  }

  // Whole handlers.

  /** A request, handled from start to end with nothing in between. */
  datatype Handler =
    | MakeBucket(name: string)
    | DropBucket(name: string)
    | DropObject(bucket: string, name: string)
    | Upload(bucket: string, obj: Object)
    | Open(bucket: string, id: string, name: string, contentType: string)
    | Post(bucket: string, id: string, range: Option<Range>, body: Bytes)
    | Put(id: string, range: Option<Range>, body: Bytes)

  /** The locked sections a handler runs. A POST of any kind checks the bucket in its path, and stops if it is not there. */
  function Sections(g: State, h: Handler): seq<Op> {
    match h
    case MakeBucket(name) => [CreateBucket(name)]
    case DropBucket(name) => [DeleteBucket(name)]
    case DropObject(bucket, name) => [DeleteObject(bucket, name)]
    case Upload(bucket, obj) => Checked(g, bucket, StoreObject(bucket, obj))
    case Open(bucket, id, name, contentType) => Checked(g, bucket, Start(id, bucket, name, contentType))
    case Post(bucket, id, range, body) => Checked(g, bucket, Resume(id, range, body))
    case Put(id, range, body) => [Resume(id, range, body)]
  }

  function Checked(g: State, bucket: string, then_: Op): seq<Op> {
    if Apply(g, CheckBucket(bucket)).1 == Found then [CheckBucket(bucket)] + [then_] else [CheckBucket(bucket)]
  }

  function Handled(g: State, hs: seq<Handler>): State
    decreases |hs|
  {
    if hs == [] then g else Handled(Run(g, Sections(g, hs[0])), hs[1..])
  }

  lemma RunOfOne(g: State, op: Op)
    ensures Run(g, [op]) == Apply(g, op).0
  {
    assert [op][1..] == [];
  }

  lemma RunOfChecked(g: State, bucket: string, op: Op)
    ensures Run(g, Checked(g, bucket, op)) == if bucket in g.buckets then Apply(g, op).0 else g
  {
    var check := [CheckBucket(bucket)];
    RunOfOne(g, CheckBucket(bucket));
    RunOfOne(g, op);
    assert (check + [op])[1..] == [op];
  }

  lemma HandlerAgrees(g: State, h: Handler)
    requires KeysAgree(g)
    ensures KeysAgree(Run(g, Sections(g, h)))
  {
    match h
    case MakeBucket(name) => RunOfOne(g, CreateBucket(name));
    case DropBucket(name) => RunOfOne(g, DeleteBucket(name));
    case DropObject(bucket, name) => RunOfOne(g, DeleteObject(bucket, name));
    case Upload(bucket, obj) => RunOfChecked(g, bucket, StoreObject(bucket, obj));
    case Open(bucket, id, name, contentType) => RunOfChecked(g, bucket, Start(id, bucket, name, contentType));
    case Post(bucket, id, range, body) => RunOfChecked(g, bucket, Resume(id, range, body));
    case Put(id, range, body) => RunOfOne(g, Resume(id, range, body));
  }

  /** When handlers do not interleave, buckets and tables have the same keys after every one of them. */
  lemma {:induction false} HandlersAgree(g: State, hs: seq<Handler>)
    requires KeysAgree(g)
    ensures KeysAgree(Handled(g, hs))
    decreases |hs|
  {
    if hs != [] {
      HandlerAgrees(g, hs[0]);
      HandlersAgree(Run(g, Sections(g, hs[0])), hs[1..]);
    }
  }
}
