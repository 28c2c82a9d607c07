/** Buckets, objects and resumable upload sessions of internal/service/gcs/gcs.go, one locked section per transition. */
module Storage {
  import opened Prelude
  import opened ContentRange

  datatype Object = Object(name: string, contentType: string, data: Bytes)

  datatype Session = Session(bucket: string, name: string, contentType: string, data: Bytes)

  datatype State = State(
    buckets: set<string>,
    objects: map<string, map<string, Object>>,
    sessions: map<string, Session>
  ) {
    function Table(bucket: string): map<string, Object> { Get(objects, bucket, map[]) }
  }

  const EMPTY := State({}, map[], map[])

  datatype Response =
    | Done | Found | BadRequest | NotFound | AlreadyExists
    | Incomplete(persisted: nat)
    | Stored(bucket: string, obj: Object)

  // Transitions.

  function BucketCreated(g: State, name: string): (State, Response) {
    if name == "" then (g, BadRequest)
    else if name in g.buckets then (g, AlreadyExists)
    else (g.(buckets := g.buckets + {name}, objects := g.objects[name := map[]]), Done)
  }

  function BucketDeleted(g: State, name: string): (State, Response) {
    if name !in g.buckets then (g, NotFound)
    else (g.(buckets := g.buckets - {name}, objects := g.objects - {name}), Done)
  }

  function ObjectDeleted(g: State, bucket: string, name: string): (State, Response) {
    if bucket !in g.objects || name !in g.objects[bucket] then (g, NotFound)
    else (g.(objects := g.objects[bucket := g.objects[bucket] - {name}]), Done)
  }

  /** The first locked section of an upload: does the bucket exist? */
  function BucketChecked(g: State, bucket: string): Response {
    if bucket in g.buckets then Found else NotFound
  }

  function WithObject(g: State, bucket: string, o: Object): State {
    g.(objects := g.objects[bucket := g.Table(bucket)[o.name := o]])
  }

  /** The second locked section of a simple upload; it does not look at the buckets again. */
  function ObjectStored(g: State, bucket: string, o: Object): (State, Response) {
    if o.name == "" then (g, BadRequest) else (WithObject(g, bucket, o), Stored(bucket, o))
  }

  function SessionStarted(g: State, id: string, bucket: string, name: string, contentType: string): (State, Response) {
    if name == "" then (g, BadRequest)
    else (g.(sessions := g.sessions[id := Session(bucket, name, contentType, [])]), Done)
  }

  /** A body is taken only when it starts where the persisted bytes end. */
  predicate Takes(s: Session, r: Range) {
    !r.query && r.start == |s.data|
  }

  function Continued(s: Session, r: Range, body: Bytes): Session {
    if Takes(s, r) then s.(data := s.data + body) else s
  }

  predicate Completes(s: Session, r: Range, body: Bytes) {
    (Takes(s, r) && r.last) || (r.total >= 0 && |Continued(s, r, body).data| == r.total)
  }

  function SessionEnded(g: State, id: string, s: Session): (State, Response) {
    var h := g.(sessions := g.sessions - {id});
    if s.bucket !in g.buckets then (h, NotFound)
    else
      var o := Object(s.name, s.contentType, s.data);
      (WithObject(h, s.bucket, o), Stored(s.bucket, o))
  }

  /** `range` is the parsed Content-Range; a malformed one is refused before the session is looked up. */
  function Resumed(g: State, id: string, range: Option<Range>, body: Bytes): (State, Response) {
    match range
    case None => (g, BadRequest)
    case Some(r) =>
      if id !in g.sessions then (g, NotFound)
      else
        var s := Continued(g.sessions[id], r, body);
        if Completes(g.sessions[id], r, body) then SessionEnded(g, id, s)
        else (g.(sessions := g.sessions[id := s]), Incomplete(|s.data|))
  }

  // The service.

  class Service {
    var Buckets: set<string>
    var Objects: map<string, map<string, Object>>
    var sessions: map<string, Session>

    function Value(): State
      reads this
    {
      State(Buckets, Objects, sessions)
    }

    constructor ()
      ensures Value() == EMPTY
    {
      Buckets, Objects, sessions := {}, map[], map[];
    }

    method CreateBucket(name: string) returns (r: Response)
      modifies this
      ensures (Value(), r) == BucketCreated(old(Value()), name)
    {
      if name == "" {
        return BadRequest;
      }
      if name in Buckets {
        return AlreadyExists;
      }
      Buckets := Buckets + {name};
      Objects := Objects[name := map[]];
      return Done;
    }

    method DeleteBucket(bucket: string) returns (r: Response)
      modifies this
      ensures (Value(), r) == BucketDeleted(old(Value()), bucket)
    {
      if bucket !in Buckets {
        return NotFound;
      }
      Buckets := Buckets - {bucket};
      Objects := Objects - {bucket};
      return Done;
    }

    method DeleteObj(bucket: string, name: string) returns (r: Response)
      modifies this
      ensures (Value(), r) == ObjectDeleted(old(Value()), bucket, name)
    {
      if bucket !in Objects {
        return NotFound;
      }
      if name !in Objects[bucket] {
        return NotFound;
      }
      Objects := Objects[bucket := Objects[bucket] - {name}];
      return Done;
    }

    method CheckBucket(bucket: string) returns (r: Response)
      ensures r == BucketChecked(Value(), bucket)
    {
      if bucket !in Buckets {
        return NotFound;
      }
      return Found;
    }

    method StoreObject(bucket: string, name: string, contentType: string, data: Bytes) returns (r: Response)
      modifies this
      ensures (Value(), r) == ObjectStored(old(Value()), bucket, Object(name, contentType, data))
    {
      if name == "" {
        return BadRequest;
      }
      if bucket !in Objects {
        Objects := Objects[bucket := map[]];
      }
      Objects := Objects[bucket := Objects[bucket][name := Object(name, contentType, data)]];
      assert Value() == WithObject(old(Value()), bucket, Object(name, contentType, data));
      return Stored(bucket, Object(name, contentType, data));
    }

    method StartResumable(id: string, bucket: string, name: string, contentType: string) returns (r: Response)
      modifies this
      ensures (Value(), r) == SessionStarted(old(Value()), id, bucket, name, contentType)
    {
      if name == "" {
        return BadRequest;
      }
      sessions := sessions[id := Session(bucket, name, contentType, [])];
      return Done;
    }

    method ResumeUpload(id: string, header: string, body: Bytes) returns (r: Response)
      modifies this
      ensures (Value(), r) == Resumed(old(Value()), id, ParseContentRange(header), body)
    {
      var range := ParseContentRange(header);
      if range.None? {
        return BadRequest;
      }
      r := Continue(id, range.value, body);
    }

    /** The locked section of ResumeUpload. */
    method Continue(id: string, cr: Range, body: Bytes) returns (r: Response)
      modifies this
      ensures (Value(), r) == Resumed(old(Value()), id, Some(cr), body)
    {
      if id !in sessions {
        return NotFound;
      }
      var sess := sessions[id];
      var applied := !cr.query && cr.start == |sess.data|;
      if applied {
        sess := sess.(data := sess.data + body);
        sessions := sessions[id := sess];
      }
      var persisted := |sess.data|;
      var complete := (applied && cr.last) || (cr.total >= 0 && persisted == cr.total);
      if !complete {
        assert sessions == old(sessions)[id := sess];
        return Incomplete(persisted);
      }
      sessions := sessions - {id};
      assert sessions == old(sessions) - {id};
      if sess.bucket !in Buckets {
        return NotFound;
      }
      var obj := Object(sess.name, sess.contentType, sess.data);
      if sess.bucket !in Objects {
        Objects := Objects[sess.bucket := map[]];
      }
      Objects := Objects[sess.bucket := Objects[sess.bucket][sess.name := obj]];
      assert Objects == WithObject(old(Value()), sess.bucket, obj).objects;
      return Stored(sess.bucket, obj);
    }

    /** A simple upload whose two sections nothing comes between. */
    method UploadObj(bucket: string, name: string, contentType: string, data: Bytes) returns (r: Response)
      modifies this
      ensures (Value(), r) == if bucket !in old(Buckets) then (old(Value()), NotFound)
                              else ObjectStored(old(Value()), bucket, Object(name, contentType, data))
    {
      r := CheckBucket(bucket);
      if r == NotFound {
        return;
      }
      r := StoreObject(bucket, name, contentType, data);
    }
  }
}
