/** The PUT-object test step in its two modes and the registry of objects the
    harness has uploaded (`s3verifyObjects`). */
module TestStep {
  import opened Basics
  import opened Decimal
  import opened Http
  import opened RequestBuilder
  import opened ResponseVerifier

  /** An object the harness uploads: its key and its content. */
  datatype ObjectInfo = ObjectInfo(key: string, body: seq<byte>)

  datatype BucketInfo = BucketInfo(name: string)

  /** How a test step ended: whether it passed, the error it reported when it
      did not, and the registry of uploaded objects afterwards. */
  datatype StepResult = StepResult(passed: bool, failure: Option<Error>, objects: seq<ObjectInfo>)

  /** Length of every randomly generated object body. */
  const ObjectBodySize: nat := 60
  const PreparedObjectKey: string := "s3verify/made/put/object"
  const UnpreparedKeyPrefix: string := "s3verify/put/object/"
  /** Number of objects the unprepared mode uploads. */
  const UnpreparedObjectCount: nat := 101

  /** The key of the `i`-th object uploaded in unprepared mode. */
  function ObjectKey(i: nat): (k: string)
    ensures UnpreparedKeyPrefix <= k
    ensures |UnpreparedKeyPrefix| < |k|
  {
    UnpreparedKeyPrefix + NatToString(i)
  }

  /** The iteration index a key of unprepared mode names, if it is one. */
  function KeyIndex(key: string): Option<nat> {
    if UnpreparedKeyPrefix <= key then ParseNat(key[|UnpreparedKeyPrefix|..]) else None
  }

  /** Every key names its iteration recoverably. */
  lemma ObjectKeyRoundTrip(i: nat)
    ensures KeyIndex(ObjectKey(i)) == Some(i)
  {
    assert ObjectKey(i)[|UnpreparedKeyPrefix|..] == NatToString(i);
    NatRoundTrip(i);
  }

  /** Different iterations upload under different keys. */
  lemma ObjectKeysDistinct(i: nat, j: nat)
    requires i != j
    ensures ObjectKey(i) != ObjectKey(j)
  {
    ObjectKeyRoundTrip(i);
    ObjectKeyRoundTrip(j);
  }

  /** The request built for `obj` in `bucket`. */
  function BuiltRequest(env: Collaborators, bucket: BucketInfo, obj: ObjectInfo): Request {
    NewPutObjectReq(env, bucket.name, obj.key, obj.body).0
  }

  /** Build, execute and verify against 200 for one obj: the error that
      stops the step, if any. Building fails first, then the transport, then
      the response checks. */
  function PutObject(env: Collaborators, bucket: BucketInfo, obj: ObjectInfo, transport: Transport)
    : (e: Option<Error>)
    ensures e.None? <==>
              && env.hashReadError(obj.body).None?
              && transport(BuiltRequest(env, bucket, obj)).Responded?
              && Accepted(env, transport(BuiltRequest(env, bucket, obj)).response, StatusOK)
    ensures env.hashReadError(obj.body).Some? ==> e == env.hashReadError(obj.body)
    ensures env.hashReadError(obj.body).None? && transport(BuiltRequest(env, bucket, obj)).TransportFailed? ==>
              e == Some(transport(BuiltRequest(env, bucket, obj)).error)
    ensures env.hashReadError(obj.body).None? && transport(BuiltRequest(env, bucket, obj)).Responded? ==>
              e == PutObjectVerify(env, transport(BuiltRequest(env, bucket, obj)).response, StatusOK)
  {
    var (req, err) := NewPutObjectReq(env, bucket.name, obj.key, obj.body);
    if err.Some? then err
    else
      match transport(req)
      case TransportFailed(te) => Some(te)
      case Responded(res) => PutObjectVerify(env, res, StatusOK)
  }

  /** `mainPutObjectPrepared`: uploads one extra object into the first bucket
      and registers it only if the whole step succeeds. */
  function MainPutObjectPrepared(env: Collaborators, buckets: seq<BucketInfo>, randomBody: seq<byte>,
                                 transport: Transport, objects: seq<ObjectInfo>): (r: StepResult)
    requires 0 < |buckets|
    requires |randomBody| == ObjectBodySize
    ensures r.passed <==>
              && env.hashReadError(randomBody).None?
              && var req := BuiltRequest(env, buckets[0], ObjectInfo(PreparedObjectKey, randomBody));
                 transport(req).Responded? && Accepted(env, transport(req).response, StatusOK)
    ensures r.passed ==> r.failure.None? && r.objects == objects + [ObjectInfo(PreparedObjectKey, randomBody)]
    ensures r.passed ==> |r.objects| == |objects| + 1 && |r.objects[|objects|].body| == ObjectBodySize
    ensures !r.passed ==> r.failure.Some? && r.objects == objects
    ensures r.failure == PutObject(env, buckets[0], ObjectInfo(PreparedObjectKey, randomBody), transport)
  {
    var bucket := buckets[0];
    var obj := ObjectInfo(PreparedObjectKey, randomBody);
    var err := PutObject(env, bucket, obj, transport);
    if err.Some? then StepResult(false, err, objects)
    else StepResult(true, None, objects + [obj])
  }

  /** The objects the first `k` iterations of unprepared mode upload, in order. */
  function Uploads(bodies: seq<seq<byte>>, k: nat): (s: seq<ObjectInfo>)
    requires k <= |bodies|
  {
    seq(k, j requires 0 <= j < k => ObjectInfo(ObjectKey(j), bodies[j]))
  }

  /** The error iteration `j` of unprepared mode stops at, if any. */
  function Attempt(env: Collaborators, bucket: BucketInfo, bodies: seq<seq<byte>>,
                   transports: seq<Transport>, j: nat): Option<Error>
    requires j < |bodies| && j < |transports|
  {
    PutObject(env, bucket, ObjectInfo(ObjectKey(j), bodies[j]), transports[j])
  }

  /** Reference semantics of the fail-fast loop from iteration `i` on, with
      `objects` registered so far: stop at the first failing iteration,
      otherwise register the object and go on. */
  function RunFrom(env: Collaborators, bucket: BucketInfo, bodies: seq<seq<byte>>,
                   transports: seq<Transport>, i: nat, objects: seq<ObjectInfo>): (r: StepResult)
    requires i <= |bodies| == |transports|
    ensures r.passed <==> r.failure.None?
    ensures objects <= r.objects
    ensures |r.objects| <= |objects| + (|bodies| - i)
    ensures r.passed ==> |r.objects| == |objects| + (|bodies| - i)
    decreases |bodies| - i
  {
    if i == |bodies| then StepResult(true, None, objects)
    else
      match Attempt(env, bucket, bodies, transports, i)
      case Some(e) => StepResult(false, Some(e), objects)
      case None => RunFrom(env, bucket, bodies, transports, i + 1, objects + [ObjectInfo(ObjectKey(i), bodies[i])])
  }

  /** If iteration `k` is the first to fail, the loop reports its error after
      registering exactly the objects of the iterations before it. */
  lemma {:induction false} RunFromStopsAtFirstFailure(env: Collaborators, bucket: BucketInfo, bodies: seq<seq<byte>>,
                                                      transports: seq<Transport>, i: nat, k: nat,
                                                      objects: seq<ObjectInfo>)
    requires i <= k < |bodies| == |transports|
    requires forall j :: i <= j < k ==> Attempt(env, bucket, bodies, transports, j).None?
    requires Attempt(env, bucket, bodies, transports, k).Some?
    ensures RunFrom(env, bucket, bodies, transports, i, objects)
         == StepResult(false, Attempt(env, bucket, bodies, transports, k), objects + Uploads(bodies, k)[i..])
    decreases k - i
  {
    if i < k {
      var next := objects + [ObjectInfo(ObjectKey(i), bodies[i])];
      RunFromStopsAtFirstFailure(env, bucket, bodies, transports, i + 1, k, next);
      assert next + Uploads(bodies, k)[i + 1..] == objects + Uploads(bodies, k)[i..];
    }
  }

  /** If no iteration fails, the loop passes having registered every object in
      index order. */
  lemma {:induction false} RunFromAllPass(env: Collaborators, bucket: BucketInfo, bodies: seq<seq<byte>>,
                                          transports: seq<Transport>, i: nat, objects: seq<ObjectInfo>)
    requires i <= |bodies| == |transports|
    requires forall j :: i <= j < |bodies| ==> Attempt(env, bucket, bodies, transports, j).None?
    ensures RunFrom(env, bucket, bodies, transports, i, objects)
         == StepResult(true, None, objects + Uploads(bodies, |bodies|)[i..])
    decreases |bodies| - i
  {
    if i < |bodies| {
      var next := objects + [ObjectInfo(ObjectKey(i), bodies[i])];
      RunFromAllPass(env, bucket, bodies, transports, i + 1, next);
      assert next + Uploads(bodies, |bodies|)[i + 1..] == objects + Uploads(bodies, |bodies|)[i..];
    }
  }

  /** Stubs for iterations after the first failing one are never consulted:
      replacing them changes nothing. */
  lemma {:induction false} RunFromIgnoresLaterIterations(env: Collaborators, bucket: BucketInfo,
                                                         bodies: seq<seq<byte>>, transports: seq<Transport>,
                                                         bodies': seq<seq<byte>>, transports': seq<Transport>,
                                                         i: nat, k: nat, objects: seq<ObjectInfo>)
    requires i <= k < |bodies| == |transports| == |bodies'| == |transports'|
    requires forall j :: 0 <= j <= k ==> bodies'[j] == bodies[j]
    requires forall j, req :: 0 <= j <= k ==> transports'[j](req) == transports[j](req)
    requires forall j :: i <= j < k ==> Attempt(env, bucket, bodies, transports, j).None?
    requires Attempt(env, bucket, bodies, transports, k).Some?
    ensures RunFrom(env, bucket, bodies', transports', i, objects)
         == RunFrom(env, bucket, bodies, transports, i, objects)
    decreases k - i
  {
    assert Attempt(env, bucket, bodies', transports', i) == Attempt(env, bucket, bodies, transports, i);
    if i < k {
      RunFromIgnoresLaterIterations(env, bucket, bodies, transports, bodies', transports', i + 1, k,
                                    objects + [ObjectInfo(ObjectKey(i), bodies[i])]);
    }
  }

  /** One iteration of the reference loop: a failing attempt ends it, a
      successful one registers its object and moves on. */
  lemma RunFromUnfold(env: Collaborators, bucket: BucketInfo, bodies: seq<seq<byte>>,
                      transports: seq<Transport>, i: nat, objects: seq<ObjectInfo>)
    requires i < |bodies| == |transports|
    ensures Attempt(env, bucket, bodies, transports, i).Some? ==>
              (RunFrom(env, bucket, bodies, transports, i, objects)
               == StepResult(false, Attempt(env, bucket, bodies, transports, i), objects))
    ensures Attempt(env, bucket, bodies, transports, i).None? ==>
              (RunFrom(env, bucket, bodies, transports, i, objects)
               == RunFrom(env, bucket, bodies, transports, i + 1, objects + [ObjectInfo(ObjectKey(i), bodies[i])]))
  {
  }

  /** The uploads of the first `i + 1` iterations extend those of the first `i`. */
  lemma UploadsExtend(bodies: seq<seq<byte>>, i: nat)
    requires i < |bodies|
    ensures Uploads(bodies, i + 1) == Uploads(bodies, i) + [ObjectInfo(ObjectKey(i), bodies[i])]
  {
  }

  /** The unprepared upload loop over `|bodies|` iterations: iteration `i`
      uploads `bodies[i]` under `ObjectKey(i)` through `transports[i]`, and the
      loop stops at the first iteration that fails. `completed` is the number
      of iterations that succeeded before it stopped. */
  method PutObjectsFailFast(env: Collaborators, bucket: BucketInfo, bodies: seq<seq<byte>>,
                            transports: seq<Transport>, objects: seq<ObjectInfo>)
    returns (r: StepResult, completed: nat)
    requires |bodies| == |transports|
    ensures completed <= |bodies|
    ensures forall j :: 0 <= j < completed ==> Attempt(env, bucket, bodies, transports, j).None?
    ensures r.objects == objects + Uploads(bodies, completed)
    ensures r.passed <==> completed == |bodies|
    ensures r.passed ==> r.failure.None?
    ensures !r.passed ==> r.failure.Some? && r.failure == Attempt(env, bucket, bodies, transports, completed)
    ensures r == RunFrom(env, bucket, bodies, transports, 0, objects)
  {
    var registry := objects;
    var i := 0;
    while i < |bodies|
      invariant 0 <= i <= |bodies|
      invariant registry == objects + Uploads(bodies, i)
      invariant forall j :: 0 <= j < i ==> Attempt(env, bucket, bodies, transports, j).None?
      invariant RunFrom(env, bucket, bodies, transports, i, registry)
             == RunFrom(env, bucket, bodies, transports, 0, objects)
    {
      var obj := ObjectInfo(ObjectKey(i), bodies[i]);
      var err := Attempt(env, bucket, bodies, transports, i);
      RunFromUnfold(env, bucket, bodies, transports, i, registry);
      if err.Some? {
        return StepResult(false, err, registry), i;
      }
      UploadsExtend(bodies, i);
      registry := registry + [obj];
      i := i + 1;
    }
    return StepResult(true, None, registry), i;
  }

  /** `mainPutObjectUnPrepared`: 101 fail-fast iterations into the first
      bucket, each with a fresh 60-byte body. */
  method MainPutObjectUnPrepared(env: Collaborators, buckets: seq<BucketInfo>, bodies: seq<seq<byte>>,
                                 transports: seq<Transport>, objects: seq<ObjectInfo>)
    returns (r: StepResult, completed: nat)
    requires 0 < |buckets|
    requires |bodies| == UnpreparedObjectCount && |transports| == UnpreparedObjectCount
    requires forall j :: 0 <= j < |bodies| ==> |bodies[j]| == ObjectBodySize
    ensures objects <= r.objects
    ensures |r.objects| == |objects| + completed
    ensures forall j :: |objects| <= j < |r.objects| ==> |r.objects[j].body| == ObjectBodySize
    ensures forall a, b :: |objects| <= a < b < |r.objects| ==> r.objects[a].key != r.objects[b].key
    ensures r.passed <==> forall j :: 0 <= j < UnpreparedObjectCount ==> Attempt(env, buckets[0], bodies, transports, j).None?
    ensures r.passed ==> completed == UnpreparedObjectCount
    ensures !r.passed ==>
              && completed < UnpreparedObjectCount
              && (forall j :: 0 <= j < completed ==> Attempt(env, buckets[0], bodies, transports, j).None?)
              && r.failure.Some?
              && r.failure == Attempt(env, buckets[0], bodies, transports, completed)
    ensures r.passed ==> r.failure.None?
    ensures r.objects == objects + Uploads(bodies, completed)
    ensures r == RunFrom(env, buckets[0], bodies, transports, 0, objects)
  {
    r, completed := PutObjectsFailFast(env, buckets[0], bodies, transports, objects);
    forall a, b | |objects| <= a < b < |r.objects|
      ensures r.objects[a].key != r.objects[b].key
    {
      ObjectKeysDistinct(a - |objects|, b - |objects|);
    }
  }

  /** The keys of the first two iterations, spelled out. */
  lemma FirstObjectKeys()
    ensures ObjectKey(0) == "s3verify/put/object/0"
    ensures ObjectKey(1) == "s3verify/put/object/1"
  {
  }

  /** A stub transport answering every request with the given status, the
      given headers and an empty body. */
  function Stub(status: int, header: Header): Transport {
    _ => Responded(Response(status, header, Body([], None)))
  }

  /** One upload against a stub: it passes on 200 and otherwise fails with the
      status error. */
  lemma PutObjectAgainstStub(env: Collaborators, bucket: BucketInfo, obj: ObjectInfo, status: int, header: Header)
    requires env.hashReadError(obj.body).None? && env.verifyStandardHeaders(header).None?
    ensures PutObject(env, bucket, obj, Stub(status, header))
         == if status == 200 then None else Some(StatusError(200, status))
  {
  }

  /** Prepared mode against a server answering 200 with valid headers and an
      empty body: the step passes and registers exactly the new object. */
  lemma PreparedPassesOnCleanResponse(env: Collaborators, buckets: seq<BucketInfo>, body: seq<byte>,
                                      header: Header, objects: seq<ObjectInfo>)
    requires 0 < |buckets| && |body| == ObjectBodySize
    requires env.hashReadError(body).None? && env.verifyStandardHeaders(header).None?
    ensures var r := MainPutObjectPrepared(env, buckets, body, Stub(200, header), objects);
            r.passed && r.objects == objects + [ObjectInfo("s3verify/made/put/object", body)]
  {
  }

  /** Prepared mode against a server answering 403: the step fails with the
      status error naming both codes, and the registry is unchanged. */
  lemma PreparedFailsOnForbidden(env: Collaborators, buckets: seq<BucketInfo>, body: seq<byte>,
                                 header: Header, objects: seq<ObjectInfo>)
    requires 0 < |buckets| && |body| == ObjectBodySize
    requires env.hashReadError(body).None? && env.verifyStandardHeaders(header).None?
    ensures var r := MainPutObjectPrepared(env, buckets, body, Stub(403, header), objects);
            && !r.passed
            && r.failure == Some(Error("Unexpected Response Status Code: wanted 200, got 403"))
            && r.objects == objects
  {
    PutObjectAgainstStub(env, buckets[0], ObjectInfo(PreparedObjectKey, body), 403, header);
    StatusErrorForbidden();
  }

  /** A five-iteration loop whose third upload is answered 403: two objects
      are registered, under the keys of iterations 0 and 1, and the loop
      fails with the third iteration's error. */
  lemma LoopStopsAtThirdFailure(env: Collaborators, bucket: BucketInfo, bodies: seq<seq<byte>>,
                                header: Header, objects: seq<ObjectInfo>)
    requires |bodies| == 5
    requires forall j :: 0 <= j < 5 ==> env.hashReadError(bodies[j]).None?
    requires env.verifyStandardHeaders(header).None?
    ensures var r := RunFrom(env, bucket, bodies, [Stub(200, header), Stub(200, header), Stub(403, header),
                                                   Stub(200, header), Stub(200, header)], 0, objects);
            && !r.passed
            && r.failure == Some(StatusError(200, 403))
            && r.objects == objects + [ObjectInfo("s3verify/put/object/0", bodies[0]),
                                       ObjectInfo("s3verify/put/object/1", bodies[1])]
  {
    var transports := [Stub(200, header), Stub(200, header), Stub(403, header),
                       Stub(200, header), Stub(200, header)];
    forall j | 0 <= j < 2
      ensures Attempt(env, bucket, bodies, transports, j).None?
    {
      assert transports[j] == Stub(200, header);
      PutObjectAgainstStub(env, bucket, ObjectInfo(ObjectKey(j), bodies[j]), 200, header);
    }
    assert Attempt(env, bucket, bodies, transports, 2) == Some(StatusError(200, 403)) by {
      assert transports[2] == Stub(403, header);
      PutObjectAgainstStub(env, bucket, ObjectInfo(ObjectKey(2), bodies[2]), 403, header);
    }
    RunFromStopsAtFirstFailure(env, bucket, bodies, transports, 0, 2, objects);
    assert Uploads(bodies, 2)[0..] == [ObjectInfo(ObjectKey(0), bodies[0]), ObjectInfo(ObjectKey(1), bodies[1])];
    FirstObjectKeys();
  }
}
