/**
 The browser and the API together: one upload session from its opening to its completion, with the
 requests of any other sessions in between.
 */
module UploadPipeline {
  import opened Common
  import M = MultipartUpload
  import U = SubtitleUploads

  /** A session's plan covers the declared size with at most the store's part limit. */
  lemma SessionPlanIsIssued(w: U.World, input: U.OpenInput, maxBytes: nat, now: int, store: U.StoreCall, signs: bool,
                            file: seq<M.Byte>)
    requires |file| == input.size
    requires U.CreateUpload(w, input, maxBytes, now, store, signs).1.Session?
    ensures var count := U.CreateUpload(w, input, maxBytes, now, store, signs).1.count;
            M.Issued(M.Plan(file, U.PART_SIZE, count)) && count <= U.MAX_PARTS
  {
  }

  // ---- the joint run ----

  /**
   Either one of the browser's uploaders resumes after its PUT, or the API handles a request that
   is not about this session. The store may keep a part although the browser sees its PUT fail or
   cannot read its ETag header: then `unseenTag` is the tag it is kept under.
   */
  datatype Event =
    | Browser(put: M.Event, unseenTag: Option<string>)
    | Other(request: U.Event)

  datatype State = State(world: U.World, upload: M.Upload)

  /** The request names another upload, or none. */
  predicate Elsewhere(e: U.Event, uploadId: nat) {
    match e
    case Puts(id, _, _, _) => id != uploadId
    case Completes(request, _, _) => request.uploadId != uploadId
    case Aborts(request, _, _) => request.uploadId != uploadId
    case _ => true
  }

  ghost predicate Undisturbed(js: seq<Event>, uploadId: nat) {
    forall k :: 0 <= k < |js| && js[k].Other? ==> Elsewhere(js[k].request, uploadId)
  }

  /** The tag under which the store keeps the part of this PUT, if it does. */
  function TagKept(put: M.Event, unseenTag: Option<string>): Option<string> {
    if put.PutDone? && put.etag != "" then Some(put.etag) else unseenTag
  }

  /** What the uploader's PUT does to the store: part `index + 1` of this upload, with its slice. */
  function Send(plan: M.Plan, uploadId: nat, w: U.World, s: M.Upload, put: M.Event, unseenTag: Option<string>): U.World {
    if put.u >= |s.uploaders| || !s.uploaders[put.u].Sending? then w
    else
      var i := s.uploaders[put.u].index;
      var tag := TagKept(put, unseenTag);
      if tag.None? then w else U.Step(w, U.Puts(uploadId, i + 1, tag.value, M.Slice(plan, i)))
  }

  function Step(plan: M.Plan, uploadId: nat, st: State, j: Event): State {
    match j
    case Browser(put, unseenTag) =>
      State(Send(plan, uploadId, st.world, st.upload, put, unseenTag), M.Step(plan, st.upload, put))
    case Other(request) => st.(world := U.Step(st.world, request))
  }

  function After(plan: M.Plan, uploadId: nat, st: State, js: seq<Event>): State
    decreases |js|
  {
    if js == [] then st else After(plan, uploadId, Step(plan, uploadId, st, js[0]), js[1..])
  }

  // ---- what every joint step keeps ----

  /** The session is open under its key and type, and its token is signed. */
  predicate SessionOpen(w: U.World, token: U.Payload) {
    && token.uploadId in w.pending && token.key == token.uploadId < w.nextId && token in w.signed
    && w.pending[token.uploadId].key == token.key && w.pending[token.uploadId].contentType == token.contentType
  }

  /** The upload as the store sees it: the store's own parts in place of the browser's idea of them. */
  function Seen(st: State, uploadId: nat): M.Upload
    requires uploadId in st.world.pending
  {
    st.upload.(stored := st.world.pending[uploadId].stored)
  }

  ghost predicate Inv(plan: M.Plan, token: U.Payload, st: State) {
    && SessionOpen(st.world, token)
    && M.Inv(plan, Seen(st, token.uploadId)) && |st.upload.uploaders| == M.UploaderCount(plan)
  }

  /** A session stays as it is under a request about another one. */
  ghost predicate SameSession(w: U.World, w': U.World, uploadId: nat) {
    && w.nextId <= w'.nextId && w.signed <= w'.signed
    && (uploadId in w.pending ==> uploadId in w'.pending && w'.pending[uploadId] == w.pending[uploadId])
  }

  lemma OpenElsewhere(w: U.World, e: U.Event, uploadId: nat)
    requires e.Opens? && uploadId < w.nextId
    ensures SameSession(w, U.Step(w, e), uploadId)
  {
  }

  lemma FinishElsewhere(w: U.World, payload: U.Payload, calls: U.Calls, uploadId: nat)
    requires payload.key in w.objects
    ensures SameSession(w, U.FinishUpload(w, payload, calls).0, uploadId)
  {
  }

  lemma CompleteElsewhere(w: U.World, request: U.CompleteInput, at: int, calls: U.Calls, uploadId: nat)
    requires request.uploadId != uploadId
    ensures SameSession(w, U.CompleteUpload(w, request, at, calls).0, uploadId)
  {
    if U.StoreCompletes(w, request, at, calls) {
      var data := U.Joinable(w, request, U.Normalized(request.parts).value).value;
      FinishElsewhere(U.Join(w, request, data), request.token, calls, uploadId);
    }
  }

  lemma CreateElsewhere(w: U.World, file: Option<U.File>, modelKnown: bool, maxBytes: nat, calls: U.Calls, uploadId: nat)
    ensures SameSession(w, U.Create(w, file, modelKnown, maxBytes, calls).0, uploadId)
  {
  }

  lemma RequestElsewhere(w: U.World, e: U.Event, uploadId: nat)
    requires Elsewhere(e, uploadId) && uploadId < w.nextId
    ensures SameSession(w, U.Step(w, e), uploadId)
  {
    match e
    case Opens(_, _, _, _, _) => OpenElsewhere(w, e, uploadId);
    case Puts(id, _, _, _) =>
    case Completes(request, at, calls) => CompleteElsewhere(w, request, at, calls, uploadId);
    case Aborts(request, _, _) =>
    case Creates(file, modelKnown, maxBytes, calls) => CreateElsewhere(w, file, modelKnown, maxBytes, calls, uploadId);
  }

  /** A part the store keeps unseen disturbs nothing: its index is held, so no pushed part has its number. */
  lemma UnseenPartKeeps(plan: M.Plan, s: M.Upload, u: nat, tag: string)
    requires M.Inv(plan, s) && u < |s.uploaders| && s.uploaders[u].Sending?
    ensures var i := s.uploaders[u].index;
            M.Inv(plan, s.(stored := s.stored[i + 1 := (tag, M.Slice(plan, i))]))
  {
    var i := s.uploaders[u].index;
    var s' := s.(stored := s.stored[i + 1 := (tag, M.Slice(plan, i))]);
    assert M.Holds(s, u, i);
    assert forall j: nat :: M.Pushed(s', j) <==> M.Pushed(s, j);
    assert forall v: nat, j: nat :: M.Holds(s', v, j) <==> M.Holds(s, v, j);
    forall k | 0 <= k < |s.parts| ensures M.StoredPart(plan, s', s.parts[k]) {
      assert M.StoredPart(plan, s, s.parts[k]) && s.parts[k].partNumber != i + 1;
    }
  }

  /** What the store holds of the upload after the PUT. */
  function StoredAfter(plan: M.Plan, stored: M.Stored, s: M.Upload, put: M.Event, unseenTag: Option<string>): M.Stored {
    if put.u >= |s.uploaders| || !s.uploaders[put.u].Sending? || TagKept(put, unseenTag).None? then stored
    else
      var i := s.uploaders[put.u].index;
      stored[i + 1 := (TagKept(put, unseenTag).value, M.Slice(plan, i))]
  }

  lemma SendKeepsSession(plan: M.Plan, token: U.Payload, st: State, put: M.Event, unseenTag: Option<string>)
    requires SessionOpen(st.world, token)
    ensures var w' := Send(plan, token.uploadId, st.world, st.upload, put, unseenTag);
            SessionOpen(w', token)
            && w'.pending[token.uploadId].stored
               == StoredAfter(plan, st.world.pending[token.uploadId].stored, st.upload, put, unseenTag)
  {
  }

  lemma SeenKeeps(plan: M.Plan, seen: M.Upload, put: M.Event, unseenTag: Option<string>)
    requires M.Inv(plan, seen)
    ensures M.Inv(plan, M.Step(plan, seen, put).(stored := StoredAfter(plan, seen.stored, seen, put, unseenTag)))
  {
    if put.u < |seen.uploaders| && seen.uploaders[put.u].Sending? && (put.PutFailed? || put.etag == "") && unseenTag.Some? {
      UnseenPartKeeps(plan, seen, put.u, unseenTag.value);
      M.StepKeeps(plan, seen.(stored := StoredAfter(plan, seen.stored, seen, put, unseenTag)), put);
    } else {
      M.StepKeeps(plan, seen, put);
    }
  }

  /** The browser's step does not look at what the store holds. */
  lemma StepIgnoresStored(plan: M.Plan, s: M.Upload, stored: M.Stored, put: M.Event)
    ensures var s', seen' := M.Step(plan, s, put), M.Step(plan, s.(stored := stored), put);
            seen'.(stored := s'.stored) == s' && |s'.uploaders| == |s.uploaders|
  {
  }

  lemma BrowserKeeps(plan: M.Plan, token: U.Payload, st: State, put: M.Event, unseenTag: Option<string>)
    requires Inv(plan, token, st)
    ensures Inv(plan, token, Step(plan, token.uploadId, st, Browser(put, unseenTag)))
  {
    var seen := Seen(st, token.uploadId);
    SendKeepsSession(plan, token, st, put, unseenTag);
    SeenKeeps(plan, seen, put, unseenTag);
    StepIgnoresStored(plan, st.upload, seen.stored, put);
  }

  lemma {:induction false} AfterKeeps(plan: M.Plan, token: U.Payload, st: State, js: seq<Event>)
    requires Inv(plan, token, st) && Undisturbed(js, token.uploadId)
    ensures Inv(plan, token, After(plan, token.uploadId, st, js))
    decreases |js|
  {
    if js != [] {
      if js[0].Browser? {
        BrowserKeeps(plan, token, st, js[0].put, js[0].unseenTag);
      } else {
        RequestElsewhere(st.world, js[0].request, token.uploadId);
      }
      AfterKeeps(plan, token, Step(plan, token.uploadId, st, js[0]), js[1..]);
    }
  }

  // ---- the report passes the server's check ----

  /** A complete list is its own normal form: sorting it again changes nothing, and every part is valid. */
  lemma ReportIsNormal(plan: M.Plan, stored: M.Stored, report: seq<M.Part>)
    requires M.Issued(plan) && plan.count <= U.MAX_PARTS && M.Complete(plan, stored, report)
    ensures U.Normalized(report) == Ok(report)
  {
    M.CountCovers(plan);
    forall k | 0 <= k < |report| ensures U.ValidPart(report[k]) && report[k].partNumber == k + 1 {
      assert M.Listed(plan, stored, report[k], k);
    }
    SortedAgain(report);
    U.AllGood(report, 0);
  }

  lemma {:induction false} SortedAgain(parts: seq<M.Part>)
    requires forall j, k :: 0 <= j < k < |parts| ==> parts[j].partNumber < parts[k].partNumber
    ensures M.SortParts(parts) == parts
  {
    if parts != [] {
      var last := |parts| - 1;
      SortedAgain(parts[..last]);
      InsertLast(parts[last], parts[..last]);
      assert parts == parts[..last] + [parts[last]];
    }
  }

  lemma {:induction false} InsertLast(p: M.Part, parts: seq<M.Part>)
    requires forall k :: 0 <= k < |parts| ==> parts[k].partNumber <= p.partNumber
    ensures M.Insert(p, parts) == parts + [p]
  {
    if parts != [] { InsertLast(p, parts[1..]); }
  }

  // ---- the pipeline ----

  /** The state in which the browser has its session and has started its uploaders. */
  function Opened(w: U.World, input: U.OpenInput, maxBytes: nat, openedAt: int, plan: M.Plan): State {
    State(U.CreateUpload(w, input, maxBytes, openedAt, U.Stored, true).0, M.Begin(plan))
  }

  lemma {:induction false} LaunchStoresNothing(plan: M.Plan, n: nat)
    ensures M.Launch(plan, n).stored == map[]
  {
    if n > 0 { LaunchStoresNothing(plan, n - 1); }
  }

  /**
   The whole pipeline is a plain copy. From any state of the API, open a session for a file, let the
   browser upload it under any interleaving with itself and with requests about other sessions; once
   all uploaders have returned, completing with their report creates the job exactly when the token
   has not expired, the three calls of the completion answer, and the size fits the column. Then the
   object is the file, byte for byte, under the declared type, and the job's row describes it.
   */
  lemma UploadIsCopy(w: U.World, input: U.OpenInput, maxBytes: nat, openedAt: int, file: seq<M.Byte>,
                     js: seq<Event>, now: int, calls: U.Calls)
    requires |file| == input.size && U.CreateUpload(w, input, maxBytes, openedAt, U.Stored, true).1.Session?
    requires var session := U.CreateUpload(w, input, maxBytes, openedAt, U.Stored, true).1;
             var plan := M.Plan(file, U.PART_SIZE, session.count);
             && Undisturbed(js, w.nextId)
             && M.Resolved(After(plan, w.nextId, Opened(w, input, maxBytes, openedAt, plan), js).upload)
    ensures var session := U.CreateUpload(w, input, maxBytes, openedAt, U.Stored, true).1;
            var plan := M.Plan(file, U.PART_SIZE, session.count);
            var st := After(plan, w.nextId, Opened(w, input, maxBytes, openedAt, plan), js);
            var request := U.CompleteInput(session.payload.key, session.payload.uploadId, M.SortParts(st.upload.parts), session.payload);
            var (w', reply) := U.CompleteUpload(st.world, request, now, calls);
            && (reply.Created? <==>
                  now < openedAt + U.URL_LIFETIME && calls.store.Stored? && calls.head.Head? && calls.insert.Inserted?
                  && |file| <= U.INT_MAX)
            && (reply.Created? ==>
                  && w.nextId in w'.objects && w'.objects[w.nextId] == U.Object(file, input.contentType)
                  && reply.jobId in w'.rows
                  && w'.rows[reply.jobId] == U.Row(input.fileName, input.contentType, w.nextId, |file|))
  {
    var session := U.CreateUpload(w, input, maxBytes, openedAt, U.Stored, true).1;
    var plan := M.Plan(file, U.PART_SIZE, session.count);
    var start := Opened(w, input, maxBytes, openedAt, plan);
    SessionPlanIsIssued(w, input, maxBytes, openedAt, U.Stored, true, file);
    M.ReachedInv(plan, []);
    LaunchStoresNothing(plan, M.UploaderCount(plan));
    AfterKeeps(plan, session.payload, start, js);
    var st := After(plan, w.nextId, start, js);
    var seen := Seen(st, w.nextId);
    var report := M.SortParts(st.upload.parts);
    M.CompleteWhenResolved(plan, seen);
    M.CompleteJoinsToFile(plan, seen.stored, report);
    ReportIsNormal(plan, seen.stored, report);
    CompletesWith(st.world, session.payload, report, file, now, calls);
  }

  /** Completing an open session whose parts join to a file of the declared size. */
  lemma CompletesWith(w: U.World, token: U.Payload, report: seq<M.Part>, file: seq<M.Byte>, now: int, calls: U.Calls)
    requires SessionOpen(w, token) && |file| == token.size && U.Normalized(report) == Ok(report)
    requires M.Assemble(w.pending[token.uploadId].stored, report) == Some(file)
    ensures var request := U.CompleteInput(token.key, token.uploadId, report, token);
            var (w', reply) := U.CompleteUpload(w, request, now, calls);
            && (reply.Created? <==>
                  now < token.expiresAt && calls.store.Stored? && calls.head.Head? && calls.insert.Inserted?
                  && |file| <= U.INT_MAX)
            && (reply.Created? ==>
                  && token.key in w'.objects && w'.objects[token.key] == U.Object(file, token.contentType)
                  && reply.jobId in w'.rows && w'.rows[reply.jobId] == U.RowOf(token))
  {
  }
}
