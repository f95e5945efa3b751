/**
 SubtitlesService as the code has it: each call steps through its effects, keeping
 `sourceUploaded` and `completedObjectKey`, and compensates in its `catch`.
 */
module SubtitlesApi {
  import opened Common
  import M = MultipartUpload
  import U = SubtitleUploads

  /** Fills a seen set while walking the sorted parts; stops at the first refused one. */
  method NormalizeUploadParts(parts: seq<M.Part>) returns (r: Result<seq<M.Part>, U.PartsError>)
    ensures r.Ok? <==> parts != [] && (forall p :: p in parts ==> U.ValidPart(p)) && U.NumbersDiffer(parts)
    ensures r.Ok? ==> M.Ascending(r.value) && multiset(r.value) == multiset(parts)
    ensures r == U.Normalized(parts)
  {
    if |parts| == 0 {
      U.NormalizedIff(parts);
      return Err(U.PartsRequired);
    }
    var seenPartNumbers: set<int> := {};
    var sorted := M.SortParts(parts);
    M.SortIsPermutation(parts);
    var i := 0;
    while i < |sorted|
      invariant 0 <= i <= |sorted|
      invariant U.FirstBad(sorted, 0) == U.FirstBad(sorted, i)
      invariant forall n :: n in seenPartNumbers <==> exists k :: 0 <= k < i && sorted[k].partNumber == n
    {
      var part := sorted[i];
      if part.partNumber < 1 || part.partNumber > U.MAX_PARTS || part.etag == "" {
        U.NormalizedIff(parts);
        return Err(U.PartsInvalid);
      }
      if part.partNumber in seenPartNumbers {
        var k :| 0 <= k < i && sorted[k].partNumber == part.partNumber;
        assert sorted[k].partNumber <= sorted[i - 1].partNumber <= sorted[i].partNumber;
        U.NormalizedIff(parts);
        return Err(U.PartsDuplicate);
      }
      assert i > 0 ==> sorted[i - 1].partNumber in seenPartNumbers;
      seenPartNumbers := seenPartNumbers + {part.partNumber};
      i := i + 1;
    }
    U.NormalizedIff(parts);
    return Ok(sorted);
  }

  class SubtitlesService {
    const maxBytes: nat
    var nextId: nat
    var objects: map<nat, U.Object>
    var pending: map<nat, U.Pending>
    var rows: map<nat, U.Row>
    var signed: set<U.Payload>
    var temp: set<string>
    var logged: set<nat>
    ghost var lost: set<nat>
    ghost var unseen: set<nat>

    /** The service's surroundings as one value. */
    ghost function View(): U.World
      reads this
    {
      U.World(nextId, objects, pending, rows, signed, temp, logged, lost, unseen)
    }

    constructor (maxBytes: nat)
      ensures this.maxBytes == maxBytes && View() == U.EMPTY
    {
      this.maxBytes := maxBytes;
      nextId, objects, pending, rows, signed, temp, logged, lost, unseen := 0, map[], map[], map[], {}, {}, {}, {}, {};
    }

    /** `deleteObject(key).catch(log)`. */
    method DeleteOrLog(key: nat, call: U.DeleteCall)
      modifies this
      ensures View() == U.Compensate(old(View()), key, call)
    {
      if !call.DeleteFailed? {
        objects := map k | k in objects && k != key :: objects[k];
      }
      if !call.Deleted? {
        logged := logged + {key};
      }
    }

    /** `prisma.subtitleJob.create`. */
    method InsertRow(row: U.Row, call: U.InsertCall) returns (jobId: Option<nat>)
      modifies this
      ensures View() == U.AfterInsert(old(View()), row, call)
      ensures jobId == if U.InsertAnswers(row, call) then Some(old(nextId)) else None
    {
      if call.InsertRejected? || row.size > U.INT_MAX {
        return None;
      }
      jobId := if call.Inserted? then Some(nextId) else None;
      rows := rows[nextId := row];
      nextId := nextId + 1;
      if !call.Inserted? {
        lost := lost + {row.key};
      }
    }

    method CreateUpload(input: U.OpenInput, now: int, store: U.StoreCall, signs: bool) returns (reply: U.Reply)
      modifies this
      ensures (View(), reply) == U.CreateUpload(old(View()), input, maxBytes, now, store, signs)
    {
      var check := U.CheckFile(input.size, input.supported, maxBytes);
      if check.Some? {
        return U.Refused(check.value);
      }
      if !input.modelKnown {
        return U.Refused(U.BadModel);
      }
      var partCount := M.PartCount(input.size, U.PART_SIZE);
      if partCount > U.MAX_PARTS {
        return U.Refused(U.TooManyParts);
      }
      var session := nextId;
      nextId := nextId + 1;
      if !U.NameEncodes(input.fileName) {
        return U.Refused(U.BadName);
      }
      if store.StoreRefused? {
        return U.Refused(U.StoreFailed);
      }
      pending := pending[session := U.Pending(session, input.contentType, map[])];
      if store.StoredThenThrew? {
        return U.Refused(U.StoreFailed);
      }
      if !signs {
        return U.Refused(U.SigningFailed);
      }
      var payload := U.Payload(session, session, input.fileName, input.contentType, input.size, now + U.URL_LIFETIME);
      signed := signed + {payload};
      return U.Session(payload, partCount);
    }

    /** `completeMultipartUpload`: the store checks the list against the parts it holds. */
    method CompleteMultipart(input: U.CompleteInput, list: seq<M.Part>, call: U.StoreCall) returns (ok: bool)
      modifies this
      ensures ok <==> U.Joinable(old(View()), input, list).Some? && call.Stored?
      ensures var data := U.Joinable(old(View()), input, list);
              View() == if data.None? || call.StoreRefused? then old(View())
                        else if call.StoredThenThrew? then
                          U.Join(old(View()), input, data.value).(unseen := old(unseen) + {input.key})
                        else U.Join(old(View()), input, data.value)
    {
      if call.StoreRefused? || input.uploadId !in pending || pending[input.uploadId].key != input.key {
        return false;
      }
      var data := M.Assemble(pending[input.uploadId].stored, list);
      if data.None? {
        return false;
      }
      objects := objects[input.key := U.Object(data.value, pending[input.uploadId].contentType)];
      pending := map u | u in pending && u != input.uploadId :: pending[u];
      if call.StoredThenThrew? {
        unseen := unseen + {input.key};
        return false;
      }
      return true;
    }

    /** The `try` of `completeUpload`: HEAD, compare, insert. */
    method InsertCompleted(payload: U.Payload, calls: U.Calls) returns (reply: U.Reply)
      requires payload.key in objects
      modifies this
      ensures var done := U.FinishUpload(old(View()), payload, calls);
              && reply == done.1
              && (reply.Created? ==> View() == done.0)
              && (!reply.Created? ==> U.Compensate(View(), payload.key, calls.delete) == done.0)
    {
      if calls.head.HeadThrew? {
        return U.Refused(U.HeadFailed);
      }
      if !U.MetadataMatches(objects[payload.key], payload, calls.head.typeShown) {
        return U.Refused(U.MetadataMismatch);
      }
      var jobId := InsertRow(U.RowOf(payload), calls.insert);
      reply := if jobId.Some? then U.Created(jobId.value) else U.Refused(U.InsertFailed);
    }

    method CompleteUpload(input: U.CompleteInput, now: int, calls: U.Calls) returns (reply: U.Reply)
      modifies this
      ensures (View(), reply) == U.CompleteUpload(old(View()), input, now, calls)
    {
      if input.token !in signed || input.token.expiresAt <= now {
        return U.Refused(U.TokenInvalid);
      }
      if input.token.key != input.key || input.token.uploadId != input.uploadId {
        return U.Refused(U.TargetMismatch);
      }
      var parts := NormalizeUploadParts(input.parts);
      if parts.Err? {
        return U.Refused(U.BadParts(parts.error));
      }
      var completed := CompleteMultipart(input, parts.value, calls.store);
      if !completed {
        return U.Refused(U.StoreFailed);
      }
      var completedObjectKey := input.key;
      reply := InsertCompleted(input.token, calls);
      if !reply.Created? {
        DeleteOrLog(completedObjectKey, calls.delete);
      }
    }

    method AbortUpload(input: U.CompleteInput, now: int, store: U.StoreCall) returns (reply: U.Reply)
      modifies this
      ensures (View(), reply) == U.AbortUpload(old(View()), input, now, store)
    {
      if input.token !in signed || input.token.expiresAt <= now {
        return U.Refused(U.TokenInvalid);
      }
      if input.token.key != input.key || input.token.uploadId != input.uploadId {
        return U.Refused(U.TargetMismatch);
      }
      if store.StoreRefused? {
        return U.Refused(U.StoreFailed);
      }
      pending := map u | u in pending && u != input.uploadId :: pending[u];
      reply := if store.StoredThenThrew? then U.Refused(U.StoreFailed) else U.Aborted;
    }

    /** The `try` of `create`: tells whether the source had been uploaded when it ended. */
    method TryCreate(file: U.File, modelKnown: bool, calls: U.Calls)
      returns (reply: U.Reply, sourceObjectKey: nat, sourceUploaded: bool)
      modifies this
      ensures temp == old(temp)
      ensures var done := U.CreateBody(old(View()), file, modelKnown, maxBytes, calls);
              && reply == done.1
              && (reply.Created? || !sourceUploaded ==> View() == done.0)
              && (!reply.Created? && sourceUploaded ==> U.Compensate(View(), sourceObjectKey, calls.delete) == done.0)
    {
      sourceObjectKey, sourceUploaded := 0, false;
      var check := U.CheckFile(|file.data|, file.path != "" && file.supported, maxBytes);
      if check.Some? {
        reply := U.Refused(check.value);
        return;
      }
      if !modelKnown {
        reply := U.Refused(U.BadModel);
        return;
      }
      sourceObjectKey := nextId;
      nextId := nextId + 1;
      if !U.NameEncodes(file.fileName) {
        reply := U.Refused(U.BadName);
        return;
      }
      if calls.store.StoreRefused? {
        reply := U.Refused(U.StoreFailed);
        return;
      }
      objects := objects[sourceObjectKey := U.Object(file.data, file.contentType)];
      if calls.store.StoredThenThrew? {
        unseen := unseen + {sourceObjectKey};
        reply := U.Refused(U.StoreFailed);
        return;
      }
      sourceUploaded := true;
      var jobId := InsertRow(U.RowOfFile(file, sourceObjectKey), calls.insert);
      reply := if jobId.Some? then U.Created(jobId.value) else U.Refused(U.InsertFailed);
    }

    method Create(file: Option<U.File>, modelKnown: bool, calls: U.Calls) returns (reply: U.Reply)
      modifies this
      ensures (View(), reply) == U.Create(old(View()), file, modelKnown, maxBytes, calls)
    {
      if file.None? {
        return U.Refused(U.FileRequired);
      }
      var sourceObjectKey, sourceUploaded;
      reply, sourceObjectKey, sourceUploaded := TryCreate(file.value, modelKnown, calls);
      if !reply.Created? && sourceUploaded {
        DeleteOrLog(sourceObjectKey, calls.delete);
      }
      if calls.removeTemp {
        temp := temp - {file.value.path};
      }
    }
  }

  /** A browser's PUT reaches the store through a presigned URL. */
  method PutPart(service: SubtitlesService, uploadId: nat, number: int, etag: string, data: seq<M.Byte>)
    modifies service`pending
    ensures service.View() == U.PutPart(old(service.View()), uploadId, number, etag, data)
  {
    if uploadId in service.pending {
      var p := service.pending[uploadId];
      service.pending := service.pending[uploadId := p.(stored := p.stored[number := (etag, data)])];
    }
  }

  /** The size limit a request is checked against is the service's own. */
  predicate UnderLimit(e: U.Event, maxBytes: nat) {
    e.Opens? || e.Creates? ==> e.maxBytes == maxBytes
  }

  method Turn(service: SubtitlesService, e: U.Event)
    requires UnderLimit(e, service.maxBytes)
    modifies service
    ensures service.View() == U.Step(old(service.View()), e)
  {
    var reply;
    match e
    case Opens(input, maxBytes, now, store, signs) => reply := service.CreateUpload(input, now, store, signs);
    case Puts(uploadId, number, etag, data) => PutPart(service, uploadId, number, etag, data);
    case Completes(request, at, calls) => reply := service.CompleteUpload(request, at, calls);
    case Aborts(request, at, store) => reply := service.AbortUpload(request, at, store);
    case Creates(file, modelKnown, maxBytes, calls) => reply := service.Create(file, modelKnown, calls);
  }

  /**
   Any run of requests and PUTs: in the service's surroundings every row has its object and every
   object its row, up to the keys the two error sets and the log name.
   */
  method RunSubtitles(maxBytes: nat, events: seq<U.Event>) returns (service: SubtitlesService)
    requires forall i :: 0 <= i < |events| ==> UnderLimit(events[i], maxBytes)
    ensures fresh(service) && service.View() == U.After(U.EMPTY, events)
    ensures forall id :: id in service.rows ==>
              var row := service.rows[id];
              row.key in service.lost || (row.key in service.objects && |service.objects[row.key].data| == row.size)
    ensures forall key :: key in service.objects ==>
              key in service.logged || key in service.unseen
              || exists id :: id in service.rows && service.rows[id].key == key
  {
    service := new SubtitlesService(maxBytes);
    var i := 0;
    while i < |events|
      invariant 0 <= i <= |events|
      invariant fresh(service) && service.maxBytes == maxBytes
      invariant U.After(service.View(), events[i..]) == U.After(U.EMPTY, events)
    {
      assert events[i..][1..] == events[i + 1..];
      Turn(service, events[i]);
      i := i + 1;
    }
    U.ReachedInv(events);
    assert forall key :: key in service.objects ==>
      U.HasRow(service.View(), key) || key in service.logged || key in service.unseen;
  }
}
