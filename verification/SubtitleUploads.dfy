/**
 The API side of a subtitle upload: opening a multipart session, completing it
 with compensation, and the older single-request path. The state holds what the
 object store, the job table and the temporary directory contain.
 */
module SubtitleUploads {
  import opened Common
  import H = AttachmentHeader
  import M = MultipartUpload
  import N = FileNames
  import R = Rfc5987

  const PART_SIZE: nat := 67_108_864
  const MAX_PARTS: nat := 10_000
  const URL_LIFETIME: nat := 1_800_000
  const INT_MAX: nat := 0x7FFF_FFFF

  datatype Object = Object(data: seq<M.Byte>, contentType: string)
  datatype Pending = Pending(key: nat, contentType: string, stored: M.Stored)
  datatype Payload = Payload(key: nat, uploadId: nat, fileName: N.Text, contentType: string, size: int, expiresAt: int)
  datatype Row = Row(fileName: N.Text, contentType: string, key: nat, size: int)

  /**
   Object keys, upload ids and job ids are fresh identifiers drawn from one counter.
   The last two sets record what only an observer sees: `lost` are keys whose row was committed
   although its insert reported an error, `unseen` keys stored although the store reported an error.
   */
  datatype World = World(
    nextId: nat,
    objects: map<nat, Object>,
    pending: map<nat, Pending>,
    rows: map<nat, Row>,
    signed: set<Payload>,
    temp: set<string>,
    logged: set<nat>,
    lost: set<nat>,
    unseen: set<nat>)

  // ---- the outcome of every call into a foreign system ----

  datatype StoreCall = Stored | StoreRefused | StoredThenThrew
  datatype HeadCall = HeadThrew | Head(typeShown: bool)
  datatype InsertCall = Inserted | InsertRejected | InsertedThenThrew
  datatype DeleteCall = Deleted | DeleteFailed | DeletedThenThrew
  datatype Calls = Calls(store: StoreCall, head: HeadCall, insert: InsertCall, delete: DeleteCall, removeTemp: bool)

  datatype PartsError = PartsRequired | PartsInvalid | PartsDuplicate

  datatype Reason =
    | FileRequired | TooLarge | Unsupported | BadModel | TooManyParts | BadName
    | TokenInvalid | TargetMismatch | BadParts(error: PartsError)
    | StoreFailed | SigningFailed | HeadFailed | MetadataMismatch | InsertFailed

  datatype Reply = Created(jobId: nat) | Session(payload: Payload, count: nat) | Aborted | Refused(reason: Reason)

  // ---- normalizing the reported parts ----

  predicate ValidPart(p: M.Part) {
    1 <= p.partNumber <= MAX_PARTS && p.etag != ""
  }

  ghost predicate NumbersDiffer(parts: seq<M.Part>) {
    forall j, k :: 0 <= j < k < |parts| ==> parts[j].partNumber != parts[k].partNumber
  }

  /** The first part of the sorted list that is refused, or its length: what `map` stops at. */
  function FirstBad(sorted: seq<M.Part>, i: nat): (r: nat)
    requires i <= |sorted|
    ensures i <= r <= |sorted|
    decreases |sorted| - i
  {
    if i == |sorted| then i
    else if !ValidPart(sorted[i]) || (i > 0 && sorted[i - 1].partNumber == sorted[i].partNumber) then i
    else FirstBad(sorted, i + 1)
  }

  function Normalized(parts: seq<M.Part>): Result<seq<M.Part>, PartsError> {
    var sorted := M.SortParts(parts);
    var bad := FirstBad(sorted, 0);
    if parts == [] then Err(PartsRequired)
    else if bad == |sorted| then Ok(sorted)
    else if !ValidPart(sorted[bad]) then Err(PartsInvalid)
    else Err(PartsDuplicate)
  }

  /** Nothing before the first refused part is refused. */
  lemma {:induction false} GoodBeforeBad(sorted: seq<M.Part>, i: nat, k: nat)
    requires i <= |sorted| && i <= k < FirstBad(sorted, i)
    ensures ValidPart(sorted[k]) && (k > 0 ==> sorted[k - 1].partNumber != sorted[k].partNumber)
    decreases |sorted| - i
  {
    if i < k { GoodBeforeBad(sorted, i + 1, k); }
  }

  lemma {:induction false} AllGood(sorted: seq<M.Part>, i: nat)
    requires i <= |sorted|
    requires forall k :: i <= k < |sorted| ==> ValidPart(sorted[k])
    requires forall k :: i <= k < |sorted| && k > 0 ==> sorted[k - 1].partNumber != sorted[k].partNumber
    ensures FirstBad(sorted, i) == |sorted|
    decreases |sorted| - i
  {
    if i < |sorted| { AllGood(sorted, i + 1); }
  }

  /** A part list is accepted exactly when it is non-empty, every part is valid, and no number repeats. */
  lemma NormalizedIff(parts: seq<M.Part>)
    ensures Normalized(parts).Ok? <==> parts != [] && (forall p :: p in parts ==> ValidPart(p)) && NumbersDiffer(parts)
    ensures Normalized(parts).Ok? ==>
              && M.Ascending(Normalized(parts).value) && multiset(Normalized(parts).value) == multiset(parts)
              && NumbersDiffer(Normalized(parts).value)
  {
    var sorted := M.SortParts(parts);
    M.SortIsPermutation(parts);
    SameMembers(parts, sorted);
    if parts != [] && FirstBad(sorted, 0) == |sorted| {
      forall k: nat | k < |sorted|
        ensures ValidPart(sorted[k]) && (k > 0 ==> sorted[k - 1].partNumber != sorted[k].partNumber)
      {
        GoodBeforeBad(sorted, 0, k);
      }
      StrictlyAscending(sorted);
      DifferOnPermutation(sorted, parts);
    }
    if (forall p :: p in parts ==> ValidPart(p)) && NumbersDiffer(parts) {
      M.DistinctSorted(parts, sorted);
      AllGood(sorted, 0);
    }
  }

  lemma SameMembers(parts: seq<M.Part>, sorted: seq<M.Part>)
    requires multiset(sorted) == multiset(parts)
    ensures forall p :: p in sorted <==> p in parts
  {
    forall p ensures p in sorted <==> p in parts {
      assert p in multiset(sorted) <==> p in multiset(parts);
    }
  }

  lemma StrictlyAscending(sorted: seq<M.Part>)
    requires M.Ascending(sorted)
    requires forall k :: 0 < k < |sorted| ==> sorted[k - 1].partNumber != sorted[k].partNumber
    ensures NumbersDiffer(sorted)
  {
    forall j, k | 0 <= j < k < |sorted| ensures sorted[j].partNumber != sorted[k].partNumber {
      assert sorted[j].partNumber <= sorted[k - 1].partNumber <= sorted[k].partNumber;
    }
  }

  lemma DifferOnPermutation(from: seq<M.Part>, to: seq<M.Part>)
    requires multiset(from) == multiset(to) && NumbersDiffer(from)
    ensures NumbersDiffer(to)
  {
    M.SortIsPermutation(to);
    M.DistinctSorted(from, M.SortParts(to));
    M.PushedCount(M.SortParts(to));
    M.SortedSet(to, M.SortParts(to));
    assert |to| == |multiset(to)| == |multiset(M.SortParts(to))| == |M.SortParts(to)|;
    if j, k :| 0 <= j < k < |to| && to[j].partNumber == to[k].partNumber {
      var without := to[..k] + to[k + 1..];
      forall x | x in M.PushedSet(to) ensures x in M.PushedSet(without) {
        var i :| 0 <= i < |to| && to[i].partNumber - 1 == x;
        var i' := if i < k then i else if i == k then j else i - 1;
        assert without[i'].partNumber - 1 == x;
      }
      M.SubsetCount(M.PushedSet(to), M.PushedSet(without));
      M.PushedSetSmall(without);
      assert false;
    }
  }

  // ---- opening a session ----

  /** `assertValidUploadMetadata`, and the same checks on the older path. */
  function CheckFile(size: int, supported: bool, maxBytes: nat): Option<Reason> {
    if size > maxBytes then Some(TooLarge)
    else if size <= 0 || !supported then Some(Unsupported)
    else None
  }

  datatype OpenInput = OpenInput(fileName: N.Text, contentType: string, size: int, supported: bool, modelKnown: bool)

  /** `createAttachmentDisposition` throws a URIError exactly where the encoder of the name does. */
  predicate NameEncodes(fileName: N.Text) {
    R.Encode(fileName).Ok?
  }

  /** `signs`: every part URL is presigned and the token signed; a session whose signing throws stays open. */
  function CreateUpload(w: World, input: OpenInput, maxBytes: nat, now: int, store: StoreCall, signs: bool): (World, Reply) {
    var check := CheckFile(input.size, input.supported, maxBytes);
    if check.Some? then (w, Refused(check.value))
    else if !input.modelKnown then (w, Refused(BadModel))
    else
      var count := M.PartCount(input.size, PART_SIZE);
      var begun := w.(nextId := w.nextId + 1, pending := w.pending[w.nextId := Pending(w.nextId, input.contentType, map[])]);
      if count > MAX_PARTS then (w, Refused(TooManyParts))
      else if !NameEncodes(input.fileName) then (w.(nextId := w.nextId + 1), Refused(BadName))
      else if store.StoreRefused? then (w.(nextId := w.nextId + 1), Refused(StoreFailed))
      else if store.StoredThenThrew? then (begun, Refused(StoreFailed))
      else if !signs then (begun, Refused(SigningFailed))
      else
        var payload := Payload(w.nextId, w.nextId, input.fileName, input.contentType, input.size, now + URL_LIFETIME);
        (begun.(signed := w.signed + {payload}), Session(payload, count))
  }

  /** A browser's PUT through a presigned URL. */
  function PutPart(w: World, uploadId: nat, number: int, etag: string, data: seq<M.Byte>): World {
    if uploadId !in w.pending then w
    else
      var p := w.pending[uploadId];
      w.(pending := w.pending[uploadId := p.(stored := p.stored[number := (etag, data)])])
  }

  // ---- completing it ----

  datatype CompleteInput = CompleteInput(key: nat, uploadId: nat, parts: seq<M.Part>, token: Payload)

  /** The object the store would join, if it accepts the request. */
  function Joinable(w: World, input: CompleteInput, list: seq<M.Part>): Option<seq<M.Byte>> {
    if input.uploadId in w.pending && w.pending[input.uploadId].key == input.key
    then M.Assemble(w.pending[input.uploadId].stored, list)
    else None
  }

  function Join(w: World, input: CompleteInput, data: seq<M.Byte>): World
    requires input.uploadId in w.pending
  {
    w.(objects := w.objects[input.key := Object(data, w.pending[input.uploadId].contentType)],
       pending := map u | u in w.pending && u != input.uploadId :: w.pending[u])
  }

  /** `deleteObject(...).catch(log)`. */
  function Compensate(w: World, key: nat, call: DeleteCall): World {
    var gone := if call.DeleteFailed? then w.objects else map k | k in w.objects && k != key :: w.objects[k];
    w.(objects := gone, logged := if call.Deleted? then w.logged else w.logged + {key})
  }

  /** What an insert does to the table: the size column is a 32-bit integer. */
  function AfterInsert(w: World, row: Row, call: InsertCall): World {
    if call.InsertRejected? || row.size > INT_MAX then w
    else w.(nextId := w.nextId + 1, rows := w.rows[w.nextId := row], lost := if call.Inserted? then w.lost else w.lost + {row.key})
  }

  predicate InsertAnswers(row: Row, call: InsertCall) {
    call.Inserted? && row.size <= INT_MAX
  }

  predicate MetadataMatches(blob: Object, payload: Payload, typeShown: bool) {
    |blob.data| == payload.size
    && (!typeShown || blob.contentType == "" || blob.contentType == payload.contentType)
  }

  function RowOf(payload: Payload): Row {
    Row(payload.fileName, payload.contentType, payload.key, payload.size)
  }

  /** The `try` block after a completed multipart upload, with its `catch`. */
  function FinishUpload(w: World, payload: Payload, calls: Calls): (World, Reply)
    requires payload.key in w.objects
  {
    if calls.head.HeadThrew? then (Compensate(w, payload.key, calls.delete), Refused(HeadFailed))
    else if !MetadataMatches(w.objects[payload.key], payload, calls.head.typeShown) then
      (Compensate(w, payload.key, calls.delete), Refused(MetadataMismatch))
    else
      var inserted := AfterInsert(w, RowOf(payload), calls.insert);
      if InsertAnswers(RowOf(payload), calls.insert) then (inserted, Created(w.nextId))
      else (Compensate(inserted, payload.key, calls.delete), Refused(InsertFailed))
  }

  function CheckComplete(w: World, input: CompleteInput, now: int): Option<Reason> {
    if input.token !in w.signed || input.token.expiresAt <= now then Some(TokenInvalid)
    else if input.token.key != input.key || input.token.uploadId != input.uploadId then Some(TargetMismatch)
    else if Normalized(input.parts).Err? then Some(BadParts(Normalized(input.parts).error))
    else None
  }

  function CompleteUpload(w: World, input: CompleteInput, now: int, calls: Calls): (World, Reply) {
    var check := CheckComplete(w, input, now);
    if check.Some? then (w, Refused(check.value))
    else
      var data := Joinable(w, input, Normalized(input.parts).value);
      if data.None? || calls.store.StoreRefused? then (w, Refused(StoreFailed))
      else if calls.store.StoredThenThrew? then
        (Join(w, input, data.value).(unseen := w.unseen + {input.key}), Refused(StoreFailed))
      else FinishUpload(Join(w, input, data.value), input.token, calls)
  }

  function AbortUpload(w: World, input: CompleteInput, now: int, store: StoreCall): (World, Reply) {
    if input.token !in w.signed || input.token.expiresAt <= now then (w, Refused(TokenInvalid))
    else if input.token.key != input.key || input.token.uploadId != input.uploadId then (w, Refused(TargetMismatch))
    else
      var gone := w.(pending := map u | u in w.pending && u != input.uploadId :: w.pending[u]);
      if store.StoreRefused? then (w, Refused(StoreFailed))
      else if store.StoredThenThrew? then (gone, Refused(StoreFailed))
      else (gone, Aborted)
  }

  // ---- the older path ----

  datatype File = File(path: string, fileName: N.Text, contentType: string, data: seq<M.Byte>, supported: bool)

  function RowOfFile(file: File, key: nat): Row {
    Row(file.fileName, file.contentType, key, |file.data|)
  }

  /** The rest of the `try` block once the object is stored, with its `catch`. */
  function FinishCreate(w: World, row: Row, calls: Calls): (World, Reply) {
    if calls.store.StoredThenThrew? then (w.(unseen := w.unseen + {row.key}), Refused(StoreFailed))
    else
      var inserted := AfterInsert(w, row, calls.insert);
      if InsertAnswers(row, calls.insert) then (inserted, Created(w.nextId))
      else (Compensate(inserted, row.key, calls.delete), Refused(InsertFailed))
  }

  /** The body of `create` before its `finally`. */
  function CreateBody(w: World, file: File, modelKnown: bool, maxBytes: nat, calls: Calls): (World, Reply) {
    var check := CheckFile(|file.data|, file.path != "" && file.supported, maxBytes);
    if check.Some? then (w, Refused(check.value))
    else if !modelKnown then (w, Refused(BadModel))
    else
      var key := w.nextId;
      var named := w.(nextId := w.nextId + 1);
      var put := named.(objects := w.objects[key := Object(file.data, file.contentType)]);
      if !NameEncodes(file.fileName) then (named, Refused(BadName))
      else if calls.store.StoreRefused? then (named, Refused(StoreFailed))
      else FinishCreate(put, RowOfFile(file, key), calls)
  }

  function Create(w: World, file: Option<File>, modelKnown: bool, maxBytes: nat, calls: Calls): (World, Reply) {
    if file.None? then (w, Refused(FileRequired))
    else
      var done := CreateBody(w, file.value, modelKnown, maxBytes, calls);
      (if calls.removeTemp then done.0.(temp := done.0.temp - {file.value.path}) else done.0, done.1)
  }

  // ---- runs ----

  datatype Event =
    | Opens(input: OpenInput, maxBytes: nat, openedAt: int, store: StoreCall, signs: bool)
    | Puts(uploadId: nat, number: int, etag: string, data: seq<M.Byte>)
    | Completes(request: CompleteInput, at: int, calls: Calls)
    | Aborts(request: CompleteInput, at: int, store: StoreCall)
    | Creates(file: Option<File>, modelKnown: bool, maxBytes: nat, calls: Calls)

  function Step(w: World, e: Event): World {
    match e
    case Opens(input, maxBytes, now, store, signs) => CreateUpload(w, input, maxBytes, now, store, signs).0
    case Puts(uploadId, number, etag, data) => PutPart(w, uploadId, number, etag, data)
    case Completes(input, now, calls) => CompleteUpload(w, input, now, calls).0
    case Aborts(input, now, store) => AbortUpload(w, input, now, store).0
    case Creates(file, modelKnown, maxBytes, calls) => Create(w, file, modelKnown, maxBytes, calls).0
  }

  function After(w: World, es: seq<Event>): World
    decreases |es|
  {
    if es == [] then w else After(Step(w, es[0]), es[1..])
  }

  const EMPTY := World(0, map[], map[], map[], {}, {}, {}, {}, {})

  // ---- the invariant ----

  /** Every row has its object, of the recorded size, unless its insert had reported an error. */
  ghost predicate RowsBacked(w: World) {
    forall id :: id in w.rows ==>
      var row := w.rows[id];
      id < w.nextId && row.key < w.nextId
      && (row.key in w.lost || (row.key in w.objects && |w.objects[row.key].data| == row.size))
  }

  predicate HasRow(w: World, key: nat) {
    exists id :: id in w.rows && w.rows[id].key == key
  }

  /** Every object has its row, unless an error hid it or its deletion failed and was logged. */
  ghost predicate ObjectsOwned(w: World) {
    forall key :: key in w.objects ==> key < w.nextId && (HasRow(w, key) || key in w.logged || key in w.unseen)
  }

  /** A session still open has no object and no row yet, and shares its key with no other. */
  ghost predicate PendingApart(w: World) {
    && (forall u :: u in w.pending ==> u == w.pending[u].key < w.nextId)
    && (forall u :: u in w.pending ==> u !in w.objects && u !in w.lost)
    && (forall u, id :: u in w.pending && id in w.rows ==> w.rows[id].key != u)
  }

  /** A key is lost only if a row was committed for it. */
  ghost predicate LostHaveRows(w: World) {
    forall key :: key in w.lost ==> HasRow(w, key) && key < w.nextId
  }

  ghost predicate Inv(w: World) {
    RowsBacked(w) && ObjectsOwned(w) && PendingApart(w) && LostHaveRows(w)
  }

  // ---- one step keeps it ----

  /** A freshly stored object nobody else knows: the state between the store's answer and the next call. */
  ghost predicate Arrived(w: World, key: nat) {
    && key in w.objects && key < w.nextId && !HasRow(w, key) && key !in w.lost
    && (forall u :: u in w.pending ==> u != key)
    && RowsBacked(w) && PendingApart(w) && LostHaveRows(w)
    && forall k :: k in w.objects && k != key ==> k < w.nextId && (HasRow(w, k) || k in w.logged || k in w.unseen)
  }

  lemma InsertKeepsRows(w: World, row: Row, call: InsertCall, k: nat)
    requires forall id :: id in w.rows ==> id < w.nextId
    ensures var w' := AfterInsert(w, row, call);
            HasRow(w', k) <==> HasRow(w, k) || (w' != w && k == row.key)
  {
    var w' := AfterInsert(w, row, call);
    if w' != w {
      assert w'.rows[w.nextId] == row;
      if HasRow(w, k) {
        var id :| id in w.rows && w.rows[id].key == k;
        assert w'.rows[id] == w.rows[id];
      }
    }
  }

  lemma InsertedKeeps(w: World, row: Row, call: InsertCall)
    requires Arrived(w, row.key) && |w.objects[row.key].data| == row.size
    requires InsertAnswers(row, call)
    ensures Inv(AfterInsert(w, row, call))
  {
    var w' := AfterInsert(w, row, call);
    forall k: nat ensures HasRow(w', k) <==> HasRow(w, k) || k == row.key {
      InsertKeepsRows(w, row, call, k);
    }
  }

  /** After compensation: the object is gone or its failed deletion is logged; a committed row is lost. */
  lemma CompensatedKeeps(w: World, key: nat, call: DeleteCall)
    requires Arrived(w, key)
    ensures Inv(Compensate(w, key, call))
  {
    var w' := Compensate(w, key, call);
    assert forall k: nat :: HasRow(w', k) <==> HasRow(w, k);
    forall id | id in w.rows ensures w.rows[id].key != key {
      assert w.rows[id].key == key ==> HasRow(w, key);
    }
  }

  lemma FailedInsertKeeps(w: World, row: Row, call: InsertCall, delete: DeleteCall)
    requires Arrived(w, row.key) && |w.objects[row.key].data| == row.size && !InsertAnswers(row, call)
    ensures Inv(Compensate(AfterInsert(w, row, call), row.key, delete))
  {
    var w1 := AfterInsert(w, row, call);
    if w1 == w {
      CompensatedKeeps(w, row.key, delete);
    } else {
      var w2 := Compensate(w1, row.key, delete);
      forall k: nat ensures HasRow(w2, k) <==> HasRow(w, k) || k == row.key {
        InsertKeepsRows(w, row, call, k);
        assert HasRow(w2, k) <==> HasRow(w1, k);
      }
    }
  }

  lemma JoinArrives(w: World, input: CompleteInput, data: seq<M.Byte>)
    requires Inv(w) && input.uploadId in w.pending && w.pending[input.uploadId].key == input.key
    ensures Arrived(Join(w, input, data), input.key)
    ensures Join(w, input, data).objects[input.key].data == data
  {
    var w' := Join(w, input, data);
    assert forall k: nat :: HasRow(w', k) <==> HasRow(w, k);
  }

  lemma UnseenKeeps(w: World, key: nat)
    requires Arrived(w, key)
    ensures Inv(w.(unseen := w.unseen + {key}))
  {
    var w' := w.(unseen := w.unseen + {key});
    assert forall k: nat :: HasRow(w', k) <==> HasRow(w, k);
  }

  lemma CompleteKeeps(w: World, input: CompleteInput, now: int, calls: Calls)
    requires Inv(w)
    ensures Inv(CompleteUpload(w, input, now, calls).0)
  {
    if CheckComplete(w, input, now).None? {
      var data := Joinable(w, input, Normalized(input.parts).value);
      if data.Some? && !calls.store.StoreRefused? {
        JoinArrives(w, input, data.value);
        var w1 := Join(w, input, data.value);
        if calls.store.StoredThenThrew? {
          UnseenKeeps(w1, input.key);
        } else {
          FinishKeeps(w1, input.token, calls);
        }
      }
    }
  }

  lemma FinishKeeps(w: World, payload: Payload, calls: Calls)
    requires Arrived(w, payload.key)
    ensures Inv(FinishUpload(w, payload, calls).0)
  {
    if calls.head.HeadThrew? || !MetadataMatches(w.objects[payload.key], payload, calls.head.typeShown) {
      CompensatedKeeps(w, payload.key, calls.delete);
    } else if InsertAnswers(RowOf(payload), calls.insert) {
      InsertedKeeps(w, RowOf(payload), calls.insert);
    } else {
      FailedInsertKeeps(w, RowOf(payload), calls.insert, calls.delete);
    }
  }

  lemma PutArrives(w: World, file: File)
    requires Inv(w)
    ensures Arrived(w.(nextId := w.nextId + 1, objects := w.objects[w.nextId := Object(file.data, file.contentType)]), w.nextId)
  {
    var w' := w.(nextId := w.nextId + 1, objects := w.objects[w.nextId := Object(file.data, file.contentType)]);
    assert forall k: nat :: HasRow(w', k) <==> HasRow(w, k);
  }

  lemma FinishCreateKeeps(w: World, row: Row, calls: Calls)
    requires Arrived(w, row.key) && |w.objects[row.key].data| == row.size
    ensures Inv(FinishCreate(w, row, calls).0)
  {
    if calls.store.StoredThenThrew? {
      UnseenKeeps(w, row.key);
    } else if InsertAnswers(row, calls.insert) {
      InsertedKeeps(w, row, calls.insert);
    } else {
      FailedInsertKeeps(w, row, calls.insert, calls.delete);
    }
  }

  lemma CreateKeeps(w: World, file: File, modelKnown: bool, maxBytes: nat, calls: Calls)
    requires Inv(w)
    ensures Inv(CreateBody(w, file, modelKnown, maxBytes, calls).0)
  {
    if CheckFile(|file.data|, file.path != "" && file.supported, maxBytes).None? && modelKnown {
      if !NameEncodes(file.fileName) || calls.store.StoreRefused? {
        FrameKeeps(w, w.(nextId := w.nextId + 1));
      } else {
        PutArrives(w, file);
        var put := w.(nextId := w.nextId + 1, objects := w.objects[w.nextId := Object(file.data, file.contentType)]);
        FinishCreateKeeps(put, RowOfFile(file, w.nextId), calls);
      }
    }
  }

  /** A step that touches neither objects nor rows and only adds a fresh session, changes or drops one. */
  lemma FrameKeeps(w: World, w': World)
    requires Inv(w) && w'.objects == w.objects && w'.rows == w.rows && w'.nextId >= w.nextId
    requires w'.lost == w.lost && w'.logged == w.logged && w'.unseen == w.unseen
    requires forall u :: u in w'.pending ==>
               u == w'.pending[u].key && (u in w.pending || w.nextId <= u < w'.nextId)
    ensures Inv(w')
  {
    assert forall k: nat :: HasRow(w', k) <==> HasRow(w, k);
  }

  lemma SessionKeeps(w: World, input: OpenInput, maxBytes: nat, now: int, store: StoreCall, signs: bool)
    requires Inv(w)
    ensures Inv(CreateUpload(w, input, maxBytes, now, store, signs).0)
  {
    FrameKeeps(w, CreateUpload(w, input, maxBytes, now, store, signs).0);
  }

  lemma PutKeeps(w: World, uploadId: nat, number: int, etag: string, data: seq<M.Byte>)
    requires Inv(w)
    ensures Inv(PutPart(w, uploadId, number, etag, data))
  {
    FrameKeeps(w, PutPart(w, uploadId, number, etag, data));
  }

  lemma AbortKeeps(w: World, input: CompleteInput, now: int, store: StoreCall)
    requires Inv(w)
    ensures Inv(AbortUpload(w, input, now, store).0)
  {
    FrameKeeps(w, AbortUpload(w, input, now, store).0);
  }

  lemma LegacyKeeps(w: World, file: Option<File>, modelKnown: bool, maxBytes: nat, calls: Calls)
    requires Inv(w)
    ensures Inv(Create(w, file, modelKnown, maxBytes, calls).0)
  {
    if file.Some? {
      CreateKeeps(w, file.value, modelKnown, maxBytes, calls);
      FrameKeeps(CreateBody(w, file.value, modelKnown, maxBytes, calls).0, Create(w, file, modelKnown, maxBytes, calls).0);
    }
  }

  lemma StepKeeps(w: World, e: Event)
    requires Inv(w)
    ensures Inv(Step(w, e))
  {
    match e
    case Opens(input, maxBytes, now, store, signs) => SessionKeeps(w, input, maxBytes, now, store, signs);
    case Puts(uploadId, number, etag, data) => PutKeeps(w, uploadId, number, etag, data);
    case Aborts(input, now, store) => AbortKeeps(w, input, now, store);
    case Completes(input, now, calls) => CompleteKeeps(w, input, now, calls);
    case Creates(file, modelKnown, maxBytes, calls) => LegacyKeeps(w, file, modelKnown, maxBytes, calls);
  }

  lemma {:induction false} AfterKeeps(w: World, es: seq<Event>)
    requires Inv(w)
    ensures Inv(After(w, es))
    decreases |es|
  {
    if es != [] {
      StepKeeps(w, es[0]);
      AfterKeeps(Step(w, es[0]), es[1..]);
    }
  }

  /** In every reachable state rows and objects belong together, up to the named error cases. */
  lemma ReachedInv(es: seq<Event>)
    ensures Inv(After(EMPTY, es))
  {
    AfterKeeps(EMPTY, es);
  }

  // ---- all or compensated, call by call ----

  /** The multipart upload was completed and the store said so. */
  predicate StoreCompletes(w: World, input: CompleteInput, now: int, calls: Calls) {
    && CheckComplete(w, input, now).None? && calls.store.Stored?
    && Joinable(w, input, Normalized(input.parts).value).Some?
  }

  /** After a completed upload: a row whose object has the token's size, or no object, or a logged failed deletion. */
  lemma AllOrCompensated(w: World, input: CompleteInput, now: int, calls: Calls)
    requires StoreCompletes(w, input, now, calls)
    ensures var (w', reply) := CompleteUpload(w, input, now, calls);
            && (reply.Created? ==>
                  && reply.jobId in w'.rows && w'.rows[reply.jobId] == RowOf(input.token)
                  && input.key in w'.objects && |w'.objects[input.key].data| == input.token.size)
            && (!reply.Created? ==> input.key !in w'.objects || (calls.delete.DeleteFailed? && input.key in w'.logged))
  {
  }

  /** A failed call leaves a committed row behind exactly when the insert committed and then threw. */
  lemma RowLeftIff(w: World, input: CompleteInput, now: int, calls: Calls)
    requires Inv(w)
    ensures var (w', reply) := CompleteUpload(w, input, now, calls);
            !reply.Created? ==>
              (w'.rows != w.rows <==>
                && StoreCompletes(w, input, now, calls) && calls.head.Head?
                && MetadataMatches(Join(w, input, Joinable(w, input, Normalized(input.parts).value).value).objects[input.key],
                                   input.token, calls.head.typeShown)
                && calls.insert.InsertedThenThrew? && input.token.size <= INT_MAX)
  {
    assert w.nextId !in w.rows;
    assert w.nextId in w.rows[w.nextId := RowOf(input.token)];
  }

  /** A failed call leaves an object behind exactly when the store hid its success, or the deletion failed. */
  lemma ObjectLeftIff(w: World, input: CompleteInput, now: int, calls: Calls)
    requires Inv(w) && CheckComplete(w, input, now).None?
    requires Joinable(w, input, Normalized(input.parts).value).Some?
    ensures var (w', reply) := CompleteUpload(w, input, now, calls);
            !reply.Created? ==>
              (input.key in w'.objects <==>
                calls.store.StoredThenThrew? || (calls.store.Stored? && calls.delete.DeleteFailed?))
  {
  }

  /** Completing the same session again is refused and changes nothing: the first job keeps its object. */
  lemma SecondCompletionRefused(w: World, input: CompleteInput, now: int, calls: Calls, again: CompleteInput, later: int, retry: Calls)
    requires StoreCompletes(w, input, now, calls) && again.uploadId == input.uploadId
    ensures var w1 := CompleteUpload(w, input, now, calls).0;
            var (w2, reply) := CompleteUpload(w1, again, later, retry);
            w2 == w1 && reply.Refused?
  {
    assert input.uploadId !in Join(w, input, Joinable(w, input, Normalized(input.parts).value).value).pending;
  }

  /** The older path: the temporary file's removal is attempted whatever happened before. */
  lemma TempAlwaysAttempted(w: World, file: File, modelKnown: bool, maxBytes: nat, calls: Calls)
    ensures file.path in Create(w, Some(file), modelKnown, maxBytes, calls).0.temp
            <==> file.path in w.temp && !calls.removeTemp
  {
  }

  /** The older path after its upload: a row with its object, or the object removed, or a logged failed deletion. */
  lemma LegacyAllOrCompensated(w: World, file: File, modelKnown: bool, maxBytes: nat, calls: Calls)
    requires Inv(w) && calls.store.Stored?
    ensures var (w', reply) := Create(w, Some(file), modelKnown, maxBytes, calls);
            && (reply.Created? ==>
                  && reply.jobId in w'.rows && w'.rows[reply.jobId] == RowOfFile(file, w.nextId)
                  && w.nextId in w'.objects && w'.objects[w.nextId].data == file.data)
            && (reply == Refused(InsertFailed) ==>
                  w.nextId !in w'.objects || (calls.delete.DeleteFailed? && w.nextId in w'.logged))
            && (reply.Refused? && reply.reason != InsertFailed ==> w'.objects == w.objects && w'.rows == w.rows)
  {
  }

  // ---- one row per object ----

  /** No two rows name the same object. */
  ghost predicate OneRowPerKey(w: World) {
    forall i, j :: i in w.rows && j in w.rows && w.rows[i].key == w.rows[j].key ==> i == j
  }

  lemma InsertKeepsOneRow(w: World, row: Row, call: InsertCall)
    requires OneRowPerKey(w) && !HasRow(w, row.key)
    ensures OneRowPerKey(AfterInsert(w, row, call))
  {
    assert forall i :: i in w.rows ==> w.rows[i].key != row.key;
  }

  lemma CompleteKeepsOneRow(w: World, input: CompleteInput, now: int, calls: Calls)
    requires Inv(w) && OneRowPerKey(w)
    ensures OneRowPerKey(CompleteUpload(w, input, now, calls).0)
  {
    if StoreCompletes(w, input, now, calls) {
      var data := Joinable(w, input, Normalized(input.parts).value).value;
      JoinArrives(w, input, data);
      InsertKeepsOneRow(Join(w, input, data), RowOf(input.token), calls.insert);
    }
  }

  lemma CreateKeepsOneRow(w: World, file: File, modelKnown: bool, maxBytes: nat, calls: Calls)
    requires Inv(w) && OneRowPerKey(w)
    ensures OneRowPerKey(CreateBody(w, file, modelKnown, maxBytes, calls).0)
  {
    var put := w.(nextId := w.nextId + 1, objects := w.objects[w.nextId := Object(file.data, file.contentType)]);
    PutArrives(w, file);
    InsertKeepsOneRow(put, RowOfFile(file, w.nextId), calls.insert);
  }

  lemma StepKeepsOneRow(w: World, e: Event)
    requires Inv(w) && OneRowPerKey(w)
    ensures OneRowPerKey(Step(w, e))
  {
    match e
    case Opens(input, maxBytes, now, store, signs) => OpenSigns(w, input, maxBytes, now, store, signs);
    case Puts(uploadId, number, etag, data) =>
    case Aborts(input, now, store) =>
    case Completes(input, now, calls) => CompleteKeepsOneRow(w, input, now, calls);
    case Creates(file, modelKnown, maxBytes, calls) =>
      if file.Some? { CreateKeepsOneRow(w, file.value, modelKnown, maxBytes, calls); }
  }

  lemma {:induction false} AfterKeepsOneRow(w: World, es: seq<Event>)
    requires Inv(w) && OneRowPerKey(w)
    ensures OneRowPerKey(After(w, es))
    decreases |es|
  {
    if es != [] {
      StepKeeps(w, es[0]);
      StepKeepsOneRow(w, es[0]);
      AfterKeepsOneRow(Step(w, es[0]), es[1..]);
    }
  }

  /** Over every run, retries and errors included, an uploaded object belongs to at most one job. */
  lemma ReachedOneRowPerKey(es: seq<Event>)
    ensures OneRowPerKey(After(EMPTY, es))
  {
    AfterKeepsOneRow(EMPTY, es);
  }

  // ---- the two ways a failed call leaves something behind, as runs ----

  /** Opens a one-part session for `data`, uploads it, and completes it under the given answers. */
  function OnePartRun(fileName: N.Text, data: seq<M.Byte>, calls: Calls): seq<Event> {
    var token := Payload(0, 0, fileName, "video/mp4", |data|, URL_LIFETIME);
    [Opens(OpenInput(fileName, "video/mp4", |data|, true, true), |data|, 0, Stored, true),
     Puts(0, 1, "a", data),
     Completes(CompleteInput(0, 0, [M.Part(1, "a")], token), 1, calls)]
  }

  /** The run's state when the object has been stored. */
  function OnePartStored(fileName: N.Text, data: seq<M.Byte>): World {
    var token := Payload(0, 0, fileName, "video/mp4", |data|, URL_LIFETIME);
    World(1, map[0 := Object(data, "video/mp4")], map[], map[], {token}, {}, {}, {}, {})
  }

  lemma OnePartOpens(fileName: N.Text, data: seq<M.Byte>, calls: Calls)
    requires NameEncodes(fileName) && 0 < |data| <= PART_SIZE
    ensures var es := OnePartRun(fileName, data, calls);
            Step(Step(EMPTY, es[0]), es[1])
            == OnePartStored(fileName, data).(objects := map[], pending := map[0 := Pending(0, "video/mp4", map[1 := ("a", data)])])
  {
    var opened1 := Step(EMPTY, OnePartRun(fileName, data, calls)[0]);
    assert M.PartCount(|data|, PART_SIZE) == 1;
    assert opened1.pending == map[0 := Pending(0, "video/mp4", map[])];
  }

  lemma OnePartChecks(fileName: N.Text, data: seq<M.Byte>, calls: Calls)
    requires NameEncodes(fileName) && 0 < |data| <= PART_SIZE
    ensures var es := OnePartRun(fileName, data, calls);
            var w := Step(Step(EMPTY, es[0]), es[1]);
            var list := [M.Part(1, "a")];
            && CheckComplete(w, es[2].request, 1).None? && Normalized(list) == Ok(list)
            && Joinable(w, es[2].request, list) == Some(data)
            && Join(w, es[2].request, data) == OnePartStored(fileName, data)
  {
    OnePartOpens(fileName, data, calls);
    var es := OnePartRun(fileName, data, calls);
    var w := Step(Step(EMPTY, es[0]), es[1]);
    var list := [M.Part(1, "a")];
    assert list[..0] == [];
    assert M.SortParts(list) == list;
    assert FirstBad(list, 1) == 1 && FirstBad(list, 0) == 1;
    assert M.Assemble(w.pending[0].stored, list[..0]) == Some([]);
    assert [] + data == data;
    assert (map u | u in w.pending && u != 0 :: w.pending[u]) == map[];
  }

  lemma OnePartEnds(fileName: N.Text, data: seq<M.Byte>, calls: Calls)
    ensures var es := OnePartRun(fileName, data, calls);
            After(EMPTY, es) == CompleteUpload(Step(Step(EMPTY, es[0]), es[1]), es[2].request, 1, calls).0
  {
    var es := OnePartRun(fileName, data, calls);
    var w1 := Step(EMPTY, es[0]);
    var w2 := Step(w1, es[1]);
    assert es[1..][1..] == [es[2]] && es[1..][0] == es[1];
    assert After(w2, [es[2]]) == After(Step(w2, es[2]), []);
  }

  /** The run reaches the stored object, and its last call goes on from there. */
  lemma OnePartReaches(fileName: N.Text, data: seq<M.Byte>, calls: Calls)
    requires NameEncodes(fileName) && 0 < |data| <= PART_SIZE && !calls.store.StoreRefused?
    ensures var w := OnePartStored(fileName, data);
            var token := Payload(0, 0, fileName, "video/mp4", |data|, URL_LIFETIME);
            After(EMPTY, OnePartRun(fileName, data, calls))
            == if calls.store.Stored? then FinishUpload(w, token, calls).0 else w.(unseen := {0})
  {
    OnePartEnds(fileName, data, calls);
    OnePartChecks(fileName, data, calls);
  }

  lemma FinishLeavesRow(w: World, payload: Payload, calls: Calls)
    requires payload.key in w.objects && MetadataMatches(w.objects[payload.key], payload, true) && payload.size <= INT_MAX
    requires calls.head == Head(true) && calls.insert.InsertedThenThrew? && calls.delete.Deleted?
    ensures var w' := FinishUpload(w, payload, calls).0;
            w'.rows == w.rows[w.nextId := RowOf(payload)] && w'.objects.Keys == w.objects.Keys - {payload.key}
  {
  }

  /** The insert commits and then throws: the compensation deletes the object of a row that stays. */
  lemma RowWithoutObject(fileName: N.Text, data: seq<M.Byte>)
    requires NameEncodes(fileName) && 0 < |data| <= PART_SIZE
    ensures var w := After(EMPTY, OnePartRun(fileName, data, Calls(Stored, Head(true), InsertedThenThrew, Deleted, true)));
            w.rows == map[1 := Row(fileName, "video/mp4", 0, |data|)] && w.objects == map[]
  {
    var calls := Calls(Stored, Head(true), InsertedThenThrew, Deleted, true);
    OnePartReaches(fileName, data, calls);
    FinishLeavesRow(OnePartStored(fileName, data), Payload(0, 0, fileName, "video/mp4", |data|, URL_LIFETIME), calls);
  }

  /** The store completes the upload and then throws: the object stays, and no row ever names it. */
  lemma ObjectWithoutRow(fileName: N.Text, data: seq<M.Byte>)
    requires NameEncodes(fileName) && 0 < |data| <= PART_SIZE
    ensures var w := After(EMPTY, OnePartRun(fileName, data, Calls(StoredThenThrew, HeadThrew, InsertRejected, DeleteFailed, true)));
            w.objects == map[0 := Object(data, "video/mp4")] && w.rows == map[] && w.pending == map[]
  {
    OnePartReaches(fileName, data, Calls(StoredThenThrew, HeadThrew, InsertRejected, DeleteFailed, true));
  }

  // ---- stored names ----

  /** Whatever was signed or recorded has a name the header of the upload could carry. */
  ghost predicate NamesInv(w: World) {
    && (forall p :: p in w.signed ==> NameEncodes(p.fileName))
    && (forall id :: id in w.rows ==> NameEncodes(w.rows[id].fileName))
  }

  /** Every row of `w'` is a row of `w`, or is `row`. */
  ghost predicate OnlyAdds(w: World, w': World, row: Row) {
    w'.signed == w.signed
    && forall id :: id in w'.rows ==> (id in w.rows && w'.rows[id] == w.rows[id]) || w'.rows[id] == row
  }

  lemma FinishAdds(w: World, payload: Payload, calls: Calls)
    requires payload.key in w.objects
    ensures OnlyAdds(w, FinishUpload(w, payload, calls).0, RowOf(payload))
  {
  }

  lemma CompleteAdds(w: World, input: CompleteInput, now: int, calls: Calls)
    ensures var w' := CompleteUpload(w, input, now, calls).0;
            w' == w || (input.token in w.signed && OnlyAdds(w, w', RowOf(input.token)))
  {
    if StoreCompletes(w, input, now, calls) {
      var data := Joinable(w, input, Normalized(input.parts).value).value;
      FinishAdds(Join(w, input, data), input.token, calls);
    }
  }

  lemma CreateAdds(w: World, file: File, modelKnown: bool, maxBytes: nat, calls: Calls)
    ensures var w' := CreateBody(w, file, modelKnown, maxBytes, calls).0;
            OnlyAdds(w, w', RowOfFile(file, w.nextId)) && (w'.rows == w.rows || NameEncodes(file.fileName))
  {
  }

  lemma OpenSigns(w: World, input: OpenInput, maxBytes: nat, now: int, store: StoreCall, signs: bool)
    ensures var w' := CreateUpload(w, input, maxBytes, now, store, signs).0;
            w'.rows == w.rows
            && forall p :: p in w'.signed && p !in w.signed ==> p.fileName == input.fileName && NameEncodes(input.fileName)
  {
  }

  lemma NamesStep(w: World, e: Event)
    requires NamesInv(w)
    ensures NamesInv(Step(w, e))
  {
    match e
    case Opens(input, maxBytes, now, store, signs) => OpenSigns(w, input, maxBytes, now, store, signs);
    case Puts(uploadId, number, etag, data) =>
    case Aborts(input, now, store) =>
    case Completes(input, now, calls) => CompleteAdds(w, input, now, calls);
    case Creates(file, modelKnown, maxBytes, calls) =>
      if file.Some? { CreateAdds(w, file.value, modelKnown, maxBytes, calls); }
  }

  lemma {:induction false} NamesAfter(w: World, es: seq<Event>)
    requires NamesInv(w)
    ensures NamesInv(After(w, es))
    decreases |es|
  {
    if es != [] {
      NamesStep(w, es[0]);
      NamesAfter(Step(w, es[0]), es[1..]);
    }
  }

  /**
   From the upload to the download: the file name of every job any run creates is well-formed, yet
   the subtitle made from it cannot be served exactly when the 120-unit cut of the name splits a pair.
   */
  lemma StoredNameFailsIffCutsPair(es: seq<Event>, id: nat, nfkd: N.Text -> N.Text, standIn: N.Text)
    requires id in After(EMPTY, es).rows
    ensures var name := After(EMPTY, es).rows[id].fileName;
            && R.WellFormed(name)
            && (H.CreateAttachmentDisposition(H.SubtitleFileName(name), nfkd, standIn).Err?
                <==> H.CutsPair(H.WithoutExtension(name)))
  {
    NamesAfter(EMPTY, es);
    var name := After(EMPTY, es).rows[id].fileName;
    R.EncodeFailsIffIllFormed(name);
    H.SubtitleHeaderFailsIffCutsPair(name, nfkd, standIn);
  }
}
