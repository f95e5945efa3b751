/**
 What each request of an upload answers, read off the request and the state before it; and what
 stays true of a session once it has been completed or aborted.
 */
module UploadOutcomes {
  import opened Common
  import M = MultipartUpload
  import N = FileNames
  import R = Rfc5987
  import opened SubtitleUploads

  // ---- opening ----

  /** The request passes every check of the service, in its own terms. */
  predicate Admissible(input: OpenInput, maxBytes: nat) {
    && 0 < input.size <= maxBytes && input.size <= PART_SIZE * MAX_PARTS
    && input.supported && input.modelKnown && R.WellFormed(input.fileName)
  }

  lemma PartCountIsCeiling(size: nat)
    ensures var n := M.PartCount(size, PART_SIZE);
            size <= n * PART_SIZE < size + PART_SIZE
  {
  }

  /** A session is issued exactly for an admissible request whose calls succeed, and says what the request said. */
  lemma SessionIff(w: World, input: OpenInput, maxBytes: nat, now: int, store: StoreCall, signs: bool)
    ensures var (w', reply) := CreateUpload(w, input, maxBytes, now, store, signs);
            && (reply.Session? <==> Admissible(input, maxBytes) && store.Stored? && signs)
            && (reply.Session? ==>
                  && reply.payload
                     == Payload(w.nextId, w.nextId, input.fileName, input.contentType, input.size, now + 1_800_000)
                  && w'.signed == w.signed + {reply.payload}
                  && w.nextId in w'.pending && w'.pending[w.nextId] == Pending(w.nextId, input.contentType, map[])
                  && input.size <= reply.count * 67_108_864 < input.size + 67_108_864)
            && (!reply.Session? ==> w'.signed == w.signed)
  {
    if input.size > 0 { PartCountIsCeiling(input.size); }
    R.EncodeFailsIffIllFormed(input.fileName);
  }

  /** And the first check that fails names the refusal. */
  lemma OpenRefusals(w: World, input: OpenInput, maxBytes: nat, now: int, store: StoreCall, signs: bool)
    ensures var reply := CreateUpload(w, input, maxBytes, now, store, signs).1;
            && (reply == Refused(TooLarge) <==> input.size > maxBytes)
            && (reply == Refused(Unsupported) <==> input.size <= maxBytes && (input.size <= 0 || !input.supported))
            && (reply == Refused(BadModel) <==> 0 < input.size <= maxBytes && input.supported && !input.modelKnown)
            && (reply == Refused(TooManyParts) <==>
                  && 0 < input.size <= maxBytes && input.supported && input.modelKnown
                  && input.size > PART_SIZE * MAX_PARTS)
            && (reply == Refused(BadName) <==>
                  && 0 < input.size <= maxBytes && input.size <= PART_SIZE * MAX_PARTS
                  && input.supported && input.modelKnown && !R.WellFormed(input.fileName))
            && (reply == Refused(StoreFailed) <==> Admissible(input, maxBytes) && !store.Stored?)
            && (reply == Refused(SigningFailed) <==> Admissible(input, maxBytes) && store.Stored? && !signs)
  {
    if input.size > 0 { PartCountIsCeiling(input.size); }
    R.EncodeFailsIffIllFormed(input.fileName);
  }

  // ---- completing ----

  /** The token is one this server signed, has not expired, and is for the upload the request names. */
  predicate TokenFits(w: World, input: CompleteInput, now: int) {
    && input.token in w.signed && now < input.token.expiresAt
    && input.token.key == input.key && input.token.uploadId == input.uploadId
  }

  predicate GoodParts(parts: seq<M.Part>) {
    && parts != []
    && (forall p :: p in parts ==> 1 <= p.partNumber <= 10_000 && p.etag != "")
    && forall j, k :: 0 <= j < k < |parts| ==> parts[j].partNumber != parts[k].partNumber
  }

  /** The object the listed parts make, if the store holds each of them under its tag. */
  function Listed(w: World, input: CompleteInput): Option<seq<M.Byte>> {
    if input.uploadId in w.pending && w.pending[input.uploadId].key == input.key
    then M.Assemble(w.pending[input.uploadId].stored, M.SortParts(input.parts)) else None
  }

  /** The request gets as far as a completed upload. */
  predicate Joins(w: World, input: CompleteInput, now: int, calls: Calls) {
    TokenFits(w, input, now) && GoodParts(input.parts) && Listed(w, input).Some? && calls.store.Stored?
  }

  /** The stored object is what the token promised, as far as the store shows it. */
  predicate AsPromised(w: World, input: CompleteInput, calls: Calls)
    requires Listed(w, input).Some? && calls.head.Head?
  {
    && |Listed(w, input).value| == input.token.size
    && (calls.head.typeShown ==> w.pending[input.uploadId].contentType in {"", input.token.contentType})
  }

  lemma NormalizedIsGood(parts: seq<M.Part>)
    ensures Normalized(parts).Ok? <==> GoodParts(parts)
    ensures Normalized(parts).Ok? ==> Normalized(parts).value == M.SortParts(parts)
  {
    NormalizedIff(parts);
  }

  lemma StoreCompletesIff(w: World, input: CompleteInput, now: int, calls: Calls)
    ensures CheckComplete(w, input, now).None? <==> TokenFits(w, input, now) && GoodParts(input.parts)
    ensures Normalized(input.parts).Ok? ==> Joinable(w, input, Normalized(input.parts).value) == Listed(w, input)
    ensures StoreCompletes(w, input, now, calls) <==> Joins(w, input, now, calls)
  {
    NormalizedIsGood(input.parts);
  }

  /** A job is created exactly when the token fits, the parts make the promised object, and every call answers. */
  lemma CreatedIff(w: World, input: CompleteInput, now: int, calls: Calls)
    ensures CompleteUpload(w, input, now, calls).1.Created? <==>
              && Joins(w, input, now, calls) && calls.head.Head? && AsPromised(w, input, calls)
              && calls.insert.Inserted? && input.token.size <= 0x7FFF_FFFF
  {
    StoreCompletesIff(w, input, now, calls);
  }

  /** Everything a request can be refused for, in the order of the checks. */
  lemma CompletionRefusals(w: World, input: CompleteInput, now: int, calls: Calls)
    ensures var reply := CompleteUpload(w, input, now, calls).1;
            && (reply == Refused(TokenInvalid) <==> input.token !in w.signed || now >= input.token.expiresAt)
            && (reply == Refused(TargetMismatch) <==>
                  && input.token in w.signed && now < input.token.expiresAt
                  && (input.token.key != input.key || input.token.uploadId != input.uploadId))
            && (reply.Refused? && reply.reason.BadParts? <==> TokenFits(w, input, now) && !GoodParts(input.parts))
            && (reply == Refused(StoreFailed) <==>
                  TokenFits(w, input, now) && GoodParts(input.parts) && !(Listed(w, input).Some? && calls.store.Stored?))
            && (reply == Refused(HeadFailed) <==> Joins(w, input, now, calls) && calls.head.HeadThrew?)
            && (reply == Refused(MetadataMismatch) <==>
                  Joins(w, input, now, calls) && calls.head.Head? && !AsPromised(w, input, calls))
            && (reply == Refused(InsertFailed) <==>
                  && Joins(w, input, now, calls) && calls.head.Head? && AsPromised(w, input, calls)
                  && !(calls.insert.Inserted? && input.token.size <= 0x7FFF_FFFF))
  {
    StoreCompletesIff(w, input, now, calls);
  }

  /** Before the first `i` parts nothing is refused. */
  predicate GoodUpTo(sorted: seq<M.Part>, i: nat)
    requires i <= |sorted|
  {
    forall k :: 0 <= k < i ==> ValidPart(sorted[k]) && (k > 0 ==> sorted[k - 1].partNumber != sorted[k].partNumber)
  }

  lemma {:induction false} FirstBadIs(sorted: seq<M.Part>, i: nat)
    requires i <= |sorted| && GoodUpTo(sorted, i)
    ensures var bad := FirstBad(sorted, i);
            && GoodUpTo(sorted, bad)
            && (bad < |sorted| ==>
                  !ValidPart(sorted[bad]) || (bad > 0 && sorted[bad - 1].partNumber == sorted[bad].partNumber))
    decreases |sorted| - i
  {
    if FirstBad(sorted, i) != i {
      FirstBadIs(sorted, i + 1);
    }
  }

  /** Which error a bad list gives: that of its first bad part in ascending order; a part that is invalid and repeated is invalid. */
  lemma PartErrors(parts: seq<M.Part>)
    ensures var sorted := M.SortParts(parts);
            && (Normalized(parts) == Err(PartsRequired) <==> parts == [])
            && (Normalized(parts) == Err(PartsInvalid) <==>
                  parts != [] && exists i :: 0 <= i < |sorted| && GoodUpTo(sorted, i) && !ValidPart(sorted[i]))
            && (Normalized(parts) == Err(PartsDuplicate) <==>
                  parts != [] && exists i :: 0 < i < |sorted| && GoodUpTo(sorted, i) && ValidPart(sorted[i])
                                             && sorted[i - 1].partNumber == sorted[i].partNumber)
  {
    var sorted := M.SortParts(parts);
    FirstBadIs(sorted, 0);
    var bad := FirstBad(sorted, 0);
    M.SortIsPermutation(parts);
    assert |sorted| == |multiset(sorted)| == |multiset(parts)| == |parts|;
    forall i | 0 <= i < |sorted| && GoodUpTo(sorted, i)
                && (!ValidPart(sorted[i]) || (i > 0 && sorted[i - 1].partNumber == sorted[i].partNumber))
      ensures i == bad
    {
    }
  }

  /** Nothing changes but the object under `key`, the next row, the log, and the record of hidden errors. */
  ghost predicate TouchesOnly(w: World, w': World, key: nat) {
    && (forall k :: k != key ==>
          (k in w'.objects <==> k in w.objects) && (k in w.objects ==> k in w'.objects && w'.objects[k] == w.objects[k]))
    && (forall id :: id != w.nextId ==>
          (id in w'.rows <==> id in w.rows) && (id in w.rows ==> id in w'.rows && w'.rows[id] == w.rows[id]))
    && w'.signed == w.signed && w'.temp == w.temp
  }

  lemma FinishFrame(w: World, payload: Payload, calls: Calls)
    requires payload.key in w.objects
    ensures var (w', reply) := FinishUpload(w, payload, calls);
            && TouchesOnly(w, w', payload.key) && w'.pending == w.pending && w.nextId <= w'.nextId
            && w'.logged == w.logged + if !reply.Created? && !calls.delete.Deleted? then {payload.key} else {}
  {
  }

  lemma JoinFrame(w: World, input: CompleteInput, data: seq<M.Byte>)
    requires input.uploadId in w.pending
    ensures var w' := Join(w, input, data);
            && TouchesOnly(w, w', input.key) && w'.logged == w.logged && w'.nextId == w.nextId && w'.rows == w.rows
            && (forall u :: u in w'.pending ==> u in w.pending && w'.pending[u] == w.pending[u])
            && (forall u :: u in w.pending && u != input.uploadId ==> u in w'.pending)
  {
  }

  /** A completion touches its own session, object and row, and logs its own key; refused early, it touches nothing. */
  lemma CompletionFrame(w: World, input: CompleteInput, now: int, calls: Calls)
    ensures var (w', reply) := CompleteUpload(w, input, now, calls);
            && TouchesOnly(w, w', input.key) && w.nextId <= w'.nextId
            && (forall u :: u in w'.pending ==> u in w.pending && w'.pending[u] == w.pending[u])
            && (forall u :: u in w.pending && u != input.uploadId ==> u in w'.pending)
    ensures !(TokenFits(w, input, now) && GoodParts(input.parts) && Listed(w, input).Some?) || calls.store.StoreRefused? ==>
              CompleteUpload(w, input, now, calls).0 == w
    ensures var (w', reply) := CompleteUpload(w, input, now, calls);
            w'.logged == w.logged + if Joins(w, input, now, calls) && !reply.Created? && !calls.delete.Deleted?
                                    then {input.key} else {}
  {
    StoreCompletesIff(w, input, now, calls);
    if TokenFits(w, input, now) && GoodParts(input.parts) && Listed(w, input).Some? {
      var data := Listed(w, input).value;
      JoinFrame(w, input, data);
      FinishFrame(Join(w, input, data), input.token, calls);
    }
  }

  /** The two errors only an observer sees, on a completion: exactly a hidden success of the store, and of the insert. */
  lemma CompletionHides(w: World, input: CompleteInput, now: int, calls: Calls)
    ensures var w' := CompleteUpload(w, input, now, calls).0;
            && w'.unseen == w.unseen
                 + (if TokenFits(w, input, now) && GoodParts(input.parts) && Listed(w, input).Some? && calls.store.StoredThenThrew?
                    then {input.key} else {})
            && w'.lost == w.lost
                 + (if && Joins(w, input, now, calls) && calls.head.Head? && AsPromised(w, input, calls)
                       && calls.insert.InsertedThenThrew? && input.token.size <= 0x7FFF_FFFF
                    then {input.key} else {})
  {
    StoreCompletesIff(w, input, now, calls);
  }

  // ---- aborting ----

  /** An abort is acknowledged exactly if the token fits and the store answers; then the session is gone, and nothing else. */
  lemma AbortedIff(w: World, input: CompleteInput, now: int, store: StoreCall)
    ensures var (w', reply) := AbortUpload(w, input, now, store);
            && (reply == Aborted <==> TokenFits(w, input, now) && store.Stored?)
            && (reply == Aborted ==> input.uploadId !in w'.pending)
            && (input.uploadId in w'.pending <==>
                  input.uploadId in w.pending && !(TokenFits(w, input, now) && !store.StoreRefused?))
            && (forall u :: u in w'.pending ==> u in w.pending && w'.pending[u] == w.pending[u])
            && (forall u :: u in w.pending && u != input.uploadId ==> u in w'.pending)
            && w' == w.(pending := w'.pending)
  {
  }

  lemma AbortRefusals(w: World, input: CompleteInput, now: int, store: StoreCall)
    ensures var reply := AbortUpload(w, input, now, store).1;
            && (reply == Refused(TokenInvalid) <==> input.token !in w.signed || now >= input.token.expiresAt)
            && (reply == Refused(TargetMismatch) <==>
                  && input.token in w.signed && now < input.token.expiresAt
                  && (input.token.key != input.key || input.token.uploadId != input.uploadId))
            && (reply == Refused(StoreFailed) <==> TokenFits(w, input, now) && !store.Stored?)
  {
  }

  // ---- a session that has ended ----

  /** The session was opened once and is no longer open. */
  predicate Ended(w: World, uploadId: nat) {
    uploadId < w.nextId && uploadId !in w.pending
  }

  lemma OpenKeepsEnded(w: World, input: OpenInput, maxBytes: nat, now: int, store: StoreCall, signs: bool, uploadId: nat)
    requires Ended(w, uploadId)
    ensures Ended(CreateUpload(w, input, maxBytes, now, store, signs).0, uploadId)
  {
  }

  lemma CreateKeepsEnded(w: World, file: Option<File>, modelKnown: bool, maxBytes: nat, calls: Calls, uploadId: nat)
    requires Ended(w, uploadId)
    ensures Ended(Create(w, file, modelKnown, maxBytes, calls).0, uploadId)
  {
  }

  lemma EndedStep(w: World, e: Event, uploadId: nat)
    requires Ended(w, uploadId)
    ensures Ended(Step(w, e), uploadId)
  {
    match e
    case Completes(input, now, calls) => CompletionFrame(w, input, now, calls);
    case Opens(input, maxBytes, now, store, signs) => OpenKeepsEnded(w, input, maxBytes, now, store, signs, uploadId);
    case Puts(_, _, _, _) =>
    case Aborts(_, _, _) =>
    case Creates(file, modelKnown, maxBytes, calls) => CreateKeepsEnded(w, file, modelKnown, maxBytes, calls, uploadId);
  }

  lemma {:induction false} EndedStays(w: World, es: seq<Event>, uploadId: nat)
    requires Ended(w, uploadId)
    ensures Ended(After(w, es), uploadId)
    decreases |es|
  {
    if es != [] {
      EndedStep(w, es[0], uploadId);
      EndedStays(Step(w, es[0]), es[1..], uploadId);
    }
  }

  lemma EndedRefuses(w: World, again: CompleteInput, later: int, retry: Calls)
    requires Ended(w, again.uploadId)
    ensures var (w', reply) := CompleteUpload(w, again, later, retry);
            w' == w && reply.Refused?
  {
  }

  /** After an abort, over any run, completing the session is refused and changes nothing. */
  lemma AbortedSessionStaysAborted(w: World, input: CompleteInput, now: int, store: StoreCall, es: seq<Event>,
                                   again: CompleteInput, later: int, retry: Calls)
    requires Inv(w) && input.uploadId in w.pending && AbortUpload(w, input, now, store).1 == Aborted
    requires again.uploadId == input.uploadId
    ensures var w1 := After(AbortUpload(w, input, now, store).0, es);
            var (w2, reply) := CompleteUpload(w1, again, later, retry);
            w2 == w1 && reply.Refused?
  {
    AbortedIff(w, input, now, store);
    var gone := AbortUpload(w, input, now, store).0;
    EndedStays(gone, es, input.uploadId);
    EndedRefuses(After(gone, es), again, later, retry);
  }

  /** The same after a completion, however it ended once the store had joined the parts. */
  lemma CompletedSessionStaysCompleted(w: World, input: CompleteInput, now: int, calls: Calls, es: seq<Event>,
                                       again: CompleteInput, later: int, retry: Calls)
    requires Inv(w) && StoreCompletes(w, input, now, calls) && again.uploadId == input.uploadId
    ensures var w1 := After(CompleteUpload(w, input, now, calls).0, es);
            var (w2, reply) := CompleteUpload(w1, again, later, retry);
            w2 == w1 && reply.Refused?
  {
    CompletionEnds(w, input, now, calls);
    var done := CompleteUpload(w, input, now, calls).0;
    EndedStays(done, es, input.uploadId);
    EndedRefuses(After(done, es), again, later, retry);
  }

  lemma CompletionEnds(w: World, input: CompleteInput, now: int, calls: Calls)
    requires Inv(w) && StoreCompletes(w, input, now, calls)
    ensures Ended(CompleteUpload(w, input, now, calls).0, input.uploadId)
  {
    assert input.uploadId !in Join(w, input, Joinable(w, input, Normalized(input.parts).value).value).pending;
  }

  // ---- the older path ----

  /** The older path creates a job exactly for a supported file of a legal size and name, if its calls answer. */
  lemma LegacyCreatedIff(w: World, file: Option<File>, modelKnown: bool, maxBytes: nat, calls: Calls)
    ensures var (w', reply) := Create(w, file, modelKnown, maxBytes, calls);
            && (reply == Refused(FileRequired) <==> file.None?)
            && (file.Some? ==>
                  var f := file.value;
                  var size := |f.data|;
                  && (reply == Refused(TooLarge) <==> size > maxBytes)
                  && (reply == Refused(Unsupported) <==> size <= maxBytes && (size == 0 || f.path == "" || !f.supported))
                  && (reply == Refused(BadModel) <==>
                        0 < size <= maxBytes && f.path != "" && f.supported && !modelKnown)
                  && (reply == Refused(BadName) <==> LegacyChecked(f, modelKnown, maxBytes) && !R.WellFormed(f.fileName))
                  && (reply == Refused(StoreFailed) <==>
                        LegacyChecked(f, modelKnown, maxBytes) && R.WellFormed(f.fileName) && !calls.store.Stored?)
                  && (reply.Created? <==>
                        && LegacyChecked(f, modelKnown, maxBytes) && R.WellFormed(f.fileName) && calls.store.Stored?
                        && calls.insert.Inserted? && size <= 0x7FFF_FFFF))
  {
    if file.Some? { R.EncodeFailsIffIllFormed(file.value.fileName); }
  }

  predicate LegacyChecked(file: File, modelKnown: bool, maxBytes: nat) {
    0 < |file.data| <= maxBytes && file.path != "" && file.supported && modelKnown
  }

  /** What the older path leaves: the object under a fresh key unless refused or compensated, and what hid or was logged. */
  lemma LegacyLeaves(w: World, file: File, modelKnown: bool, maxBytes: nat, calls: Calls)
    requires Inv(w) && LegacyChecked(file, modelKnown, maxBytes) && R.WellFormed(file.fileName)
    ensures var (w', reply) := Create(w, Some(file), modelKnown, maxBytes, calls);
            var key := w.nextId;
            var fits := |file.data| <= 0x7FFF_FFFF;
            && (key in w'.objects <==>
                  reply.Created? || calls.store.StoredThenThrew? || (calls.store.Stored? && calls.delete.DeleteFailed?))
            && (key in w'.objects ==> w'.objects[key] == Object(file.data, file.contentType))
            && w'.unseen == w.unseen + (if calls.store.StoredThenThrew? then {key} else {})
            && w'.lost == w.lost + (if calls.store.Stored? && calls.insert.InsertedThenThrew? && fits then {key} else {})
            && w'.logged == w.logged + (if calls.store.Stored? && !reply.Created? && !calls.delete.Deleted? then {key} else {})
  {
    R.EncodeFailsIffIllFormed(file.fileName);
    assert w.nextId !in w.objects;
  }

  lemma LegacyAddsRow(w: World, file: File, modelKnown: bool, maxBytes: nat, calls: Calls)
    requires Inv(w) && LegacyChecked(file, modelKnown, maxBytes) && R.WellFormed(file.fileName)
    ensures var w' := Create(w, Some(file), modelKnown, maxBytes, calls).0;
            w'.rows == if calls.store.Stored? && !calls.insert.InsertRejected? && |file.data| <= 0x7FFF_FFFF
                       then w.rows[w.nextId + 1 := Row(file.fileName, file.contentType, w.nextId, |file.data|)] else w.rows
  {
    R.EncodeFailsIffIllFormed(file.fileName);
  }
}
