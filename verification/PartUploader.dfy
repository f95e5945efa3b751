/**
 The browser's uploader as the code has it: closure variables shared by up to
 three interleaved uploaders, one method per stretch of code between awaits.
 */
module PartUploads {
  import opened Common
  import M = MultipartUpload

  class PartUploader {
    const plan: M.Plan
    var nextPartIndex: nat
    var uploadedBytes: nat
    var uploadedParts: seq<M.Part>
    var uploaders: seq<M.Uploader>
    var stored: M.Stored

    /** The uploader's variables as one value. */
    ghost function View(): M.Upload
      reads this
    {
      M.Upload(nextPartIndex, uploaders, uploadedParts, uploadedBytes, stored)
    }

    /** Starts `min(3, parts.length)` uploaders, each of which runs up to its first PUT. */
    constructor (plan: M.Plan)
      ensures this.plan == plan && View() == M.Begin(plan)
    {
      this.plan := plan;
      nextPartIndex, uploadedBytes, uploadedParts, uploaders, stored := 0, 0, [], [], map[];
      new;
      var concurrency := if plan.count < M.MAX_UPLOADERS then plan.count else M.MAX_UPLOADERS;
      var n := 0;
      while n < concurrency
        invariant 0 <= n <= concurrency == M.UploaderCount(plan)
        invariant this.plan == plan && View() == M.Launch(plan, n) && |uploaders| == n
      {
        ghost var before := View();
        uploaders := uploaders + [M.Finished];
        assert View() == before.(uploaders := before.uploaders + [M.Finished]);
        UploadNextPart(n);
        n := n + 1;
      }
    }

    /** The loop head of `uploadNextPart`. */
    method UploadNextPart(u: nat)
      requires u < |uploaders|
      modifies this
      ensures View() == M.ClaimNext(plan, old(View()), u)
      ensures |uploaders| == old(|uploaders|)
    {
      if nextPartIndex < plan.count {
        var partIndex := nextPartIndex;
        nextPartIndex := nextPartIndex + 1;
        uploaders := uploaders[u := M.Sending(partIndex)];
      } else {
        uploaders := uploaders[u := M.Finished];
      }
    }

    /** Uploader `u` resumes from its PUT. */
    method Resume(e: M.Event)
      modifies this
      ensures View() == M.Step(plan, old(View()), e)
    {
      if e.u >= |uploaders| || !uploaders[e.u].Sending? {
        return;
      }
      var partIndex := uploaders[e.u].index;
      if e.PutFailed? || e.etag == "" {
        uploaders := uploaders[e.u := M.Failed(partIndex)];
        return;
      }
      var body := M.Slice(plan, partIndex);
      stored := stored[partIndex + 1 := (e.etag, body)];
      uploadedParts := uploadedParts + [M.Part(partIndex + 1, e.etag)];
      uploadedBytes := uploadedBytes + |body|;
      UploadNextPart(e.u);
    }
  }

  /** The whole upload against any sequence of PUT answers: resolved means a complete, ordered report. */
  method UploadSubtitleFileParts(plan: M.Plan, answers: seq<M.Event>)
    returns (parts: Option<seq<M.Part>>, stored: M.Stored)
    requires M.Issued(plan)
    ensures parts.Some? <==> M.Resolved(M.After(plan, M.Begin(plan), answers))
    ensures parts.Some? ==> M.Complete(plan, stored, parts.value) && M.Assemble(stored, parts.value) == Some(plan.file)
  {
    var uploader := new PartUploader(plan);
    var i := 0;
    while i < |answers|
      invariant 0 <= i <= |answers| && uploader.plan == plan && fresh(uploader)
      invariant M.After(plan, uploader.View(), answers[i..]) == M.After(plan, M.Begin(plan), answers)
    {
      assert answers[i..][0] == answers[i] && answers[i..][1..] == answers[i + 1..];
      uploader.Resume(answers[i]);
      i := i + 1;
    }
    assert uploader.View() == M.After(plan, M.Begin(plan), answers);
    stored := uploader.stored;
    if forall u :: 0 <= u < |uploader.uploaders| ==> uploader.uploaders[u].Finished? {
      M.ReportedPartsAreComplete(plan, answers);
      M.AssembledIsFile(plan, answers);
      parts := Some(M.SortParts(uploader.uploadedParts));
    } else {
      parts := None;
    }
  }
}
