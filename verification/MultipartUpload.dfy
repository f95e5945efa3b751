/**
 The browser's multipart upload: up to three cooperating uploaders that share
 a next-part index, a byte counter and a result list, interleaved in any order
 at their awaits; and the object the store assembles from the parts.
 */
module MultipartUpload {
  import opened Common

  type Byte = b: int | 0 <= b < 256

  datatype Part = Part(partNumber: int, etag: string)

  /** What the server's upload session tells the browser: part size and the number of part URLs. */
  datatype Plan = Plan(file: seq<Byte>, partSize: nat, count: nat)

  const MAX_UPLOADERS: nat := 3

  /** `Math.ceil(sizeBytes / partSize)`. */
  function PartCount(size: nat, partSize: nat): nat
    requires partSize > 0
  {
    (size + partSize - 1) / partSize
  }

  /** A session the server issues for a non-empty file. */
  predicate Issued(plan: Plan) {
    plan.partSize > 0 && |plan.file| > 0 && plan.count == PartCount(|plan.file|, plan.partSize)
  }

  function Start(plan: Plan, i: nat): nat {
    i * plan.partSize
  }

  function End(plan: Plan, i: nat): nat {
    if Start(plan, i) + plan.partSize < |plan.file| then Start(plan, i) + plan.partSize else |plan.file|
  }

  /** `file.slice(start, end)`. */
  function Slice(plan: Plan, i: nat): seq<Byte> {
    if Start(plan, i) <= End(plan, i) then plan.file[Start(plan, i)..End(plan, i)] else []
  }

  datatype Uploader = Sending(index: nat) | Finished | Failed(index: nat)

  /** The parts the store has received, by number: tag and content. */
  type Stored = map<int, (string, seq<Byte>)>

  /** The shared closure variables, the uploaders, and the store. */
  datatype Upload = Upload(next: nat, uploaders: seq<Uploader>, parts: seq<Part>, bytes: nat, stored: Stored)

  /** The loop head: claim the next index, or stop. */
  function ClaimNext(plan: Plan, s: Upload, u: nat): Upload
    requires u < |s.uploaders|
  {
    if s.next < plan.count
    then s.(next := s.next + 1, uploaders := s.uploaders[u := Sending(s.next)])
    else s.(uploaders := s.uploaders[u := Finished])
  }

  const NOTHING := Upload(0, [], [], 0, map[])

  /** `Array.from` starts the uploaders one after another; each runs to its first await. */
  function Launch(plan: Plan, n: nat): Upload {
    if n == 0 then NOTHING
    else
      var s := Launch(plan, n - 1);
      ClaimNext(plan, s.(uploaders := s.uploaders + [Finished]), |s.uploaders|)
  }

  function UploaderCount(plan: Plan): nat {
    if plan.count < MAX_UPLOADERS then plan.count else MAX_UPLOADERS
  }

  function Begin(plan: Plan): Upload {
    Launch(plan, UploaderCount(plan))
  }

  datatype Event =
    | PutDone(u: nat, etag: string)  // the PUT succeeded with this ETag header
    | PutFailed(u: nat)              // refused or blocked

  /** The store keeps the slice under its part number; the uploader records the part and counts its bytes. */
  function Push(plan: Plan, s: Upload, i: nat, etag: string): Upload {
    s.(parts := s.parts + [Part(i + 1, etag)],
       bytes := s.bytes + |Slice(plan, i)|,
       stored := s.stored[i + 1 := (etag, Slice(plan, i))])
  }

  /** An uploader resumes after its await: it throws, or pushes its part, counts its bytes, and loops. */
  function Step(plan: Plan, s: Upload, e: Event): Upload {
    if e.u >= |s.uploaders| || !s.uploaders[e.u].Sending? then s
    else
      var i := s.uploaders[e.u].index;
      if e.PutFailed? || e.etag == ""
      then s.(uploaders := s.uploaders[e.u := Failed(i)])
      else ClaimNext(plan, Push(plan, s, i, e.etag), e.u)
  }

  function After(plan: Plan, s: Upload, es: seq<Event>): Upload
    decreases |es|
  {
    if es == [] then s else After(plan, Step(plan, s, es[0]), es[1..])
  }

  /** `Promise.all` resolves: every uploader has returned. */
  predicate Resolved(s: Upload) {
    forall u :: 0 <= u < |s.uploaders| ==> s.uploaders[u].Finished?
  }

  // ---- sorting and assembling ----

  /** Ascending by part number. */
  predicate Ascending(parts: seq<Part>) {
    forall j, k :: 0 <= j < k < |parts| ==> parts[j].partNumber <= parts[k].partNumber
  }

  function Insert(p: Part, parts: seq<Part>): seq<Part> {
    if parts == [] || p.partNumber < parts[0].partNumber then [p] + parts
    else [parts[0]] + Insert(p, parts[1..])
  }

  /** `sort((first, second) => first.partNumber - second.partNumber)`. */
  function SortParts(parts: seq<Part>): seq<Part> {
    if parts == [] then [] else Insert(parts[|parts| - 1], SortParts(parts[..|parts| - 1]))
  }

  lemma {:induction false} InsertKeepsAll(p: Part, parts: seq<Part>)
    ensures multiset(Insert(p, parts)) == multiset(parts) + multiset{p}
  {
    if parts != [] && p.partNumber >= parts[0].partNumber {
      InsertKeepsAll(p, parts[1..]);
      assert parts == [parts[0]] + parts[1..];
    }
  }

  lemma {:induction false} InsertAscending(p: Part, parts: seq<Part>)
    requires Ascending(parts)
    ensures Ascending(Insert(p, parts))
    ensures Insert(p, parts)[0] == if parts == [] || p.partNumber < parts[0].partNumber then p else parts[0]
  {
    if parts != [] && p.partNumber >= parts[0].partNumber {
      InsertAscending(p, parts[1..]);
      HeadFirst(parts[0], Insert(p, parts[1..]));
    }
  }

  lemma HeadFirst(head: Part, rest: seq<Part>)
    requires Ascending(rest) && (rest == [] || head.partNumber <= rest[0].partNumber)
    ensures Ascending([head] + rest)
  {
    var all := [head] + rest;
    forall j, k | 0 <= j < k < |all| ensures all[j].partNumber <= all[k].partNumber {
      assert all[k] == rest[k - 1] && rest[0].partNumber <= rest[k - 1].partNumber;
      if j > 0 { assert all[j] == rest[j - 1]; }
    }
  }

  /** Sorting loses no part and makes none up. */
  lemma {:induction false} SortIsPermutation(parts: seq<Part>)
    ensures Ascending(SortParts(parts)) && multiset(SortParts(parts)) == multiset(parts)
  {
    if parts != [] {
      var last := |parts| - 1;
      SortIsPermutation(parts[..last]);
      assert parts == parts[..last] + [parts[last]];
      InsertKeepsAll(parts[last], SortParts(parts[..last]));
      InsertAscending(parts[last], SortParts(parts[..last]));
    }
  }

  /** The store concatenates the listed parts: every one must exist under its tag, in ascending order. */
  function Assemble(stored: Stored, parts: seq<Part>): Option<seq<Byte>> {
    if parts == [] then Some([])
    else
      var last := |parts| - 1;
      var p := parts[last];
      var before := Assemble(stored, parts[..last]);
      if before.None? || p.partNumber !in stored || stored[p.partNumber].0 != p.etag
         || (last > 0 && parts[last - 1].partNumber >= p.partNumber)
      then None
      else Some(before.value + stored[p.partNumber].1)
  }

  // ---- the invariant of every interleaving ----

  predicate Pushed(s: Upload, i: nat) {
    exists k :: 0 <= k < |s.parts| && s.parts[k].partNumber == i + 1
  }

  predicate Holds(s: Upload, u: nat, i: nat) {
    u < |s.uploaders| && !s.uploaders[u].Finished? && s.uploaders[u].index == i
  }

  /** Every index below `next` was claimed once: it is pushed, or held by exactly one uploader, never both. */
  ghost predicate ClaimsInv(plan: Plan, s: Upload) {
    && s.next <= plan.count
    && (forall u: nat, i: nat :: Holds(s, u, i) ==> i < s.next && !Pushed(s, i))
    && (forall u: nat, v: nat, i: nat :: Holds(s, u, i) && Holds(s, v, i) ==> u == v)
    && (forall u :: 0 <= u < |s.uploaders| && s.uploaders[u].Finished? ==> s.next == plan.count)
    && (forall i: nat :: i < s.next && !Pushed(s, i) ==> exists u: nat :: Holds(s, u, i))
  }

  predicate StoredPart(plan: Plan, s: Upload, p: Part) {
    && 1 <= p.partNumber <= s.next && p.etag != ""
    && p.partNumber in s.stored && s.stored[p.partNumber] == (p.etag, Slice(plan, p.partNumber - 1))
  }

  /** Pushed parts are distinct, in range, and stored with the right slice under the right tag. */
  ghost predicate PartsInv(plan: Plan, s: Upload) {
    && (forall k :: 0 <= k < |s.parts| ==> StoredPart(plan, s, s.parts[k]))
    && (forall j, k :: 0 <= j < k < |s.parts| ==> s.parts[j].partNumber != s.parts[k].partNumber)
  }

  /** Bytes of the first `n` slices whose index is in `done`. */
  function BytesBelow(plan: Plan, n: nat, done: set<int>): nat {
    if n == 0 then 0
    else BytesBelow(plan, n - 1, done) + (if n - 1 in done then |Slice(plan, n - 1)| else 0)
  }

  function PushedSet(parts: seq<Part>): set<int> {
    set k | 0 <= k < |parts| :: parts[k].partNumber - 1
  }

  ghost predicate BytesInv(plan: Plan, s: Upload) {
    s.bytes == BytesBelow(plan, plan.count, PushedSet(s.parts))
  }

  ghost predicate Inv(plan: Plan, s: Upload) {
    ClaimsInv(plan, s) && PartsInv(plan, s) && BytesInv(plan, s)
  }

  lemma {:induction false} BytesOfNone(plan: Plan, n: nat)
    ensures BytesBelow(plan, n, {}) == 0
  {
    if n > 0 { BytesOfNone(plan, n - 1); }
  }

  lemma {:induction false} BytesOfOneMore(plan: Plan, n: nat, done: set<int>, i: nat)
    requires i !in done
    ensures BytesBelow(plan, n, done + {i}) == BytesBelow(plan, n, done) + (if i < n then |Slice(plan, i)| else 0)
  {
    if n > 0 { BytesOfOneMore(plan, n - 1, done, i); }
  }

  /** The claims while uploader `u` is between its await and its next claim. */
  ghost predicate ClaimsBut(plan: Plan, s: Upload, u: nat) {
    && s.next <= plan.count && u < |s.uploaders|
    && (forall v: nat, i: nat :: Holds(s, v, i) && v != u ==> i < s.next && !Pushed(s, i))
    && (forall v: nat, w: nat, i: nat :: Holds(s, v, i) && Holds(s, w, i) && v != u && w != u ==> v == w)
    && (forall v :: 0 <= v < |s.uploaders| && v != u && s.uploaders[v].Finished? ==> s.next == plan.count)
    && (forall i: nat :: i < s.next && !Pushed(s, i) ==> exists v: nat :: v != u && Holds(s, v, i))
  }

  lemma ClaimNextKeeps(plan: Plan, s: Upload, u: nat)
    requires ClaimsBut(plan, s, u) && PartsInv(plan, s) && BytesInv(plan, s)
    ensures Inv(plan, ClaimNext(plan, s, u))
  {
    var s' := ClaimNext(plan, s, u);
    assert forall i: nat :: Pushed(s', i) <==> Pushed(s, i);
    assert forall v: nat, i: nat :: v != u ==> (Holds(s', v, i) <==> Holds(s, v, i));
    assert !Pushed(s, s.next);
    assert s.next < plan.count ==> Holds(s', u, s.next);
    forall i: nat | i < s'.next && !Pushed(s', i)
      ensures exists v: nat :: Holds(s', v, i)
    {
      if i < s.next {
        var v: nat :| v != u && Holds(s, v, i);
        assert Holds(s', v, i);
      } else {
        assert Holds(s', u, i);
      }
    }
  }

  lemma PushKeeps(plan: Plan, s: Upload, u: nat, etag: string)
    requires Inv(plan, s) && u < |s.uploaders| && s.uploaders[u].Sending? && etag != ""
    ensures Inv(plan, Step(plan, s, PutDone(u, etag)))
  {
    var i := s.uploaders[u].index;
    assert Holds(s, u, i);
    var s1 := Push(plan, s, i, etag);
    PushKeepsClaims(plan, s, u, etag);
    PushKeepsParts(plan, s, s1, i, etag);
    PushKeepsBytes(plan, s, s1, i, etag);
    ClaimNextKeeps(plan, s1, u);
  }

  lemma PushKeepsClaims(plan: Plan, s: Upload, u: nat, etag: string)
    requires ClaimsInv(plan, s) && u < |s.uploaders| && s.uploaders[u].Sending?
    ensures ClaimsBut(plan, Push(plan, s, s.uploaders[u].index, etag), u)
  {
    var i := s.uploaders[u].index;
    var s1 := Push(plan, s, i, etag);
    assert Holds(s, u, i);
    forall j: nat ensures Pushed(s1, j) <==> Pushed(s, j) || j == i {
      PushedMore(s, s1, i, etag, j);
    }
    assert forall v: nat, j: nat :: Holds(s1, v, j) <==> Holds(s, v, j);
    forall j: nat | j < s1.next && !Pushed(s1, j)
      ensures exists v: nat :: v != u && Holds(s1, v, j)
    {
      var v: nat :| Holds(s, v, j);
      assert v != u && Holds(s1, v, j);
    }
  }

  lemma PushedMore(s: Upload, s1: Upload, i: nat, etag: string, j: nat)
    requires s1.parts == s.parts + [Part(i + 1, etag)]
    ensures Pushed(s1, j) <==> Pushed(s, j) || j == i
  {
    if Pushed(s, j) {
      var k :| 0 <= k < |s.parts| && s.parts[k].partNumber == j + 1;
      assert s1.parts[k].partNumber == j + 1;
    }
    assert s1.parts[|s.parts|].partNumber == i + 1;
  }

  lemma PushKeepsParts(plan: Plan, s: Upload, s1: Upload, i: nat, etag: string)
    requires PartsInv(plan, s) && i < s.next && !Pushed(s, i) && etag != "" && s1 == Push(plan, s, i, etag)
    ensures PartsInv(plan, s1)
  {
    forall k | 0 <= k < |s.parts|
      ensures s1.parts[k] == s.parts[k] && s.parts[k].partNumber != i + 1 && StoredPart(plan, s1, s.parts[k])
    {
      assert StoredPart(plan, s, s.parts[k]);
    }
    assert s1.parts[|s.parts|] == Part(i + 1, etag) && StoredPart(plan, s1, Part(i + 1, etag));
  }

  lemma PushedSetMore(parts: seq<Part>, p: Part)
    ensures PushedSet(parts + [p]) == PushedSet(parts) + {p.partNumber - 1}
  {
    var more := parts + [p];
    assert more[|parts|].partNumber - 1 == p.partNumber - 1;
    forall x | x in PushedSet(parts) ensures x in PushedSet(more) {
      var k :| 0 <= k < |parts| && parts[k].partNumber - 1 == x;
      assert more[k].partNumber - 1 == x;
    }
  }

  lemma PushKeepsBytes(plan: Plan, s: Upload, s1: Upload, i: nat, etag: string)
    requires BytesInv(plan, s) && !Pushed(s, i) && i < plan.count
    requires s1 == Push(plan, s, i, etag)
    ensures BytesInv(plan, s1)
  {
    assert i !in PushedSet(s.parts);
    PushedSetMore(s.parts, Part(i + 1, etag));
    BytesOfOneMore(plan, plan.count, PushedSet(s.parts), i);
  }

  lemma FailKeeps(plan: Plan, s: Upload, u: nat)
    requires Inv(plan, s) && u < |s.uploaders| && s.uploaders[u].Sending?
    ensures Inv(plan, s.(uploaders := s.uploaders[u := Failed(s.uploaders[u].index)]))
  {
    var s' := s.(uploaders := s.uploaders[u := Failed(s.uploaders[u].index)]);
    assert forall i: nat :: Pushed(s', i) <==> Pushed(s, i);
    assert forall v: nat, i: nat :: Holds(s', v, i) <==> Holds(s, v, i);
  }

  /** Whatever uploader resumes, and however its PUT ended, the claims, the parts and the count stay right. */
  lemma StepKeeps(plan: Plan, s: Upload, e: Event)
    requires Inv(plan, s)
    ensures Inv(plan, Step(plan, s, e))
  {
    if e.u < |s.uploaders| && s.uploaders[e.u].Sending? {
      if e.PutDone? && e.etag != "" {
        PushKeeps(plan, s, e.u, e.etag);
      } else {
        FailKeeps(plan, s, e.u);
      }
    }
  }

  lemma {:induction false} LaunchInv(plan: Plan, n: nat)
    requires n <= plan.count
    ensures var s := Launch(plan, n);
            Inv(plan, s) && |s.uploaders| == n && s.next == n && s.parts == []
  {
    if n == 0 {
      BytesOfNone(plan, plan.count);
      assert PushedSet(NOTHING.parts) == {};
    } else {
      LaunchInv(plan, n - 1);
      var s := Launch(plan, n - 1);
      var s1 := s.(uploaders := s.uploaders + [Finished]);
      assert forall u: nat, i: nat :: Holds(s1, u, i) <==> Holds(s, u, i);
      assert forall i: nat :: Pushed(s1, i) <==> Pushed(s, i);
      ClaimNextKeeps(plan, s1, n - 1);
    }
  }

  lemma {:induction false} AfterKeeps(plan: Plan, s: Upload, es: seq<Event>)
    requires Inv(plan, s)
    ensures Inv(plan, After(plan, s, es)) && |After(plan, s, es).uploaders| == |s.uploaders|
    decreases |es|
  {
    if es != [] {
      StepKeeps(plan, s, es[0]);
      AfterKeeps(plan, Step(plan, s, es[0]), es[1..]);
    }
  }

  lemma ReachedInv(plan: Plan, es: seq<Event>)
    ensures Inv(plan, After(plan, Begin(plan), es))
    ensures |After(plan, Begin(plan), es).uploaders| == UploaderCount(plan)
  {
    LaunchInv(plan, UploaderCount(plan));
    AfterKeeps(plan, Begin(plan), es);
  }

  // ---- the slices partition the file ----

  /** The last slice starts inside the file and the one after it would not. */
  lemma CountCovers(plan: Plan)
    requires Issued(plan)
    ensures plan.count > 0 && Start(plan, plan.count - 1) < |plan.file| <= Start(plan, plan.count)
  {
    var a := |plan.file| + plan.partSize - 1;
    assert a == plan.partSize * (a / plan.partSize) + a % plan.partSize;
    assert plan.count == a / plan.partSize;
    assert plan.count >= 1 by {
      DivAtLeastOne(a, plan.partSize);
    }
    assert Start(plan, plan.count) == plan.partSize * plan.count;
    assert Start(plan, plan.count - 1) == plan.partSize * plan.count - plan.partSize;
  }

  lemma DivAtLeastOne(a: nat, d: nat)
    requires 0 < d <= a
    ensures a / d >= 1
  {
  }

  lemma {:induction false} StartsBelow(plan: Plan, i: nat)
    requires Issued(plan) && i < plan.count
    ensures Start(plan, i) < |plan.file|
    ensures Start(plan, i + 1) == Start(plan, i) + plan.partSize
    decreases plan.count - i
  {
    assert (i + 1) * plan.partSize == i * plan.partSize + plan.partSize;
    if i == plan.count - 1 {
      CountCovers(plan);
    } else {
      StartsBelow(plan, i + 1);
    }
  }

  /** No slice is empty, and each one ends where the next begins; the last one ends with the file. */
  lemma SlicesMeet(plan: Plan, i: nat)
    requires Issued(plan) && i < plan.count
    ensures Slice(plan, i) != [] && |Slice(plan, i)| <= plan.partSize
    ensures Slice(plan, i) == plan.file[Start(plan, i)..End(plan, i)]
    ensures End(plan, i) == if i + 1 < plan.count then Start(plan, i + 1) else |plan.file|
  {
    StartsBelow(plan, i);
    if i + 1 < plan.count {
      StartsBelow(plan, i + 1);
    } else {
      CountCovers(plan);
    }
  }

  /** How far the first `n` slices reach. */
  function ReachOf(plan: Plan, n: nat): (r: nat)
    ensures r <= |plan.file|
  {
    if n < plan.count && Start(plan, n) <= |plan.file| then Start(plan, n) else |plan.file|
  }

  /** The bytes of the first `n` slices are a prefix of the file. */
  lemma {:induction false} BytesOfAll(plan: Plan, n: nat, done: set<int>)
    requires Issued(plan) && n <= plan.count
    requires forall i :: 0 <= i < n ==> i in done
    ensures BytesBelow(plan, n, done) == ReachOf(plan, n)
  {
    if n == 0 {
      CountCovers(plan);
    } else {
      BytesOfAll(plan, n - 1, done);
      SlicesMeet(plan, n - 1);
    }
  }

  lemma {:induction false} BytesMonotone(plan: Plan, n: nat, done: set<int>, more: set<int>)
    requires done <= more
    ensures BytesBelow(plan, n, done) <= BytesBelow(plan, n, more)
  {
    if n > 0 { BytesMonotone(plan, n - 1, done, more); }
  }

  // ---- counting ----

  lemma {:induction false} PushedCount(parts: seq<Part>)
    requires forall j, k :: 0 <= j < k < |parts| ==> parts[j].partNumber != parts[k].partNumber
    ensures |PushedSet(parts)| == |parts|
  {
    if parts == [] {
      assert PushedSet(parts) == {};
    } else {
      var last := |parts| - 1;
      PushedCount(parts[..last]);
      PushedSetMore(parts[..last], parts[last]);
      assert parts == parts[..last] + [parts[last]];
      assert forall k :: 0 <= k < last ==> parts[..last][k] == parts[k];
      assert parts[last].partNumber - 1 !in PushedSet(parts[..last]);
    }
  }

  function Below(n: nat): (r: set<int>)
    ensures |r| == n && forall i :: i in r <==> 0 <= i < n
  {
    if n == 0 then {} else Below(n - 1) + {n - 1}
  }

  /** A subset of the first `n` indices has `n` members exactly when it holds them all. */
  lemma FullWhenCounted(s: set<int>, n: nat)
    requires forall i :: i in s ==> 0 <= i < n
    ensures |s| == n <==> s == Below(n)
  {
    if |s| == n && s != Below(n) {
      var i :| i in Below(n) && i !in s;
      SubsetCount(s, Below(n) - {i});
    }
  }

  lemma {:induction false} SubsetCount<T>(a: set<T>, b: set<T>)
    requires a <= b
    ensures |a| <= |b|
    decreases |a|
  {
    if |a| > 0 {
      var x :| x in a;
      SubsetCount(a - {x}, b - {x});
    }
  }

  /** All claimed and none held is the same as all pushed. */
  lemma AllPushed(plan: Plan, s: Upload)
    requires Inv(plan, s) && |s.uploaders| == UploaderCount(plan) && plan.count > 0
    ensures PushedSet(s.parts) <= Below(plan.count) && |PushedSet(s.parts)| == |s.parts|
    ensures Resolved(s) <==> |s.parts| == plan.count
    ensures |s.parts| == plan.count ==> s.next == plan.count && PushedSet(s.parts) == Below(plan.count)
  {
    PushedCount(s.parts);
    FullWhenCounted(PushedSet(s.parts), plan.count);
    if Resolved(s) {
      ResolvedMeansPushed(plan, s);
    }
    if |s.parts| == plan.count {
      assert plan.count - 1 in PushedSet(s.parts);
      PushedMeansResolved(plan, s);
    }
  }

  lemma ResolvedMeansPushed(plan: Plan, s: Upload)
    requires ClaimsInv(plan, s) && PartsInv(plan, s) && |s.uploaders| > 0 && Resolved(s)
    ensures PushedSet(s.parts) == Below(plan.count)
  {
    assert s.uploaders[0].Finished?;
    forall i: nat | i < plan.count ensures i in PushedSet(s.parts) {
      assert Pushed(s, i);
    }
  }

  lemma PushedMeansResolved(plan: Plan, s: Upload)
    requires ClaimsInv(plan, s) && PushedSet(s.parts) == Below(plan.count)
    ensures Resolved(s)
  {
    forall u: nat | u < |s.uploaders| ensures s.uploaders[u].Finished? {
      if !s.uploaders[u].Finished? {
        var i := s.uploaders[u].index;
        assert i in PushedSet(s.parts) <==> Pushed(s, i);
        assert Holds(s, u, i);
        assert false;
      }
    }
  }

  // ---- sorted part numbers ----

  /** `n` distinct ascending numbers between 1 and `n` are 1, 2, ..., n. */
  lemma CountedOut(sorted: seq<Part>, n: nat)
    requires |sorted| == n
    requires forall j, k :: 0 <= j < k < n ==> sorted[j].partNumber < sorted[k].partNumber
    requires forall k :: 0 <= k < n ==> 1 <= sorted[k].partNumber <= n
    ensures forall k :: 0 <= k < n ==> sorted[k].partNumber == k + 1
  {
    forall k | 0 <= k < n ensures sorted[k].partNumber == k + 1 {
      AtLeast(sorted, k);
      AtMost(sorted, n, k);
    }
  }

  lemma {:induction false} AtLeast(sorted: seq<Part>, k: nat)
    requires k < |sorted|
    requires forall i, j :: 0 <= i < j < |sorted| ==> sorted[i].partNumber < sorted[j].partNumber
    requires sorted[0].partNumber >= 1
    ensures sorted[k].partNumber >= k + 1
  {
    if k > 0 { AtLeast(sorted, k - 1); }
  }

  lemma {:induction false} AtMost(sorted: seq<Part>, n: nat, k: nat)
    requires k < |sorted| == n
    requires forall i, j :: 0 <= i < j < n ==> sorted[i].partNumber < sorted[j].partNumber
    requires sorted[n - 1].partNumber <= n
    ensures sorted[k].partNumber <= k + 1
    decreases n - k
  {
    if k < n - 1 { AtMost(sorted, n, k + 1); }
  }

  /** Distinct numbers stay distinct under a permutation. */
  lemma DistinctSorted(parts: seq<Part>, sorted: seq<Part>)
    requires multiset(sorted) == multiset(parts) && Ascending(sorted)
    requires forall j, k :: 0 <= j < k < |parts| ==> parts[j].partNumber != parts[k].partNumber
    ensures forall j, k :: 0 <= j < k < |sorted| ==> sorted[j].partNumber < sorted[k].partNumber
  {
    PushedCount(parts);
    SortedSet(parts, sorted);
    assert |sorted| == |multiset(sorted)| == |multiset(parts)| == |parts|;
    forall j, k | 0 <= j < k < |sorted| ensures sorted[j].partNumber < sorted[k].partNumber {
      if sorted[j].partNumber == sorted[k].partNumber {
        var without := sorted[..k] + sorted[k + 1..];
        assert PushedSet(without) == PushedSet(sorted) by {
          forall x | x in PushedSet(sorted) ensures x in PushedSet(without) {
            var i :| 0 <= i < |sorted| && sorted[i].partNumber - 1 == x;
            var i' := if i < k then i else if i == k then j else i - 1;
            assert without[i'].partNumber - 1 == x;
          }
        }
        PushedSetSmall(without);
      }
    }
  }

  lemma SortedSet(parts: seq<Part>, sorted: seq<Part>)
    requires multiset(sorted) == multiset(parts)
    ensures PushedSet(sorted) == PushedSet(parts)
  {
    forall x | x in PushedSet(sorted) ensures x in PushedSet(parts) {
      var k :| 0 <= k < |sorted| && sorted[k].partNumber - 1 == x;
      assert sorted[k] in multiset(parts);
    }
    forall x | x in PushedSet(parts) ensures x in PushedSet(sorted) {
      var k :| 0 <= k < |parts| && parts[k].partNumber - 1 == x;
      assert parts[k] in multiset(sorted);
    }
  }

  lemma {:induction false} PushedSetSmall(parts: seq<Part>)
    ensures |PushedSet(parts)| <= |parts|
  {
    if parts == [] {
      assert PushedSet(parts) == {};
    } else {
      var last := |parts| - 1;
      PushedSetSmall(parts[..last]);
      PushedSetMore(parts[..last], parts[last]);
      assert parts == parts[..last] + [parts[last]];
    }
  }

  // ---- main results ----

  /** The list names parts 1..n, each stored under the listed tag with its slice of the file. */
  ghost predicate Complete(plan: Plan, stored: Stored, list: seq<Part>) {
    && |list| == plan.count
    && forall k :: 0 <= k < plan.count ==> Listed(plan, stored, list[k], k)
  }

  predicate Listed(plan: Plan, stored: Stored, p: Part, k: nat) {
    p.partNumber == k + 1 && p.etag != "" && k + 1 in stored && stored[k + 1] == (p.etag, Slice(plan, k))
  }

  /** Once all uploaders have returned, the sorted list they report is complete. */
  lemma CompleteWhenResolved(plan: Plan, s: Upload)
    requires Issued(plan) && Inv(plan, s) && |s.uploaders| == UploaderCount(plan) && Resolved(s)
    ensures Complete(plan, s.stored, SortParts(s.parts))
  {
    CountCovers(plan);
    AllPushed(plan, s);
    SortIsPermutation(s.parts);
    CompleteOnceSorted(plan, s, SortParts(s.parts));
  }

  /** Under every interleaving, the resolved upload's report is complete. */
  lemma ReportedPartsAreComplete(plan: Plan, es: seq<Event>)
    requires Issued(plan) && Resolved(After(plan, Begin(plan), es))
    ensures var s := After(plan, Begin(plan), es);
            Complete(plan, s.stored, SortParts(s.parts))
  {
    ReachedInv(plan, es);
    CompleteWhenResolved(plan, After(plan, Begin(plan), es));
  }

  lemma CompleteOnceSorted(plan: Plan, s: Upload, sorted: seq<Part>)
    requires PartsInv(plan, s) && s.next == plan.count == |s.parts|
    requires multiset(sorted) == multiset(s.parts) && Ascending(sorted)
    ensures Complete(plan, s.stored, sorted)
  {
    assert |sorted| == |multiset(sorted)| == |multiset(s.parts)| == |s.parts|;
    forall k | 0 <= k < |sorted|
      ensures StoredPart(plan, s, sorted[k])
    {
      assert sorted[k] in multiset(s.parts);
      var i :| 0 <= i < |s.parts| && s.parts[i] == sorted[k];
    }
    DistinctSorted(s.parts, sorted);
    CountedOut(sorted, plan.count);
  }

  /** The store accepts a list exactly if it holds every listed part under its tag and the numbers ascend strictly. */
  lemma {:induction false} AssembleIff(stored: Stored, parts: seq<Part>)
    ensures Assemble(stored, parts).Some? <==>
              && (forall k :: 0 <= k < |parts| ==>
                    parts[k].partNumber in stored && stored[parts[k].partNumber].0 == parts[k].etag)
              && (forall k :: 0 < k < |parts| ==> parts[k - 1].partNumber < parts[k].partNumber)
  {
    if parts != [] {
      var n := |parts| - 1;
      AssembleIff(stored, parts[..n]);
      assert forall k :: 0 <= k < n ==> parts[..n][k] == parts[k];
    }
  }

  lemma AssembleOneMore(stored: Stored, list: seq<Part>, n: nat, data: seq<Byte>)
    requires 0 < n <= |list| && Assemble(stored, list[..n - 1]) == Some(data)
    requires n > 1 ==> list[n - 2].partNumber < list[n - 1].partNumber
    requires list[n - 1].partNumber in stored && stored[list[n - 1].partNumber].0 == list[n - 1].etag
    ensures Assemble(stored, list[..n]) == Some(data + stored[list[n - 1].partNumber].1)
  {
    var front := list[..n];
    assert front[..n - 1] == list[..n - 1] && front[n - 1] == list[n - 1];
  }

  lemma {:induction false} AssembledPrefix(plan: Plan, stored: Stored, list: seq<Part>, n: nat)
    requires Issued(plan) && Complete(plan, stored, list) && n <= plan.count
    ensures Assemble(stored, list[..n]) == Some(plan.file[..ReachOf(plan, n)])
  {
    if n == 0 {
      CountCovers(plan);
    } else {
      AssembledPrefix(plan, stored, list, n - 1);
      assert Listed(plan, stored, list[n - 1], n - 1);
      assert n > 1 ==> Listed(plan, stored, list[n - 2], n - 2);
      AssembleOneMore(stored, list, n, plan.file[..ReachOf(plan, n - 1)]);
      SliceExtends(plan, n);
    }
  }

  lemma SliceExtends(plan: Plan, n: nat)
    requires Issued(plan) && 0 < n <= plan.count
    ensures plan.file[..ReachOf(plan, n - 1)] + Slice(plan, n - 1) == plan.file[..ReachOf(plan, n)]
  {
    SlicesMeet(plan, n - 1);
    StartsBelow(plan, n - 1);
    if n < plan.count { StartsBelow(plan, n); }
    var a, b := Start(plan, n - 1), End(plan, n - 1);
    assert plan.file[..a] + plan.file[a..b] == plan.file[..b];
  }

  /** A complete list joins to the file. */
  lemma CompleteJoinsToFile(plan: Plan, stored: Stored, list: seq<Part>)
    requires Issued(plan) && Complete(plan, stored, list)
    ensures Assemble(stored, list) == Some(plan.file)
  {
    AssembledPrefix(plan, stored, list, plan.count);
    assert list[..plan.count] == list;
    assert plan.file[..ReachOf(plan, plan.count)] == plan.file;
  }

  /** The multipart upload refines a plain copy: the assembled object is the file, byte for byte. */
  lemma AssembledIsFile(plan: Plan, es: seq<Event>)
    requires Issued(plan) && Resolved(After(plan, Begin(plan), es))
    ensures var s := After(plan, Begin(plan), es);
            Assemble(s.stored, SortParts(s.parts)) == Some(plan.file)
  {
    var s := After(plan, Begin(plan), es);
    ReportedPartsAreComplete(plan, es);
    CompleteJoinsToFile(plan, s.stored, SortParts(s.parts));
  }

  /** The uploaders have all returned exactly when every part is pushed; a failed PUT blocks both for good. */
  lemma ResolvedIffAllPushed(plan: Plan, es: seq<Event>)
    requires Issued(plan)
    ensures var s := After(plan, Begin(plan), es);
            Resolved(s) <==> |s.parts| == plan.count
  {
    ReachedInv(plan, es);
    CountCovers(plan);
    AllPushed(plan, After(plan, Begin(plan), es));
  }

  /** Reported progress never passes the file size, and reaches it exactly when all parts are in. */
  lemma ProgressReachesSizeAtEnd(plan: Plan, es: seq<Event>)
    requires Issued(plan)
    ensures var s := After(plan, Begin(plan), es);
            s.bytes <= |plan.file| && (s.bytes == |plan.file| <==> Resolved(s))
  {
    var s := After(plan, Begin(plan), es);
    ReachedInv(plan, es);
    CountCovers(plan);
    AllPushed(plan, s);
    BytesOfAll(plan, plan.count, Below(plan.count));
    var pushed := PushedSet(s.parts);
    BytesMonotone(plan, plan.count, pushed, Below(plan.count));
    if s.bytes == |plan.file| && |s.parts| != plan.count {
      FullWhenCounted(pushed, plan.count);
      var i :| i in Below(plan.count) && i !in pushed;
      BytesOfOneMore(plan, plan.count, pushed, i);
      SlicesMeet(plan, i);
      BytesMonotone(plan, plan.count, pushed + {i}, Below(plan.count));
    }
  }

  function InFlight(s: Upload): set<int> {
    set u | 0 <= u < |s.uploaders| && s.uploaders[u].Sending?
  }

  /** Over every run at most three PUTs are in flight, and no more than there are parts. */
  lemma AtMostThreeInFlight(plan: Plan, es: seq<Event>)
    ensures var s := After(plan, Begin(plan), es);
            |InFlight(s)| <= 3 && |InFlight(s)| <= plan.count && |s.uploaders| == if plan.count < 3 then plan.count else 3
  {
    var s := After(plan, Begin(plan), es);
    ReachedInv(plan, es);
    SubsetCount(InFlight(s), Below(|s.uploaders|));
  }

  /** A PUT that fails, or shows no tag, ends its uploader for good: nothing later resolves the upload. */
  lemma FailureIsFinal(plan: Plan, s: Upload, e: Event, es: seq<Event>)
    requires e.u < |s.uploaders| && s.uploaders[e.u].Sending? && (e.PutFailed? || e.etag == "")
    ensures !Resolved(After(plan, Step(plan, s, e), es)) && Step(plan, s, e).parts == s.parts
    ensures Step(plan, s, e).uploaders[e.u] == Failed(s.uploaders[e.u].index)
  {
    FailedStays(plan, Step(plan, s, e), e.u, es);
  }

  lemma {:induction false} FailedStays(plan: Plan, s: Upload, u: nat, es: seq<Event>)
    requires u < |s.uploaders| && s.uploaders[u].Failed?
    ensures var s' := After(plan, s, es);
            u < |s'.uploaders| && s'.uploaders[u] == s.uploaders[u]
    decreases |es|
  {
    if es != [] { FailedStays(plan, Step(plan, s, es[0]), u, es[1..]); }
  }

  /** No part is ever claimed twice: two PUTs in flight carry different indices, and none repeats a pushed part. */
  lemma ClaimedExactlyOnce(plan: Plan, es: seq<Event>, i: nat)
    ensures var s := After(plan, Begin(plan), es);
            && (i < s.next <==> Pushed(s, i) || exists u: nat :: Holds(s, u, i))
            && (Pushed(s, i) ==> forall u: nat :: !Holds(s, u, i))
            && forall u: nat, v: nat :: Holds(s, u, i) && Holds(s, v, i) ==> u == v
  {
    ReachedInv(plan, es);
  }
}
