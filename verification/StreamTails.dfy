/**
 Two streaming tails as refinements of "the end of the whole output": the worker's
 character tail and the yt-dlp runner's twelve-line tail.
 */
module StreamTails {
  import opened Common

  const DIAGNOSTIC_TAIL_LINES: nat := 12

  /** The last `n` elements, or all of them. */
  function LastN<T>(s: seq<T>, n: nat): seq<T> {
    if |s| <= n then s else s[|s| - n..]
  }

  /** Trimming early changes nothing that trimming late would keep. */
  lemma LastNAbsorbs<T>(s: seq<T>, t: seq<T>, n: nat)
    ensures LastN(LastN(s, n) + t, n) == LastN(s + t, n)
  {
  }

  function Concat<T>(parts: seq<seq<T>>): seq<T> {
    if parts == [] then [] else Concat(parts[..|parts| - 1]) + parts[|parts| - 1]
  }

  // ---- the character tail ----

  /** `s.slice(start)`: a negative start counts from the end. */
  function SliceFrom(s: string, start: int): string {
    if start >= |s| then ""
    else if start >= 0 then s[start..]
    else if -start >= |s| then s
    else s[|s| + start..]
  }

  /** A start below zero counts from the end, and both ends clamp. */
  lemma SliceFromIs(s: string, start: int)
    ensures var k := if start < 0 then (if |s| + start < 0 then 0 else |s| + start) else if start < |s| then start else |s|;
            SliceFrom(s, start) == s[k..]
  {
  }

  function AppendProcessOutputTail(current: string, chunk: string, maxCharacters: int): string {
    var combined := current + chunk;
    if |combined| <= maxCharacters then combined else SliceFrom(combined, -maxCharacters)
  }

  function OutputTail(chunks: seq<string>, maxCharacters: int): string {
    if chunks == [] then ""
    else AppendProcessOutputTail(OutputTail(chunks[..|chunks| - 1], maxCharacters), chunks[|chunks| - 1], maxCharacters)
  }

  /** However the output is chunked, the tail is the last `max` characters of all of it. */
  lemma {:induction false} TailIsSuffix(chunks: seq<string>, max: int)
    requires max > 0
    ensures OutputTail(chunks, max) == LastN(Concat(chunks), max)
  {
    if chunks != [] {
      var n := |chunks| - 1;
      TailIsSuffix(chunks[..n], max);
      LastNAbsorbs(Concat(chunks[..n]), chunks[n], max);
    }
  }

  /** A limit of zero keeps everything: `slice(-0)` is the whole string. */
  lemma {:induction false} ZeroKeepsAll(chunks: seq<string>)
    ensures OutputTail(chunks, 0) == Concat(chunks)
  {
    if chunks != [] { ZeroKeepsAll(chunks[..|chunks| - 1]); }
  }

  /** The suffix reading is right for every output exactly when the limit is positive. */
  lemma SuffixIffPositive(max: int)
    ensures (forall chunks :: OutputTail(chunks, max) == LastN(Concat(chunks), if max > 0 then max else 0)) <==> max > 0
  {
    if max > 0 {
      forall chunks: seq<string> ensures OutputTail(chunks, max) == LastN(Concat(chunks), max) {
        TailIsSuffix(chunks, max);
      }
    } else {
      var long := seq(1 - max, i => 'x');
      var one: seq<string> := [long];
      assert one[..0] == [] && Concat(one[..0]) == [] && OutputTail(one[..0], max) == "";
      assert "" + long == long && Concat(one) == long;
      assert OutputTail(one, max) == AppendProcessOutputTail("", long, max) == SliceFrom(long, -max) != "";
      assert LastN(Concat(one), 0) == [];
    }
  }

  /** Re-chunking the same output never changes the tail. */
  lemma RechunkingKeepsTail(a: seq<string>, b: seq<string>, max: int)
    requires max >= 0 && Concat(a) == Concat(b)
    ensures OutputTail(a, max) == OutputTail(b, max)
  {
    if max == 0 {
      ZeroKeepsAll(a);
      ZeroKeepsAll(b);
    } else {
      TailIsSuffix(a, max);
      TailIsSuffix(b, max);
    }
  }

  // ---- the line tail ----

  /** Puts a character in front of the first line. */
  function Prepend(c: char, lines: seq<string>): (r: seq<string>)
    requires lines != []
    ensures r != []
  {
    [[c] + lines[0]] + lines[1..]
  }

  /** `split(/\r?\n/)`. */
  function Split(s: string): (r: seq<string>)
    ensures r != []
  {
    if s == "" then [""]
    else if |s| > 1 && s[0] == '\r' && s[1] == '\n' then [""] + Split(s[2..])
    else if s[0] == '\n' then [""] + Split(s[1..])
    else Prepend(s[0], Split(s[1..]))
  }

  /** `split(/\r?\n/).filter(Boolean)`. */
  function LinesOf(chunk: string): seq<string> {
    Without(Split(chunk), {""})
  }

  /** The lines of every chunk, one chunk after another. */
  function AllLines(chunks: seq<string>): seq<string> {
    if chunks == [] then [] else AllLines(chunks[..|chunks| - 1]) + LinesOf(chunks[|chunks| - 1])
  }

  /** However a stream's chunks are grouped, its lines are those of one group after those of the other. */
  lemma {:induction false} AllLinesConcat(a: seq<string>, b: seq<string>)
    ensures AllLines(a + b) == AllLines(a) + AllLines(b)
    ensures |b| == 1 ==> AllLines(b) == LinesOf(b[0])
  {
    if b == [] {
      assert a + b == a;
    } else {
      var n := |b| - 1;
      AllLinesConcat(a, b[..n]);
      assert (a + b)[..|a + b| - 1] == a + b[..n];
      Associates(AllLines(a), AllLines(b[..n]), LinesOf(b[n]));
    }
  }

  /** The collector of one stream: its `lines` array is pushed to and spliced in place. */
  class StreamTail {
    var lines: seq<string>
    ghost var seen: seq<string>

    ghost predicate Valid()
      reads this
    {
      lines == LastN(AllLines(seen), DIAGNOSTIC_TAIL_LINES)
    }

    constructor ()
      ensures Valid() && seen == [] && lines == []
    {
      lines, seen := [], [];
    }

    /** The `data` handler. */
    method OnData(chunk: string)
      requires Valid()
      modifies this
      ensures Valid() && seen == old(seen) + [chunk]
    {
      var chunkLines := LinesOf(chunk);
      LastNAbsorbs(AllLines(seen), chunkLines, DIAGNOSTIC_TAIL_LINES);
      lines := lines + chunkLines;
      if |lines| > DIAGNOSTIC_TAIL_LINES {
        lines := lines[|lines| - DIAGNOSTIC_TAIL_LINES..];
      }
      seen := seen + [chunk];
      assert seen[..|seen| - 1] == old(seen);
    }
  }

  /** Joins two lists of lines: the last line of the first runs on into the first line of the second. */
  function Glue(a: seq<string>, b: seq<string>): (r: seq<string>)
    requires a != [] && b != []
    ensures r != []
  {
    a[..|a| - 1] + [a[|a| - 1] + b[0]] + b[1..]
  }

  lemma GluePrepend(c: char, a: seq<string>, b: seq<string>)
    requires a != [] && b != []
    ensures Glue(Prepend(c, a), b) == Prepend(c, Glue(a, b))
  {
    var l, r := Glue(Prepend(c, a), b), Prepend(c, Glue(a, b));
    if |a| == 1 {
      assert ([c] + a[0]) + b[0] == [c] + (a[0] + b[0]);
    }
    forall i | 0 <= i < |l| ensures l[i] == r[i] {}
  }

  lemma GlueEmptyLine(a: seq<string>, b: seq<string>)
    requires a != [] && b != []
    ensures Glue([""] + a, b) == [""] + Glue(a, b)
  {
    var l, r := Glue([""] + a, b), [""] + Glue(a, b);
    forall i | 0 <= i < |l| ensures l[i] == r[i] {}
  }

  /** The line a chunk leaves open. */
  function OpenLine(lines: seq<string>): string
    requires lines != []
  {
    lines[|lines| - 1]
  }

  /** A carriage return that ends one chunk and the newline that starts the next belong together. */
  predicate CutsCrLf(a: string, b: string) {
    a != "" && b != "" && a[|a| - 1] == '\r' && b[0] == '\n'
  }

  predicate StartsCrLf(s: string) {
    |s| > 1 && s[0] == '\r' && s[1] == '\n'
  }

  lemma SplitStep(s: string)
    requires s != ""
    ensures StartsCrLf(s) ==> Split(s) == [""] + Split(s[2..])
    ensures s[0] == '\n' ==> Split(s) == [""] + Split(s[1..])
    ensures s[0] != '\n' && !StartsCrLf(s) ==> Split(s) == Prepend(s[0], Split(s[1..]))
  {
  }

  lemma JoinedStart(a: string, b: string)
    requires a != "" && !CutsCrLf(a, b)
    ensures (a + b)[0] == a[0] && (StartsCrLf(a + b) <==> StartsCrLf(a))
    ensures (a + b)[1..] == a[1..] + b && (|a| > 1 ==> (a + b)[2..] == a[2..] + b)
  {
    assert |a| > 1 ==> (a + b)[1] == a[1];
    assert |a| == 1 && b != "" ==> (a + b)[1] == b[0];
  }

  /** Splitting a joined pair glues the two lists of lines. */
  lemma {:induction false} SplitJoined(a: string, b: string)
    requires !CutsCrLf(a, b)
    ensures Split(a + b) == Glue(Split(a), Split(b))
  {
    if a == "" {
      assert a + b == b;
      assert "" + Split(b)[0] == Split(b)[0];
    } else {
      SplitStep(a);
      SplitStep(a + b);
      JoinedStart(a, b);
      if StartsCrLf(a) {
        SplitJoined(a[2..], b);
        GlueEmptyLine(Split(a[2..]), Split(b));
      } else {
        SplitJoined(a[1..], b);
        if a[0] == '\n' {
          GlueEmptyLine(Split(a[1..]), Split(b));
        } else {
          GluePrepend(a[0], Split(a[1..]), Split(b));
        }
      }
    }
  }

  /** A cut between CR and LF is the cut one character earlier. */
  lemma {:induction false} OpenLineAfterCr(a: string)
    requires a != "" && a[|a| - 1] == '\r'
    ensures OpenLine(Split(a)) == OpenLine(Split(a[..|a| - 1])) + "\r"
    ensures Split(a)[..|Split(a)| - 1] == Split(a[..|a| - 1])[..|Split(a[..|a| - 1])| - 1]
  {
    var front := a[..|a| - 1];
    assert a == front + "\r";
    SplitJoined(front, "\r");
    SplitStep("\r");
    assert "\r"[1..] == "" && ['\r'] + "" == "\r";
    assert Split("\r") == ["\r"];
  }

  lemma {:induction false} OpenLineEmptyIff(a: string)
    ensures OpenLine(Split(a)) == "" <==> a == "" || a[|a| - 1] == '\n'
  {
    if a != "" {
      SplitStep(a);
      if StartsCrLf(a) {
        OpenLineEmptyIff(a[2..]);
      } else {
        OpenLineEmptyIff(a[1..]);
      }
    }
  }

  /** The second chunk starts with a line end of its own. */
  predicate StartsWithLineEnd(b: string) {
    b != "" && (b[0] == '\n' || StartsCrLf(b))
  }

  /** What is kept of a glued list: the closed lines, the glued one, and the rest. */
  lemma WithoutGlued(a: seq<string>, b: seq<string>)
    requires a != [] && b != []
    ensures var x, y := Without(a[..|a| - 1], {""}), Without(b[1..], {""});
            && Without(Glue(a, b), {""}) == x + Without([OpenLine(a) + b[0]], {""}) + y
            && Without(a, {""}) + Without(b, {""}) == x + (Without([OpenLine(a)], {""}) + Without([b[0]], {""})) + y
  {
    var closed, rest := a[..|a| - 1], b[1..];
    var x, y := Without(closed, {""}), Without(rest, {""});
    var l, f := OpenLine(a), b[0];
    WithoutConcat(closed + [l + f], rest, {""});
    WithoutConcat(closed, [l + f], {""});
    assert a == closed + [l] && b == [f] + rest;
    WithoutConcat(closed, [l], {""});
    WithoutConcat([f], rest, {""});
    RegroupFour(x, Without([l], {""}), Without([f], {""}), y);
  }

  lemma RegroupFour<T>(x: seq<T>, p: seq<T>, q: seq<T>, y: seq<T>)
    ensures (x + p) + (q + y) == x + (p + q) + y
  {
    Associates(x + p, q, y);
    Associates(x, p, q);
  }

  /**
   The line tail depends on chunking. Cutting an output in two keeps its lines exactly when an end
   is empty, or the cut is at a line end and does not separate a CR from its LF.
   */
  lemma CutKeepsLinesIff(a: string, b: string)
    ensures LinesOf(a + b) == LinesOf(a) + LinesOf(b)
            <==> a == "" || b == "" || a[|a| - 1] == '\n' || (StartsWithLineEnd(b) && !CutsCrLf(a, b))
  {
    if CutsCrLf(a, b) {
      CutCrLfChangesLines(a, b);
    } else {
      var l, f := OpenLine(Split(a)), Split(b)[0];
      SplitJoined(a, b);
      OpenLineEmptyIff(a);
      FirstLineEmptyIff(b);
      WithoutGlued(Split(a), Split(b));
      MiddleDecides(Without(Split(a)[..|Split(a)| - 1], {""}), Without([l + f], {""}),
                    Without([l], {""}) + Without([f], {""}), Without(Split(b)[1..], {""}));
      KeptOneOrTwo(l, f);
    }
  }

  lemma FirstLineEmptyIff(b: string)
    ensures Split(b)[0] == "" <==> b == "" || StartsWithLineEnd(b)
  {
    if b != "" { SplitStep(b); }
  }

  /** Two non-empty pieces of one line count as two; otherwise nothing is lost. */
  lemma KeptOneOrTwo(l: string, f: string)
    ensures Without([l + f], {""}) == Without([l], {""}) + Without([f], {""}) <==> l == "" || f == ""
  {
    assert l == "" ==> l + f == f;
    assert f == "" ==> l + f == l;
    assert Without<string>([], {""}) == [];
  }

  lemma CutCrLfChangesLines(a: string, b: string)
    requires CutsCrLf(a, b)
    ensures LinesOf(a + b) != LinesOf(a) + LinesOf(b)
  {
    var front := a[..|a| - 1];
    var tail := "\r" + b;
    assert a + b == front + tail;
    SplitJoined(front, tail);
    SplitStep(tail);
    SplitStep(b);
    assert tail[2..] == b[1..] && Split(tail)[1..] == Split(b[1..]) == Split(b)[1..];
    OpenLineAfterCr(a);
    var l := OpenLine(Split(front));
    WithoutGlued(Split(front), Split(tail));
    WithoutGlued(Split(a), Split(b));
    assert l + "" == l;
    MiddleDecides(Without(Split(front)[..|Split(front)| - 1], {""}), Without([l], {""}),
                  Without([l + "\r"], {""}) + Without([""], {""}), Without(Split(b)[1..], {""}));
    assert Without<string>([], {""}) == [];
    assert Without([""], {""}) == [] && Without([l + "\r"], {""}) == [l + "\r"];
    assert |l + "\r"| == |l| + 1;
  }

  lemma MiddleDecides<T>(x: seq<T>, p: seq<T>, q: seq<T>, y: seq<T>)
    ensures x + p + y == x + q + y <==> p == q
  {
    if x + p + y == x + q + y {
      assert |p| == |q|;
      forall i | 0 <= i < |p| ensures p[i] == q[i] {
        assert (x + p + y)[|x| + i] == p[i] && (x + q + y)[|x| + i] == q[i];
      }
    }
  }
}
