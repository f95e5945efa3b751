/**
 Download file names over UTF-16 code units: the title sanitizer and the ASCII
 fallback of the Content-Disposition header.
 */
module FileNames {
  import opened Common

  type CodeUnit = u: int | 0 <= u < 0x1_0000
  type Text = seq<CodeUnit>

  const SPACE: CodeUnit := 0x20
  const DOT: CodeUnit := 0x2E
  const UNDERSCORE: CodeUnit := 0x5F
  const MAX_TITLE: nat := 120

  /** JavaScript's `\s`, which is also what `trim` removes. */
  predicate IsSpace(u: CodeUnit) {
    0x09 <= u <= 0x0D || u == 0x20 || u == 0xA0 || u == 0x1680 || 0x2000 <= u <= 0x200A
    || u == 0x2028 || u == 0x2029 || u == 0x202F || u == 0x205F || u == 0x3000 || u == 0xFEFF
  }

  /** `[<>:"/\\|?*\u0000-\u001f\u007f]`. */
  predicate IsForbidden(u: CodeUnit) {
    u <= 0x1F || u == 0x7F
    || u == 0x3C || u == 0x3E || u == 0x3A || u == 0x22 || u == 0x2F || u == 0x5C || u == 0x7C || u == 0x3F || u == 0x2A
  }

  /** `replace(/[...]/g, sub)`, one unit at a time. */
  function Replace(s: Text, bad: CodeUnit -> bool, sub: CodeUnit): (r: Text)
    ensures |r| == |s|
    ensures forall i :: 0 <= i < |s| ==> r[i] == if bad(s[i]) then sub else s[i]
  {
    if s == [] then [] else [if bad(s[0]) then sub else s[0]] + Replace(s[1..], bad, sub)
  }

  /** `replace(/x+/g, sub)`: every run becomes one unit. */
  function Collapse(s: Text, run: CodeUnit -> bool, sub: CodeUnit): Text {
    if s == [] then []
    else if !run(s[0]) then [s[0]] + Collapse(s[1..], run, sub)
    else if |s| > 1 && run(s[1]) then Collapse(s[1..], run, sub)
    else [sub] + Collapse(s[1..], run, sub)
  }

  /** Where the units outside `edge` begin, and where they end. */
  function FirstKept(s: Text, edge: CodeUnit -> bool): (k: nat)
    ensures k <= |s| && (k < |s| ==> !edge(s[k])) && (k > 0 ==> edge(s[k - 1]))
  {
    if s == [] || !edge(s[0]) then 0 else FirstKept(s[1..], edge) + 1
  }

  function LastKept(s: Text, edge: CodeUnit -> bool): (k: nat)
    ensures k <= |s| && (k > 0 ==> !edge(s[k - 1])) && (k < |s| ==> edge(s[k]))
  {
    if s == [] || !edge(s[|s| - 1]) then |s| else LastKept(s[..|s| - 1], edge)
  }

  /** `replace(/^[edge]+|[edge]+$/g, '')`; with white space as the edge, `trim`. */
  function Strip(s: Text, edge: CodeUnit -> bool): Text {
    var rest := s[FirstKept(s, edge)..];
    rest[..LastKept(rest, edge)]
  }

  predicate IsEdge(u: CodeUnit) {
    u == DOT || u == SPACE
  }

  /** Everything `sanitizeDownloadTitle` does before its cut. */
  function BeforeCut(title: Text): Text {
    Strip(Strip(Collapse(Replace(title, IsForbidden, SPACE), IsSpace, SPACE), IsSpace), IsEdge)
  }

  function Cut(s: Text): Text {
    if |s| > MAX_TITLE then s[..MAX_TITLE] else s
  }

  function AfterCut(s: Text): Text {
    Strip(Strip(s, IsSpace), IsEdge)
  }

  function Sanitize(title: Text): Text {
    AfterCut(Cut(BeforeCut(title)))
  }

  // ---- what a sanitized title is ----

  /** No forbidden unit, no white space but single spaces. */
  predicate Plain(s: Text) {
    && (forall i :: 0 <= i < |s| ==> !IsForbidden(s[i]) && (IsSpace(s[i]) ==> s[i] == SPACE))
    && (forall i :: 0 < i < |s| ==> !(s[i - 1] == SPACE && s[i] == SPACE))
  }

  /** Plain, short enough, and with no dot or space at either end. */
  predicate Clean(s: Text) {
    Plain(s) && |s| <= MAX_TITLE && (s != [] ==> !IsEdge(s[0]) && !IsEdge(s[|s| - 1]))
  }

  lemma {:induction false} CollapsedIsPlain(s: Text)
    requires forall i :: 0 <= i < |s| ==> IsForbidden(s[i]) ==> s[i] == SPACE
    requires forall i :: 0 <= i < |s| ==> !IsForbidden(s[i])
    ensures Plain(Collapse(s, IsSpace, SPACE))
    ensures var r := Collapse(s, IsSpace, SPACE);
            && (s == [] <==> r == []) && (s != [] ==> (r[0] == SPACE <==> IsSpace(s[0])))
  {
    if s != [] {
      CollapsedIsPlain(s[1..]);
      var rest := Collapse(s[1..], IsSpace, SPACE);
      if !IsSpace(s[0]) {
        PlainCons(s[0], rest);
      } else if |s| > 1 && IsSpace(s[1]) {
      } else {
        PlainCons(SPACE, rest);
      }
    }
  }

  lemma PlainCons(u: CodeUnit, rest: Text)
    requires Plain(rest) && !IsForbidden(u) && (IsSpace(u) ==> u == SPACE)
    requires rest == [] || !(u == SPACE && rest[0] == SPACE)
    ensures Plain([u] + rest)
  {
    var all := [u] + rest;
    forall i | 0 < i < |all| ensures !(all[i - 1] == SPACE && all[i] == SPACE) {
      assert i > 1 ==> all[i - 1] == rest[i - 2];
      assert all[i] == rest[i - 1];
    }
  }

  lemma PlainSlice(s: Text, lo: nat, hi: nat)
    requires Plain(s) && lo <= hi <= |s|
    ensures Plain(s[lo..hi])
  {
    var t := s[lo..hi];
    forall i | 0 < i < |t| ensures !(t[i - 1] == SPACE && t[i] == SPACE) {
      assert t[i - 1] == s[lo + i - 1] && t[i] == s[lo + i];
    }
  }

  /** A strip is a slice. */
  function StripFrom(s: Text, edge: CodeUnit -> bool): (lo: nat)
    ensures lo <= |s|
  {
    FirstKept(s, edge)
  }

  function StripTo(s: Text, edge: CodeUnit -> bool): (hi: nat)
    ensures StripFrom(s, edge) <= hi <= |s|
  {
    FirstKept(s, edge) + LastKept(s[FirstKept(s, edge)..], edge)
  }

  lemma StripIsSlice(s: Text, edge: CodeUnit -> bool)
    ensures var r := Strip(s, edge);
            r == s[StripFrom(s, edge)..StripTo(s, edge)] && (r != [] ==> !edge(r[0]) && !edge(r[|r| - 1]))
  {
  }

  lemma StripKeepsPlain(s: Text, edge: CodeUnit -> bool)
    requires Plain(s)
    ensures Plain(Strip(s, edge)) && |Strip(s, edge)| <= |s|
    ensures Strip(s, edge) != [] ==> !edge(Strip(s, edge)[0]) && !edge(Strip(s, edge)[|Strip(s, edge)| - 1])
  {
    StripIsSlice(s, edge);
    PlainSlice(s, StripFrom(s, edge), StripTo(s, edge));
  }

  lemma BeforeCutIsPlain(title: Text)
    ensures Plain(BeforeCut(title))
  {
    var replaced := Replace(title, IsForbidden, SPACE);
    forall i | 0 <= i < |replaced| ensures !IsForbidden(replaced[i]) {
      assert !IsForbidden(SPACE);
    }
    CollapsedIsPlain(replaced);
    var collapsed := Collapse(replaced, IsSpace, SPACE);
    StripKeepsPlain(collapsed, IsSpace);
    StripKeepsPlain(Strip(collapsed, IsSpace), IsEdge);
  }

  lemma AfterCutIsClean(s: Text)
    requires Plain(s) && |s| <= MAX_TITLE
    ensures Clean(AfterCut(s))
  {
    StripKeepsPlain(s, IsSpace);
    StripKeepsPlain(Strip(s, IsSpace), IsEdge);
  }

  /** Whatever the title, the sanitized one is clean. */
  lemma SanitizedIsClean(title: Text)
    ensures Clean(Sanitize(title))
  {
    var before := BeforeCut(title);
    BeforeCutIsPlain(title);
    PlainSlice(before, 0, |Cut(before)|);
    assert Cut(before) == before[0..|Cut(before)|];
    AfterCutIsClean(Cut(before));
  }

  lemma {:induction false} CollapseKeepsPlain(s: Text)
    requires Plain(s)
    ensures Collapse(s, IsSpace, SPACE) == s
  {
    if s != [] {
      PlainSlice(s, 1, |s|);
      assert s[1..|s|] == s[1..];
      CollapseKeepsPlain(s[1..]);
      assert !(s[0] == SPACE && |s| > 1 && s[1] == SPACE);
    }
  }

  lemma StripKeepsBare(s: Text, edge: CodeUnit -> bool)
    requires s == [] || (!edge(s[0]) && !edge(s[|s| - 1]))
    ensures Strip(s, edge) == s
  {
  }

  lemma BarePlainPassesCleaning(s: Text)
    requires Plain(s) && (s == [] || (!IsEdge(s[0]) && !IsEdge(s[|s| - 1])))
    ensures BeforeCut(s) == s && AfterCut(s) == s
  {
    assert Replace(s, IsForbidden, SPACE) == s;
    CollapseKeepsPlain(s);
    StripKeepsBare(s, IsSpace);
    StripKeepsBare(s, IsEdge);
  }

  /** The sanitizer leaves a title alone exactly when it is already clean. */
  lemma UnchangedIffClean(title: Text)
    ensures Sanitize(title) == title <==> Clean(title)
  {
    SanitizedIsClean(title);
    if Clean(title) {
      BarePlainPassesCleaning(title);
    }
  }

  /** Sanitizing twice is sanitizing once. */
  lemma SanitizeIdempotent(title: Text)
    ensures Sanitize(Sanitize(title)) == Sanitize(title)
  {
    SanitizedIsClean(title);
    UnchangedIffClean(Sanitize(title));
  }

  // ---- what it keeps ----

  /** The units outside `drop`, in order. */
  function Kept(s: Text, drop: CodeUnit -> bool): Text {
    if s == [] then [] else (if drop(s[0]) then [] else [s[0]]) + Kept(s[1..], drop)
  }

  predicate NoLetter(u: CodeUnit) {
    IsSpace(u) || IsForbidden(u)
  }

  /** The units that are neither white space nor forbidden, in order. */
  function Letters(s: Text): Text {
    Kept(s, NoLetter)
  }

  predicate IsDot(u: CodeUnit) {
    u == DOT
  }

  lemma {:induction false} KeptConcat(a: Text, b: Text, drop: CodeUnit -> bool)
    ensures Kept(a + b, drop) == Kept(a, drop) + Kept(b, drop)
  {
    if a == [] {
      assert a + b == b;
    } else {
      KeptConcat(a[1..], b, drop);
      assert (a + b)[1..] == a[1..] + b;
      Associates(if drop(a[0]) then [] else [a[0]], Kept(a[1..], drop), Kept(b, drop));
    }
  }

  /** Replacing dropped units by a dropped unit keeps the rest. */
  lemma {:induction false} KeptReplaced(s: Text, bad: CodeUnit -> bool, sub: CodeUnit, drop: CodeUnit -> bool)
    requires drop(sub) && forall u: CodeUnit :: bad(u) ==> drop(u)
    ensures Kept(Replace(s, bad, sub), drop) == Kept(s, drop)
  {
    if s != [] {
      KeptReplaced(s[1..], bad, sub, drop);
      assert Replace(s, bad, sub)[1..] == Replace(s[1..], bad, sub);
    }
  }

  lemma {:induction false} KeptCollapsed(s: Text, run: CodeUnit -> bool, sub: CodeUnit, drop: CodeUnit -> bool)
    requires drop(sub) && forall u: CodeUnit :: run(u) ==> drop(u)
    ensures Kept(Collapse(s, run, sub), drop) == Kept(s, drop)
  {
    if s != [] {
      KeptCollapsed(s[1..], run, sub, drop);
      var rest := Collapse(s[1..], run, sub);
      assert ([s[0]] + rest)[1..] == rest && ([sub] + rest)[1..] == rest;
    }
  }

  /** The edge set is the text's own dropped units and perhaps some kept ones, the `dots`. */
  ghost predicate Fits(s: Text, edge: CodeUnit -> bool, dots: CodeUnit -> bool, drop: CodeUnit -> bool) {
    && (forall u: CodeUnit :: edge(u) ==> drop(u) || dots(u))
    && (forall u: CodeUnit :: dots(u) ==> edge(u) && !drop(u))
    && forall i :: 0 <= i < |s| ==> (drop(s[i]) ==> edge(s[i]))
  }

  lemma FitsSlice(s: Text, lo: nat, hi: nat, edge: CodeUnit -> bool, dots: CodeUnit -> bool, drop: CodeUnit -> bool)
    requires Fits(s, edge, dots, drop) && lo <= hi <= |s|
    ensures Fits(s[lo..hi], edge, dots, drop)
  {
  }

  lemma DotsGoFirst(u: CodeUnit, rest: Text, dots: CodeUnit -> bool)
    requires dots(u)
    ensures ([u] + rest)[FirstKept([u] + rest, dots)..] == rest[FirstKept(rest, dots)..]
  {
    assert ([u] + rest)[1..] == rest;
  }

  /** Stripping dropped units, or dropped units and dots: what is left at the front. */
  lemma {:induction false} KeptFrom(s: Text, edge: CodeUnit -> bool, dots: CodeUnit -> bool, drop: CodeUnit -> bool)
    requires Fits(s, edge, dots, drop)
    ensures Kept(s[FirstKept(s, edge)..], drop) == Kept(s, drop)[FirstKept(Kept(s, drop), dots)..]
  {
    if s != [] && edge(s[0]) {
      FitsSlice(s, 1, |s|, edge, dots, drop);
      assert s[1..|s|] == s[1..];
      KeptFrom(s[1..], edge, dots, drop);
      assert s[FirstKept(s, edge)..] == s[1..][FirstKept(s[1..], edge)..];
      if drop(s[0]) {
        assert Kept(s, drop) == Kept(s[1..], drop);
      } else {
        DotsGoFirst(s[0], Kept(s[1..], drop), dots);
      }
    }
  }

  lemma KeptSnoc(s: Text, drop: CodeUnit -> bool)
    requires s != []
    ensures var n := |s| - 1;
            Kept(s, drop) == Kept(s[..n], drop) + if drop(s[n]) then [] else [s[n]]
  {
    var n := |s| - 1;
    assert s == s[..n] + [s[n]];
    KeptConcat(s[..n], [s[n]], drop);
    assert Kept([s[n]][1..], drop) == [];
  }

  lemma {:induction false} KeptTo(s: Text, edge: CodeUnit -> bool, dots: CodeUnit -> bool, drop: CodeUnit -> bool)
    requires Fits(s, edge, dots, drop)
    ensures Kept(s[..LastKept(s, edge)], drop) == Kept(s, drop)[..LastKept(Kept(s, drop), dots)]
  {
    if s != [] {
      var n := |s| - 1;
      KeptSnoc(s, drop);
      if edge(s[n]) {
        FitsSlice(s, 0, n, edge, dots, drop);
        assert s[0..n] == s[..n];
        KeptTo(s[..n], edge, dots, drop);
        assert s[..LastKept(s, edge)] == s[..n][..LastKept(s[..n], edge)];
        if !drop(s[n]) {
          assert Kept(s, drop)[..|Kept(s, drop)| - 1] == Kept(s[..n], drop);
        }
      } else {
        assert s[..|s|] == s;
        assert Kept(s, drop)[..|Kept(s, drop)|] == Kept(s, drop);
      }
    }
  }

  lemma KeptStripped(s: Text, edge: CodeUnit -> bool, dots: CodeUnit -> bool, drop: CodeUnit -> bool)
    requires Fits(s, edge, dots, drop)
    ensures Kept(Strip(s, edge), drop) == Strip(Kept(s, drop), dots)
  {
    var rest := s[FirstKept(s, edge)..];
    KeptFrom(s, edge, dots, drop);
    FitsSlice(s, FirstKept(s, edge), |s|, edge, dots, drop);
    assert s[FirstKept(s, edge)..|s|] == rest;
    KeptTo(rest, edge, dots, drop);
  }

  predicate Nothing(u: CodeUnit) {
    false
  }

  lemma {:induction false} StripNothing(s: Text)
    ensures Strip(s, Nothing) == s
  {
  }

  lemma LettersAfterCut(s: Text)
    requires Plain(s)
    ensures Letters(AfterCut(s)) == Strip(Letters(s), IsDot)
  {
    KeptStripped(s, IsSpace, Nothing, NoLetter);
    StripNothing(Letters(s));
    StripKeepsPlain(s, IsSpace);
    KeptStripped(Strip(s, IsSpace), IsEdge, IsDot, NoLetter);
  }

  /** Before the cut, a title loses its white space runs, its forbidden units and its outer dots, and nothing else. */
  lemma LettersBeforeCut(title: Text)
    ensures Letters(BeforeCut(title)) == Strip(Letters(title), IsDot)
  {
    var replaced := Replace(title, IsForbidden, SPACE);
    var collapsed := Collapse(replaced, IsSpace, SPACE);
    KeptReplaced(title, IsForbidden, SPACE, NoLetter);
    KeptCollapsed(replaced, IsSpace, SPACE, NoLetter);
    assert forall i :: 0 <= i < |replaced| ==> !IsForbidden(replaced[i]);
    CollapsedIsPlain(replaced);
    LettersAfterCut(collapsed);
  }

  /**
   The sanitized title keeps the title's letters in order: all of them but outer dots when the cleaned
   title fits, and otherwise those of its first 120 units.
   */
  lemma LettersKept(title: Text)
    ensures var before := BeforeCut(title);
            Letters(Sanitize(title))
            == if |before| <= MAX_TITLE then Strip(Letters(title), IsDot) else Strip(Letters(before[..MAX_TITLE]), IsDot)
  {
    var before := BeforeCut(title);
    BeforeCutIsPlain(title);
    LettersBeforeCut(title);
    var cut := Cut(before);
    PlainSlice(before, 0, |cut|);
    assert cut == before[0..|cut|];
    LettersAfterCut(cut);
    if |before| <= MAX_TITLE {
      assert cut == before;
      var letters := Strip(Letters(title), IsDot);
      StripIsSlice(Letters(title), IsDot);
      StripKeepsBare(letters, IsDot);
    }
  }

  // ---- the ASCII fallback ----

  predicate IsAlnum(u: CodeUnit) {
    0x30 <= u <= 0x39 || 0x41 <= u <= 0x5A || 0x61 <= u <= 0x7A
  }

  /** How many alphanumerics end the name. */
  function AlnumTail(s: Text): (n: nat)
    ensures n <= |s| && (forall i :: |s| - n <= i < |s| ==> IsAlnum(s[i]))
    ensures n < |s| ==> !IsAlnum(s[|s| - n - 1])
  {
    if s == [] || !IsAlnum(s[|s| - 1]) then 0 else AlnumTail(s[..|s| - 1]) + 1
  }

  /** Where `/\.[A-Za-z0-9]+$/` matches, or the end of the name. */
  function ExtensionStart(s: Text): (k: nat)
    ensures k <= |s|
  {
    var n := AlnumTail(s);
    if 0 < n < |s| && s[|s| - n - 1] == DOT then |s| - n - 1 else |s|
  }

  predicate NotPrintable(u: CodeUnit) {
    !(0x20 <= u <= 0x7E)
  }

  predicate BreaksQuoting(u: CodeUnit) {
    u == 0x22 || u == 0x5C || u == 0x3B
  }

  predicate IsUnderscore(u: CodeUnit) {
    u == UNDERSCORE
  }

  predicate IsFallbackEdge(u: CodeUnit) {
    u == DOT || u == SPACE || u == UNDERSCORE
  }

  /** `normalize('NFKD')` is any function `nfkd`; then everything outside quotable ASCII becomes an underscore. */
  function Quotable(base: Text, nfkd: Text -> Text): Text {
    Replace(Replace(nfkd(base), NotPrintable, UNDERSCORE), BreaksQuoting, UNDERSCORE)
  }

  function FallbackBase(base: Text, nfkd: Text -> Text): Text {
    Strip(Strip(Collapse(Quotable(base, nfkd), IsUnderscore, UNDERSCORE), IsFallbackEdge), IsSpace)
  }

  function AsciiFallback(fileName: Text, nfkd: Text -> Text, standIn: Text): Text {
    var k := ExtensionStart(fileName);
    var base := FallbackBase(fileName[..k], nfkd);
    (if base == [] then standIn else base) + fileName[k..]
  }

  /** Printable ASCII that neither ends nor escapes a quoted-string (section 2.2 of RFC 2616), and no semicolon. */
  predicate QuotedSafe(s: Text) {
    forall i :: 0 <= i < |s| ==> !NotPrintable(s[i]) && !BreaksQuoting(s[i])
  }

  lemma {:induction false} CollapseKeepsSafe(s: Text)
    requires QuotedSafe(s)
    ensures QuotedSafe(Collapse(s, IsUnderscore, UNDERSCORE))
  {
    if s != [] {
      CollapseKeepsSafe(s[1..]);
    }
  }

  lemma StripKeepsSafe(s: Text, edge: CodeUnit -> bool)
    requires QuotedSafe(s)
    ensures QuotedSafe(Strip(s, edge))
  {
    StripIsSlice(s, edge);
  }

  lemma QuotableIsSafe(base: Text, nfkd: Text -> Text)
    ensures QuotedSafe(Quotable(base, nfkd))
  {
    var printable := Replace(nfkd(base), NotPrintable, UNDERSCORE);
    assert forall i :: 0 <= i < |printable| ==> !NotPrintable(printable[i]);
    assert !NotPrintable(UNDERSCORE) && !BreaksQuoting(UNDERSCORE);
  }

  lemma FallbackBaseIsSafe(base: Text, nfkd: Text -> Text)
    ensures QuotedSafe(FallbackBase(base, nfkd))
  {
    QuotableIsSafe(base, nfkd);
    var quotable := Quotable(base, nfkd);
    CollapseKeepsSafe(quotable);
    var collapsed := Collapse(quotable, IsUnderscore, UNDERSCORE);
    StripKeepsSafe(collapsed, IsFallbackEdge);
    StripKeepsSafe(Strip(collapsed, IsFallbackEdge), IsSpace);
  }

  lemma ExtensionIsSafe(fileName: Text)
    ensures QuotedSafe(fileName[ExtensionStart(fileName)..])
  {
    var extension := fileName[ExtensionStart(fileName)..];
    forall i | 0 <= i < |extension| ensures extension[i] == DOT || IsAlnum(extension[i]) {
      assert extension[i] == fileName[ExtensionStart(fileName) + i];
    }
  }

  /** Whatever the name and whatever normalization does, the fallback is safe, not empty, and keeps the extension. */
  lemma FallbackIsSafe(fileName: Text, nfkd: Text -> Text, standIn: Text)
    requires QuotedSafe(standIn) && standIn != []
    ensures var r := AsciiFallback(fileName, nfkd, standIn);
            var extension := fileName[ExtensionStart(fileName)..];
            && QuotedSafe(r) && |r| > |extension| && r[|r| - |extension|..] == extension
  {
    FallbackBaseIsSafe(fileName[..ExtensionStart(fileName)], nfkd);
    ExtensionIsSafe(fileName);
  }

  // ---- what the fallback keeps ----

  /** The units the fallback cannot carry, and the underscore it writes for them. */
  predicate NoSign(u: CodeUnit) {
    NotPrintable(u) || BreaksQuoting(u) || u == UNDERSCORE
  }

  /** No two underscores in a row. */
  predicate SingleUnderscores(s: Text) {
    forall i :: 0 < i < |s| ==> !(s[i - 1] == UNDERSCORE && s[i] == UNDERSCORE)
  }

  predicate BareOf(s: Text, edge: CodeUnit -> bool) {
    s != [] ==> !edge(s[0]) && !edge(s[|s| - 1])
  }

  lemma SpaceIsEdge(u: CodeUnit)
    requires IsSpace(u) && !NotPrintable(u)
    ensures u == SPACE
  {
  }

  /** The final `trim` finds nothing left to do. */
  lemma TrimIdle(s: Text)
    requires QuotedSafe(s) && BareOf(s, IsFallbackEdge)
    ensures Strip(s, IsSpace) == s
  {
    StripKeepsBare(s, IsSpace);
  }

  lemma FallbackBaseShape(base: Text, nfkd: Text -> Text)
    ensures var collapsed := Collapse(Quotable(base, nfkd), IsUnderscore, UNDERSCORE);
            && QuotedSafe(collapsed) && FallbackBase(base, nfkd) == Strip(collapsed, IsFallbackEdge)
            && BareOf(FallbackBase(base, nfkd), IsFallbackEdge)
  {
    var quotable := Quotable(base, nfkd);
    QuotableIsSafe(base, nfkd);
    CollapseKeepsSafe(quotable);
    var collapsed := Collapse(quotable, IsUnderscore, UNDERSCORE);
    StripKeepsSafe(collapsed, IsFallbackEdge);
    StripIsSlice(collapsed, IsFallbackEdge);
    TrimIdle(Strip(collapsed, IsFallbackEdge));
  }

  /** The signs of the normalized base stay, in order, but for dots and spaces at its ends. */
  lemma FallbackKeepsSigns(base: Text, nfkd: Text -> Text)
    ensures Kept(FallbackBase(base, nfkd), NoSign) == Strip(Kept(nfkd(base), NoSign), IsEdge)
  {
    var printable := Replace(nfkd(base), NotPrintable, UNDERSCORE);
    var quotable := Quotable(base, nfkd);
    var collapsed := Collapse(quotable, IsUnderscore, UNDERSCORE);
    KeptReplaced(nfkd(base), NotPrintable, UNDERSCORE, NoSign);
    KeptReplaced(printable, BreaksQuoting, UNDERSCORE, NoSign);
    KeptCollapsed(quotable, IsUnderscore, UNDERSCORE, NoSign);
    FallbackBaseShape(base, nfkd);
    assert Fits(collapsed, IsFallbackEdge, IsEdge, NoSign);
    KeptStripped(collapsed, IsFallbackEdge, IsEdge, NoSign);
  }

  lemma {:induction false} NothingKept(s: Text, drop: CodeUnit -> bool, dots: CodeUnit -> bool)
    ensures Strip(Kept(s, drop), dots) == [] <==> forall i :: 0 <= i < |s| ==> drop(s[i]) || dots(s[i])
  {
    KeptMembers(s, drop);
    var k := Kept(s, drop);
    StripEmptyIff(k, dots);
    forall i | 0 <= i < |s| && !drop(s[i]) ensures s[i] in k {}
  }

  lemma {:induction false} KeptMembers(s: Text, drop: CodeUnit -> bool)
    ensures forall u :: u in Kept(s, drop) <==> u in s && !drop(u)
  {
    if s != [] {
      KeptMembers(s[1..], drop);
      assert s == [s[0]] + s[1..];
    }
  }

  lemma {:induction false} StripEmptyIff(s: Text, edge: CodeUnit -> bool)
    ensures Strip(s, edge) == [] <==> forall u :: u in s ==> edge(u)
  {
    var k := FirstKept(s, edge);
    FrontIsEdge(s, edge);
    if k < |s| {
      var rest := s[k..];
      assert rest[0] == s[k] && s[k] in s;
      if LastKept(rest, edge) == 0 {
        BackIsEdge(rest, edge);
        assert false;
      }
    } else {
      forall u | u in s ensures edge(u) {
        var i :| 0 <= i < |s| && s[i] == u;
      }
    }
  }

  lemma {:induction false} FrontIsEdge(s: Text, edge: CodeUnit -> bool)
    ensures forall i :: 0 <= i < FirstKept(s, edge) ==> edge(s[i])
  {
    if s != [] && edge(s[0]) {
      FrontIsEdge(s[1..], edge);
      forall i | 0 <= i < FirstKept(s, edge) ensures edge(s[i]) {
        if i > 0 { assert s[i] == s[1..][i - 1]; }
      }
    }
  }

  lemma {:induction false} BackIsEdge(s: Text, edge: CodeUnit -> bool)
    ensures forall i :: LastKept(s, edge) <= i < |s| ==> edge(s[i])
  {
    if s != [] && edge(s[|s| - 1]) { BackIsEdge(s[..|s| - 1], edge); }
  }

  /** The stand-in is used exactly if the normalized base holds nothing but dots, spaces, underscores and what cannot be carried. */
  lemma StandInIff(base: Text, nfkd: Text -> Text)
    ensures FallbackBase(base, nfkd) == [] <==>
              forall i :: 0 <= i < |nfkd(base)| ==> NoSign(nfkd(base)[i]) || IsEdge(nfkd(base)[i])
  {
    FallbackKeepsSigns(base, nfkd);
    NothingKept(nfkd(base), NoSign, IsEdge);
    FallbackBaseShape(base, nfkd);
    KeptMembers(FallbackBase(base, nfkd), NoSign);
    if FallbackBase(base, nfkd) != [] {
      assert FallbackBase(base, nfkd)[0] in FallbackBase(base, nfkd);
      assert !NoSign(FallbackBase(base, nfkd)[0]);
    }
  }

  lemma {:induction false} CollapseIdle(s: Text)
    requires SingleUnderscores(s)
    ensures Collapse(s, IsUnderscore, UNDERSCORE) == s
  {
    if s != [] {
      assert forall i :: 0 <= i < |s[1..]| ==> s[1..][i] == s[i + 1];
      CollapseIdle(s[1..]);
      assert |s| > 1 ==> s[1] == s[0 + 1];
    }
  }

  lemma {:induction false} CollapsedHasSingles(s: Text)
    ensures var r := Collapse(s, IsUnderscore, UNDERSCORE);
            SingleUnderscores(r) && (r == [] <==> s == []) && (s != [] ==> (r[0] == UNDERSCORE <==> s[0] == UNDERSCORE))
  {
    if s != [] {
      CollapsedHasSingles(s[1..]);
      var rest := Collapse(s[1..], IsUnderscore, UNDERSCORE);
      var r := Collapse(s, IsUnderscore, UNDERSCORE);
      if !(s[0] == UNDERSCORE && |s| > 1 && s[1] == UNDERSCORE) {
        assert r == [s[0]] + rest;
        forall i | 0 < i < |r| ensures !(r[i - 1] == UNDERSCORE && r[i] == UNDERSCORE) {
          assert r[i] == rest[i - 1];
          assert i > 1 ==> r[i - 1] == rest[i - 2];
        }
      }
    }
  }

  lemma SinglesSlice(s: Text, lo: nat, hi: nat)
    requires SingleUnderscores(s) && lo <= hi <= |s|
    ensures SingleUnderscores(s[lo..hi])
  {
    var t := s[lo..hi];
    forall i | 0 < i < |t| ensures !(t[i - 1] == UNDERSCORE && t[i] == UNDERSCORE) {
      assert t[i - 1] == s[lo + i - 1] && t[i] == s[lo + i];
    }
  }

  /** The fallback's base is the normalized base itself exactly if that is safe, has single underscores, and is bare at its ends. */
  lemma FallbackUnchangedIff(base: Text, nfkd: Text -> Text)
    ensures FallbackBase(base, nfkd) == nfkd(base) <==>
              QuotedSafe(nfkd(base)) && SingleUnderscores(nfkd(base)) && BareOf(nfkd(base), IsFallbackEdge)
  {
    var t := nfkd(base);
    var collapsed := Collapse(Quotable(base, nfkd), IsUnderscore, UNDERSCORE);
    FallbackBaseShape(base, nfkd);
    CollapsedHasSingles(Quotable(base, nfkd));
    StripIsSlice(collapsed, IsFallbackEdge);
    SinglesSlice(collapsed, StripFrom(collapsed, IsFallbackEdge), StripTo(collapsed, IsFallbackEdge));
    StripKeepsSafe(collapsed, IsFallbackEdge);
    if QuotedSafe(t) && SingleUnderscores(t) && BareOf(t, IsFallbackEdge) {
      assert Replace(t, NotPrintable, UNDERSCORE) == t;
      assert Replace(t, BreaksQuoting, UNDERSCORE) == t;
      CollapseIdle(t);
      StripKeepsBare(t, IsFallbackEdge);
    }
  }

  // ---- the extension ----

  /** `s[k..]` is a dot and then one or more alphanumerics. */
  predicate IsExtensionAt(s: Text, k: nat) {
    k + 1 < |s| && s[k] == DOT && forall i :: k < i < |s| ==> IsAlnum(s[i])
  }

  /** The extension is found exactly where there is one, and there is at most one. */
  lemma ExtensionFound(fileName: Text, k: nat)
    ensures IsExtensionAt(fileName, k) <==> k == ExtensionStart(fileName) && k < |fileName|
  {
    var n := AlnumTail(fileName);
    if IsExtensionAt(fileName, k) {
      assert !IsAlnum(DOT);
      assert n < |fileName| ==> !IsAlnum(fileName[|fileName| - n - 1]);
      assert k == |fileName| - n - 1;
    }
  }

  /** So a plain ASCII file name is its own fallback, whatever it is called. */
  lemma PlainNameUnchanged(fileName: Text, nfkd: Text -> Text, standIn: Text)
    requires var base := fileName[..ExtensionStart(fileName)];
             base != [] && nfkd(base) == base && QuotedSafe(base) && SingleUnderscores(base) && BareOf(base, IsFallbackEdge)
    ensures AsciiFallback(fileName, nfkd, standIn) == fileName
  {
    FallbackUnchangedIff(fileName[..ExtensionStart(fileName)], nfkd);
  }
}
