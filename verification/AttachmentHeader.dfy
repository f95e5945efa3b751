/**
 The Content-Disposition header of a served file, from the stored title to the text on the
 wire, and the reader that takes both names out of it again.
 */
module AttachmentHeader {
  import opened Common
  import opened FileNames
  import opened Rfc5987

  const QUOTE: CodeUnit := 0x22
  const SLASH: CodeUnit := 0x2F

  /** A literal as code units. */
  function Ascii(s: string): (r: Text)
    requires forall i :: 0 <= i < |s| ==> s[i] as int < 0x80
    ensures |r| == |s| && forall i :: 0 <= i < |s| ==> r[i] == s[i] as int < 0x80
  {
    seq(|s|, i requires 0 <= i < |s| => s[i] as int)
  }

  function Opening(): Text { Ascii("attachment; filename=\"") }

  function Between(): Text { Ascii("\"; filename*=UTF-8''") }

  /** `createAttachmentDisposition`. */
  function CreateAttachmentDisposition(fileName: Text, nfkd: Text -> Text, standIn: Text): Result<Text, UriError> {
    var encoded := Encode(fileName);
    if encoded.Err? then encoded
    else Ok(Opening() + AsciiFallback(fileName, nfkd, standIn) + Between() + encoded.value)
  }

  /** Reads both names back: the quoted one up to the closing quote, the extended one by decoding. */
  function ReadDisposition(header: Text): Option<(Text, Text)> {
    ReadBetween(header, Opening(), Between())
  }

  function ReadBetween(header: Text, start: Text, middle: Text): Option<(Text, Text)> {
    if !(start <= header) then None
    else
      var rest := header[|start|..];
      var q := IndexOf(rest, QUOTE);
      if q < 0 || !(middle <= rest[q..]) then None
      else
        var name := Decode(rest[q + |middle|..]);
        if name.None? then None else Some((rest[..q], name.value))
  }

  lemma IndexOfQuote(fallback: Text, rest: Text)
    requires QuotedSafe(fallback) && rest != [] && rest[0] == QUOTE
    ensures IndexOf(fallback + rest, QUOTE) == |fallback|
  {
    var all := fallback + rest;
    assert all[|fallback|] == QUOTE;
    assert forall i :: 0 <= i < |fallback| ==> all[i] == fallback[i] && all[i] != QUOTE;
    var q := IndexOf(all, QUOTE);
    assert forall i :: 0 <= i < q ==> all[..q][i] == all[i];
  }

  lemma ReadsBack(start: Text, fallback: Text, middle: Text, encoded: Text)
    requires QuotedSafe(fallback) && middle != [] && middle[0] == QUOTE && Decode(encoded).Some?
    ensures ReadBetween(start + fallback + middle + encoded, start, middle) == Some((fallback, Decode(encoded).value))
  {
    var tail := middle + encoded;
    var header := start + fallback + middle + encoded;
    assert header == start + (fallback + tail);
    var rest := header[|start|..];
    assert rest == fallback + tail;
    IndexOfQuote(fallback, tail);
    assert rest[|fallback|..] == tail && rest[..|fallback|] == fallback;
    assert rest[|fallback| + |middle|..] == encoded;
  }

  /** Both names survive the header: no well-formed name can end the quoted string early or come back changed. */
  lemma HeaderRoundTrip(fileName: Text, nfkd: Text -> Text, standIn: Text)
    requires WellFormed(fileName) && QuotedSafe(standIn) && standIn != []
    ensures var header := CreateAttachmentDisposition(fileName, nfkd, standIn);
            header.Ok? && ReadDisposition(header.value) == Some((AsciiFallback(fileName, nfkd, standIn), fileName))
  {
    EncodeRoundTrip(fileName);
    FallbackIsSafe(fileName, nfkd, standIn);
    assert Between()[0] == QUOTE;
    ReadsBack(Opening(), AsciiFallback(fileName, nfkd, standIn), Between(), Encode(fileName).value);
  }

  // ---- the served file's name ----

  predicate IsSlash(u: CodeUnit) {
    u == SLASH
  }

  /** Where the last `/`-separated segment of `s` begins. */
  function SegmentStart(s: Text): (k: nat)
    ensures k <= |s| && (k > 0 ==> s[k - 1] == SLASH)
  {
    if s == [] || IsSlash(s[|s| - 1]) then |s| else SegmentStart(s[..|s| - 1])
  }

  /** `split('/').filter(Boolean).pop()`; empty if there is none. */
  function LastSegment(key: Text): Text {
    var trimmed := key[..LastKept(key, IsSlash)];
    trimmed[SegmentStart(trimmed)..]
  }

  const MP3: Text := [0x2E, 0x6D, 0x70, 0x33]
  const MP4: Text := [0x2E, 0x6D, 0x70, 0x34]
  const DOWNLOAD: Text := [0x64, 0x6F, 0x77, 0x6E, 0x6C, 0x6F, 0x61, 0x64]

  function PickName(safeTitle: Text, segment: Text, extension: Text): Text {
    if safeTitle != [] then safeTitle + extension
    else if segment != [] then segment
    else DOWNLOAD + extension
  }

  /** `createDownloadFileName`; `extension` is `.mp3` or `.mp4`. */
  function DownloadFileName(title: Text, key: Text, extension: Text): Text {
    PickName(Sanitize(title), LastSegment(key), extension)
  }

  // ---- which names the header accepts ----

  /** A slice of a well-formed text is well-formed exactly when it does not start or end inside a pair. */
  lemma SliceWellFormed(s: Text, lo: nat, hi: nat)
    requires WellFormed(s) && lo <= hi <= |s|
    ensures WellFormed(s[lo..hi]) <==> lo == hi || (!IsLow(s[lo]) && !IsHigh(s[hi - 1]))
  {
    var t := s[lo..hi];
    if lo < hi {
      assert t[0] == s[lo] && t[|t| - 1] == s[hi - 1];
      if !IsLow(s[lo]) && !IsHigh(s[hi - 1]) {
        forall i | 0 <= i < |t| && IsHigh(t[i]) ensures i + 1 < |t| && IsLow(t[i + 1]) {
          assert IsHigh(s[lo + i]) && IsLow(s[lo + i + 1]);
        }
        forall i | 0 <= i < |t| && IsLow(t[i]) ensures i > 0 && IsHigh(t[i - 1]) {
          assert IsLow(s[lo + i]) && IsHigh(s[lo + i - 1]);
        }
      }
    }
  }

  lemma ConcatWellFormed(a: Text, b: Text)
    requires WellFormed(b) && (b == [] || !IsLow(b[0]))
    ensures WellFormed(a + b) <==> WellFormed(a)
  {
    var s := a + b;
    if WellFormed(s) {
      SliceWellFormed(s, 0, |a|);
      assert s[0..|a|] == a;
      assert a != [] ==> s[|a| - 1] == a[|a| - 1];
      assert b != [] ==> s[|a|] == b[0];
    }
    if WellFormed(a) {
      forall i | 0 <= i < |s| && IsHigh(s[i]) ensures i + 1 < |s| && IsLow(s[i + 1]) {
        if i < |a| { assert IsHigh(a[i]); } else { assert IsHigh(b[i - |a|]) && IsLow(b[i - |a| + 1]); }
      }
      forall i | 0 <= i < |s| && IsLow(s[i]) ensures i > 0 && IsHigh(s[i - 1]) {
        if i < |a| { assert IsLow(a[i]); } else { assert IsLow(b[i - |a|]) && IsHigh(b[i - |a| - 1]); }
      }
    }
  }

  /** Well-formedness, read from left to right; `open` says that a high surrogate came just before. */
  predicate Pairs(s: Text, open: bool) {
    if s == [] then !open
    else if open then IsLow(s[0]) && Pairs(s[1..], false)
    else !IsLow(s[0]) && Pairs(s[1..], IsHigh(s[0]))
  }

  lemma {:induction false} PairsIffWellFormed(s: Text)
    ensures Pairs(s, false) <==> WellFormed(s)
  {
    if s != [] {
      if !IsHigh(s[0]) {
        PairsIffWellFormed(s[1..]);
        if !IsLow(s[0]) { ConsWellFormed(s); }
      } else if |s| > 1 && IsLow(s[1]) {
        PairsIffWellFormed(s[2..]);
        assert s[1..][1..] == s[2..];
        PairWellFormed(s);
      } else if |s| > 1 {
        assert s[1..][0] == s[1];
      }
    }
  }

  lemma ConsWellFormed(s: Text)
    requires s != [] && !IsHigh(s[0]) && !IsLow(s[0])
    ensures WellFormed(s) <==> WellFormed(s[1..])
  {
    assert s == s[..1] + s[1..];
    if WellFormed(s) {
      SliceWellFormed(s, 1, |s|);
      assert s[1..|s|] == s[1..];
    } else if WellFormed(s[1..]) {
      ConcatWellFormed(s[..1], s[1..]);
    }
  }

  lemma PairWellFormed(s: Text)
    requires |s| > 1 && IsHigh(s[0]) && IsLow(s[1])
    ensures WellFormed(s) <==> WellFormed(s[2..])
  {
    assert s == s[..2] + s[2..];
    if WellFormed(s) {
      SliceWellFormed(s, 2, |s|);
      assert s[2..|s|] == s[2..];
    } else if WellFormed(s[2..]) {
      ConcatWellFormed(s[..2], s[2..]);
    }
  }

  lemma {:induction false} CollapsePairs(s: Text, open: bool)
    requires Pairs(s, open)
    ensures Pairs(Collapse(s, IsSpace, SPACE), open)
  {
    if s != [] {
      CollapsePairs(s[1..], !open && IsHigh(s[0]));
      var rest := Collapse(s[1..], IsSpace, SPACE);
      assert ([s[0]] + rest)[1..] == rest && ([SPACE] + rest)[1..] == rest;
    }
  }

  lemma StripWellFormed(s: Text, edge: CodeUnit -> bool)
    requires WellFormed(s) && forall u: CodeUnit :: edge(u) ==> !IsHigh(u) && !IsLow(u)
    ensures WellFormed(Strip(s, edge))
  {
    StripIsSlice(s, edge);
    var lo, hi := StripFrom(s, edge), StripTo(s, edge);
    SliceWellFormed(s, lo, hi);
    assert lo > 0 ==> edge(s[lo - 1]);
    assert hi < |s| ==> s[hi] == s[lo..][hi - lo];
    assert hi < |s| ==> edge(s[hi]);
  }

  /** Before the cut, cleaning never separates a pair. */
  lemma BeforeCutWellFormed(title: Text)
    requires WellFormed(title)
    ensures WellFormed(BeforeCut(title))
  {
    var replaced := Replace(title, IsForbidden, SPACE);
    assert WellFormed(replaced) by {
      forall i | 0 <= i < |replaced| && IsHigh(replaced[i]) ensures i + 1 < |replaced| && IsLow(replaced[i + 1]) {
        assert IsHigh(title[i]) && IsLow(title[i + 1]);
      }
      forall i | 0 <= i < |replaced| && IsLow(replaced[i]) ensures i > 0 && IsHigh(replaced[i - 1]) {
        assert IsLow(title[i]) && IsHigh(title[i - 1]);
      }
    }
    PairsIffWellFormed(replaced);
    CollapsePairs(replaced, false);
    var collapsed := Collapse(replaced, IsSpace, SPACE);
    PairsIffWellFormed(collapsed);
    StripWellFormed(collapsed, IsSpace);
    StripWellFormed(Strip(collapsed, IsSpace), IsEdge);
  }

  /** The cut falls between the two units of a pair. */
  predicate CutsPair(title: Text) {
    |BeforeCut(title)| > MAX_TITLE && IsHigh(BeforeCut(title)[MAX_TITLE - 1])
  }

  lemma StripKeepsLast(s: Text, edge: CodeUnit -> bool)
    requires s != [] && !edge(s[|s| - 1])
    ensures Strip(s, edge) != [] && Strip(s, edge)[|Strip(s, edge)| - 1] == s[|s| - 1]
  {
    var k := FirstKept(s, edge);
    assert k < |s|;
    var rest := s[k..];
    assert rest[|rest| - 1] == s[|s| - 1];
  }

  lemma CutWellFormed(s: Text)
    requires WellFormed(s) && (|s| <= MAX_TITLE || !IsHigh(s[MAX_TITLE - 1]))
    ensures WellFormed(Cut(s))
  {
    SliceWellFormed(s, 0, |Cut(s)|);
    assert Cut(s) == s[0..|Cut(s)|];
    assert s != [] ==> !IsLow(s[0]);
    assert |s| <= MAX_TITLE ==> Cut(s) == s;
  }

  /** A well-formed title is sanitized to ill-formed text exactly when the 120-unit cut splits a pair. */
  lemma SanitizedWellFormedIff(title: Text)
    requires WellFormed(title)
    ensures WellFormed(Sanitize(title)) <==> !CutsPair(title)
  {
    var before := BeforeCut(title);
    var cut := Cut(before);
    BeforeCutWellFormed(title);
    if CutsPair(title) {
      StripKeepsLast(cut, IsSpace);
      StripKeepsLast(Strip(cut, IsSpace), IsEdge);
      var r := Sanitize(title);
      assert IsHigh(r[|r| - 1]);
    } else {
      CutWellFormed(before);
      StripWellFormed(cut, IsSpace);
      StripWellFormed(Strip(cut, IsSpace), IsEdge);
    }
  }

  lemma SegmentWellFormed(key: Text)
    requires WellFormed(key)
    ensures WellFormed(LastSegment(key))
  {
    var n := LastKept(key, IsSlash);
    var trimmed := key[..n];
    SliceWellFormed(key, 0, n);
    assert key[0..n] == trimmed;
    assert n > 0 && IsHigh(key[n - 1]) ==> IsLow(key[n]);
    assert n > 0 ==> !IsLow(key[0]);
    var k := SegmentStart(trimmed);
    SliceWellFormed(trimmed, k, |trimmed|);
    assert trimmed[k..|trimmed|] == trimmed[k..];
    assert k > 0 ==> trimmed[k - 1] == SLASH;
    assert n > 0 ==> !IsHigh(trimmed[n - 1]);
  }

  lemma BelowSurrogates(s: Text)
    requires forall u :: u in s ==> u < 0xD800
    ensures WellFormed(s) && (s != [] ==> !IsLow(s[0]))
  {
    forall i | 0 <= i < |s| ensures !IsHigh(s[i]) && !IsLow(s[i]) {
      assert s[i] in s;
    }
  }

  lemma PickedWellFormedIff(safeTitle: Text, segment: Text, extension: Text)
    requires WellFormed(segment) && extension != [] && forall u :: u in extension ==> u < 0xD800
    ensures WellFormed(PickName(safeTitle, segment, extension)) <==> WellFormed(safeTitle)
  {
    BelowSurrogates(extension);
    BelowSurrogates(DOWNLOAD);
    ConcatWellFormed(safeTitle, extension);
    ConcatWellFormed(DOWNLOAD, extension);
  }

  /**
   Serving a completed file: the header cannot be built, and the request ends in a URIError,
   exactly when the 120-unit cut of a stored title splits a surrogate pair.
   */
  lemma HeaderFailsIffCutsPair(title: Text, key: Text, extension: Text, nfkd: Text -> Text, standIn: Text)
    requires WellFormed(title) && WellFormed(key) && extension in {MP3, MP4}
    ensures CreateAttachmentDisposition(DownloadFileName(title, key, extension), nfkd, standIn).Err? <==> CutsPair(title)
  {
    SanitizedWellFormedIff(title);
    SegmentWellFormed(key);
    PickedWellFormedIff(Sanitize(title), LastSegment(key), extension);
    EncodeFailsIffIllFormed(DownloadFileName(title, key, extension));
  }

  /** 119 letters and then U+1F600. */
  predicate IsLettersThenEmoji(s: Text) {
    |s| == 121 && (forall i :: 0 <= i < 119 ==> s[i] == 0x61) && s[119] == 0xD83D && s[120] == 0xDE00
  }

  function LettersThenEmoji(): (r: Text)
    ensures IsLettersThenEmoji(r)
  {
    seq(119, i => 0x61) + [0xD83D, 0xDE00]
  }

  lemma EmojiIsPlain(s: Text, i: nat)
    requires IsLettersThenEmoji(s) && i < |s|
    ensures !IsForbidden(s[i]) && !IsSpace(s[i]) && s[i] != DOT
  {
    assert i < 119 || i == 119 || i == 120;
  }

  lemma EmojiPasses(s: Text)
    requires IsLettersThenEmoji(s)
    ensures WellFormed(s) && BeforeCut(s) == s
  {
    forall i | 0 <= i < |s| ensures !IsForbidden(s[i]) && !IsSpace(s[i]) && s[i] != DOT {
      EmojiIsPlain(s, i);
    }
    BarePlainPassesCleaning(s);
  }

  /** A concrete title that breaks its own download. */
  lemma LongTitleWithEmoji(key: Text, nfkd: Text -> Text, standIn: Text)
    requires WellFormed(key)
    ensures WellFormed(LettersThenEmoji())
    ensures CreateAttachmentDisposition(DownloadFileName(LettersThenEmoji(), key, MP4), nfkd, standIn).Err?
  {
    EmojiPasses(LettersThenEmoji());
    HeaderFailsIffCutsPair(LettersThenEmoji(), key, MP4, nfkd, standIn);
  }

  // ---- the subtitle file's name ----

  const EN_SRT: Text := [0x2E, 0x65, 0x6E, 0x2E, 0x73, 0x72, 0x74]
  const SUBTITLE: Text := [0x73, 0x75, 0x62, 0x74, 0x69, 0x74, 0x6C, 0x65]

  /** Where the last dot of `s` is; its length if there is none. */
  function LastDot(s: Text): (k: nat)
    ensures k <= |s| && (k < |s| ==> s[k] == DOT) && forall i :: k < i < |s| ==> s[i] != DOT
    ensures k == |s| ==> forall i :: 0 <= i < |s| ==> s[i] != DOT
  {
    if s == [] then 0
    else if s[|s| - 1] == DOT then |s| - 1
    else
      var k := LastDot(s[..|s| - 1]);
      if k == |s| - 1 then |s| else k
  }

  /** `replace(/\.[^.]+$/, '')`: a last dot goes with what follows it, unless nothing does. */
  function WithoutExtension(fileName: Text): Text {
    var k := LastDot(fileName);
    if k + 1 < |fileName| then fileName[..k] else fileName
  }

  function NameSubtitle(base: Text): Text {
    (if base != [] then base else SUBTITLE) + EN_SRT
  }

  /** `createSubtitleDownloadFileName`. */
  function SubtitleFileName(originalFileName: Text): Text {
    NameSubtitle(Sanitize(WithoutExtension(originalFileName)))
  }

  lemma WithoutExtensionWellFormed(fileName: Text)
    requires WellFormed(fileName)
    ensures WellFormed(WithoutExtension(fileName))
  {
    var k := LastDot(fileName);
    if k + 1 < |fileName| {
      SliceWellFormed(fileName, 0, k);
      assert fileName[0..k] == fileName[..k];
      assert k > 0 && IsHigh(fileName[k - 1]) ==> IsLow(fileName[k]);
      assert k > 0 ==> !IsLow(fileName[0]);
    }
  }

  lemma NamedWellFormedIff(base: Text)
    ensures WellFormed(NameSubtitle(base)) <==> WellFormed(base)
  {
    BelowSurrogates(SUBTITLE);
    BelowSurrogates(EN_SRT);
    ConcatWellFormed(SUBTITLE, EN_SRT);
    ConcatWellFormed(base, EN_SRT);
  }

  /**
   Serving a finished subtitle: the same cut breaks the same kind of name. The header cannot be
   built exactly when the 120-unit cut of the uploaded name without its extension splits a pair.
   */
  lemma SubtitleHeaderFailsIffCutsPair(originalFileName: Text, nfkd: Text -> Text, standIn: Text)
    requires WellFormed(originalFileName)
    ensures CreateAttachmentDisposition(SubtitleFileName(originalFileName), nfkd, standIn).Err?
            <==> CutsPair(WithoutExtension(originalFileName))
  {
    var base := WithoutExtension(originalFileName);
    WithoutExtensionWellFormed(originalFileName);
    SanitizedWellFormedIff(base);
    NamedWellFormedIff(Sanitize(base));
    EncodeFailsIffIllFormed(SubtitleFileName(originalFileName));
  }

  // ---- the names and the header, spelled out ----

  /** attr-char of section 3.2.1 of RFC 5987, and the hex digits of both cases. */
  lemma AttrCharSpelledOut(u: CodeUnit, d: nat)
    requires d < 16
    ensures IsAttrChar(u) <==> IsAlnum(u) || u in Ascii("!#$&+-.^_`|~")
    ensures HexDigit(d) == Ascii("0123456789ABCDEF")[d]
    ensures HexValue(HexDigit(d)) == d && HexValue(Ascii("0123456789abcdef")[d]) == d
  {
    var marks := Ascii("!#$&+-.^_`|~");
    assert marks[0] == 0x21 && marks[1] == 0x23 && marks[2] == 0x24 && marks[3] == 0x26 && marks[4] == 0x2B && marks[5] == 0x2D;
    assert marks[6] == 0x2E && marks[7] == 0x5E && marks[8] == 0x5F && marks[9] == 0x60 && marks[10] == 0x7C && marks[11] == 0x7E;
  }

  predicate NoSlash(s: Text) {
    forall i :: 0 <= i < |s| ==> s[i] != SLASH
  }

  lemma {:induction false} SegmentStartIs(s: Text, k: nat)
    requires k <= |s| && NoSlash(s[k..]) && (k > 0 ==> s[k - 1] == SLASH)
    ensures SegmentStart(s) == k
  {
    if k < |s| {
      assert s[|s| - 1] == s[k..][|s| - 1 - k];
      var init := s[..|s| - 1];
      assert forall i :: 0 <= i < |init[k..]| ==> init[k..][i] == s[k..][i];
      SegmentStartIs(init, k);
    }
  }

  /** The last segment of a key is what follows its last slash. */
  lemma LastSegmentIs(front: Text, tail: Text)
    requires tail != [] && NoSlash(tail) && (front == [] || front[|front| - 1] == SLASH)
    ensures LastSegment(front + tail) == tail
  {
    var key := front + tail;
    assert !IsSlash(key[|key| - 1]);
    assert key[..|key|] == key;
    assert key[|front|..] == tail;
    SegmentStartIs(key, |front|);
  }

  /** A file is called by its sanitized title; without one by the last segment of its key; without that, by a fixed name. */
  lemma DownloadNameIs(title: Text, front: Text, tail: Text, extension: Text)
    requires tail != [] && NoSlash(tail) && (front == [] || front[|front| - 1] == SLASH)
    ensures DownloadFileName(title, front + tail, extension)
            == if Sanitize(title) != [] then Sanitize(title) + extension else tail
    ensures Sanitize(title) == [] ==> DownloadFileName(title, [], extension) == DOWNLOAD + extension
  {
    LastSegmentIs(front, tail);
    assert LastSegment([]) == [];
  }

  /** The fixed texts, as the source spells them. */
  lemma SpelledOut()
    ensures DOWNLOAD == Ascii("download") && SUBTITLE == Ascii("subtitle")
    ensures MP3 == Ascii(".mp3") && MP4 == Ascii(".mp4") && EN_SRT == Ascii(".en.srt")
  {
  }

  /** The unit classes, as the source's regular expressions spell them. */
  lemma ClassesSpelledOut(u: CodeUnit)
    ensures IsForbidden(u) <==> u < 32 || u == 127 || u in Ascii("<>:\"/\\|?*")
    ensures BreaksQuoting(u) <==> u in Ascii("\"\\;")
    ensures IsFallbackEdge(u) <==> u in Ascii(". _")
    ensures IsEdge(u) <==> u in Ascii(". ")
    ensures NotPrintable(u) <==> u < 32 || u > 126
    ensures IsUnreserved(u) <==> IsAlnum(u) || u in Ascii("-_.!~") || IsMark(u)
    ensures IsMark(u) <==> u in Ascii("'()*")
    ensures IsAlnum(u) <==>
              '0' as int <= u <= '9' as int || 'A' as int <= u <= 'Z' as int || 'a' as int <= u <= 'z' as int
    ensures IsSpace(u) <==>
              9 <= u <= 13 || 8192 <= u <= 8202 || u in [32, 160, 5760, 8232, 8233, 8239, 8287, 12288, 65279]
  {
    var plain, marks := Ascii("-_.!~"), Ascii("'()*");
    assert plain[0] == 0x2D && plain[1] == 0x5F && plain[2] == 0x2E && plain[3] == 0x21 && plain[4] == 0x7E;
    assert marks[0] == 0x27 && marks[1] == 0x28 && marks[2] == 0x29 && marks[3] == 0x2A;
    var bad := Ascii("<>:\"/\\|?*");
    assert bad[0] == 0x3C && bad[1] == 0x3E && bad[2] == 0x3A && bad[3] == 0x22 && bad[4] == 0x2F && bad[5] == 0x5C;
    assert bad[6] == 0x7C && bad[7] == 0x3F && bad[8] == 0x2A;
    var quoting, edges := Ascii("\"\\;"), Ascii(". _");
    assert quoting[0] == 0x22 && quoting[1] == 0x5C && quoting[2] == 0x3B;
    assert edges[0] == 0x2E && edges[1] == 0x20 && edges[2] == 0x5F;
    assert Ascii(". ")[0] == 0x2E && Ascii(". ")[1] == 0x20;
  }

  predicate NoDot(s: Text) {
    forall i :: 0 <= i < |s| ==> s[i] != DOT
  }

  /** The extension is cut off where there is one: a last dot with something after it. */
  lemma WithoutExtensionIs(base: Text, extension: Text)
    requires NoDot(extension)
    ensures extension != [] ==> WithoutExtension(base + [DOT] + extension) == base
    ensures WithoutExtension(base + [DOT]) == base + [DOT]
    ensures WithoutExtension(extension) == extension
  {
    var name := base + [DOT] + extension;
    var k := LastDot(name);
    assert name[|base|] == DOT;
    assert forall i :: |base| < i < |name| ==> name[i] == extension[i - |base| - 1];
    assert k == |base|;
    assert name[..|base|] == base;
    var bare := base + [DOT];
    assert bare[|base|] == DOT;
    assert LastDot(bare) == |base|;
  }

  /** A subtitle is called by its source's sanitized name without the extension, or by a fixed one. */
  lemma SubtitleNameIs(originalFileName: Text)
    ensures SubtitleFileName(originalFileName)
            == (if Sanitize(WithoutExtension(originalFileName)) == [] then SUBTITLE
                else Sanitize(WithoutExtension(originalFileName))) + EN_SRT
  {
  }

  /** The text on the wire (section 4.1 of RFC 6266): an attachment, its quoted name, and its extended name in UTF-8. */
  lemma HeaderText(fileName: Text, nfkd: Text -> Text, standIn: Text)
    requires WellFormed(fileName)
    ensures Encode(fileName).Ok?
    ensures CreateAttachmentDisposition(fileName, nfkd, standIn)
            == Ok(Ascii("attachment; filename=\"") + AsciiFallback(fileName, nfkd, standIn)
                  + Ascii("\"; filename*=UTF-8''") + Encode(fileName).value)
  {
    EncodeFailsIffIllFormed(fileName);
  }
}
