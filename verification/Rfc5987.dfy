/**
 The `filename*` encoder of the Content-Disposition header (section 3.2 of RFC 5987):
 `encodeURIComponent` followed by escaping `'()*`, over UTF-16 code units, with its decoder.
 The encoder throws on a lone surrogate.
 */
module Rfc5987 {
  import opened Common
  import opened FileNames

  type CodePoint = c: int | 0 <= c < 0x11_0000
  type Octet = b: int | 0 <= b < 0x100

  datatype UriError = MalformedUri

  // ---- code units and code points ----

  predicate IsHigh(u: CodeUnit) {
    0xD800 <= u <= 0xDBFF
  }

  predicate IsLow(u: CodeUnit) {
    0xDC00 <= u <= 0xDFFF
  }

  /** How many units the code point at the start takes: 0 for a lone surrogate. */
  function Width(s: Text): (n: nat)
    requires s != []
    ensures n <= |s| && n <= 2
  {
    if IsLow(s[0]) then 0
    else if !IsHigh(s[0]) then 1
    else if |s| > 1 && IsLow(s[1]) then 2
    else 0
  }

  /** The code point at the start. */
  function CodePointAt(s: Text): CodePoint
    requires s != [] && Width(s) > 0
  {
    var high: int := s[0];
    if Width(s) == 1 then high
    else
      var low: int := s[1];
      0x1_0000 + (high - 0xD800) * 0x400 + (low - 0xDC00)
  }

  function CodePoints(s: Text): Option<seq<CodePoint>> {
    if s == [] then Some([])
    else if Width(s) == 0 then None
    else
      var rest := CodePoints(s[Width(s)..]);
      if rest.None? then None else Some([CodePointAt(s)] + rest.value)
  }

  /** UTF-16, from code points back to units. */
  function Units(c: CodePoint): Text {
    if c < 0x1_0000 then [c] else [0xD800 + (c - 0x1_0000) / 0x400, 0xDC00 + (c - 0x1_0000) % 0x400]
  }

  function Utf16(cs: seq<CodePoint>): Text {
    if cs == [] then [] else Units(cs[0]) + Utf16(cs[1..])
  }

  /** High and low surrogates are the two blocks of 1024 units from D800 on (section 3.8 of the Unicode Standard). */
  lemma SurrogateBlocks(u: CodeUnit)
    ensures IsHigh(u) <==> u / 0x400 == 54
    ensures IsLow(u) <==> u / 0x400 == 55
  {
  }

  /** Every surrogate has its partner next to it. */
  predicate WellFormed(s: Text) {
    && (forall i :: 0 <= i < |s| && IsHigh(s[i]) ==> i + 1 < |s| && IsLow(s[i + 1]))
    && (forall i :: 0 <= i < |s| && IsLow(s[i]) ==> i > 0 && IsHigh(s[i - 1]))
  }

  lemma {:induction false} DecodesIffWellFormed(s: Text)
    ensures CodePoints(s).Some? <==> WellFormed(s)
  {
    if s != [] {
      if Width(s) == 0 {
        assert IsLow(s[0]) || IsHigh(s[0]);
      } else {
        var t := s[Width(s)..];
        DecodesIffWellFormed(t);
        assert forall i :: 0 <= i < |t| ==> t[i] == s[Width(s) + i];
        if WellFormed(t) {
          forall i | 0 <= i < |s| && IsHigh(s[i]) ensures i + 1 < |s| && IsLow(s[i + 1]) {
            if i >= Width(s) { assert IsHigh(t[i - Width(s)]) && IsLow(t[i - Width(s) + 1]); }
          }
          forall i | 0 <= i < |s| && IsLow(s[i]) ensures i > 0 && IsHigh(s[i - 1]) {
            if i >= Width(s) { assert IsLow(t[i - Width(s)]) && IsHigh(t[i - Width(s) - 1]); }
          }
        }
        if WellFormed(s) {
          TailWellFormed(s);
        }
      }
    }
  }

  lemma TailWellFormed(s: Text)
    requires s != [] && Width(s) > 0 && WellFormed(s)
    ensures WellFormed(s[Width(s)..])
  {
    var w, t := Width(s), s[Width(s)..];
    forall i | 0 <= i < |t| && IsHigh(t[i]) ensures i + 1 < |t| && IsLow(t[i + 1]) {
      assert IsHigh(s[w + i]) && IsLow(s[w + i + 1]);
    }
    forall i | 0 <= i < |t| && IsLow(t[i]) ensures i > 0 && IsHigh(t[i - 1]) {
      assert IsLow(s[w + i]) && IsHigh(s[w + i - 1]);
    }
  }

  lemma {:induction false} UnitsRoundTrip(s: Text)
    requires CodePoints(s).Some?
    ensures Utf16(CodePoints(s).value) == s
  {
    if s != [] {
      var w := Width(s);
      UnitsRoundTrip(s[w..]);
      UnitsOfCodePoint(s);
      var rest := CodePoints(s[w..]).value;
      assert ([CodePointAt(s)] + rest)[1..] == rest;
      assert s == s[..w] + s[w..];
    }
  }

  lemma UnitsOfCodePoint(s: Text)
    requires s != [] && Width(s) > 0
    ensures Units(CodePointAt(s)) == s[..Width(s)]
  {
    if Width(s) == 2 {
      var h: int, l: int := s[0] - 0xD800, s[1] - 0xDC00;
      assert (h * 0x400 + l) / 0x400 == h && (h * 0x400 + l) % 0x400 == l;
    }
  }

  // ---- code points and octets ----

  function Utf8(c: CodePoint): (r: seq<Octet>)
    ensures r != []
  {
    if c < 0x80 then [c]
    else if c < 0x800 then [0xC0 + c / 0x40, 0x80 + c % 0x40]
    else if c < 0x1_0000 then [0xE0 + c / 0x1000, 0x80 + c / 0x40 % 0x40, 0x80 + c % 0x40]
    else [0xF0 + c / 0x4_0000, 0x80 + c / 0x1000 % 0x40, 0x80 + c / 0x40 % 0x40, 0x80 + c % 0x40]
  }

  /** The shortest form, with the lead octets of section 4 of RFC 3629. */
  lemma Utf8IsShortest(c: CodePoint)
    ensures var r := Utf8(c);
            && (c < 0x80 ==> r == [c])
            && (0x80 <= c < 0x800 ==> |r| == 2 && 0xC2 <= r[0] <= 0xDF)
            && (0x800 <= c < 0x1_0000 ==> |r| == 3 && 0xE0 <= r[0] <= 0xEF)
            && (0x1_0000 <= c ==> |r| == 4 && 0xF0 <= r[0] <= 0xF4)
            && forall i :: 1 <= i < |r| ==> IsTail(r[i])
  {
  }

  function Utf8All(cs: seq<CodePoint>): seq<Octet> {
    if cs == [] then [] else Utf8(cs[0]) + Utf8All(cs[1..])
  }

  predicate IsTail(b: Octet) {
    0x80 <= b <= 0xBF
  }

  /** The six bits a tail octet carries. */
  function Bits(b: Octet): (n: nat)
    requires IsTail(b)
    ensures n < 0x40
  {
    var m: int := b;
    m - 0x80
  }

  /** The length a leading octet announces, if the octets after it fit. */
  function SequenceLength(bs: seq<Octet>): (n: nat)
    requires bs != []
    ensures n <= |bs| && n <= 4
    ensures forall i :: 1 <= i < n ==> IsTail(bs[i])
    ensures n > 0 ==> if bs[0] < 0x80 then n == 1 else bs[0] >= 0xC0 && n == if bs[0] < 0xE0 then 2 else if bs[0] < 0xF0 then 3 else 4
  {
    var n := if bs[0] < 0x80 then 1 else if bs[0] < 0xC0 then 0 else if bs[0] < 0xE0 then 2
             else if bs[0] < 0xF0 then 3 else if bs[0] < 0xF8 then 4 else 0;
    if n <= |bs| && forall i :: 1 <= i < n ==> IsTail(bs[i]) then n else 0
  }

  /** The number an octet sequence of that length spells. */
  function Spelled(bs: seq<Octet>): nat
    requires bs != [] && SequenceLength(bs) > 0
  {
    var n := SequenceLength(bs);
    var lead: int := bs[0];
    if n == 1 then lead
    else if n == 2 then (lead - 0xC0) * 0x40 + Bits(bs[1])
    else if n == 3 then (lead - 0xE0) * 0x1000 + Bits(bs[1]) * 0x40 + Bits(bs[2])
    else (lead - 0xF0) * 0x4_0000 + Bits(bs[1]) * 0x1000 + Bits(bs[2]) * 0x40 + Bits(bs[3])
  }

  function Utf8Decode(bs: seq<Octet>): Option<seq<CodePoint>>
    decreases |bs|
  {
    if bs == [] then Some([])
    else if SequenceLength(bs) == 0 || Spelled(bs) >= 0x11_0000 then None
    else
      var rest := Utf8Decode(bs[SequenceLength(bs)..]);
      if rest.None? then None else Some([Spelled(bs)] + rest.value)
  }

  lemma Utf8Spells(c: CodePoint, rest: seq<Octet>)
    ensures var bs := Utf8(c) + rest;
            SequenceLength(bs) == |Utf8(c)| && Spelled(bs) == c && bs[|Utf8(c)|..] == rest
  {
    var u := Utf8(c);
    var bs := u + rest;
    assert forall i :: 0 <= i < |u| ==> bs[i] == u[i];
    if 0x1_0000 <= c {
      FourDigits(c);
    } else if 0x800 <= c {
      assert c / 0x1000 * 0x1000 + c / 0x40 % 0x40 * 0x40 + c % 0x40 == c;
    }
  }

  lemma FourDigits(c: int)
    ensures c / 0x4_0000 * 0x4_0000 + c / 0x1000 % 0x40 * 0x1000 + c / 0x40 % 0x40 * 0x40 + c % 0x40 == c
  {
    var q0 := c / 0x40;
    var q1 := c / 0x1000;
    assert c == q0 * 0x40 + c % 0x40;
    assert q0 / 0x40 == q1 && q0 == q1 * 0x40 + q0 % 0x40;
    assert q1 / 0x40 == c / 0x4_0000 && q1 == q1 / 0x40 * 0x40 + q1 % 0x40;
  }

  lemma {:induction false} Utf8RoundTrip(cs: seq<CodePoint>)
    ensures Utf8Decode(Utf8All(cs)) == Some(cs)
  {
    if cs != [] {
      Utf8RoundTrip(cs[1..]);
      Utf8Spells(cs[0], Utf8All(cs[1..]));
      assert cs == [cs[0]] + cs[1..];
    }
  }

  // ---- octets and percent-encoding ----

  /** What `encodeURIComponent` leaves alone: `A-Z a-z 0-9 - _ . ! ~ * ' ( )`. */
  predicate IsUnreserved(u: CodeUnit) {
    IsAlnum(u) || u == 0x2D || u == 0x5F || u == 0x2E || u == 0x21 || u == 0x7E || IsMark(u)
  }

  /** `[\'()*]`. */
  predicate IsMark(u: CodeUnit) {
    0x27 <= u <= 0x2A
  }

  /** attr-char of section 3.2.1 of RFC 5987. */
  predicate IsAttrChar(u: CodeUnit) {
    IsAlnum(u) || u == 0x21 || u == 0x23 || u == 0x24 || u == 0x26 || u == 0x2B || u == 0x2D || u == 0x2E
    || u == 0x5E || u == 0x5F || u == 0x60 || u == 0x7C || u == 0x7E
  }

  const PERCENT: CodeUnit := 0x25

  function HexDigit(d: nat): CodeUnit
    requires d < 16
  {
    if d < 10 then 0x30 + d else 0x41 + d - 10
  }

  function HexValue(u: CodeUnit): (d: int)
    ensures -1 <= d < 16
  {
    if 0x30 <= u <= 0x39 then u - 0x30
    else if 0x41 <= u <= 0x46 then u - 0x41 + 10
    else if 0x61 <= u <= 0x66 then u - 0x61 + 10
    else -1
  }

  /** `%` and two upper-case hex digits. */
  function Escape(b: Octet): Text {
    [PERCENT, HexDigit(b / 16), HexDigit(b % 16)]
  }

  function EscapeAll(bs: seq<Octet>): Text {
    if bs == [] then [] else Escape(bs[0]) + EscapeAll(bs[1..])
  }

  function EncodeUriComponent(s: Text): Result<Text, UriError> {
    if s == [] then Ok([])
    else if Width(s) == 0 then Err(MalformedUri)
    else
      var rest := EncodeUriComponent(s[Width(s)..]);
      var head := if IsUnreserved(s[0]) then [s[0]] else EscapeAll(Utf8(CodePointAt(s)));
      if rest.Err? then rest else Ok(head + rest.value)
  }

  /** ``replace(/['()*]/g, c => `%${c.charCodeAt(0).toString(16).toUpperCase()}`)``. */
  function EscapeMarks(s: Text): Text {
    if s == [] then [] else (if IsMark(s[0]) then Escape(s[0]) else [s[0]]) + EscapeMarks(s[1..])
  }

  function Encode(value: Text): Result<Text, UriError> {
    var r := EncodeUriComponent(value);
    if r.Err? then r else Ok(EscapeMarks(r.value))
  }

  /** One octet in its final form. */
  function Written(b: Octet): Text {
    if IsUnreserved(b) && !IsMark(b) then [b] else Escape(b)
  }

  function WrittenAll(bs: seq<Octet>): Text {
    if bs == [] then [] else Written(bs[0]) + WrittenAll(bs[1..])
  }

  function PercentDecode(s: Text): Option<seq<Octet>>
    decreases |s|
  {
    if s == [] then Some([])
    else if s[0] == PERCENT then
      if |s| < 3 || HexValue(s[1]) < 0 || HexValue(s[2]) < 0 then None
      else
        var rest := PercentDecode(s[3..]);
        if rest.None? then None else Some([HexValue(s[1]) * 16 + HexValue(s[2])] + rest.value)
    else
      var rest := PercentDecode(s[1..]);
      if rest.None? || s[0] >= 0x100 then None else Some([s[0]] + rest.value)
  }

  function Decode(s: Text): Option<Text> {
    var bytes := PercentDecode(s);
    if bytes.None? then None
    else
      var points := Utf8Decode(bytes.value);
      if points.None? then None else Some(Utf16(points.value))
  }

  // ---- the encoder's two passes are one pass over UTF-8 ----

  lemma {:induction false} MarksConcat(a: Text, b: Text)
    ensures EscapeMarks(a + b) == EscapeMarks(a) + EscapeMarks(b)
  {
    if a == [] {
      assert a + b == b;
    } else {
      MarksConcat(a[1..], b);
      assert (a + b)[1..] == a[1..] + b;
      var head := if IsMark(a[0]) then Escape(a[0]) else [a[0]];
      Associates(head, EscapeMarks(a[1..]), EscapeMarks(b));
    }
  }

  lemma EscapeHasNoMarks(b: Octet)
    ensures EscapeMarks(Escape(b)) == Escape(b)
  {
    var e := Escape(b);
    assert e[1..][1..][1..] == [];
    assert EscapeMarks(e[1..][1..]) == [e[2]];
    assert EscapeMarks(e[1..]) == [e[1]] + [e[2]];
  }

  lemma {:induction false} MarksOfEscapes(bs: seq<Octet>)
    requires forall i :: 0 <= i < |bs| ==> !IsUnreserved(bs[i]) || IsMark(bs[i])
    ensures EscapeMarks(EscapeAll(bs)) == EscapeAll(bs) == WrittenAll(bs)
  {
    if bs != [] {
      MarksOfEscapes(bs[1..]);
      EscapeHasNoMarks(bs[0]);
      MarksConcat(Escape(bs[0]), EscapeAll(bs[1..]));
    }
  }

  lemma {:induction false} WrittenConcat(a: seq<Octet>, b: seq<Octet>)
    ensures WrittenAll(a + b) == WrittenAll(a) + WrittenAll(b)
  {
    if a == [] {
      assert a + b == b;
    } else {
      WrittenConcat(a[1..], b);
      assert (a + b)[1..] == a[1..] + b;
      Associates(Written(a[0]), WrittenAll(a[1..]), WrittenAll(b));
    }
  }

  /** One code point: kept, or escaped octet by octet, with the marks escaped afterwards. */
  lemma HeadWritten(s: Text)
    requires s != [] && Width(s) > 0
    ensures var head := if IsUnreserved(s[0]) then [s[0]] else EscapeAll(Utf8(CodePointAt(s)));
            EscapeMarks(head) == WrittenAll(Utf8(CodePointAt(s)))
  {
    var c := CodePointAt(s);
    if IsUnreserved(s[0]) {
      assert Utf8(c) == [s[0]] && [s[0]][1..] == [];
      assert EscapeMarks([s[0]][1..]) == [] && WrittenAll(Utf8(c)[1..]) == [];
    } else {
      assert c < 0x80 ==> c == s[0];
      MarksOfEscapes(Utf8(c));
    }
  }

  /** The encoder fails exactly on ill-formed UTF-16, and otherwise writes the UTF-8 octets one by one. */
  lemma {:induction false} EncodeWritesUtf8(value: Text)
    ensures Encode(value).Ok? <==> CodePoints(value).Some?
    ensures Encode(value).Ok? ==> Encode(value).value == WrittenAll(Utf8All(CodePoints(value).value))
  {
    if value != [] && Width(value) > 0 {
      var rest := value[Width(value)..];
      EncodeWritesUtf8(rest);
      if CodePoints(rest).Some? {
        var c, tail := CodePointAt(value), CodePoints(rest).value;
        var head := if IsUnreserved(value[0]) then [value[0]] else EscapeAll(Utf8(c));
        HeadWritten(value);
        MarksConcat(head, EncodeUriComponent(rest).value);
        WrittenConcat(Utf8(c), Utf8All(tail));
        assert ([c] + tail)[1..] == tail;
      }
    }
  }

  /** It throws a URIError exactly when some surrogate is alone. */
  lemma EncodeFailsIffIllFormed(value: Text)
    ensures Encode(value).Err? <==> !WellFormed(value)
  {
    EncodeWritesUtf8(value);
    DecodesIffWellFormed(value);
  }

  // ---- what is emitted ----

  /** A sequence of attr-chars and `%HH` groups: value-chars of section 3.2.1 of RFC 5987. */
  predicate ValueChars(s: Text)
    decreases |s|
  {
    s == []
    || (IsAttrChar(s[0]) && ValueChars(s[1..]))
    || (|s| >= 3 && s[0] == PERCENT && HexValue(s[1]) >= 0 && HexValue(s[2]) >= 0 && ValueChars(s[3..]))
  }

  lemma {:induction false} WrittenIsValueChars(bs: seq<Octet>)
    ensures ValueChars(WrittenAll(bs))
  {
    if bs != [] {
      WrittenIsValueChars(bs[1..]);
      var rest := WrittenAll(bs[1..]);
      if IsUnreserved(bs[0]) && !IsMark(bs[0]) {
        assert ([bs[0]] + rest)[1..] == rest && IsAttrChar(bs[0]);
      } else {
        var all := Escape(bs[0]) + rest;
        assert all[3..] == rest && all[0] == PERCENT;
        assert all[1] == HexDigit(bs[0] / 16) && all[2] == HexDigit(bs[0] % 16);
      }
    }
  }

  /** Everything emitted is an attr-char or an escape. */
  lemma EmitsValueChars(value: Text)
    ensures Encode(value).Ok? ==> ValueChars(Encode(value).value)
  {
    EncodeWritesUtf8(value);
    if Encode(value).Ok? {
      WrittenIsValueChars(Utf8All(CodePoints(value).value));
    }
  }

  // ---- round trip ----

  lemma {:induction false} OctetsRoundTrip(bs: seq<Octet>)
    ensures PercentDecode(WrittenAll(bs)) == Some(bs)
  {
    if bs != [] {
      OctetsRoundTrip(bs[1..]);
      assert bs == [bs[0]] + bs[1..];
      var rest := WrittenAll(bs[1..]);
      var all := Written(bs[0]) + rest;
      if IsUnreserved(bs[0]) && !IsMark(bs[0]) {
        assert all[1..] == rest && all[0] == bs[0] != PERCENT;
      } else {
        assert all[3..] == rest && all[0] == PERCENT;
        assert HexValue(all[1]) == bs[0] / 16 && HexValue(all[2]) == bs[0] % 16;
      }
    }
  }

  /** Decoding gives back every name the encoder accepts. */
  lemma EncodeRoundTrip(value: Text)
    requires WellFormed(value)
    ensures Encode(value).Ok? && Decode(Encode(value).value) == Some(value)
  {
    DecodesIffWellFormed(value);
    EncodeWritesUtf8(value);
    var points := CodePoints(value).value;
    OctetsRoundTrip(Utf8All(points));
    Utf8RoundTrip(points);
    UnitsRoundTrip(value);
  }
}
