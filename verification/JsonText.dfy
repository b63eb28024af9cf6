// JSON strings as Go writes and reads them (encoding/json with HTML escaping;
// section 7 of RFC 8259), on the bytes of UTF-8 text.
module JsonText {
  import opened Strings
  import opened Wrappers

  // ---- UTF-8 -----------------------------------------------------------------------

  predicate IsContinuation(c: char) { '\U{80}' <= c <= '\U{BF}' }

  predicate IsTwoBytes(a: char, b: char) { '\U{C2}' <= a <= '\U{DF}' && IsContinuation(b) }

  predicate IsThreeBytes(a: char, b: char, c: char) {
    && IsContinuation(b) && IsContinuation(c)
    && (|| (a == '\U{E0}' && b >= '\U{A0}')
        || (a == '\U{ED}' && b <= '\U{9F}')
        || ('\U{E1}' <= a <= '\U{EC}') || a == '\U{EE}' || a == '\U{EF}')
  }

  predicate IsFourBytes(a: char, b: char, c: char, d: char) {
    && IsContinuation(b) && IsContinuation(c) && IsContinuation(d)
    && (|| (a == '\U{F0}' && b >= '\U{90}')
        || (a == '\U{F4}' && b <= '\U{8F}')
        || ('\U{F1}' <= a <= '\U{F3}'))
  }

  // Bytes of the character that `s` starts with; 0 if these are not UTF-8.
  function RuneWidth(s: Text): (w: nat)
    ensures w <= |s| && w <= 4
    ensures w == 1 <==> s != "" && s[0] < '\U{80}'
  {
    if s == "" then 0
    else if s[0] < '\U{80}' then 1
    else if |s| >= 2 && IsTwoBytes(s[0], s[1]) then 2
    else if |s| >= 3 && IsThreeBytes(s[0], s[1], s[2]) then 3
    else if |s| >= 4 && IsFourBytes(s[0], s[1], s[2], s[3]) then 4
    else 0
  }

  predicate ValidUtf8(s: Text) { s == "" || (RuneWidth(s) > 0 && ValidUtf8(s[RuneWidth(s)..])) }

  // U+FFFD, which stands for a byte that is not UTF-8.
  const REPLACEMENT: Text := "\U{EF}\U{BF}\U{BD}"

  // Every byte that does not belong to a UTF-8 character replaced.
  function Sanitized(s: Text): Text {
    if s == "" then ""
    else if RuneWidth(s) == 0 then REPLACEMENT + Sanitized(s[1..])
    else s[..RuneWidth(s)] + Sanitized(s[RuneWidth(s)..])
  }

  // ---- writing ---------------------------------------------------------------------------

  function HexDigit(d: nat): char
    requires d < 16
  {
    "0123456789abcdef"[d]
  }

  function EscapeAscii(c: char): Text
    requires c < '\U{80}'
  {
    if c == '"' then "\\\""
    else if c == '\\' then "\\\\"
    else if c == '\U{08}' then "\\b"
    else if c == '\U{0C}' then "\\f"
    else if c == '\n' then "\\n"
    else if c == '\r' then "\\r"
    else if c == '\t' then "\\t"
    else if c < ' ' || c == '<' || c == '>' || c == '&' then
      "\\u00" + [HexDigit(c as int / 16), HexDigit(c as int % 16)]
    else [c]
  }

  predicate IsLineSeparator(s: Text) {
    |s| >= 3 && s[0] == '\U{E2}' && s[1] == '\U{80}' && (s[2] == '\U{A8}' || s[2] == '\U{A9}')
  }

  function EscapeRune(s: Text): Text
    requires s != ""
  {
    if s[0] < '\U{80}' then EscapeAscii(s[0])
    else if RuneWidth(s) == 0 then "\\ufffd"
    else if IsLineSeparator(s) then if s[2] == '\U{A8}' then "\\u2028" else "\\u2029"
    else s[..RuneWidth(s)]
  }

  function RuneStep(s: Text): (n: nat)
    requires s != ""
    ensures 1 <= n <= |s|
  {
    if RuneWidth(s) == 0 then 1 else RuneWidth(s)
  }

  // json.Marshal of a string, without its quotes
  function Escape(s: Text): Text {
    if s == "" then "" else EscapeRune(s) + Escape(s[RuneStep(s)..])
  }

  function Quote(s: Text): Text { "\"" + Escape(s) + "\"" }

  // ---- reading ------------------------------------------------------------------------------

  function HexValue(c: char): int {
    if '0' <= c <= '9' then c as int - '0' as int
    else if 'a' <= c <= 'f' then c as int - 'a' as int + 10
    else if 'A' <= c <= 'F' then c as int - 'A' as int + 10
    else -1
  }

  // The number written by the four hexadecimal digits that `s` starts with; -1
  // if there are none.
  function FourHex(s: Text): (v: int)
    ensures v == -1 || (|s| >= 4 && 0 <= v < 0x10000)
  {
    if |s| < 4 || HexValue(s[0]) < 0 || HexValue(s[1]) < 0 || HexValue(s[2]) < 0 || HexValue(s[3]) < 0 then -1
    else HexValue(s[0]) * 0x1000 + HexValue(s[1]) * 0x100 + HexValue(s[2]) * 0x10 + HexValue(s[3])
  }

  predicate IsHighSurrogate(v: int) { 0xD800 <= v < 0xDC00 }

  predicate IsLowSurrogate(v: int) { 0xDC00 <= v < 0xE000 }

  function EncodeRune(v: nat): Text
    requires v < 0x110000
  {
    if v < 0x80 then [v as char]
    else if v < 0x800 then [(0xC0 + v / 0x40) as char, (0x80 + v % 0x40) as char]
    else if v < 0x10000 then
      [(0xE0 + v / 0x1000) as char, (0x80 + v / 0x40 % 0x40) as char, (0x80 + v % 0x40) as char]
    else
      [(0xF0 + v / 0x40000) as char, (0x80 + v / 0x1000 % 0x40) as char,
       (0x80 + v / 0x40 % 0x40) as char, (0x80 + v % 0x40) as char]
  }

  function Prepend(head: Text, tail: Option<Text>): Option<Text> {
    if tail.Some? then Some(head + tail.value) else None
  }

  function SimpleEscape(c: char): Option<char> {
    match c
    case '"' => Some('"')
    case '\\' => Some('\\')
    case '/' => Some('/')
    case 'b' => Some('\U{08}')
    case 'f' => Some('\U{0C}')
    case 'n' => Some('\n')
    case 'r' => Some('\r')
    case 't' => Some('\t')
    case _ => None
  }

  // The text of a JSON string after its opening quote; None if it is not one
  // string literal and nothing more.
  function Unquote(s: Text): Option<Text> {
    if s == "" then None
    else if s[0] == '"' then if |s| == 1 then Some("") else None
    else if s[0] < ' ' then None
    else if s[0] == '\\' then
      if |s| < 2 then None
      else if s[1] == 'u' then
        var v := FourHex(s[2..]);
        if v < 0 then None
        else if IsHighSurrogate(v) || IsLowSurrogate(v) then
          var w := if |s| >= 8 && s[6] == '\\' && s[7] == 'u' then FourHex(s[8..]) else -1;
          if IsHighSurrogate(v) && IsLowSurrogate(w) then
            Prepend(EncodeRune((v - 0xD800) * 0x400 + (w - 0xDC00) + 0x10000), Unquote(s[12..]))
          else Prepend(REPLACEMENT, Unquote(s[6..]))
        else Prepend(EncodeRune(v), Unquote(s[6..]))
      else if SimpleEscape(s[1]).Some? then Prepend([SimpleEscape(s[1]).value], Unquote(s[2..]))
      else None
    else if RuneWidth(s) == 0 then Prepend(REPLACEMENT, Unquote(s[1..]))
    else Prepend(s[..RuneWidth(s)], Unquote(s[RuneWidth(s)..]))
  }

  // json.Unmarshal into a string: null leaves it empty.
  function DecodeString(raw: Text): Option<Text> {
    if raw == "null" then Some("")
    else if raw != "" && raw[0] == '"' then Unquote(raw[1..])
    else None
  }

  // ---- the round trip ---------------------------------------------------------------------------

  lemma WidthOfPrefix(s: Text, more: Text)
    requires RuneWidth(s) > 0
    ensures RuneWidth(s[..RuneWidth(s)] + more) == RuneWidth(s)
  {
  }

  lemma ReadsSimple(c: char, d: char, more: Text)
    requires SimpleEscape(c) == Some(d)
    ensures Unquote("\\" + [c] + more) == Prepend([d], Unquote(more))
  {
    hide FourHex, EncodeRune;
    var s := "\\" + [c] + more;
    assert s[0] == '\\' && s[1] == c && s[2..] == more;
  }

  lemma ReadsHex(h: Text, v: nat, more: Text)
    requires |h| == 4 && FourHex(h) == v && !IsHighSurrogate(v) && !IsLowSurrogate(v)
    ensures Unquote("\\u" + h + more) == Prepend(EncodeRune(v), Unquote(more))
  {
    hide EncodeRune, HexValue, SimpleEscape;
    var s := "\\u" + h + more;
    assert s[0] == '\\' && s[1] == 'u' && s[2..] == h + more && s[6..] == more;
    FourHexPrefix(h, more);
  }

  lemma FourHexPrefix(h: Text, more: Text)
    requires |h| == 4
    ensures FourHex(h + more) == FourHex(h)
  {
    hide HexValue;
  }

  lemma ReadsRune(r: Text, more: Text)
    requires r != "" && RuneWidth(r) == |r| && r[0] != '"' && r[0] != '\\' && r[0] >= ' '
    ensures Unquote(r + more) == Prepend(r, Unquote(more))
  {
    hide FourHex, EncodeRune, SimpleEscape;
    WidthOfPrefix(r, more);
    assert r[..|r|] == r && (r + more)[..|r|] == r && (r + more)[|r|..] == more;
  }

  lemma HexDigits(v: nat)
    requires v < 0x80
    ensures FourHex("00" + [HexDigit(v / 16), HexDigit(v % 16)]) == v
  {
    HexDigitValue(v / 16);
    HexDigitValue(v % 16);
    HexDigitValue(0);
  }

  lemma HexDigitValue(d: nat)
    requires d < 16
    ensures HexValue(HexDigit(d)) == d
  {
  }

  // Reading one escaped character.
  lemma EscapedAsciiReads(c: char, more: Text)
    requires c < '\U{80}'
    ensures Unquote(EscapeAscii(c) + more) == Prepend([c], Unquote(more))
  {
    hide Unquote, FourHex;
    var e := EscapeAscii(c);
    if |e| == 2 {
      assert e == "\\" + [e[1]];
      ReadsSimple(e[1], c, more);
    } else if |e| == 6 {
      var h := "00" + [HexDigit(c as int / 16), HexDigit(c as int % 16)];
      assert e == "\\u" + h;
      HexDigits(c as int);
      ReadsHex(h, c as int, more);
    } else {
      ReadsRune([c], more);
    }
  }

  // The four-digit escapes that writing uses above ASCII.
  lemma WrittenEscapes()
    ensures FourHex("fffd") == 0xFFFD && EncodeRune(0xFFFD) == REPLACEMENT
    ensures FourHex("2028") == 0x2028 && EncodeRune(0x2028) == "\U{E2}\U{80}\U{A8}"
    ensures FourHex("2029") == 0x2029 && EncodeRune(0x2029) == "\U{E2}\U{80}\U{A9}"
  {
    assert FourHex("fffd") == 0xFFFD;
    assert FourHex("2028") == 0x2028;
    assert FourHex("2029") == 0x2029;
  }

  lemma EscapedRuneReads(s: Text, more: Text)
    requires s != ""
    ensures Unquote(EscapeRune(s) + more)
      == Prepend(if RuneWidth(s) == 0 then REPLACEMENT else s[..RuneWidth(s)], Unquote(more))
  {
    hide Unquote, EscapeAscii, FourHex, EncodeRune;
    WrittenEscapes();
    var w := RuneWidth(s);
    if s[0] < '\U{80}' {
      EscapedAsciiReads(s[0], more);
      assert s[..1] == [s[0]];
    } else if w == 0 {
      assert "\\u" + "fffd" == "\\ufffd";
      ReadsHex("fffd", 0xFFFD, more);
    } else if IsLineSeparator(s) {
      assert s[..3] == [s[0], s[1], s[2]];
      if s[2] == '\U{A8}' {
        assert "\\u" + "2028" == "\\u2028";
        ReadsHex("2028", 0x2028, more);
      } else {
        assert "\\u" + "2029" == "\\u2029";
        ReadsHex("2029", 0x2029, more);
      }
    } else {
      WidthOfPrefix(s, "");
      assert s[..w] + "" == s[..w];
      ReadsRune(s[..w], more);
    }
  }

  // A quoted text is read back as that text with the bytes that are not UTF-8
  // replaced.
  lemma {:induction false} QuotedReads(s: Text)
    ensures Unquote(Escape(s) + "\"") == Some(Sanitized(s))
  {
    hide EscapeRune;
    if s == "" {
      assert "" + "\"" == "\"";
    } else {
      hide Unquote;
      var tail := s[RuneStep(s)..];
      QuotedReads(tail);
      EscapedRuneReads(s, Escape(tail) + "\"");
      assert EscapeRune(s) + Escape(tail) + "\"" == EscapeRune(s) + (Escape(tail) + "\"");
    }
  }

  lemma ValidAfterRune(r: Text, more: Text)
    requires r != "" && RuneWidth(r) == |r|
    ensures ValidUtf8(r + more) <==> ValidUtf8(more)
    ensures RuneWidth(r + more) == |r|
  {
    hide RuneWidth;
    WidthOfPrefix(r, more);
    assert r[..|r|] == r && (r + more)[|r|..] == more;
  }

  lemma FirstRune(s: Text)
    requires RuneWidth(s) > 0
    ensures RuneWidth(s[..RuneWidth(s)]) == RuneWidth(s)
    ensures s == s[..RuneWidth(s)] + s[RuneWidth(s)..]
  {
    WidthOfPrefix(s, "");
    assert s[..RuneWidth(s)] + "" == s[..RuneWidth(s)];
  }

  lemma {:induction false} SanitizedValid(s: Text)
    ensures ValidUtf8(s) ==> Sanitized(s) == s
    ensures ValidUtf8(Sanitized(s))
  {
    if s != "" {
      var w := RuneWidth(s);
      assert w == 0 ==> !ValidUtf8(s);
      assert |REPLACEMENT| == 3 && RuneWidth(REPLACEMENT) == 3;
      hide ValidUtf8, RuneWidth;
      if w == 0 {
        SanitizedValid(s[1..]);
        ValidAfterRune(REPLACEMENT, Sanitized(s[1..]));
      } else {
        SanitizedValid(s[w..]);
        FirstRune(s);
        ValidAfterRune(s[..w], s[w..]);
        ValidAfterRune(s[..w], Sanitized(s[w..]));
      }
    }
  }

  // Quoting and reading gives a text back exactly when it is UTF-8.
  lemma QuoteRoundTripExactly(s: Text)
    ensures DecodeString(Quote(s)) == Some(s) <==> ValidUtf8(s)
    ensures DecodeString(Quote(s)) == Some(Sanitized(s))
  {
    var raw := Quote(s);
    assert raw[0] == '"' && raw[1..] == Escape(s) + "\"";
    QuotedReads(s);
    SanitizedValid(s);
  }

  // ---- quoted texts in a line --------------------------------------------------------------------

  predicate NoControls(s: Text) { forall k :: 0 <= k < |s| ==> s[k] >= ' ' }

  lemma EscapeRuneNoControls(s: Text)
    requires s != ""
    ensures NoControls(EscapeRune(s))
  {
    if s[0] >= '\U{80}' && RuneWidth(s) > 0 && !IsLineSeparator(s) {
      assert forall k :: 0 < k < RuneWidth(s) ==> IsContinuation(s[k]);
    }
  }

  // A quoted text is one line without control characters.
  lemma {:induction false} QuoteNoControls(s: Text)
    ensures NoControls(Escape(s)) && NoControls(Quote(s))
  {
    hide EscapeRune;
    if s != "" {
      EscapeRuneNoControls(s);
      QuoteNoControls(s[RuneStep(s)..]);
    }
  }

  // ---- reading any string literal ---------------------------------------------------------------

  // What a string literal is made of: characters as they are, two-character
  // escapes, and one or two four-digit escapes.
  datatype Piece = Plain(rune: Text) | Simple(c: char) | Hex(digits: Text) | Pair(high: Text, low: Text)

  function HexNumber(digits: Text): int {
    if |digits| == 4 then FourHex(digits) else -1
  }

  predicate GoodPiece(p: Piece) {
    match p
    case Plain(r) => r != "" && RuneWidth(r) == |r| && r[0] != '"' && r[0] != '\\' && r[0] >= ' '
    case Simple(c) => c in {'"', '\\', '/', 'b', 'f', 'n', 'r', 't'}
    case Hex(h) => 0 <= HexNumber(h) < 0xD800 || 0xE000 <= HexNumber(h)
    case Pair(h, l) => 0xD800 <= HexNumber(h) < 0xDC00 <= HexNumber(l) < 0xE000
  }

  function PieceText(p: Piece): Text {
    match p
    case Plain(r) => r
    case Simple(c) => "\\" + [c]
    case Hex(h) => "\\u" + h
    case Pair(h, l) => "\\u" + h + "\\u" + l
  }

  // The number of the character that a piece stands for, if it is escaped.
  function CodeOf(p: Piece): int {
    match p
    case Plain(_) => -1
    case Simple(c) =>
      if c == 'b' then 8 else if c == 't' then 9 else if c == 'n' then 10 else if c == 'f' then 12
      else if c == 'r' then 13 else c as int
    case Hex(h) => HexNumber(h)
    case Pair(h, l) => 0x10000 + 0x400 * (HexNumber(h) - 0xD800) + (HexNumber(l) - 0xDC00)
  }

  function PieceValue(p: Piece): Text
    requires GoodPiece(p)
  {
    if p.Plain? then p.rune else EncodeRune(CodeOf(p))
  }

  function PiecesText(ps: seq<Piece>): Text { if ps == [] then "" else PieceText(ps[0]) + PiecesText(ps[1..]) }

  function PiecesValue(ps: seq<Piece>): Text
    requires forall p :: p in ps ==> GoodPiece(p)
  {
    if ps == [] then "" else PieceValue(ps[0]) + PiecesValue(ps[1..])
  }

  lemma ReadsPair(h: Text, l: Text, more: Text)
    requires GoodPiece(Pair(h, l))
    ensures Unquote("\\u" + h + "\\u" + l + more) == Prepend(EncodeRune(CodeOf(Pair(h, l))), Unquote(more))
  {
    hide EncodeRune, HexValue, SimpleEscape;
    var s := "\\u" + h + "\\u" + l + more;
    assert s == "\\u" + (h + ("\\u" + (l + more)));
    assert s[0] == '\\' && s[1] == 'u' && s[2..] == h + ("\\u" + (l + more));
    assert s[6] == '\\' && s[7] == 'u' && s[8..] == l + more && s[12..] == more;
    FourHexPrefix(h, "\\u" + (l + more));
    FourHexPrefix(l, more);
  }

  lemma PieceReads(p: Piece, more: Text)
    requires GoodPiece(p)
    ensures Unquote(PieceText(p) + more) == Prepend(PieceValue(p), Unquote(more))
  {
    match p
    case Plain(r) => ReadsRune(r, more);
    case Simple(c) =>
      var d := [CodeOf(p) as char];
      assert EncodeRune(CodeOf(p)) == d && SimpleEscape(c) == Some(d[0]);
      ReadsSimple(c, d[0], more);
    case Hex(h) => ReadsHex(h, HexNumber(h), more);
    case Pair(h, l) => ReadsPair(h, l, more);
  }

  lemma {:induction false} PiecesRead(ps: seq<Piece>)
    requires forall p :: p in ps ==> GoodPiece(p)
    ensures Unquote(PiecesText(ps) + "\"") == Some(PiecesValue(ps))
  {
    if ps == [] {
      assert "" + "\"" == "\"";
    } else {
      hide Unquote, GoodPiece, PieceText, PieceValue;
      var first, rest := PieceText(ps[0]), PiecesText(ps[1..]) + "\"";
      PiecesRead(ps[1..]);
      PieceReads(ps[0], rest);
      assert PiecesText(ps) + "\"" == first + rest;
    }
  }

  // Every string literal, whatever mixture of escapes it uses, is read as the
  // characters it stands for.
  lemma LiteralReads(ps: seq<Piece>)
    requires forall p :: p in ps ==> GoodPiece(p)
    ensures DecodeString("\"" + PiecesText(ps) + "\"") == Some(PiecesValue(ps))
  {
    hide PiecesText, PiecesValue, GoodPiece, Unquote;
    PiecesRead(ps);
    var raw := "\"" + PiecesText(ps) + "\"";
    assert raw[0] == '"' && raw[1..] == PiecesText(ps) + "\"";
    assert raw != "null" by { assert "null"[0] == 'n'; }
  }

  lemma {:induction false} RefusedAfter(ps: seq<Piece>, end: Text)
    requires (forall p :: p in ps ==> GoodPiece(p)) && Unquote(end) == None
    ensures Unquote(PiecesText(ps) + end) == None
  {
    hide Unquote, GoodPiece, PieceText, PieceValue;
    if ps == [] {
      assert "" + end == end;
    } else {
      var first, rest := PieceText(ps[0]), PiecesText(ps[1..]) + end;
      RefusedAfter(ps[1..], end);
      PieceReads(ps[0], rest);
      assert PiecesText(ps) + end == first + rest;
    }
  }

  // Nothing but a whole literal is read: not one with anything behind it, and none
  // with a control character in it.
  lemma LiteralEnds(ps: seq<Piece>, c: char, more: Text)
    requires forall p :: p in ps ==> GoodPiece(p)
    ensures more != "" ==> Unquote(PiecesText(ps) + ("\"" + more)) == None
    ensures c < ' ' ==> Unquote(PiecesText(ps) + ([c] + more)) == None
  {
    BadEnds(c, more);
    hide Unquote, GoodPiece, PiecesText;
    if more != "" { RefusedAfter(ps, "\"" + more); }
    if c < ' ' { RefusedAfter(ps, [c] + more); }
  }

  lemma BadEnds(c: char, more: Text)
    ensures more != "" ==> Unquote("\"" + more) == None
    ensures c < ' ' ==> Unquote([c] + more) == None
  {
    hide FourHex, EncodeRune, SimpleEscape, RuneWidth;
    assert ("\"" + more)[0] == '"' && ([c] + more)[0] == c;
  }

  // The number of the character that `s` consists of.
  function RuneCode(s: Text): int
    requires RuneWidth(s) == |s| && s != ""
  {
    match |s|
    case 1 => s[0] as int
    case 2 => (s[0] as int - 0xC0) * 0x40 + (s[1] as int - 0x80)
    case 3 => (s[0] as int - 0xE0) * 0x1000 + (s[1] as int - 0x80) * 0x40 + (s[2] as int - 0x80)
    case _ =>
      (s[0] as int - 0xF0) * 0x40000 + (s[1] as int - 0x80) * 0x1000
      + (s[2] as int - 0x80) * 0x40 + (s[3] as int - 0x80)
  }

  lemma EncodedShort(v: nat)
    requires v < 0x800
    ensures var s := EncodeRune(v); s != "" && RuneWidth(s) == |s| && RuneCode(s) == v
  {
  }

  lemma EncodedThree(v: nat)
    requires 0x800 <= v < 0xD800 || 0xE000 <= v < 0x10000
    ensures var s := EncodeRune(v); |s| == 3 && RuneWidth(s) == 3 && RuneCode(s) == v
  {
    assert v / 0x40 == (v / 0x1000) * 0x40 + v / 0x40 % 0x40;
  }

  lemma EncodedFour(v: nat)
    requires 0x10000 <= v < 0x110000
    ensures var s := EncodeRune(v); |s| == 4 && RuneWidth(s) == 4 && RuneCode(s) == v
  {
    assert v / 0x40 == (v / 0x1000) * 0x40 + v / 0x40 % 0x40;
    assert v / 0x1000 == (v / 0x40000) * 0x40 + v / 0x1000 % 0x40;
  }

  // A character's bytes are UTF-8 and give back its number.
  lemma EncodedRune(v: nat)
    requires v < 0xD800 || 0xE000 <= v < 0x110000
    ensures var s := EncodeRune(v);
      s != "" && RuneWidth(s) == |s| && RuneCode(s) == v
  {
    hide EncodeRune, RuneWidth, RuneCode;
    if v < 0x800 {
      EncodedShort(v);
    } else if v < 0x10000 {
      EncodedThree(v);
    } else {
      EncodedFour(v);
    }
  }

  // Four hexadecimal digits, in either case, are read as their number.
  lemma FourDigits(a: nat, b: nat, c: nat, d: nat, digits: Text)
    requires a < 16 && b < 16 && c < 16 && d < 16 && |digits| == 4
    requires IsDigitOf(digits[0], a) && IsDigitOf(digits[1], b) && IsDigitOf(digits[2], c) && IsDigitOf(digits[3], d)
    ensures FourHex(digits) == ((a * 16 + b) * 16 + c) * 16 + d
  {
    hide HexValue, IsDigitOf;
    OneDigit(digits[0], a);
    OneDigit(digits[1], b);
    OneDigit(digits[2], c);
    OneDigit(digits[3], d);
  }

  lemma OneDigit(c: char, d: nat)
    requires d < 16 && IsDigitOf(c, d)
    ensures HexValue(c) == d
  {
  }

  predicate IsDigitOf(c: char, d: nat)
    requires d < 16
  {
    c == "0123456789abcdef"[d] || c == "0123456789ABCDEF"[d]
  }

  // ---- writing for a page ------------------------------------------------------------------------

  predicate HtmlSafe(s: Text) { '<' !in s && '>' !in s && '&' !in s }

  lemma EscapeAsciiHtmlSafe(c: char)
    requires c < '\U{80}'
    ensures HtmlSafe(EscapeAscii(c))
  {
  }

  lemma RuneBytes(s: Text, k: nat)
    requires k < RuneWidth(s) && s[0] >= '\U{80}'
    ensures s[k] >= '\U{80}'
  {
  }

  lemma EscapeRuneHtmlSafe(s: Text)
    requires s != ""
    ensures HtmlSafe(EscapeRune(s))
  {
    hide EscapeAscii, RuneWidth;
    if s[0] < '\U{80}' {
      EscapeAsciiHtmlSafe(s[0]);
    } else {
      var rune := s[..RuneWidth(s)];
      forall k | 0 <= k < |rune| ensures rune[k] >= '\U{80}' { RuneBytes(s, k); }
    }
  }

  // A quoted text holds no character that opens a tag or an entity.
  lemma {:induction false} QuoteIsHtmlSafe(s: Text)
    ensures HtmlSafe(Escape(s)) && HtmlSafe(Quote(s))
  {
    hide EscapeRune;
    if s != "" {
      hide RuneStep;
      EscapeRuneHtmlSafe(s);
      QuoteIsHtmlSafe(s[RuneStep(s)..]);
    }
  }
}
