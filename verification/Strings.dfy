// Go string operations. A string is the sequence of its bytes, one character
// below 256 per byte, so that lengths and cuts are those of the program.
module Strings {

  type Text = seq<char>

  predicate HasPrefix(s: Text, prefix: Text) { prefix <= s }

  predicate HasSuffix(s: Text, suffix: Text) {
    |suffix| <= |s| && s[|s| - |suffix|..] == suffix
  }

  function TrimPrefix(s: Text, prefix: Text): Text {
    if prefix <= s then s[|prefix|..] else s
  }

  predicate OccursAt(s: Text, t: Text, i: int) {
    0 <= i <= |s| - |t| && s[i..i + |t|] == t
  }

  predicate Contains(s: Text, t: Text) {
    exists i :: 0 <= i <= |s| && OccursAt(s, t, i)
  }

  // ---- lines -----------------------------------------------------------------

  // strings.Split(s, "\n")
  function Split(s: Text): (r: seq<Text>)
    ensures |r| >= 1
  {
    if s == "" then [""]
    else if s[0] == '\n' then [""] + Split(s[1..])
    else
      var rest := Split(s[1..]);
      [[s[0]] + rest[0]] + rest[1..]
  }

  // strings.Join(lines, "\n")
  function Join(lines: seq<Text>): Text {
    if |lines| == 0 then ""
    else if |lines| == 1 then lines[0]
    else lines[0] + "\n" + Join(lines[1..])
  }

  // Every line followed by a newline.
  function Unlines(lines: seq<Text>): Text {
    if lines == [] then "" else lines[0] + "\n" + Unlines(lines[1..])
  }

  function DropLastEmpty(lines: seq<Text>): seq<Text> {
    if lines != [] && lines[|lines| - 1] == "" then lines[..|lines| - 1] else lines
  }

  // The lines of a text, a final newline closing the last one.
  function Lines(s: Text): seq<Text> { DropLastEmpty(Split(s)) }

  predicate OneLine(s: Text) { '\n' !in s }

  predicate OneLineEach(lines: seq<Text>) {
    forall k :: 0 <= k < |lines| ==> OneLine(lines[k])
  }

  lemma {:induction false} SplitLine(line: Text, rest: Text)
    requires OneLine(line)
    ensures Split(line + "\n" + rest) == [line] + Split(rest)
    ensures Split(line) == [line]
  {
    if line == "" {
      assert line + "\n" + rest == "\n" + rest;
      assert ("\n" + rest)[1..] == rest;
    } else {
      SplitLine(line[1..], rest);
      assert (line + "\n" + rest)[1..] == line[1..] + "\n" + rest;
      assert [line[0]] + line[1..] == line;
    }
  }

  lemma {:induction false} SplitUnlines(lines: seq<Text>, rest: Text)
    requires OneLineEach(lines)
    ensures Split(Unlines(lines) + rest) == lines + Split(rest)
  {
    if lines == [] {
      assert Unlines(lines) + rest == rest;
      assert lines + Split(rest) == Split(rest);
    } else {
      SplitUnlines(lines[1..], rest);
      SplitLine(lines[0], Unlines(lines[1..]) + rest);
      assert Unlines(lines) + rest == lines[0] + "\n" + (Unlines(lines[1..]) + rest);
      assert lines + Split(rest) == [lines[0]] + (lines[1..] + Split(rest));
    }
  }

  lemma LinesOfUnlines(lines: seq<Text>)
    requires OneLineEach(lines)
    ensures Lines(Unlines(lines)) == lines
  {
    SplitUnlines(lines, "");
    assert Unlines(lines) + "" == Unlines(lines);
  }

  lemma {:induction false} SplitOneLineEach(s: Text)
    ensures OneLineEach(Split(s))
  {
    if s != "" {
      SplitOneLineEach(s[1..]);
      var rest := Split(s[1..]);
      assert s[0] != '\n' ==> OneLine([s[0]] + rest[0]);
    }
  }

  lemma {:induction false} JoinOfSplit(s: Text)
    ensures Join(Split(s)) == s
  {
    if s != "" {
      JoinOfSplit(s[1..]);
      var rest := Split(s[1..]);
      if s[0] == '\n' {
        assert ([""] + rest)[1..] == rest;
        assert Join([""] + rest) == "" + "\n" + Join(rest);
        assert s == "\n" + s[1..];
      } else {
        var all := [[s[0]] + rest[0]] + rest[1..];
        assert s == [s[0]] + s[1..];
        if |rest| > 1 {
          assert all[1..] == rest[1..];
          assert Join(all) == [s[0]] + (rest[0] + "\n" + Join(rest[1..]));
        }
      }
    }
  }

  lemma {:induction false} SplitOfJoin(lines: seq<Text>)
    requires lines != [] && OneLineEach(lines)
    ensures Split(Join(lines)) == lines
  {
    if |lines| == 1 {
      SplitLine(lines[0], "");
    } else {
      SplitOfJoin(lines[1..]);
      SplitLine(lines[0], Join(lines[1..]));
    }
  }

  lemma {:induction false} UnlinesIsJoin(lines: seq<Text>)
    requires lines != []
    ensures Unlines(lines) == Join(lines) + "\n"
  {
    if |lines| > 1 {
      UnlinesIsJoin(lines[1..]);
      assert lines[0] + "\n" + (Join(lines[1..]) + "\n") == Join(lines) + "\n";
    } else {
      assert lines[0] + "\n" + "" == lines[0] + "\n";
    }
  }

  lemma {:induction false} UnlinesConcat(a: seq<Text>, b: seq<Text>)
    ensures Unlines(a + b) == Unlines(a) + Unlines(b)
  {
    if a == [] {
      assert a + b == b;
    } else {
      UnlinesConcat(a[1..], b);
      assert (a + b)[1..] == a[1..] + b;
      assert Unlines(a + b) == a[0] + "\n" + (Unlines(a[1..]) + Unlines(b));
    }
  }

  predicate EndsWithNewline(s: Text) { s != "" && s[|s| - 1] == '\n' }

  lemma {:induction false} LastOfSplit(s: Text)
    ensures var r := Split(s); (r[|r| - 1] == "") <==> (s == "" || EndsWithNewline(s))
  {
    if s != "" {
      LastOfSplit(s[1..]);
      var rest := Split(s[1..]);
      if s[0] != '\n' && |rest| == 1 && s[1..] != "" {
        LastOfOneLine(s[1..]);
      }
    }
  }

  lemma {:induction false} LastOfOneLine(s: Text)
    requires |Split(s)| == 1
    ensures Split(s) == [s] && OneLine(s)
  {
    if s != "" {
      LastOfOneLine(s[1..]);
      assert s == [s[0]] + s[1..];
    }
  }

  // The lines of a text determine it up to its final newline.
  lemma TextOfLines(s: Text)
    ensures EndsWithNewline(s) ==> Lines(s) != [] && s == Join(Lines(s)) + "\n"
    ensures s != "" && !EndsWithNewline(s) ==>
      Lines(s) != [] && s == Join(Lines(s)) && Lines(s)[|Lines(s)| - 1] != ""
    ensures OneLineEach(Lines(s))
  {
    LastOfSplit(s);
    JoinOfSplit(s);
    SplitOneLineEach(s);
    var r := Split(s);
    if EndsWithNewline(s) {
      if |r| == 1 {
        LastOfOneLine(s);
      }
      assert r == r[..|r| - 1] + [""];
      JoinPush(r[..|r| - 1]);
    }
  }

  lemma {:induction false} JoinPush(lines: seq<Text>)
    requires lines != []
    ensures Join(lines + [""]) == Join(lines) + "\n"
  {
    if |lines| == 1 {
      assert (lines + [""])[1..] == [""];
      assert lines[0] + "\n" + "" == lines[0] + "\n";
    } else {
      JoinPush(lines[1..]);
      assert (lines + [""])[1..] == lines[1..] + [""];
      assert lines[0] + "\n" + (Join(lines[1..]) + "\n") == Join(lines) + "\n";
    }
  }

  // ---- carriage returns --------------------------------------------------------

  // strings.ReplaceAll(s, "\r\n", "\n")
  function CrlfToLf(s: Text): Text {
    if s == "" then ""
    else if |s| >= 2 && s[0] == '\r' && s[1] == '\n' then "\n" + CrlfToLf(s[2..])
    else [s[0]] + CrlfToLf(s[1..])
  }

  predicate StartsCrlf(s: Text) { |s| >= 2 && s[0] == '\r' && s[1] == '\n' }

  lemma CrlfStep(s: Text)
    requires s != ""
    ensures CrlfToLf(s) == if StartsCrlf(s) then "\n" + CrlfToLf(s[2..]) else [s[0]] + CrlfToLf(s[1..])
  {
  }

  // strings.ReplaceAll(s, "\r", "\n")
  function CrToLf(s: Text): Text {
    if s == "" then "" else [if s[0] == '\r' then '\n' else s[0]] + CrToLf(s[1..])
  }

  function Normalize(s: Text): Text { CrToLf(CrlfToLf(s)) }

  predicate NoCr(s: Text) { '\r' !in s }

  lemma {:induction false} CrlfToLfIdentity(s: Text)
    requires NoCr(s)
    ensures CrlfToLf(s) == s
  {
    if s != "" {
      CrlfToLfIdentity(s[1..]);
    }
  }

  lemma {:induction false} CrToLfClean(s: Text)
    ensures NoCr(CrToLf(s)) && |CrToLf(s)| == |s|
    ensures NoCr(s) ==> CrToLf(s) == s
  {
    if s != "" {
      CrToLfClean(s[1..]);
    }
  }

  lemma NormalizeClean(s: Text)
    ensures NoCr(Normalize(s))
    ensures NoCr(s) ==> Normalize(s) == s
  {
    CrToLfClean(CrlfToLf(s));
    if NoCr(s) { CrlfToLfIdentity(s); }
  }

  // ---- white space ---------------------------------------------------------------

  // Bytes of the white-space character (unicode.IsSpace, in UTF-8) that `s`
  // starts with; 0 if there is none.
  function SpaceWidth(s: Text): (w: nat)
    ensures w <= |s| && w <= 3
  {
    if s == "" then 0
    else if s[0] in {'\t', '\n', '\U{0B}', '\U{0C}', '\r', ' '} then 1
    else if |s| >= 2 && s[0] == '\U{C2}' && s[1] in {'\U{85}', '\U{A0}'} then 2
    else if |s| >= 3 && IsWideSpace(s[0], s[1], s[2]) then 3
    else 0
  }

  // U+1680, U+2000..U+200A, U+2028, U+2029, U+202F, U+205F and U+3000.
  predicate IsWideSpace(a: char, b: char, c: char) {
    || (a == '\U{E1}' && b == '\U{9A}' && c == '\U{80}')
    || (a == '\U{E2}' && b == '\U{80}' &&
        ('\U{80}' <= c <= '\U{8A}' || c in {'\U{A8}', '\U{A9}', '\U{AF}'}))
    || (a == '\U{E2}' && b == '\U{81}' && c == '\U{9F}')
    || (a == '\U{E3}' && b == '\U{80}' && c == '\U{80}')
  }

  function TrimLeft(s: Text): (r: Text)
    ensures |r| <= |s|
  {
    var w := SpaceWidth(s);
    if w == 0 then s else TrimLeft(s[w..])
  }

  predicate EndsInSpace(s: Text, w: nat) {
    1 <= w <= |s| && SpaceWidth(s[|s| - w..]) == w
  }

  function TrimRight(s: Text): Text
    decreases |s|
  {
    if EndsInSpace(s, 1) then TrimRight(s[..|s| - 1])
    else if EndsInSpace(s, 2) then TrimRight(s[..|s| - 2])
    else if EndsInSpace(s, 3) then TrimRight(s[..|s| - 3])
    else s
  }

  function TrimSpace(s: Text): Text { TrimRight(TrimLeft(s)) }

  // The first element of strings.Fields, for a text without leading space.
  function FirstField(s: Text): Text {
    if s == "" || SpaceWidth(s) > 0 then "" else [s[0]] + FirstField(s[1..])
  }

  ghost predicate NoSpace(s: Text) {
    forall i :: 0 <= i < |s| ==> SpaceWidth(s[i..]) == 0
  }

  lemma TrimNothing(s: Text)
    requires NoSpace(s)
    ensures TrimSpace(s) == s
  {
    if s != "" {
      assert s[0..] == s;
      assert SpaceWidth(s[0..]) == 0;
    }
  }

  lemma {:induction false} FieldNothing(s: Text)
    requires NoSpace(s)
    ensures FirstField(s) == s
  {
    if s != "" {
      assert s[0..] == s && SpaceWidth(s[0..]) == 0;
      NoSpaceSuffix(s, 1);
      FieldNothing(s[1..]);
    }
  }

  lemma NoSpaceSuffix(s: Text, k: nat)
    requires NoSpace(s) && k <= |s|
    ensures NoSpace(s[k..])
  {
    forall i | 0 <= i < |s[k..]| ensures SpaceWidth(s[k..][i..]) == 0 {
      assert s[k..][i..] == s[k + i..];
    }
  }

  lemma NoSpacePrefix(s: Text, k: nat)
    requires NoSpace(s) && k <= |s|
    ensures NoSpace(s[..k])
  {
    forall i | 0 <= i < k ensures SpaceWidth(s[..k][i..]) == 0 {
      assert s[..k][i..] <= s[i..];
      assert SpaceWidth(s[i..]) == 0;
    }
  }

  // What may follow a field: nothing, or a tab and any text.
  predicate IsNote(note: Text) { note == "" || note[0] == '\t' }

  // A space cannot begin in a field and end in the note.
  lemma NoSpaceAcross(s: Text, note: Text, i: nat)
    requires NoSpace(s) && IsNote(note) && i < |s|
    ensures SpaceWidth((s + note)[i..]) == 0
  {
    var t := (s + note)[i..];
    assert SpaceWidth(s[i..]) == 0;
    assert forall k :: 0 <= k < |t| ==> t[k] == if i + k < |s| then s[i..][k] else note[i + k - |s|];
  }

  lemma {:induction false} FieldBeforeNote(s: Text, note: Text)
    requires NoSpace(s) && IsNote(note)
    ensures FirstField(s + note) == s
  {
    if s == "" {
      assert s + note == note;
    } else {
      NoSpaceAcross(s, note, 0);
      assert (s + note)[0..] == s + note && (s + note)[1..] == s[1..] + note;
      NoSpaceSuffix(s, 1);
      FieldBeforeNote(s[1..], note);
    }
  }

  // Trimming shortens the note at most.
  lemma {:induction false} TrimNote(s: Text, note: Text) returns (m: nat)
    requires NoSpace(s) && IsNote(note)
    ensures m <= |note| && TrimRight(s + note) == s + note[..m]
    decreases |note|
  {
    m := |note|;
    assert note[..m] == note;
    var t := s + note;
    forall i | 0 <= i < |s| ensures SpaceWidth(t[i..]) == 0 { NoSpaceAcross(s, note, i); }
    var w := if EndsInSpace(t, 1) then 1 else if EndsInSpace(t, 2) then 2 else if EndsInSpace(t, 3) then 3 else 0;
    if w > 0 {
      assert EndsInSpace(t, w) && w <= |note|;
      assert t[..|t| - w] == s + note[..|note| - w];
      m := TrimNote(s, note[..|note| - w]);
      assert note[..|note| - w][..m] == note[..m];
    }
  }

  lemma {:induction false} FieldHasNoSpace(s: Text)
    ensures FirstField(s) <= s && NoSpace(FirstField(s))
  {
    if s != "" && SpaceWidth(s) == 0 {
      FieldHasNoSpace(s[1..]);
      var f := FirstField(s);
      assert s == [s[0]] + s[1..];
      forall i | 0 <= i < |f| ensures SpaceWidth(f[i..]) == 0 {
        if i == 0 {
          assert f[0..] == f && f <= s;
        } else {
          assert f[i..] == FirstField(s[1..])[i - 1..];
        }
      }
    }
  }

  lemma NoSpaceIsOneLine(s: Text)
    requires NoSpace(s)
    ensures OneLine(s) && NoCr(s)
  {
    forall i | 0 <= i < |s| ensures s[i] != '\n' && s[i] != '\r' {
      assert SpaceWidth(s[i..]) == 0 && s[i..][0] == s[i];
    }
  }

  // strings.Trim(s, cut) for a single cut character
  function TrimLeftChar(s: Text, c: char): Text {
    if s != "" && s[0] == c then TrimLeftChar(s[1..], c) else s
  }

  function TrimRightChar(s: Text, c: char): Text {
    if s != "" && s[|s| - 1] == c then TrimRightChar(s[..|s| - 1], c) else s
  }

  function TrimChar(s: Text, c: char): Text { TrimRightChar(TrimLeftChar(s, c), c) }

  predicate BareEnds(s: Text, c: char) {
    s == "" || (s[0] != c && s[|s| - 1] != c)
  }

  lemma {:induction false} TrimLeftCharSuffix(s: Text, c: char) returns (k: nat)
    ensures k <= |s| && TrimLeftChar(s, c) == s[k..]
    ensures k == 0 <==> s == "" || s[0] != c
  {
    if s != "" && s[0] == c {
      var j := TrimLeftCharSuffix(s[1..], c);
      k := j + 1;
      assert s[1..][j..] == s[k..];
    } else {
      k := 0;
    }
  }

  lemma {:induction false} TrimRightCharPrefix(s: Text, c: char) returns (k: nat)
    ensures k <= |s| && TrimRightChar(s, c) == s[..k]
    ensures k == |s| <==> s == "" || s[|s| - 1] != c
  {
    if s != "" && s[|s| - 1] == c {
      k := TrimRightCharPrefix(s[..|s| - 1], c);
      assert s[..|s| - 1][..k] == s[..k];
    } else {
      k := |s|;
    }
  }

  lemma TrimCharSlice(s: Text, c: char) returns (i: nat, j: nat)
    ensures i <= j <= |s| && TrimChar(s, c) == s[i..j]
    ensures BareEnds(s, c) <==> TrimChar(s, c) == s
  {
    i := TrimLeftCharSuffix(s, c);
    var k := TrimRightCharPrefix(s[i..], c);
    j := i + k;
    assert s[i..][..k] == s[i..j];
  }

  // ---- decimals --------------------------------------------------------------------

  predicate IsDigit(c: char) { '0' <= c <= '9' }

  function Digit(d: int): char
    requires 0 <= d < 10
  {
    '0' + d as char
  }

  // %d of a natural number
  function Decimal(n: nat): (s: Text)
    ensures s != ""
  {
    if n < 10 then [Digit(n)] else Decimal(n / 10) + [Digit(n % 10)]
  }

  function DigitOf(c: char): nat
    requires IsDigit(c)
  {
    c as int - '0' as int
  }

  function DigitsValue(s: Text): nat
    requires forall i :: 0 <= i < |s| ==> IsDigit(s[i])
  {
    if s == "" then 0 else DigitsValue(s[..|s| - 1]) * 10 + DigitOf(s[|s| - 1])
  }

  lemma {:induction false} DecimalValue(n: nat)
    ensures forall i :: 0 <= i < |Decimal(n)| ==> IsDigit(Decimal(n)[i])
    ensures DigitsValue(Decimal(n)) == n
  {
    if n < 10 {
      assert [Digit(n)][..0] == "";
    } else {
      DecimalValue(n / 10);
      var s := Decimal(n);
      assert s[..|s| - 1] == Decimal(n / 10);
    }
  }

  // ---- texts joined with underscores ------------------------------------------------

  function Underscores(s: Text): nat {
    if s == "" then 0 else Underscores(s[..|s| - 1]) + (if s[|s| - 1] == '_' then 1 else 0)
  }

  // The last parts of two equal joined texts agree if they have equally many
  // underscores.
  lemma {:induction false} LastPartUnique(a: Text, b: Text, c: Text, d: Text)
    requires a + "_" + b == c + "_" + d && Underscores(b) == Underscores(d)
    ensures a == c && b == d
  {
    var s, t := a + "_" + b, c + "_" + d;
    assert b != "" ==> s[|s| - 1] == b[|b| - 1];
    assert b != "" ==> Underscores(b) == Underscores(b[..|b| - 1]) + (if s[|s| - 1] == '_' then 1 else 0);
    assert d != "" ==> t[|t| - 1] == d[|d| - 1];
    assert d != "" ==> Underscores(d) == Underscores(d[..|d| - 1]) + (if t[|t| - 1] == '_' then 1 else 0);
    assert b == "" ==> s[|s| - 1] == '_';
    assert d == "" ==> t[|t| - 1] == '_';
    if b == "" {
      assert a == s[..|s| - 1];
      assert c + "_" + d == t && d == "" ==> c == t[..|t| - 1];
    } else if d != "" {
      assert s[|s| - 1] == b[|b| - 1] && t[|t| - 1] == d[|d| - 1];
      assert s[..|s| - 1] == a + "_" + b[..|b| - 1];
      assert t[..|t| - 1] == c + "_" + d[..|d| - 1];
      LastPartUnique(a, b[..|b| - 1], c, d[..|d| - 1]);
      assert b == b[..|b| - 1] + [b[|b| - 1]] && d == d[..|d| - 1] + [d[|d| - 1]];
    }
  }

  lemma {:induction false} DigitsHaveNoUnderscore(s: Text)
    requires forall i :: 0 <= i < |s| ==> IsDigit(s[i])
    ensures Underscores(s) == 0
  {
    if s != "" {
      DigitsHaveNoUnderscore(s[..|s| - 1]);
    }
  }
}
