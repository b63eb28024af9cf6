// Managed skill files: renderManagedSkill of
// modules/agent/internal/runtime/skill_tools.go and parseManagedSkillMarkdown of
// modules/agent/internal/runtime/skill_discovery.go.
module SkillFile {
  import opened Strings
  import opened Wrappers
  import opened JsonText

  const MAX_DESCRIPTION_BYTES: nat := 4 * 1024
  const MAX_INSTRUCTIONS_BYTES: nat := 256 * 1024

  datatype Skill = Skill(name: Text, description: Text, instructions: Text)

  datatype RenderError = BadName | NoDescription | DescriptionTooLong | NoInstructions | InstructionsTooLong

  datatype ParseError = MissingFrontmatter | UnclosedFrontmatter | MissingDescription

  predicate IsNameStart(c: char) { 'a' <= c <= 'z' || '0' <= c <= '9' }

  // ^[a-z0-9][a-z0-9-]{0,63}$
  predicate IsSkillName(name: Text) {
    && 1 <= |name| <= 64 && IsNameStart(name[0])
    && forall k :: 0 <= k < |name| ==> IsNameStart(name[k]) || name[k] == '-'
  }

  function RenderSkill(name: Text, description: Text, instructions: Text): Result<Text, RenderError> {
    var n, d, i := TrimSpace(name), TrimSpace(description), TrimSpace(instructions);
    if !IsSkillName(n) then Err(BadName)
    else if d == "" then Err(NoDescription)
    else if |d| > MAX_DESCRIPTION_BYTES then Err(DescriptionTooLong)
    else if i == "" then Err(NoInstructions)
    else if |i| > MAX_INSTRUCTIONS_BYTES then Err(InstructionsTooLong)
    else Ok("---\nname: " + n + "\ndescription: " + Quote(d) + "\n---\n\n" + i + "\n")
  }

  // strings.Index
  function Index(s: Text, t: Text): (r: int)
    ensures r == -1 || OccursAt(s, t, r)
    ensures forall k :: 0 <= k < (if r == -1 then |s| + 1 else r) ==> !OccursAt(s, t, k)
  {
    if OccursAt(s, t, 0) then 0
    else if s == "" then -1
    else
      var r := Index(s[1..], t);
      assert forall k :: 1 <= k <= |s| ==> (OccursAt(s, t, k) <==> OccursAt(s[1..], t, k - 1)) by {
        forall k | 1 <= k <= |s| ensures OccursAt(s, t, k) <==> OccursAt(s[1..], t, k - 1) {
          if k <= |s| - |t| { assert s[1..][k - 1..k - 1 + |t|] == s[k..k + |t|]; }
        }
      }
      if r == -1 then -1 else r + 1
  }

  function FirstValue(lines: seq<Text>, prefix: Text): Text {
    if lines == [] then ""
    else
      var line := TrimSpace(lines[0]);
      if !HasPrefix(line, prefix) then FirstValue(lines[1..], prefix)
      else TrimSpace(TrimPrefix(line, prefix))
  }

  function FrontmatterValue(front: Text, key: Text): Text { FirstValue(Split(front), key + ":") }

  predicate IsQuoteMark(c: char) { c == '"' || c == '\'' }

  function TrimQuotesLeft(s: Text): Text {
    if s != "" && IsQuoteMark(s[0]) then TrimQuotesLeft(s[1..]) else s
  }

  function TrimQuotesRight(s: Text): Text {
    if s != "" && IsQuoteMark(s[|s| - 1]) then TrimQuotesRight(s[..|s| - 1]) else s
  }

  // A JSON string, or the plain text of a file edited by hand.
  function DecodeDescription(value: Text): Text {
    var raw := TrimSpace(value);
    if raw == "" then ""
    else
      match DecodeString(raw)
      case Some(text) => TrimSpace(text)
      case None => TrimQuotesRight(TrimQuotesLeft(raw))
  }

  const BOM: Text := "\U{EF}\U{BB}\U{BF}"

  function ParseSkill(content: Text): Result<Skill, ParseError> {
    var text := TrimPrefix(CrlfToLf(content), BOM);
    if !HasPrefix(text, "---\n") then Err(MissingFrontmatter)
    else
      var rest := TrimPrefix(text, "---\n");
      var end := Index(rest, "\n---\n");
      if end < 0 then
        if HasSuffix(rest, "\n---") then
          var front := rest[..|rest| - 4];
          Ok(Skill(FrontmatterValue(front, "name"), DecodeDescription(FrontmatterValue(front, "description")), ""))
        else Err(UnclosedFrontmatter)
      else
        var front := rest[..end];
        var description := DecodeDescription(FrontmatterValue(front, "description"));
        if description == "" then Err(MissingDescription)
        else Ok(Skill(FrontmatterValue(front, "name"), description, TrimSpace(rest[end + 5..])))
  }

  // ---- trimming ------------------------------------------------------------------------------

  predicate Trimmed(s: Text) {
    SpaceWidth(s) == 0 && !EndsInSpace(s, 1) && !EndsInSpace(s, 2) && !EndsInSpace(s, 3)
  }

  lemma TrimmedStays(s: Text)
    requires Trimmed(s)
    ensures TrimSpace(s) == s
  {
  }

  lemma SpaceWidthOfPrefix(s: Text, k: nat)
    requires k <= |s| && SpaceWidth(s) == 0
    ensures SpaceWidth(s[..k]) == 0
  {
  }

  lemma {:induction false} TrimLeftStarts(s: Text)
    ensures SpaceWidth(TrimLeft(s)) == 0
  {
    if SpaceWidth(s) > 0 { TrimLeftStarts(s[SpaceWidth(s)..]); }
  }

  // The width of the space that TrimRight cuts first; 0 if there is none.
  function LastSpace(s: Text): (w: nat)
    ensures w <= |s| && w <= 3 && (w > 0 ==> EndsInSpace(s, w) && SpaceWidth(s[|s| - w..]) == w)
    ensures TrimRight(s) == if w == 0 then s else TrimRight(s[..|s| - w])
    ensures w == 0 ==> !EndsInSpace(s, 1) && !EndsInSpace(s, 2) && !EndsInSpace(s, 3)
  {
    if EndsInSpace(s, 1) then 1 else if EndsInSpace(s, 2) then 2 else if EndsInSpace(s, 3) then 3 else 0
  }

  lemma {:induction false} TrimRightEnds(s: Text)
    requires SpaceWidth(s) == 0
    ensures Trimmed(TrimRight(s)) && TrimRight(s) <= s
    decreases |s|
  {
    hide SpaceWidth, EndsInSpace;
    var w := LastSpace(s);
    if w > 0 {
      SpaceWidthOfPrefix(s, |s| - w);
      TrimRightEnds(s[..|s| - w]);
    }
  }

  lemma TrimSpaceTrims(s: Text)
    ensures Trimmed(TrimSpace(s)) && |TrimSpace(s)| <= |s|
  {
    TrimLeftStarts(s);
    TrimRightEnds(TrimLeft(s));
  }

  predicate IsGraphic(c: char) { '!' <= c <= '~' }

  // A text between two visible ASCII characters.
  predicate Bounded(s: Text) { s != "" && IsGraphic(s[0]) && IsGraphic(s[|s| - 1]) }

  lemma EndsGraphic(s: Text)
    requires s != "" && IsGraphic(s[|s| - 1])
    ensures SpaceWidth(s) != |s|
  {
  }

  lemma NoSpaceAtEnd(s: Text, w: nat)
    requires s != "" && IsGraphic(s[|s| - 1])
    ensures !EndsInSpace(s, w)
  {
    hide SpaceWidth, IsGraphic;
    if 1 <= w <= |s| {
      var t := s[|s| - w..];
      assert |t| == w && t[w - 1] == s[|s| - 1];
      EndsGraphic(t);
    }
  }

  lemma StartsGraphic(s: Text)
    requires s != "" && IsGraphic(s[0])
    ensures SpaceWidth(s) == 0
  {
  }

  lemma BoundedIsTrimmed(s: Text)
    requires Bounded(s)
    ensures Trimmed(s)
  {
    hide SpaceWidth, EndsInSpace, IsGraphic;
    NoSpaceAtEnd(s, 1);
    NoSpaceAtEnd(s, 2);
    NoSpaceAtEnd(s, 3);
    StartsGraphic(s);
  }

  lemma LeadingSpaceGoes(c: char, s: Text)
    requires c == ' ' || c == '\n'
    ensures TrimLeft([c] + s) == TrimLeft(s)
  {
    assert ([c] + s)[1..] == s;
  }

  lemma TrailingNewlineGoes(s: Text)
    ensures TrimRight(s + "\n") == TrimRight(s)
  {
    assert (s + "\n")[|s|..] == "\n" && (s + "\n")[..|s|] == s;
  }

  lemma NewlineMakesNoSpace(s: Text)
    requires SpaceWidth(s) == 0 && s != ""
    ensures SpaceWidth(s + "\n") == 0
  {
  }

  // Trimming undoes the spacing around a field and around the body.
  lemma SpacedIsTrimmed(s: Text)
    requires Trimmed(s) && s != ""
    ensures TrimSpace(" " + s) == s && TrimSpace("\n" + s + "\n") == s
  {
    LeadingSpaceGoes(' ', s);
    assert TrimLeft(s) == s && TrimRight(s) == s;
    assert "\n" + s + "\n" == ['\n'] + (s + "\n");
    LeadingSpaceGoes('\n', s + "\n");
    NewlineMakesNoSpace(s);
    TrailingNewlineGoes(s);
  }

  lemma {:induction false} TrimLeftIsSuffix(s: Text)
    ensures TrimLeft(s) != "" ==> s != "" && TrimLeft(s)[|TrimLeft(s)| - 1] == s[|s| - 1]
  {
    var w := SpaceWidth(s);
    if w > 0 { TrimLeftIsSuffix(s[w..]); }
  }

  lemma BodyIsShorter(s: Text)
    ensures |TrimSpace("\n" + s + "\n")| <= |s|
  {
    hide SpaceWidth, EndsInSpace;
    var t := TrimLeft(s + "\n");
    assert "\n" + s + "\n" == ['\n'] + (s + "\n");
    LeadingSpaceGoes('\n', s + "\n");
    TrimLeftStarts(s + "\n");
    if t == "" {
      TrimRightEnds(t);
    } else {
      TrimLeftIsSuffix(s + "\n");
      var u := t[..|t| - 1];
      assert t == u + "\n";
      TrailingNewlineGoes(u);
      SpaceWidthOfPrefix(t, |t| - 1);
      TrimRightEnds(u);
    }
  }

  // ---- line endings ------------------------------------------------------------------------------

  // No CRLF arises where `b` is put behind `a`.
  predicate Meets(a: Text, b: Text) { a == "" || a[|a| - 1] != '\r' || b == "" || b[0] != '\n' }

  lemma StartsAppend(a: Text, b: Text)
    requires a != "" && Meets(a, b)
    ensures StartsCrlf(a + b) <==> StartsCrlf(a)
    ensures Meets(a[if StartsCrlf(a) then 2 else 1..], b)
  {
  }

  lemma CrlfAppendStep(a: Text, b: Text, k: nat)
    requires a != "" && k == (if StartsCrlf(a) then 2 else 1) && k <= |a| && (StartsCrlf(a + b) <==> StartsCrlf(a))
    requires CrlfToLf(a[k..] + b) == CrlfToLf(a[k..]) + CrlfToLf(b)
    ensures CrlfToLf(a + b) == CrlfToLf(a) + CrlfToLf(b)
  {
    hide CrlfToLf, StartsCrlf;
    CrlfStep(a);
    CrlfStep(a + b);
    assert (a + b)[0] == a[0] && (a + b)[k..] == a[k..] + b;
  }

  lemma {:induction false} CrlfAppend(a: Text, b: Text)
    requires Meets(a, b)
    ensures CrlfToLf(a + b) == CrlfToLf(a) + CrlfToLf(b)
  {
    if a == "" {
      assert a + b == b;
    } else {
      var k := if StartsCrlf(a) then 2 else 1;
      hide CrlfToLf, Meets;
      StartsAppend(a, b);
      CrlfAppend(a[k..], b);
      CrlfAppendStep(a, b, k);
    }
  }

  predicate HasCrlf(s: Text) { exists i :: 0 <= i < |s| - 1 && s[i] == '\r' && s[i + 1] == '\n' }

  lemma ContainsCrlf(s: Text)
    ensures Contains(s, "\r\n") <==> HasCrlf(s)
  {
    if i :| 0 <= i < |s| - 1 && s[i] == '\r' && s[i + 1] == '\n' {
      assert s[i..i + 2] == "\r\n";
      assert OccursAt(s, "\r\n", i);
    }
    if i :| 0 <= i <= |s| && OccursAt(s, "\r\n", i) {
      assert s[i..i + 2][0] == s[i] && s[i..i + 2][1] == s[i + 1];
    }
  }

  // Replacing CRLF leaves a text alone exactly when it has none, and shortens
  // it otherwise.
  lemma {:induction false} CrlfExactly(s: Text)
    ensures HasCrlf(s) ==> |CrlfToLf(s)| < |s|
    ensures !HasCrlf(s) ==> CrlfToLf(s) == s
    ensures |CrlfToLf(s)| <= |s|
  {
    if |s| >= 2 && s[0] == '\r' && s[1] == '\n' {
      CrlfExactly(s[2..]);
    } else if s != "" {
      var t := s[1..];
      CrlfExactly(t);
      assert s == [s[0]] + t;
      assert forall i :: 0 <= i < |t| ==> t[i] == s[i + 1];
      assert HasCrlf(s) ==> HasCrlf(t) by {
        if i :| 0 <= i < |s| - 1 && s[i] == '\r' && s[i + 1] == '\n' {
          assert t[i - 1] == '\r' && t[i] == '\n';
        }
      }
      assert HasCrlf(t) ==> HasCrlf(s) by {
        if i :| 0 <= i < |t| - 1 && t[i] == '\r' && t[i + 1] == '\n' {
          assert s[i + 1] == '\r' && s[i + 2] == '\n';
        }
      }
    }
  }

  // ---- parsing what was rendered -------------------------------------------------------------------

  function Front(name: Text, raw: Text): Text { "name: " + name + "\n" + "description: " + raw }

  function Rendered(name: Text, raw: Text, body: Text): Text {
    "---\n" + Front(name, raw) + "\n---\n" + "\n" + body + "\n"
  }

  predicate IsField(s: Text) { Bounded(s) && OneLine(s) }

  lemma FieldLine(key: Text, value: Text)
    requires IsField(key) && IsField(value)
    ensures var line := key + ": " + value;
      TrimSpace(line) == line && OneLine(line) && HasPrefix(line, key + ":")
      && TrimSpace(TrimPrefix(line, key + ":")) == value
  {
    hide TrimSpace, Trimmed;
    var line := key + ": " + value;
    BoundedIsTrimmed(line);
    TrimmedStays(line);
    assert line == (key + ":") + (" " + value);
    BoundedIsTrimmed(value);
    SpacedIsTrimmed(value);
  }

  lemma FrontValues(name: Text, raw: Text)
    requires IsField(name) && IsField(raw)
    ensures FrontmatterValue(Front(name, raw), "name") == name
    ensures FrontmatterValue(Front(name, raw), "description") == raw
  {
    hide TrimSpace;
    var first, second := "name" + ": " + name, "description" + ": " + raw;
    FieldLine("name", name);
    FieldLine("description", raw);
    assert "name" + ": " == "name: " && "description" + ": " == "description: ";
    SplitLine(first, second);
    SplitLine(second, "");
    assert Front(name, raw) == first + "\n" + second;
    assert Split(Front(name, raw)) == [first] + [second];
    assert [first, second][1..] == [second] && [second][1..] == [];
    assert !HasPrefix(first, "description:") by { assert first[0] == 'n'; }
    assert "name" + ":" == "name:" && "description" + ":" == "description:";
    assert FirstValue([second], "description:") == raw;
    assert FirstValue([first, second], "description:") == FirstValue([second], "description:");
  }

  lemma FrontNewline(name: Text, raw: Text)
    requires OneLine(name) && OneLine(raw)
    ensures forall k :: 0 <= k < |Front(name, raw)| && Front(name, raw)[k] == '\n' ==> k == |"name: " + name|
    ensures Front(name, raw)[|"name: " + name| + 1] == 'd'
  {
    var front, first, second := Front(name, raw), "name: " + name, "description: " + raw;
    assert front == first + "\n" + second;
    assert OneLine("name: ") && OneLine("description: ");
    assert OneLine(first) && OneLine(second);
    assert forall k :: 0 <= k < |first| ==> front[k] == first[k] && first[k] in first;
    assert forall k :: |first| < k < |front| ==> front[k] == second[k - |first| - 1] && front[k] in second;
    assert front[|first| + 1] == second[0];
  }

  lemma NotTheEnd(s: Text, k: nat)
    requires k + 1 < |s| && (s[k] != '\n' || s[k + 1] != '-')
    ensures !OccursAt(s, "\n---\n", k)
  {
    assert k + 5 <= |s| ==> s[k..k + 5][0] == s[k] && s[k..k + 5][1] == s[k + 1];
  }

  // The front matter is closed where rendering closed it, whatever the body holds.
  lemma FrontEnds(name: Text, raw: Text, body: Text)
    requires IsField(name) && IsField(raw)
    ensures var front := Front(name, raw);
      Index(front + "\n---\n" + body, "\n---\n") == |front|
  {
    hide Front;
    var front := Front(name, raw);
    var rest := front + "\n---\n" + body;
    assert rest[|front|..|front| + 5] == "\n---\n";
    assert OccursAt(rest, "\n---\n", |front|);
    FrontNewline(name, raw);
    assert forall k :: 0 <= k < |front| ==> rest[k] == front[k];
    forall k | 0 <= k < |front| ensures !OccursAt(rest, "\n---\n", k) {
      NotTheEnd(rest, k);
    }
  }

  lemma RenderedParses(content: Text, name: Text, raw: Text, body: Text)
    requires IsField(name) && IsField(raw) && CrlfToLf(content) == Rendered(name, raw, body)
    ensures var d := DecodeDescription(raw);
      ParseSkill(content) == if d == "" then Err(MissingDescription)
                             else Ok(Skill(name, d, TrimSpace("\n" + body + "\n")))
  {
    hide TrimSpace, DecodeDescription, FrontmatterValue, CrlfToLf, Front;
    var text, front := Rendered(name, raw, body), Front(name, raw);
    var after := "\n" + body + "\n";
    assert text[0] == '-' && !HasPrefix(text, BOM);
    assert text == "---\n" + (front + "\n---\n" + after);
    var rest := TrimPrefix(text, "---\n");
    assert rest == front + "\n---\n" + after;
    FrontEnds(name, raw, after);
    assert rest[..|front|] == front && rest[|front| + 5..] == after;
    FrontValues(name, raw);
  }

  // A front matter at the end of the file may be closed without a newline; then
  // there are no instructions, and an empty description is not refused.
  lemma ClosedAtEnd(content: Text, name: Text, raw: Text)
    requires IsField(name) && IsField(raw) && CrlfToLf(content) == "---\n" + Front(name, raw) + "\n---"
    ensures ParseSkill(content) == Ok(Skill(name, DecodeDescription(raw), ""))
  {
    hide DecodeDescription, FrontmatterValue, CrlfToLf, Front;
    var front := Front(name, raw);
    var text, rest := "---\n" + front + "\n---", front + "\n---";
    assert text == "---\n" + rest && text[0] == '-' && !HasPrefix(text, BOM);
    assert TrimPrefix(text, "---\n") == rest;
    FrontEnds(name, raw, "");
    NotClosedBefore(front, rest);
    assert Index(rest, "\n---\n") == -1;
    assert HasSuffix(rest, "\n---") && rest[..|rest| - 4] == front;
    FrontValues(name, raw);
  }

  lemma NotClosedBefore(front: Text, rest: Text)
    requires rest == front + "\n---" && Index(front + "\n---\n" + "", "\n---\n") == |front|
    ensures forall k :: 0 <= k <= |rest| ==> !OccursAt(rest, "\n---\n", k)
  {
    var whole := front + "\n---\n" + "";
    forall k | 0 <= k <= |rest| ensures !OccursAt(rest, "\n---\n", k) {
      if OccursAt(rest, "\n---\n", k) {
        assert whole[k..k + 5] == rest[k..k + 5];
        assert OccursAt(whole, "\n---\n", k) && k < |front|;
        assert false;
      }
    }
  }

  // A file without front matter, or whose front matter is not closed, is refused.
  lemma RefusedFrontmatter(content: Text)
    requires !HasPrefix(CrlfToLf(content), BOM)
    ensures var text := CrlfToLf(content);
      && (!HasPrefix(text, "---\n") ==> ParseSkill(content) == Err(MissingFrontmatter))
      && (HasPrefix(text, "---\n") && !Contains(text[4..], "\n---\n") && !HasSuffix(text[4..], "\n---") ==>
            ParseSkill(content) == Err(UnclosedFrontmatter))
  {
    hide CrlfToLf, TrimSpace, DecodeDescription, FrontmatterValue;
    var text := CrlfToLf(content);
    if HasPrefix(text, "---\n") {
      assert TrimPrefix(text, "---\n") == text[4..];
      var end := Index(text[4..], "\n---\n");
      assert end >= 0 ==> OccursAt(text[4..], "\n---\n", end);
    }
  }

  lemma QuotesGo(d: Text)
    requires d != "" && !IsQuoteMark(d[0]) && !IsQuoteMark(d[|d| - 1])
    ensures TrimQuotesRight(TrimQuotesLeft(d)) == d && TrimQuotesRight(TrimQuotesLeft("'" + d + "'")) == d
  {
    var quoted, open := "'" + d + "'", d + "'";
    assert quoted[0] == '\'' && quoted[1..] == open && open[0] == d[0];
    assert TrimQuotesLeft(quoted) == TrimQuotesLeft(open) == open;
    assert open[|d|] == '\'' && open[..|d|] == d;
    assert TrimQuotesRight(open) == TrimQuotesRight(d) == d;
  }

  lemma NotALiteral(s: Text)
    requires s != "" && s[0] != '"'
    ensures DecodeString(s) == if s == "null" then Some("") else None
  {
  }

  // A description written by hand stands for itself, with or without single
  // quotes around it; the bare word null stands for nothing.
  lemma HandWritten(d: Text)
    requires Bounded(d) && !IsQuoteMark(d[0]) && !IsQuoteMark(d[|d| - 1])
    ensures DecodeDescription(d) == if d == "null" then "" else d
    ensures DecodeDescription("'" + d + "'") == d
  {
    var quoted := "'" + d + "'";
    assert quoted[0] == '\'' && "null"[0] == 'n' && Bounded(quoted);
    hide TrimSpace, DecodeString, TrimQuotesLeft, TrimQuotesRight, Trimmed, Bounded;
    BoundedIsTrimmed(d);
    TrimmedStays(d);
    BoundedIsTrimmed(quoted);
    TrimmedStays(quoted);
    NothingToTrim();
    NotALiteral(d);
    NotALiteral(quoted);
    QuotesGo(d);
  }

  lemma NothingToTrim()
    ensures TrimSpace("") == ""
  {
  }

  // A byte order mark in front of a file is ignored.
  lemma BomIsIgnored(content: Text)
    requires !HasPrefix(CrlfToLf(content), BOM)
    ensures ParseSkill(BOM + content) == ParseSkill(content)
  {
    assert Meets(BOM, content) && NoCr(BOM);
    var text := CrlfToLf(content);
    assert TrimPrefix(BOM + text, BOM) == text == TrimPrefix(text, BOM);
    hide CrlfToLf, TrimPrefix, Meets, NoCr;
    CrlfAppend(BOM, content);
    CrlfToLfIdentity(BOM);
  }

  // ---- the round trip ---------------------------------------------------------------------------------

  lemma SkillNameIsField(name: Text)
    requires IsSkillName(name)
    ensures IsField(name) && NoCr(name)
  {
  }

  lemma QuoteIsField(s: Text)
    ensures IsField(Quote(s)) && NoCr(Quote(s))
  {
    QuoteNoControls(s);
    assert Quote(s)[0] == '"' && Quote(s)[|Quote(s)| - 1] == '"';
  }

  lemma NoCrConcat(a: Text, b: Text)
    requires NoCr(a) && NoCr(b)
    ensures NoCr(a + b)
  {
  }

  // Everything before the body.
  function Head(name: Text, raw: Text): Text { "---\n" + Front(name, raw) + "\n---\n" + "\n" }

  lemma HeadHasNoCr(name: Text, raw: Text)
    requires NoCr(name) && NoCr(raw)
    ensures NoCr(Head(name, raw))
  {
    NoCrConcat("name: ", name);
    NoCrConcat("name: " + name, "\n");
    NoCrConcat("name: " + name + "\n", "description: ");
    NoCrConcat("name: " + name + "\n" + "description: ", raw);
    NoCrConcat("---\n", Front(name, raw));
    NoCrConcat("---\n" + Front(name, raw), "\n---\n");
    NoCrConcat("---\n" + Front(name, raw) + "\n---\n", "\n");
  }

  // Replacing line endings reaches into the body only.
  lemma RenderedLineEndings(name: Text, raw: Text, body: Text)
    requires NoCr(name) && NoCr(raw) && Trimmed(body)
    ensures CrlfToLf(Rendered(name, raw, body)) == Rendered(name, raw, CrlfToLf(body))
  {
    var head := Head(name, raw);
    assert head != "" && head[|head| - 1] == '\n' && NoCr("\n");
    assert forall b: Text :: Rendered(name, raw, b) == head + (b + "\n");
    hide CrlfToLf, Head, Rendered, Trimmed, NoCr;
    HeadHasNoCr(name, raw);
    CrlfToLfIdentity(head);
    CrlfAppend(head, body + "\n");
    TrimmedEnd(body);
    CrlfAppend(body, "\n");
    CrlfToLfIdentity("\n");
  }

  lemma TrimmedEnd(s: Text)
    requires Trimmed(s)
    ensures s != "" ==> s[|s| - 1] != '\r' && s[|s| - 1] != '\n'
  {
    assert s != "" ==> s[|s| - 1..][0] == s[|s| - 1];
  }

  // ---- trimming keeps UTF-8 ---------------------------------------------------------------------

  lemma SpaceIsRune(s: Text)
    requires SpaceWidth(s) > 0
    ensures RuneWidth(s) == SpaceWidth(s) && !IsContinuation(s[0])
  {
  }

  lemma {:induction false} ValidPrefix(a: Text, b: Text)
    requires ValidUtf8(a + b) && b != "" && !IsContinuation(b[0])
    ensures ValidUtf8(a)
  {
    if a != "" {
      var s := a + b;
      var w := RuneWidth(s);
      assert w <= |a| by {
        if w > |a| {
          assert s[|a|] == b[0];
          LaterBytesContinue(s, |a|);
          assert false;
        }
      }
      assert s[..w] == a[..w] && s[w..] == a[w..] + b;
      WidthOfPrefix(s, a[w..]);
      assert s[..w] + a[w..] == a;
      ValidPrefix(a[w..], b);
    }
  }

  lemma LaterBytesContinue(s: Text, k: nat)
    requires 0 < k < RuneWidth(s)
    ensures IsContinuation(s[k])
  {
  }

  lemma {:induction false} TrimLeftValid(s: Text)
    requires ValidUtf8(s)
    ensures ValidUtf8(TrimLeft(s))
  {
    if SpaceWidth(s) > 0 {
      SpaceIsRune(s);
      TrimLeftValid(s[SpaceWidth(s)..]);
    }
  }

  lemma {:induction false} TrimRightValid(s: Text)
    requires ValidUtf8(s)
    ensures ValidUtf8(TrimRight(s))
    decreases |s|
  {
    hide SpaceWidth, ValidUtf8, EndsInSpace;
    var w := LastSpace(s);
    if w > 0 {
      var a, b := s[..|s| - w], s[|s| - w..];
      assert a + b == s && SpaceWidth(b) == w;
      SpaceIsRune(b);
      ValidPrefix(a, b);
      TrimRightValid(a);
    }
  }

  // The skill that was given, trimmed.
  function Given(name: Text, description: Text, instructions: Text): Skill {
    Skill(TrimSpace(name), TrimSpace(description), TrimSpace(instructions))
  }

  lemma RenderedIs(name: Text, description: Text, instructions: Text)
    requires RenderSkill(name, description, instructions).Ok?
    ensures var g := Given(name, description, instructions);
      && IsSkillName(g.name) && g.description != "" && g.instructions != ""
      && RenderSkill(name, description, instructions).value == Rendered(g.name, Quote(g.description), g.instructions)
  {
    hide TrimSpace, Quote;
    var g := Given(name, description, instructions);
    var n, q, i := g.name, Quote(g.description), g.instructions;
    assert "---\nname: " == "---\n" + "name: " && "\ndescription: " == "\n" + "description: ";
    assert "\n---\n\n" == "\n---\n" + "\n";
    assert "---\nname: " + n + "\ndescription: " + q + "\n---\n\n" + i + "\n"
        == "---\n" + ("name: " + n + "\n" + "description: " + q) + "\n---\n" + "\n" + i + "\n";
  }

  // What can be rendered: after trimming, a name of 1 to 64 lower-case letters,
  // digits and hyphens that does not begin with a hyphen, a description of 1 to
  // 4096 bytes, and instructions of 1 to 262144 bytes.
  lemma RendersExactly(name: Text, description: Text, instructions: Text)
    ensures var g := Given(name, description, instructions);
      RenderSkill(name, description, instructions).Ok? <==>
        && 1 <= |g.name| <= 64 && g.name[0] != '-'
        && (forall k :: 0 <= k < |g.name| ==> 'a' <= g.name[k] <= 'z' || '0' <= g.name[k] <= '9' || g.name[k] == '-')
        && 1 <= |g.description| <= 4096 && 1 <= |g.instructions| <= 262144
  {
    hide TrimSpace, Quote;
  }

  // Parsing a rendered skill gives back the trimmed name, description and
  // instructions exactly when the description is UTF-8 and the instructions
  // hold no CRLF, whatever else they hold, a front matter of their own included.
  lemma SkillRoundTripExactly(name: Text, description: Text, instructions: Text)
    requires RenderSkill(name, description, instructions).Ok?
    ensures var g := Given(name, description, instructions);
      ParseSkill(RenderSkill(name, description, instructions).value) == Ok(g) <==>
        ValidUtf8(g.description) && !Contains(g.instructions, "\r\n")
  {
    var g := Given(name, description, instructions);
    var n, d, i := g.name, g.description, g.instructions;
    assert DecodeDescription(Quote(d)) == TrimSpace(Sanitized(d)) by {
      hide TrimSpace, Quote;
      QuoteIsField(d);
      BoundedIsTrimmed(Quote(d));
      TrimmedStays(Quote(d));
      QuoteRoundTripExactly(d);
    }
    hide TrimSpace, Quote, CrlfToLf, Sanitized, ValidUtf8, Contains, HasCrlf, ParseSkill, Trimmed;
    RenderedIs(name, description, instructions);
    SkillNameIsField(n);
    QuoteIsField(d);
    TrimSpaceTrims(description);
    TrimSpaceTrims(instructions);
    RenderedLineEndings(n, Quote(d), i);
    RenderedParses(Rendered(n, Quote(d), i), n, Quote(d), CrlfToLf(i));
    SanitizedValid(d);
    DescriptionBack(d);
    CrlfExactly(i);
    ContainsCrlf(i);
    if Contains(i, "\r\n") {
      BodyIsShorter(CrlfToLf(i));
    } else {
      SpacedIsTrimmed(i);
    }
  }

  lemma DescriptionBack(d: Text)
    requires Trimmed(d)
    ensures TrimSpace(Sanitized(d)) == d <==> ValidUtf8(d)
  {
    SanitizedValid(d);
    TrimLeftValid(Sanitized(d));
    TrimRightValid(TrimLeft(Sanitized(d)));
    if ValidUtf8(d) { TrimmedStays(d); }
  }
}
