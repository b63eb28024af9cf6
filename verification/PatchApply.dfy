// When a patch applies, what it yields, and how it is undone.
module PatchApply {
  import opened Strings
  import opened HunkHeader
  import opened UnifiedPatch
  import opened Wrappers

  // ---- when a patch applies --------------------------------------------------------

  predicate WellMarked(body: seq<Text>) {
    forall k :: 0 <= k < |body| ==> body[k] != "" && IsMarker(body[k][0])
  }

  // The lines of a hunk that must be there already ...
  function OldSide(body: seq<Text>): seq<Text> {
    if body == [] then []
    else if body[0] != "" && body[0][0] != '+' then [body[0][1..]] + OldSide(body[1..])
    else OldSide(body[1..])
  }

  // ... and the lines it leaves behind.
  function NewSide(body: seq<Text>): seq<Text> {
    if body == [] then []
    else if body[0] != "" && body[0][0] != '-' then [body[0][1..]] + NewSide(body[1..])
    else NewSide(body[1..])
  }

  function End(h: Hunk): int { Target(h) + |OldSide(h.lines)| }

  // The hunks are in order, do not overlap, lie inside the file, and their
  // context and removed lines are what the file has there.
  predicate Fits(lines: seq<Text>, from: nat, hunks: seq<Hunk>)
    decreases |hunks|
  {
    hunks == [] ||
    var h := hunks[0];
    && from <= Target(h) && End(h) <= |lines|
    && WellMarked(h.lines)
    && lines[Target(h)..End(h)] == OldSide(h.lines)
    && Fits(lines, End(h), hunks[1..])
  }

  // The lines from `from` on with every hunk's old side replaced by its new side.
  function Patched(lines: seq<Text>, from: nat, hunks: seq<Hunk>): seq<Text>
    requires from <= |lines| && Fits(lines, from, hunks)
    decreases |hunks|
  {
    if hunks == [] then lines[from..]
    else
      var h := hunks[0];
      lines[from..Target(h)] + NewSide(h.lines) + Patched(lines, End(h), hunks[1..])
  }

  lemma {:induction false} BodyApplies(lines: seq<Text>, at: nat, body: seq<Text>)
    requires at <= |lines|
    ensures var n, r := at + |OldSide(body)|, ApplyBody(lines, at, body);
      && (r.Ok? <==> WellMarked(body) && n <= |lines| && lines[at..n] == OldSide(body))
      && (r.Ok? ==> r.value == Progress(NewSide(body), n))
    decreases |body|
  {
    if body != [] {
      var rest := body[1..];
      assert WellMarked(body) <==> body[0] != "" && IsMarker(body[0][0]) && WellMarked(rest) by {
        assert body == [body[0]] + rest;
      }
      if body[0] != "" {
        if body[0][0] == '+' {
          BodyApplies(lines, at, rest);
        } else if IsMarker(body[0][0]) && at < |lines| && lines[at] == body[0][1..] {
          BodyApplies(lines, at + 1, rest);
          var n := at + |OldSide(body)|;
          if n <= |lines| {
            assert lines[at..n] == [lines[at]] + lines[at + 1..n];
            assert lines[at..n][1..] == lines[at + 1..n] && OldSide(body)[1..] == OldSide(rest);
          }
        } else if IsMarker(body[0][0]) && at < |lines| {
          assert OldSide(body)[0] == body[0][1..];
          assert at + |OldSide(body)| <= |lines| ==> lines[at..at + |OldSide(body)|][0] == lines[at];
        }
      }
    }
  }

  lemma FitsStep(lines: seq<Text>, from: nat, hunks: seq<Hunk>)
    requires hunks != [] && from <= |lines|
    ensures var h := hunks[0];
      && (Fits(lines, from, hunks) <==>
            && from <= Target(h) && End(h) <= |lines| && WellMarked(h.lines)
            && lines[Target(h)..End(h)] == OldSide(h.lines) && Fits(lines, End(h), hunks[1..]))
      && (Fits(lines, from, hunks) ==>
            Patched(lines, from, hunks)
              == lines[from..Target(h)] + NewSide(h.lines) + Patched(lines, End(h), hunks[1..]))
  {
    hide WellMarked, OldSide, NewSide, Target;
  }

  lemma ApplyStep(lines: seq<Text>, from: nat, hunks: seq<Hunk>)
    requires hunks != [] && from <= |lines|
    ensures var h, t, r := hunks[0], Target(hunks[0]), ApplyHunks(lines, from, hunks);
      if t < from || t > |lines| then r.Err?
      else
        match ApplyBody(lines, t, h.lines)
        case Err(_) => r.Err?
        case Ok(p) =>
          match ApplyHunks(lines, p.oldIndex, hunks[1..])
          case Err(_) => r.Err?
          case Ok(more) => r == Ok(lines[from..t] + p.newLines + more)
  {
    hide ApplyBody, Target;
  }

  // applyFilePatch succeeds exactly on patches that fit, and then replaces
  // each hunk's old side by its new side and nothing else.
  lemma {:induction false} AppliesExactlyWhenItFits(lines: seq<Text>, from: nat, hunks: seq<Hunk>)
    requires from <= |lines|
    ensures ApplyHunks(lines, from, hunks).Ok? <==> Fits(lines, from, hunks)
    ensures Fits(lines, from, hunks) ==> ApplyHunks(lines, from, hunks).value == Patched(lines, from, hunks)
    decreases |hunks|
  {
    if hunks != [] {
      hide WellMarked, OldSide, NewSide, ApplyBody, ApplyHunks, Fits, Patched;
      var h := hunks[0];
      FitsStep(lines, from, hunks);
      ApplyStep(lines, from, hunks);
      if from <= Target(h) <= |lines| {
        BodyApplies(lines, Target(h), h.lines);
        if End(h) <= |lines| {
          AppliesExactlyWhenItFits(lines, End(h), hunks[1..]);
        }
      }
    }
  }

  lemma OneHunkAt(lines: seq<Text>, h: Hunk, from: int, to: int)
    requires from == Target(h) && to == End(h)
    ensures var fits := 0 <= from && to <= |lines| && WellMarked(h.lines) && lines[from..to] == OldSide(h.lines);
      && (ApplyHunks(lines, 0, [h]).Ok? <==> fits)
      && (fits ==> ApplyHunks(lines, 0, [h]) == Ok(lines[..from] + NewSide(h.lines) + lines[to..]))
  {
    hide ApplyHunks, OldSide, NewSide, WellMarked, Fits, Patched, Target;
    assert [h][1..] == [];
    AppliesExactlyWhenItFits(lines, 0, [h]);
    FitsStep(lines, 0, [h]);
    if 0 <= from && to <= |lines| {
      NoMoreHunks(lines, to);
      assert lines[0..from] == lines[..from];
    }
  }

  // One hunk: it applies at the line its header names, counted from 1 (0 counts
  // like 1), exactly if its old side of `m` lines stands there, and replaces it by
  // its new side.
  lemma OneHunkExactly(lines: seq<Text>, h: Hunk, n: int, m: nat)
    requires n == (if h.oldStart == 0 then 0 else h.oldStart - 1) && m == |OldSide(h.lines)|
    ensures var fits := 0 <= n && n + m <= |lines| && WellMarked(h.lines) && lines[n..n + m] == OldSide(h.lines);
      && (ApplyHunks(lines, 0, [h]).Ok? <==> fits)
      && (fits ==> ApplyHunks(lines, 0, [h]) == Ok(lines[..n] + NewSide(h.lines) + lines[n + m..]))
  {
    hide ApplyHunks, OldSide, NewSide, WellMarked;
    OneHunkAt(lines, h, n, n + m);
  }

  lemma NoMoreHunks(lines: seq<Text>, from: nat)
    requires from <= |lines|
    ensures Fits(lines, from, []) && Patched(lines, from, []) == lines[from..]
  {
  }

  // A mismatch names the line of the file, counted from 1, that the patch did not
  // find: everything before it in the hunk applied.
  lemma {:induction false} MismatchNamesItsLine(lines: seq<Text>, at: nat, body: seq<Text>) returns (k: nat)
    requires at <= |lines| && ApplyBody(lines, at, body).Err?
    requires var e := ApplyBody(lines, at, body).error; e.ContextMismatch? || e.RemoveMismatch?
    ensures k < |body| && body[k] != ""
    ensures var e, n := ApplyBody(lines, at, body).error, at + |OldSide(body[..k])|;
      && ApplyBody(lines, at, body[..k]).Ok? && n <= |lines|
      && e == (if body[k][0] == ' ' then ContextMismatch(n + 1) else RemoveMismatch(n + 1))
      && (body[k][0] == ' ' || body[k][0] == '-')
      && (n == |lines| || lines[n] != body[k][1..])
    decreases |body|
  {
    var line, rest := body[0], body[1..];
    var next := if line[0] == '+' then at else at + 1;
    if line[0] != '+' && (at >= |lines| || lines[at] != line[1..]) {
      k := 0;
      assert body[..0] == [];
    } else {
      var j := MismatchNamesItsLine(lines, next, rest);
      k := j + 1;
      assert body[..k] == [line] + rest[..j] && body[..k][1..] == rest[..j] && body[..k][0] == line;
    }
  }

  // ---- undoing a patch --------------------------------------------------------------

  function FlipLine(line: Text): Text {
    if line != "" && line[0] == '+' then "-" + line[1..]
    else if line != "" && line[0] == '-' then "+" + line[1..]
    else line
  }

  function Flip(body: seq<Text>): seq<Text> {
    if body == [] then [] else [FlipLine(body[0])] + Flip(body[1..])
  }

  // The inverse hunks: plus and minus exchanged, every start moved to where
  // the hunk's new side begins once the hunks before it are applied.
  function Invert(hunks: seq<Hunk>, shift: int): seq<Hunk> {
    if hunks == [] then []
    else
      var h := hunks[0];
      [Hunk(Target(h) + shift + 1, h.newCount, Target(h) + 1, h.oldCount, Flip(h.lines))]
      + Invert(hunks[1..], shift + Growth(h))
  }

  lemma {:induction false} FlipSides(body: seq<Text>)
    requires WellMarked(body)
    ensures WellMarked(Flip(body)) && OldSide(Flip(body)) == NewSide(body) && NewSide(Flip(body)) == OldSide(body)
  {
    if body != [] {
      FlipSides(body[1..]);
      assert FlipLine(body[0])[1..] == body[0][1..];
      assert Flip(body)[1..] == Flip(body[1..]);
      forall k | 0 <= k < |Flip(body)| ensures Flip(body)[k] != "" && IsMarker(Flip(body)[k][0]) {
        if k > 0 { assert Flip(body)[k] == Flip(body[1..])[k - 1]; }
      }
    }
  }

  function Growth(h: Hunk): int { |NewSide(h.lines)| - |OldSide(h.lines)| }

  // In `after`, the position of `before`'s `from` is `from + shift`; from there
  // on it is what the hunks make of `before`.
  ghost predicate Tracks(before: seq<Text>, from: nat, hunks: seq<Hunk>, after: seq<Text>, shift: int) {
    && from <= |before| && Fits(before, from, hunks)
    && 0 <= from + shift <= |after| && after[from + shift..] == Patched(before, from, hunks)
  }

  // The inverse of the first hunk fits, and the rest is tracked with the shift
  // the hunk causes.
  lemma InverseOfHunk(before: seq<Text>, from: nat, hunks: seq<Hunk>, after: seq<Text>, shift: int)
    requires Tracks(before, from, hunks, after, shift) && hunks != []
    ensures var h, t := hunks[0], Target(hunks[0]);
      && Tracks(before, End(h), hunks[1..], after, shift + Growth(h))
      && End(h) + shift + Growth(h) == t + shift + |NewSide(h.lines)|
      && after[from + shift..t + shift] == before[from..t]
      && after[t + shift..End(h) + shift + Growth(h)] == NewSide(h.lines)
  {
    var h := hunks[0];
    SuffixSlices(after, from + shift, before[from..Target(h)], NewSide(h.lines), Patched(before, End(h), hunks[1..]));
  }

  lemma FitsCons(lines: seq<Text>, from: nat, h: Hunk, rest: seq<Hunk>)
    requires from <= Target(h) && End(h) <= |lines| && WellMarked(h.lines)
    requires lines[Target(h)..End(h)] == OldSide(h.lines) && Fits(lines, End(h), rest)
    ensures Fits(lines, from, [h] + rest)
    ensures Patched(lines, from, [h] + rest)
         == lines[from..Target(h)] + NewSide(h.lines) + Patched(lines, End(h), rest)
  {
    assert ([h] + rest)[1..] == rest;
  }

  lemma FirstHunkFits(lines: seq<Text>, from: nat, hunks: seq<Hunk>)
    requires Fits(lines, from, hunks) && hunks != []
    ensures var h := hunks[0];
      from <= Target(h) <= End(h) <= |lines| && WellMarked(h.lines) && lines[Target(h)..End(h)] == OldSide(h.lines)
  {
  }

  lemma InverseStep(before: seq<Text>, from: nat, hunks: seq<Hunk>, after: seq<Text>, shift: int)
    requires Tracks(before, from, hunks, after, shift) && hunks != []
    requires var e := End(hunks[0]) + shift + Growth(hunks[0]);
      && 0 <= e <= |after|
      && Fits(after, e, Invert(hunks[1..], shift + Growth(hunks[0])))
      && Patched(after, e, Invert(hunks[1..], shift + Growth(hunks[0]))) == before[End(hunks[0])..]
    ensures Fits(after, from + shift, Invert(hunks, shift))
    ensures Patched(after, from + shift, Invert(hunks, shift)) == before[from..]
  {
    hide WellMarked, OldSide, NewSide, Flip, Fits, Patched;
    var h := hunks[0];
    InverseOfHunk(before, from, hunks, after, shift);
    FirstHunkFits(before, from, hunks);
    FlipSides(h.lines);
    var inv := Hunk(Target(h) + shift + 1, h.newCount, Target(h) + 1, h.oldCount, Flip(h.lines));
    assert Target(inv) == Target(h) + shift && End(inv) == End(h) + shift + Growth(h);
    FitsCons(after, from + shift, inv, Invert(hunks[1..], shift + Growth(h)));
    SplitAt(before, from, Target(h), End(h));
  }

  lemma SplitAt<T>(s: seq<T>, a: nat, b: nat, c: nat)
    requires a <= b <= c <= |s|
    ensures s[a..] == s[a..b] + s[b..c] + s[c..]
  {
  }

  lemma {:induction false} InverseRestores(before: seq<Text>, from: nat, hunks: seq<Hunk>, after: seq<Text>, shift: int)
    requires Tracks(before, from, hunks, after, shift)
    ensures Fits(after, from + shift, Invert(hunks, shift))
    ensures Patched(after, from + shift, Invert(hunks, shift)) == before[from..]
    decreases |hunks|
  {
    hide WellMarked, OldSide, NewSide, Flip;
    if hunks != [] {
      var h := hunks[0];
      InverseOfHunk(before, from, hunks, after, shift);
      InverseRestores(before, End(h), hunks[1..], after, shift + Growth(h));
      InverseStep(before, from, hunks, after, shift);
    }
  }

  lemma SuffixSlices<T>(s: seq<T>, at: nat, a: seq<T>, b: seq<T>, c: seq<T>)
    requires at <= |s| && s[at..] == a + b + c
    ensures |s| == at + |a| + |b| + |c|
    ensures s[at..at + |a|] == a
    ensures s[at + |a|..at + |a| + |b|] == b
    ensures s[at + |a| + |b|..] == c
  {
    var t := s[at..];
    assert t[..|a|] == a && t[|a|..|a| + |b|] == b && t[|a| + |b|..] == c;
    assert s[at..at + |a|] == t[..|a|];
    assert s[at + |a|..at + |a| + |b|] == t[|a|..|a| + |b|];
    assert s[at + |a| + |b|..] == t[|a| + |b|..];
  }

  // Patch inversion: undoing an applied patch gives back the original lines.
  lemma PatchInversion(before: seq<Text>, hunks: seq<Hunk>)
    requires ApplyHunks(before, 0, hunks).Ok?
    ensures ApplyHunks(ApplyHunks(before, 0, hunks).value, 0, Invert(hunks, 0)) == Ok(before)
  {
    AppliesExactlyWhenItFits(before, 0, hunks);
    var after := Patched(before, 0, hunks);
    assert after[0..] == after;
    InverseRestores(before, 0, hunks, after, 0);
    AppliesExactlyWhenItFits(after, 0, Invert(hunks, 0));
    assert before[0..] == before;
  }

  // ---- undoing a patch on a file's text ------------------------------------------------

  predicate CleanLine(line: Text) { OneLine(line) && NoCr(line) }

  // What parsing guarantees: no hunk line holds a line break of any kind.
  predicate CleanHunks(hunks: seq<Hunk>) {
    forall h :: h in hunks ==> forall line :: line in h.lines ==> CleanLine(line)
  }

  predicate CleanLines(lines: seq<Text>) {
    forall k :: 0 <= k < |lines| ==> CleanLine(lines[k])
  }

  lemma ContentLinesClean(content: Text)
    ensures CleanLines(SplitContentLines(content))
  {
    if content != "" {
      NormalizeClean(content);
      TextOfLines(Normalize(content));
      SplitNoCr(Normalize(content));
    }
  }

  lemma {:induction false} SplitNoCr(s: Text)
    requires NoCr(s)
    ensures forall k :: 0 <= k < |Split(s)| ==> NoCr(Split(s)[k])
  {
    if s != "" {
      SplitNoCr(s[1..]);
    }
  }

  lemma {:induction false} NewSideClean(body: seq<Text>)
    requires forall line :: line in body ==> CleanLine(line)
    ensures CleanLines(NewSide(body))
  {
    if body != [] {
      NewSideClean(body[1..]);
      assert CleanLine(body[0]);
    }
  }

  lemma {:induction false} PatchedClean(lines: seq<Text>, from: nat, hunks: seq<Hunk>)
    requires from <= |lines| && Fits(lines, from, hunks) && CleanLines(lines) && CleanHunks(hunks)
    ensures CleanLines(Patched(lines, from, hunks))
    decreases |hunks|
  {
    if hunks != [] {
      NewSideClean(hunks[0].lines);
      PatchedClean(lines, End(hunks[0]), hunks[1..]);
    }
  }

  lemma {:induction false} JoinNoCr(lines: seq<Text>)
    requires CleanLines(lines)
    ensures NoCr(Join(lines))
  {
    if |lines| > 1 {
      JoinNoCr(lines[1..]);
    }
  }

  // The lines of the text that applyFilePatch writes for `lines`.
  lemma RejoinedLines(content: Text, lines: seq<Text>)
    requires CleanLines(lines)
    ensures var d := Rejoin(content, lines);
      && NoCr(d)
      && (EndsWithNewline(content) && lines != [] ==> EndsWithNewline(d) && SplitContentLines(d) == lines)
      && (EndsWithNewline(content) && lines == [] ==> d == if content == "\n" then "\n" else "")
      && (!EndsWithNewline(content) && lines == [] ==> d == "")
      && (!EndsWithNewline(content) && lines != [] ==> d == Join(lines) && SplitContentLines(d) == DropLastEmpty(lines))
  {
    var d := Rejoin(content, lines);
    JoinNoCr(lines);
    NormalizeClean(d);
    assert HasSuffix(content, "\n") <==> EndsWithNewline(content);
    if lines != [] {
      if EndsWithNewline(content) {
        UnlinesIsJoin(lines);
        LinesOfUnlines(lines);
      } else {
        assert d == Join(lines);
        SplitOfJoin(lines);
        if d == "" {
          assert Split(d) == [""];
        }
      }
    }
  }

  // The text comes back: what it takes, given the lines the patch produces.
  predicate TextRestorable(content: Text, newLines: seq<Text>) {
    && NoCr(content)
    && if EndsWithNewline(content) then newLines != []
       else newLines == [] || newLines[|newLines| - 1] != ""
  }

  ghost predicate RestoresText(content: Text, patch: FilePatch) {
    match ApplyText(content, patch)
    case Ok(changed) => ApplyText(changed, patch.(hunks := Invert(patch.hunks, 0))) == Ok(content)
    case Err(_) => false
  }

  lemma {:induction false} FlipClean(body: seq<Text>)
    requires forall line :: line in body ==> CleanLine(line)
    ensures forall line :: line in Flip(body) ==> CleanLine(line)
  {
    if body != [] {
      FlipClean(body[1..]);
      assert CleanLine(body[0]);
    }
  }

  lemma {:induction false} InvertClean(hunks: seq<Hunk>, shift: int)
    requires CleanHunks(hunks)
    ensures CleanHunks(Invert(hunks, shift))
  {
    if hunks != [] {
      var h := hunks[0];
      FlipClean(h.lines);
      InvertClean(hunks[1..], shift + Growth(h));
    }
  }

  // A patch that fits a file also fits it with one more line at the end.
  lemma {:induction false} FitsLonger(lines: seq<Text>, from: nat, hunks: seq<Hunk>, extra: Text)
    requires from <= |lines| && Fits(lines, from, hunks)
    ensures Fits(lines + [extra], from, hunks)
    ensures Patched(lines + [extra], from, hunks) == Patched(lines, from, hunks) + [extra]
    decreases |hunks|
  {
    if hunks != [] {
      var h := hunks[0];
      FitsLonger(lines, End(h), hunks[1..], extra);
      assert (lines + [extra])[Target(h)..End(h)] == lines[Target(h)..End(h)];
      assert (lines + [extra])[from..Target(h)] == lines[from..Target(h)];
    }
  }

  lemma ContentOfLines(content: Text)
    requires NoCr(content)
    ensures var lines := SplitContentLines(content);
      && (EndsWithNewline(content) ==> lines != [] && content == Join(lines) + "\n")
      && (!EndsWithNewline(content) ==> content == Join(lines) && (lines == [] || lines[|lines| - 1] != ""))
  {
    NormalizeClean(content);
    TextOfLines(content);
  }

  // Undoing an applied patch restores the file's text byte for byte exactly
  // when the text has no carriage return and the final newline is not lost on
  // the way: a newline-terminated file must not become empty, and a file
  // without final newline must not get an empty last line.
  lemma TextInversionExactly(content: Text, patch: FilePatch)
    requires CleanHunks(patch.hunks)
    requires ApplyHunks(SplitContentLines(content), 0, patch.hunks).Ok?
    ensures var newLines := ApplyHunks(SplitContentLines(content), 0, patch.hunks).value;
      RestoresText(content, patch) <==> TextRestorable(content, newLines)
  {
    hide ApplyHunks, Invert, Rejoin, SplitContentLines, Fits, Patched, CleanHunks, CleanLines;
    var lines, inverse := SplitContentLines(content), Invert(patch.hunks, 0);
    var newLines := ApplyHunks(lines, 0, patch.hunks).value;
    AppliesExactlyWhenItFits(lines, 0, patch.hunks);
    ContentLinesClean(content);
    PatchedClean(lines, 0, patch.hunks);
    RejoinedLines(content, newLines);
    if TextRestorable(content, newLines) {
      RestorableIsRestored(content, patch, newLines);
    }
    if RestoresText(content, patch) {
      var d := Rejoin(content, newLines);
      var found := SplitContentLines(d);
      var back := ApplyHunks(found, 0, inverse).value;
      PatchInversion(SplitContentLines(content), patch.hunks);
      assert NoCr(content) by {
        AppliesExactlyWhenItFits(found, 0, inverse);
        ContentLinesClean(d);
        InvertClean(patch.hunks, 0);
        PatchedClean(found, 0, inverse);
        RejoinedLines(d, back);
      }
      if EndsWithNewline(content) && newLines == [] {
        RejoinedLines(content, newLines);
        EmptiedIsNotRestored(content, inverse, d, back);
      } else if !EndsWithNewline(content) && newLines != [] && newLines[|newLines| - 1] == "" {
        RejoinedLines(content, newLines);
        LostLineIsNotRestored(content, inverse, found, newLines, back);
      }
    }
  }

  // A restorable result still has all its lines, and its final newline tells
  // whether the text before had one.
  lemma RestorableLines(content: Text, newLines: seq<Text>)
    requires CleanLines(newLines) && TextRestorable(content, newLines)
    ensures var d := Rejoin(content, newLines);
      SplitContentLines(d) == newLines && (EndsWithNewline(d) <==> EndsWithNewline(content))
  {
    var d := Rejoin(content, newLines);
    RejoinedLines(content, newLines);
    if !EndsWithNewline(content) && newLines != [] {
      SplitOfJoin(newLines);
      LastOfSplit(d);
    }
  }

  lemma RejoinSame(d: Text, content: Text)
    requires NoCr(content) && (EndsWithNewline(d) <==> EndsWithNewline(content))
    ensures Rejoin(d, SplitContentLines(content)) == content
  {
    ContentOfLines(content);
    var lines := SplitContentLines(content);
    assert HasSuffix(d, "\n") <==> EndsWithNewline(d);
    assert Join(lines) + "" == Join(lines);
  }

  lemma RestorableIsRestored(content: Text, patch: FilePatch, newLines: seq<Text>)
    requires CleanLines(newLines) && TextRestorable(content, newLines)
    requires ApplyHunks(SplitContentLines(content), 0, patch.hunks) == Ok(newLines)
    ensures RestoresText(content, patch)
  {
    PatchInversion(SplitContentLines(content), patch.hunks);
    RestorableLines(content, newLines);
    RejoinSame(Rejoin(content, newLines), content);
  }

  // A file without final newline never has an empty last line to give back.
  lemma LostLineIsNotRestored(content: Text, inverse: seq<Hunk>, found: seq<Text>, newLines: seq<Text>, back: seq<Text>)
    requires NoCr(content) && newLines == found + [""]
    requires ApplyHunks(found, 0, inverse) == Ok(back)
    requires ApplyHunks(newLines, 0, inverse) == Ok(SplitContentLines(content))
    ensures EndsWithNewline(content)
  {
    AppliesExactlyWhenItFits(found, 0, inverse);
    FitsLonger(found, 0, inverse, "");
    AppliesExactlyWhenItFits(newLines, 0, inverse);
    ContentOfLines(content);
    var lines := SplitContentLines(content);
    assert lines == back + [""] && lines[|lines| - 1] == "";
  }

  lemma EmptiedIsNotRestored(content: Text, inverse: seq<Hunk>, d: Text, back: seq<Text>)
    requires EndsWithNewline(content) && NoCr(content)
    requires d == if content == "\n" then "\n" else ""
    requires ApplyHunks([], 0, inverse) == Ok(SplitContentLines(content))
    requires ApplyHunks(SplitContentLines(d), 0, inverse) == Ok(back)
    ensures Rejoin(d, back) != content
  {
    ContentOfLines(content);
    if content == "\n" {
      NewlineGrows(inverse, back);
    } else {
      var lines := SplitContentLines(content);
      assert Rejoin(d, back) == Join(lines) + "";
      assert |content| == |Join(lines)| + 1;
    }
  }

  // What adds an empty line to no lines makes two empty lines of one.
  lemma NewlineGrows(inverse: seq<Hunk>, back: seq<Text>)
    requires ApplyHunks([], 0, inverse) == Ok(SplitContentLines("\n"))
    requires ApplyHunks(SplitContentLines("\n"), 0, inverse) == Ok(back)
    ensures |Rejoin("\n", back)| == 2
  {
    hide SplitContentLines;
    NewlineLines();
    AppliesExactlyWhenItFits([], 0, inverse);
    FitsLonger([], 0, inverse, "");
    assert [] + [""] == [""];
    AppliesExactlyWhenItFits([""], 0, inverse);
    assert back == ["", ""] && back[1..] == [""];
    assert Rejoin("\n", back) == "" + "\n" + Join([""]) + "\n";
  }

  lemma NewlineLines()
    ensures SplitContentLines("\n") == [""]
  {
    NormalizeClean("\n");
    assert "\n"[1..] == "";
    assert Split("\n") == [""] + Split("");
  }

  lemma OnlyLineDeleted()
    ensures ApplyHunks([""], 0, [Hunk(1, 1, 1, 0, ["-"])]) == Ok([])
  {
    var h := Hunk(1, 1, 1, 0, ["-"]);
    assert "-"[1..] == "" && ["-"][1..] == [];
    assert OldSide(["-"]) == [""] && NewSide(["-"]) == [];
    hide ApplyHunks, OldSide, NewSide;
    assert WellMarked(["-"]) && [""][0..1] == [""];
    OneHunkExactly([""], h, 0, 1);
    assert [""][..0] + [] + [""][1..] == [];
  }

  // Deleting the only line of a one-empty-line file: the text does not change
  // at all, so the patch cannot be undone.
  lemma DeletingLastEmptyLineChangesNothing()
    ensures var patch := FilePatch("f", [Hunk(1, 1, 1, 0, ["-"])]);
      ApplyText("\n", patch) == Ok("\n") && !RestoresText("\n", patch)
  {
    var patch := FilePatch("f", [Hunk(1, 1, 1, 0, ["-"])]);
    assert CleanHunks(patch.hunks);
    assert Join([]) + "\n" == "\n" && HasSuffix("\n", "\n");
    assert Rejoin("\n", []) == "\n";
    hide SplitContentLines, ApplyHunks, CleanHunks, RestoresText, Rejoin;
    NewlineLines();
    OnlyLineDeleted();
    assert ApplyText("\n", patch) == Ok("\n");
    TextInversionExactly("\n", patch);
  }
}
