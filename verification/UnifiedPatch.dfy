// The patch engine of modules/agent/internal/runtime/tools.go: unifiedDiff
// prints, parseUnifiedPatch reads, applyFilePatch applies. Each loop of these
// functions is a method proved equal to a function on lists of lines.
module UnifiedPatch {
  import opened Strings
  import opened HunkHeader
  import opened Wrappers

  datatype FilePatch = FilePatch(path: Text, hunks: seq<Hunk>)

  datatype ParseError =
    | ExpectedOldHeader
    | ExpectedNewHeader(oldHeader: Text)
    | CreatesFromDevNull
    | InvalidPath(raw: Text)
    | ExpectedHunkHeader(path: Text)
    | InvalidHunkHeader(header: Text)
    | EmptyHunkLine(path: Text)
    | InvalidLineMarker(marker: char, path: Text)
    | NoHunks(path: Text)

  datatype ApplyError =
    | StartsOutsideFile
    | EmptyLine
    | ContextMismatch(line: nat)
    | RemoveMismatch(line: nat)
    | InvalidMarker(marker: char)

  const MAX_TOOL_OUTPUT_BYTES := 64 * 1024
  const TRUNCATED := "[truncated]"
  const NO_NEWLINE := "\\ No newline at end of file"

  function SplitContentLines(content: Text): seq<Text> {
    if content == "" then [] else Lines(Normalize(content))
  }

  // ---- unifiedDiff ---------------------------------------------------------------

  function Truncate(value: Text): Text {
    if |value| <= MAX_TOOL_OUTPUT_BYTES then value
    else value[..MAX_TOOL_OUTPUT_BYTES] + "\n" + TRUNCATED
  }

  function Marked(marker: char, lines: seq<Text>): (r: seq<Text>)
    ensures |r| == |lines| && forall k :: 0 <= k < |lines| ==> r[k] == [marker] + lines[k]
  {
    seq(|lines|, k requires 0 <= k < |lines| => [marker] + lines[k])
  }

  // The one hunk a diff prints: every old line out, every new line in.
  function WholeFileHunk(oldLines: seq<Text>, newLines: seq<Text>): Hunk {
    Hunk(1, |oldLines|, 1, |newLines|, Marked('-', oldLines) + Marked('+', newLines))
  }

  function DiffHeader(display: Text, oldCount: nat, newCount: nat): seq<Text> {
    ["--- a/" + display, "+++ b/" + display,
     "@@ -1," + Decimal(oldCount) + " +1," + Decimal(newCount) + " @@"]
  }

  function DiffLines(path: Text, oldContent: Text, newContent: Text): seq<Text> {
    var oldLines, newLines := SplitContentLines(oldContent), SplitContentLines(newContent);
    DiffHeader(TrimSpace(path), |oldLines|, |newLines|) + Marked('-', oldLines) + Marked('+', newLines)
  }

  function DiffText(path: Text, oldContent: Text, newContent: Text): Text {
    Truncate(Unlines(DiffLines(path, oldContent, newContent)))
  }

  lemma UnlinesOfThree(lines: seq<Text>)
    requires |lines| == 3
    ensures Unlines(lines) == lines[0] + "\n" + lines[1] + "\n" + (lines[2] + "\n")
  {
    var tail := [lines[2]];
    assert lines[1..] == [lines[1]] + tail && lines[1..][1..] == tail && tail[1..] == [];
    assert Unlines(tail) == lines[2] + "\n" + Unlines([]);
    assert Unlines(lines[1..]) == lines[1] + "\n" + Unlines(tail);
    assert lines[0] + "\n" + (lines[1] + "\n" + (lines[2] + "\n" + ""))
        == lines[0] + "\n" + lines[1] + "\n" + (lines[2] + "\n");
  }

  lemma UnlinesPush(upper: seq<Text>, more: seq<Text>, i: nat)
    requires i < |more|
    ensures Unlines(upper + more[..i + 1]) == Unlines(upper + more[..i]) + more[i] + "\n"
  {
    assert upper + more[..i + 1] == (upper + more[..i]) + [more[i]];
    UnlinesConcat(upper + more[..i], [more[i]]);
    assert [more[i]][1..] == [];
    assert Unlines([more[i]]) == more[i] + "\n";
  }

  method UnifiedDiff(path: Text, oldContent: Text, newContent: Text) returns (r: Text)
    ensures r == DiffText(path, oldContent, newContent)
  {
    hide SplitContentLines, TrimSpace, Decimal, Unlines, Truncate;
    var oldLines, newLines := SplitContentLines(oldContent), SplitContentLines(newContent);
    var display := TrimSpace(path);
    var header := DiffHeader(display, |oldLines|, |newLines|);
    var builder := "--- a/" + display + "\n";
    builder := builder + "+++ b/" + display + "\n";
    builder := builder + "@@ -1," + Decimal(|oldLines|) + " +1," + Decimal(|newLines|) + " @@\n";
    assert " @@\n" == " @@" + "\n";
    assert builder == header[0] + "\n" + header[1] + "\n" + (header[2] + "\n");
    UnlinesOfThree(header);
    assert header + Marked('-', oldLines)[..0] == header;
    for i := 0 to |oldLines|
      invariant builder == Unlines(header + Marked('-', oldLines)[..i])
    {
      UnlinesPush(header, Marked('-', oldLines), i);
      builder := builder + "-";
      builder := builder + oldLines[i];
      builder := builder + "\n";
    }
    ghost var upper := header + Marked('-', oldLines);
    assert Marked('-', oldLines)[..|oldLines|] == Marked('-', oldLines);
    assert upper + Marked('+', newLines)[..0] == upper;
    for i := 0 to |newLines|
      invariant builder == Unlines(upper + Marked('+', newLines)[..i])
    {
      UnlinesPush(upper, Marked('+', newLines), i);
      builder := builder + "+";
      builder := builder + newLines[i];
      builder := builder + "\n";
    }
    assert Marked('+', newLines)[..|newLines|] == Marked('+', newLines);
    r := Truncate(builder);
  }

  // ---- parseUnifiedPatch ------------------------------------------------------------

  predicate IsGitHeader(line: Text) { HasPrefix(line, "diff --git ") }

  predicate IsMetadata(line: Text) {
    || HasPrefix(line, "index ") || HasPrefix(line, "new file mode ")
    || HasPrefix(line, "deleted file mode ") || HasPrefix(line, "old mode ")
    || HasPrefix(line, "new mode ") || HasPrefix(line, "similarity index ")
    || HasPrefix(line, "rename from ") || HasPrefix(line, "rename to ")
  }

  predicate IsOldHeader(line: Text) { HasPrefix(line, "--- ") }

  predicate IsHunkStart(line: Text) { HasPrefix(line, "@@ ") }

  predicate IsMarker(c: char) { c == ' ' || c == '+' || c == '-' }

  // filepath.IsAbs and the "../" tests of patchPathFromHeader, on Unix.
  predicate RefusedPath(raw: Text) {
    || raw == "" || HasPrefix(raw, "/") || HasPrefix(raw, "../")
    || Contains(raw, "/../") || Contains(raw, "\\..\\")
  }

  function PatchPathFromHeader(header: Text): Result<Text, ParseError> {
    var raw := TrimSpace(TrimPrefix(header, "+++ "));
    if raw == "/dev/null" then Err(CreatesFromDevNull)
    else
      var field := FirstField(raw);
      var stripped := TrimChar(TrimPrefix(TrimPrefix(field, "b/"), "a/"), '"');
      if RefusedPath(stripped) then Err(InvalidPath(stripped)) else Ok(stripped)
  }

  // What is left of the patch after some lines were consumed.
  datatype Parsed<T> = Parsed(value: T, rest: seq<Text>)

  predicate EndsHunk(line: Text) { IsGitHeader(line) || IsOldHeader(line) || IsHunkStart(line) }

  // The lines of one hunk.
  function ParseBody(path: Text, lines: seq<Text>): (r: Result<Parsed<seq<Text>>, ParseError>)
    ensures r.Ok? ==> |r.value.rest| <= |lines|
  {
    if lines == [] || EndsHunk(lines[0]) then Ok(Parsed([], lines))
    else if lines[0] == NO_NEWLINE then ParseBody(path, lines[1..])
    else if lines[0] == "" then Err(EmptyHunkLine(path))
    else if !IsMarker(lines[0][0]) then Err(InvalidLineMarker(lines[0][0], path))
    else
      match ParseBody(path, lines[1..])
      case Ok(p) => Ok(Parsed([lines[0]] + p.value, p.rest))
      case Err(e) => Err(e)
  }

  // The hunks of one file.
  function ParseHunks(path: Text, lines: seq<Text>): (r: Result<Parsed<seq<Hunk>>, ParseError>)
    ensures r.Ok? ==> |r.value.rest| <= |lines|
    decreases |lines|
  {
    if lines == [] || IsGitHeader(lines[0]) || IsOldHeader(lines[0]) then Ok(Parsed([], lines))
    else if IsMetadata(lines[0]) then ParseHunks(path, lines[1..])
    else if !IsHunkStart(lines[0]) then Err(ExpectedHunkHeader(path))
    else
      match ParseHunkHeader(lines[0])
      case BadHeader => Err(InvalidHunkHeader(lines[0]))
      case Header(h) =>
        match ParseBody(path, lines[1..])
        case Err(e) => Err(e)
        case Ok(body) =>
          match ParseHunks(path, body.rest)
          case Err(e) => Err(e)
          case Ok(p) => Ok(Parsed([h.(lines := body.value)] + p.value, p.rest))
  }

  function ParseFiles(lines: seq<Text>): Result<seq<FilePatch>, ParseError>
    decreases |lines|
  {
    if lines == [] then Ok([])
    else if IsGitHeader(lines[0]) || IsMetadata(lines[0]) then ParseFiles(lines[1..])
    else if !IsOldHeader(lines[0]) then Err(ExpectedOldHeader)
    else if |lines| == 1 || !HasPrefix(lines[1], "+++ ") then Err(ExpectedNewHeader(lines[0]))
    else
      match PatchPathFromHeader(lines[1])
      case Err(e) => Err(e)
      case Ok(path) =>
        match ParseHunks(path, lines[2..])
        case Err(e) => Err(e)
        case Ok(p) =>
          if p.value == [] then Err(NoHunks(path))
          else
            match ParseFiles(p.rest)
            case Err(e) => Err(e)
            case Ok(files) => Ok([FilePatch(path, p.value)] + files)
  }

  function ParsePatch(patch: Text): Result<seq<FilePatch>, ParseError> {
    ParseFiles(Lines(patch))
  }

  // ---- results built up by a loop ----------------------------------------------------

  // `whole` is `more` with `done` in front, or the same error.
  ghost predicate Extends<T, E>(done: seq<T>, more: Result<seq<T>, E>, whole: Result<seq<T>, E>) {
    match more
    case Ok(m) => whole.Ok? && whole.value == done + m
    case Err(_) => whole == more
  }

  ghost predicate ExtendsParsed<T, E>(done: seq<T>, more: Result<Parsed<seq<T>>, E>, whole: Result<Parsed<seq<T>>, E>) {
    match more
    case Ok(m) => whole.Ok? && whole.value.value == done + m.value && whole.value.rest == m.rest
    case Err(_) => whole == more
  }

  lemma ExtendsShift<T, E>(done: seq<T>, step: seq<T>, more: Result<seq<T>, E>,
                           mid: Result<seq<T>, E>, whole: Result<seq<T>, E>)
    requires Extends(done, mid, whole) && Extends(step, more, mid)
    ensures Extends(done + step, more, whole)
  {
    if more.Ok? {
      assert done + (step + more.value) == done + step + more.value;
    }
  }

  lemma ExtendsParsedShift<T, E>(done: seq<T>, step: seq<T>, more: Result<Parsed<seq<T>>, E>,
                                 mid: Result<Parsed<seq<T>>, E>, whole: Result<Parsed<seq<T>>, E>)
    requires ExtendsParsed(done, mid, whole) && ExtendsParsed(step, more, mid)
    ensures ExtendsParsed(done + step, more, whole)
  {
    if more.Ok? {
      assert done + (step + more.value.value) == done + step + more.value.value;
    }
  }

  // The innermost loop of parseUnifiedPatch.
  method ReadBody(lines: seq<Text>, start: nat, path: Text)
    returns (r: Result<seq<Text>, ParseError>, i: nat)
    requires start <= |lines|
    ensures start <= i <= |lines|
    ensures match ParseBody(path, lines[start..])
      case Ok(p) => r == Ok(p.value) && p.rest == lines[i..]
      case Err(e) => r == Err(e)
  {
    hide IsMetadata, IsGitHeader, IsOldHeader, IsHunkStart, EndsHunk, PatchPathFromHeader, ParseHunkHeader;
    i := start;
    var body := [];
    while i < |lines|
      invariant start <= i <= |lines|
      invariant ExtendsParsed(body, ParseBody(path, lines[i..]), ParseBody(path, lines[start..]))
    {
      var line := lines[i];
      ghost var rest := lines[i..];
      assert rest[0] == line && rest[1..] == lines[i + 1..];
      if EndsHunk(line) {
        break;
      }
      if line == NO_NEWLINE {
        i := i + 1;
        continue;
      }
      if line == "" {
        return Err(EmptyHunkLine(path)), i;
      }
      if !IsMarker(line[0]) {
        return Err(InvalidLineMarker(line[0], path)), i;
      }
      ExtendsParsedShift(body, [line], ParseBody(path, rest[1..]), ParseBody(path, rest), ParseBody(path, lines[start..]));
      body := body + [line];
      i := i + 1;
    }
    assert body == body + [];
    r := Ok(body);
  }

  // The middle loop, one round per hunk.
  method ReadHunks(lines: seq<Text>, start: nat, path: Text)
    returns (r: Result<seq<Hunk>, ParseError>, i: nat)
    requires start <= |lines|
    ensures start <= i <= |lines|
    ensures match ParseHunks(path, lines[start..])
      case Ok(p) => r == Ok(p.value) && p.rest == lines[i..]
      case Err(e) => r == Err(e)
  {
    hide IsMetadata, IsGitHeader, IsOldHeader, IsHunkStart, EndsHunk, PatchPathFromHeader, ParseHunkHeader;
    i := start;
    var hunks := [];
    while i < |lines|
      invariant start <= i <= |lines|
      invariant ExtendsParsed(hunks, ParseHunks(path, lines[i..]), ParseHunks(path, lines[start..]))
    {
      ghost var rest := lines[i..];
      assert rest[0] == lines[i] && rest[1..] == lines[i + 1..];
      if IsGitHeader(lines[i]) || IsOldHeader(lines[i]) {
        break;
      }
      if IsMetadata(lines[i]) {
        i := i + 1;
        continue;
      }
      if !IsHunkStart(lines[i]) {
        return Err(ExpectedHunkHeader(path)), i;
      }
      var header := ParseHunkHeader(lines[i]);
      if header.BadHeader? {
        return Err(InvalidHunkHeader(lines[i])), i;
      }
      var body;
      body, i := ReadBody(lines, i + 1, path);
      if body.Err? {
        return Err(body.error), i;
      }
      ExtendsParsedShift(hunks, [header.hunk.(lines := body.value)], ParseHunks(path, lines[i..]),
                         ParseHunks(path, rest), ParseHunks(path, lines[start..]));
      hunks := hunks + [header.hunk.(lines := body.value)];
    }
    assert hunks == hunks + [];
    r := Ok(hunks);
  }

  // One file of the patch, from its "--- " line on.
  method ReadFile(lines: seq<Text>, start: nat) returns (r: Result<FilePatch, ParseError>, i: nat)
    requires start < |lines| && !IsGitHeader(lines[start]) && !IsMetadata(lines[start])
    ensures start < i <= |lines|
    ensures match r
      case Err(e) => ParseFiles(lines[start..]) == Err(e)
      case Ok(file) => Extends([file], ParseFiles(lines[i..]), ParseFiles(lines[start..]))
  {
    hide IsMetadata, IsGitHeader, IsOldHeader, IsHunkStart, EndsHunk, PatchPathFromHeader, ParseHunkHeader;
    ghost var rest := lines[start..];
    i := start + 1;
    if !IsOldHeader(lines[start]) {
      return Err(ExpectedOldHeader), i;
    }
    if i >= |lines| || !HasPrefix(lines[i], "+++ ") {
      return Err(ExpectedNewHeader(lines[start])), i;
    }
    assert rest[1] == lines[i] && rest[2..] == lines[i + 1..];
    var path := PatchPathFromHeader(lines[i]);
    if path.Err? {
      return Err(path.error), i;
    }
    var hunks;
    hunks, i := ReadHunks(lines, i + 1, path.value);
    if hunks.Err? {
      return Err(hunks.error), i;
    }
    if hunks.value == [] {
      return Err(NoHunks(path.value)), i;
    }
    r := Ok(FilePatch(path.value, hunks.value));
  }

  method ParseUnifiedPatch(patch: Text) returns (r: Result<seq<FilePatch>, ParseError>)
    ensures r == ParsePatch(patch)
  {
    hide IsMetadata, IsGitHeader, IsOldHeader, IsHunkStart, EndsHunk, PatchPathFromHeader, ParseHunkHeader;
    var lines := Split(patch);
    if lines[|lines| - 1] == "" {
      lines := lines[..|lines| - 1];
    }
    var files := [];
    var i := 0;
    assert lines[0..] == lines;
    while i < |lines|
      invariant i <= |lines|
      invariant Extends(files, ParseFiles(lines[i..]), ParseFiles(lines))
    {
      ghost var rest := lines[i..];
      assert rest[0] == lines[i] && rest[1..] == lines[i + 1..];
      if IsGitHeader(lines[i]) || IsMetadata(lines[i]) {
        i := i + 1;
        continue;
      }
      var file;
      file, i := ReadFile(lines, i);
      if file.Err? {
        return Err(file.error);
      }
      ExtendsShift(files, [file.value], ParseFiles(lines[i..]), ParseFiles(rest), ParseFiles(lines));
      files := files + [file.value];
    }
    assert files == files + [];
    r := Ok(files);
  }

  // ---- applyFilePatch -----------------------------------------------------------------

  function Target(h: Hunk): int {
    if h.oldStart == 0 then 0 else h.oldStart - 1
  }

  // New lines produced by the rest of a hunk, and the old index after it.
  datatype Progress = Progress(newLines: seq<Text>, oldIndex: nat)

  function ApplyBody(src: seq<Text>, oldIndex: nat, body: seq<Text>): (r: Result<Progress, ApplyError>)
    requires oldIndex <= |src|
    ensures r.Ok? ==> oldIndex <= r.value.oldIndex <= |src|
    decreases |body|
  {
    if body == [] then Ok(Progress([], oldIndex))
    else if body[0] == "" then Err(EmptyLine)
    else
      var marker, text := body[0][0], body[0][1..];
      if marker == ' ' then
        if oldIndex >= |src| || src[oldIndex] != text then Err(ContextMismatch(oldIndex + 1))
        else Emit([text], ApplyBody(src, oldIndex + 1, body[1..]))
      else if marker == '-' then
        if oldIndex >= |src| || src[oldIndex] != text then Err(RemoveMismatch(oldIndex + 1))
        else ApplyBody(src, oldIndex + 1, body[1..])
      else if marker == '+' then Emit([text], ApplyBody(src, oldIndex, body[1..]))
      else Err(InvalidMarker(marker))
  }

  function Emit(lines: seq<Text>, r: Result<Progress, ApplyError>): Result<Progress, ApplyError> {
    match r
    case Ok(p) => Ok(Progress(lines + p.newLines, p.oldIndex))
    case Err(e) => Err(e)
  }

  function ApplyHunks(src: seq<Text>, oldIndex: nat, hunks: seq<Hunk>): Result<seq<Text>, ApplyError>
    requires oldIndex <= |src|
    decreases |hunks|
  {
    if hunks == [] then Ok(src[oldIndex..])
    else
      var target := Target(hunks[0]);
      if target < oldIndex || target > |src| then Err(StartsOutsideFile)
      else
        match ApplyBody(src, target, hunks[0].lines)
        case Err(e) => Err(e)
        case Ok(p) =>
          match ApplyHunks(src, p.oldIndex, hunks[1..])
          case Err(e) => Err(e)
          case Ok(more) => Ok(src[oldIndex..target] + p.newLines + more)
  }

  function Rejoin(content: Text, newLines: seq<Text>): Text {
    Join(newLines) + (if HasSuffix(content, "\n") && (|newLines| > 0 || content == "\n") then "\n" else "")
  }

  function ApplyText(content: Text, patch: FilePatch): Result<Text, ApplyError> {
    match ApplyHunks(SplitContentLines(content), 0, patch.hunks)
    case Ok(newLines) => Ok(Rejoin(content, newLines))
    case Err(e) => Err(e)
  }

  method ApplyFilePatch(content: Text, patch: FilePatch) returns (r: Result<Text, ApplyError>)
    ensures r == ApplyText(content, patch)
  {
    var newLines := ApplyEveryHunk(SplitContentLines(content), patch.hunks);
    if newLines.Err? {
      return Err(newLines.error);
    }
    var result := Join(newLines.value);
    if HasSuffix(content, "\n") && (|newLines.value| > 0 || content == "\n") {
      result := result + "\n";
    }
    assert Join(newLines.value) + "" == Join(newLines.value);
    r := Ok(result);
  }

  // The outer loop of applyFilePatch, with the tail it appends after it.
  method ApplyEveryHunk(oldLines: seq<Text>, hunks: seq<Hunk>) returns (r: Result<seq<Text>, ApplyError>)
    ensures r == ApplyHunks(oldLines, 0, hunks)
  {
    hide ApplyBody;
    var newLines: seq<Text> := [];
    var oldIndex: nat := 0;
    assert hunks[0..] == hunks;
    for k := 0 to |hunks|
      invariant oldIndex <= |oldLines|
      invariant Extends(newLines, ApplyHunks(oldLines, oldIndex, hunks[k..]), ApplyHunks(oldLines, 0, hunks))
    {
      var hunk := hunks[k];
      ghost var rest := hunks[k..];
      assert rest[0] == hunk && rest[1..] == hunks[k + 1..];
      var targetIndex := hunk.oldStart - 1;
      if hunk.oldStart == 0 {
        targetIndex := 0;
      }
      if targetIndex < oldIndex || targetIndex > |oldLines| {
        return Err(StartsOutsideFile);
      }
      ghost var before, from := newLines, oldIndex;
      newLines := newLines + oldLines[oldIndex..targetIndex];
      oldIndex := targetIndex;
      var body;
      body, newLines, oldIndex := ApplyHunkLines(oldLines, oldIndex, hunk.lines, newLines);
      if body.Err? {
        return Err(body.error);
      }
      ghost var emitted := oldLines[from..targetIndex] + ApplyBody(oldLines, targetIndex, hunk.lines).value.newLines;
      assert newLines == before + emitted;
      ExtendsShift(before, emitted, ApplyHunks(oldLines, oldIndex, hunks[k + 1..]),
                   ApplyHunks(oldLines, from, rest), ApplyHunks(oldLines, 0, hunks));
    }
    assert hunks[|hunks|..] == [];
    r := Ok(newLines + oldLines[oldIndex..]);
  }

  // The inner loop of applyFilePatch.
  method ApplyHunkLines(oldLines: seq<Text>, start: nat, body: seq<Text>, acc: seq<Text>)
    returns (r: Result<(), ApplyError>, newLines: seq<Text>, oldIndex: nat)
    requires start <= |oldLines|
    ensures oldIndex <= |oldLines|
    ensures match ApplyBody(oldLines, start, body)
      case Ok(p) => r.Ok? && newLines == acc + p.newLines && oldIndex == p.oldIndex
      case Err(e) => r == Err(e)
  {
    newLines, oldIndex := acc, start;
    for k := 0 to |body|
      invariant oldIndex <= |oldLines|
      invariant match ApplyBody(oldLines, oldIndex, body[k..])
        case Ok(p) => match ApplyBody(oldLines, start, body) {
          case Ok(all) => acc + all.newLines == newLines + p.newLines && all.oldIndex == p.oldIndex
          case Err(_) => false
        }
        case Err(e) => ApplyBody(oldLines, start, body) == Err(e)
    {
      var line := body[k];
      assert body[k..][0] == line && body[k..][1..] == body[k + 1..];
      ghost var before := newLines;
      if line == "" {
        return Err(EmptyLine), newLines, oldIndex;
      }
      var text := line[1..];
      if line[0] == ' ' {
        if oldIndex >= |oldLines| || oldLines[oldIndex] != text {
          return Err(ContextMismatch(oldIndex + 1)), newLines, oldIndex;
        }
        newLines := newLines + [oldLines[oldIndex]];
        oldIndex := oldIndex + 1;
      } else if line[0] == '-' {
        if oldIndex >= |oldLines| || oldLines[oldIndex] != text {
          return Err(RemoveMismatch(oldIndex + 1)), newLines, oldIndex;
        }
        oldIndex := oldIndex + 1;
      } else if line[0] == '+' {
        newLines := newLines + [text];
      } else {
        return Err(InvalidMarker(line[0])), newLines, oldIndex;
      }
      assert forall more: seq<Text> :: before + ([text] + more) == before + [text] + more;
    }
    assert body[|body|..] == [];
    r := Ok(());
  }
}
