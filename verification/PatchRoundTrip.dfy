// Printing a patch and reading it back; the round trip diff, parse, apply.
module PatchRoundTrip {
  import opened Strings
  import opened HunkHeader
  import opened UnifiedPatch
  import opened PatchApply
  import opened Wrappers

  // ---- paths --------------------------------------------------------------------------

  // The paths that survive a "+++ b/" header.
  ghost predicate GoodPath(path: Text) {
    && NoSpace(path) && BareEnds(path, '"') && !HasPrefix(path, "a/") && !RefusedPath(path)
  }

  lemma HeaderFieldNoSpace(raw: Text) returns (i: nat, j: nat)
    ensures var f := FirstField(raw);
      && i <= j <= |f| && TrimChar(TrimPrefix(TrimPrefix(f, "b/"), "a/"), '"') == f[i..j]
      && NoSpace(f[i..j])
  {
    var f := FirstField(raw);
    FieldHasNoSpace(raw);
    var g := TrimPrefix(TrimPrefix(f, "b/"), "a/");
    var k := |f| - |g|;
    assert g == f[k..];
    var a, b := TrimCharSlice(g, '"');
    i, j := k + a, k + b;
    assert g[a..b] == f[i..j];
    NoSpacePrefix(f, j);
    NoSpaceSuffix(f[..j], i);
    assert f[..j][i..] == f[i..j];
  }

  lemma ParsedPathHasNoSpace(header: Text)
    requires PatchPathFromHeader(header).Ok?
    ensures NoSpace(PatchPathFromHeader(header).value)
  {
    var i, j := HeaderFieldNoSpace(TrimSpace(TrimPrefix(header, "+++ ")));
  }

  lemma PrefixedNoSpace(path: Text)
    requires NoSpace(path)
    ensures NoSpace("b/" + path)
  {
    var s := "b/" + path;
    forall i | 0 <= i < |s| ensures SpaceWidth(s[i..]) == 0 {
      if i >= 2 {
        assert s[i..] == path[i - 2..];
      } else {
        assert s[i..][0] == s[i];
      }
    }
  }

  // What is left of a header for `path` when the note and the prefixes are gone.
  lemma HeaderField(path: Text, note: Text)
    requires NoSpace(path) && IsNote(note)
    ensures var stripped := TrimChar(TrimPrefix(path, "a/"), '"');
      PatchPathFromHeader("+++ b/" + path + note) ==
        if RefusedPath(stripped) then Err(InvalidPath(stripped)) else Ok(stripped)
  {
    var field := "b/" + path;
    assert TrimPrefix("+++ b/" + path + note, "+++ ") == field + note by {
      assert "+++ b/" + path + note == "+++ " + (field + note);
    }
    assert TrimPrefix(field, "b/") == path;
    assert TrimLeft(field + note) == field + note by {
      PrefixedNoSpace(path);
      NoSpaceAcross(field, note, 0);
      assert (field + note)[0..] == field + note;
    }
    hide TrimLeft, TrimRight, NoSpace, FirstField, TrimPrefix, TrimChar, RefusedPath;
    PrefixedNoSpace(path);
    var m := TrimNote(field, note);
    var raw := field + note[..m];
    FieldBeforeNote(field, note[..m]);
    assert raw[0] == 'b' && raw != "/dev/null";
    assert TrimSpace(field + note) == raw;
  }

  lemma SpacelessPath(path: Text, note: Text)
    requires NoSpace(path) && IsNote(note)
    ensures PatchPathFromHeader("+++ b/" + path + note) == Ok(path) <==> GoodPath(path)
  {
    hide PatchPathFromHeader, RefusedPath, NoSpace;
    HeaderField(path, note);
    var rest := TrimPrefix(path, "a/");
    var i, j := TrimCharSlice(rest, '"');
    if HasPrefix(path, "a/") {
      assert |TrimChar(rest, '"')| < |path|;
    }
  }

  // A header for `path`, with any note after a tab, is read back as `path`
  // exactly for good paths.
  lemma PathRoundTripExactly(path: Text, note: Text)
    requires IsNote(note)
    ensures PatchPathFromHeader("+++ b/" + path + note) == Ok(path) <==> GoodPath(path)
  {
    assert GoodPath(path) ==> NoSpace(path);
    hide PatchPathFromHeader, GoodPath;
    if PatchPathFromHeader("+++ b/" + path + note) == Ok(path) {
      ParsedPathHasNoSpace("+++ b/" + path + note);
    }
    if NoSpace(path) {
      SpacelessPath(path, note);
    }
  }

  // The steps of a path, between its slashes.
  function Steps(path: Text): (r: seq<Text>)
    ensures |r| >= 1
  {
    if path == "" then [""]
    else
      var rest := Steps(path[1..]);
      if path[0] == '/' then [""] + rest else [[path[0]] + rest[0]] + rest[1..]
  }

  ghost predicate ParentStep(steps: seq<Text>, from: nat) {
    exists k :: from <= k < |steps| - 1 && steps[k] == ".."
  }

  // Whether the first step of `path` is `step`, and not its last.
  predicate Leads(path: Text, step: Text) { |Steps(path)| > 1 && Steps(path)[0] == step }

  lemma {:induction false} LeadsAtSlash(path: Text, step: Text)
    requires '/' !in step
    ensures Leads(path, step) <==> HasPrefix(path, step + "/")
  {
    if path != "" && path[0] != '/' {
      assert path == [path[0]] + path[1..];
      if step != "" {
        LeadsAtSlash(path[1..], step[1..]);
        assert step == [step[0]] + step[1..];
        assert step + "/" == [step[0]] + (step[1..] + "/");
      }
    }
  }

  lemma ContainsStep(s: Text, t: Text)
    requires s != "" && t != ""
    ensures Contains(s, t) <==> HasPrefix(s, t) || Contains(s[1..], t)
  {
    if i :| 0 <= i <= |s| && OccursAt(s, t, i) {
      assert i > 0 ==> s[1..][i - 1..i - 1 + |t|] == s[i..i + |t|] && OccursAt(s[1..], t, i - 1);
    }
    if i :| 0 <= i <= |s[1..]| && OccursAt(s[1..], t, i) {
      assert s[1..][i..i + |t|] == s[i + 1..i + 1 + |t|] && OccursAt(s, t, i + 1);
    }
    if HasPrefix(s, t) {
      assert OccursAt(s, t, 0);
    }
  }

  lemma ParentStepPush(first: Text, rest: seq<Text>)
    requires rest != []
    ensures ParentStep([first] + rest, 1) <==> (|rest| > 1 && rest[0] == "..") || ParentStep(rest, 1)
    ensures ParentStep([first] + rest[1..], 1) <==> ParentStep(rest, 1)
  {
    var s, t := [first] + rest, [first] + rest[1..];
    assert forall k :: 1 <= k < |s| ==> s[k] == rest[k - 1];
    assert forall k :: 1 <= k < |t| ==> t[k] == rest[k];
    if ParentStep(s, 1) {
      var k :| 1 <= k < |s| - 1 && s[k] == "..";
      assert rest[k - 1] == "..";
    }
    if ParentStep(rest, 1) {
      var k :| 1 <= k < |rest| - 1 && rest[k] == "..";
      assert s[k + 1] == ".." && t[k] == "..";
    }
    assert |rest| > 1 ==> s[1] == rest[0];
  }

  lemma {:induction false} InnerStepIsParent(raw: Text)
    ensures Contains(raw, "/../") <==> ParentStep(Steps(raw), 1)
  {
    if raw != "" {
      var rest := Steps(raw[1..]);
      InnerStepIsParent(raw[1..]);
      ContainsStep(raw, "/../");
      LeadsAtSlash(raw[1..], "..");
      assert HasPrefix(raw, "/../") <==> raw[0] == '/' && HasPrefix(raw[1..], ".." + "/");
      hide Contains, HasPrefix, ParentStep;
      ParentStepPush("", rest);
      ParentStepPush([raw[0]] + rest[0], rest);
    }
  }

  // A path is refused exactly when it is empty or absolute, goes through a
  // parent step, or contains one between backslashes. A parent step at the very
  // end is not refused.
  lemma RefusedExactly(raw: Text)
    ensures RefusedPath(raw) <==>
      raw == "" || raw[0] == '/' || ParentStep(Steps(raw), 0) || Contains(raw, "\\..\\")
  {
    hide Steps, Contains;
    LeadsAtSlash(raw, "..");
    InnerStepIsParent(raw);
    var s := Steps(raw);
    if ParentStep(s, 0) {
      var k :| 0 <= k < |s| - 1 && s[k] == "..";
    }
  }

  // The same for a header without a prefix: there a path must not begin with
  // either of them.
  lemma BarePathExactly(path: Text, note: Text)
    requires NoSpace(path) && path != "" && IsNote(note)
    ensures PatchPathFromHeader("+++ " + path + note) == Ok(path) <==> GoodPath(path) && !HasPrefix(path, "b/")
  {
    assert TrimPrefix("+++ " + path + note, "+++ ") == path + note by {
      assert "+++ " + path + note == "+++ " + (path + note);
    }
    assert TrimLeft(path + note) == path + note by {
      NoSpaceAcross(path, note, 0);
      assert (path + note)[0..] == path + note;
    }
    var m := TrimNote(path, note);
    FieldBeforeNote(path, note[..m]);
    hide TrimLeft, TrimRight, NoSpace, FirstField;
    var raw := path + note[..m];
    assert TrimSpace(path + note) == raw;
    var rest := TrimPrefix(TrimPrefix(path, "b/"), "a/");
    var i, j := TrimCharSlice(rest, '"');
    assert |rest| < |path| <==> HasPrefix(path, "a/") || HasPrefix(path, "b/");
    assert |TrimChar(rest, '"')| <= |rest|;
    if raw == "/dev/null" {
      assert FirstField(raw) == path;
      DevNull(note[..m], path);
    }
  }

  // A patch that creates a file has the null device for its old or new side; the
  // new side is refused with an error of its own.
  lemma DevNullIsRefused()
    ensures PatchPathFromHeader("+++ /dev/null") == Err(CreatesFromDevNull)
  {
    var raw := "/dev/null";
    assert "+++ /dev/null"[4..] == raw;
    NoSpaceInDevNull();
    TrimNothing(raw);
  }

  lemma NoSpaceInDevNull()
    ensures NoSpace("/dev/null")
  {
    var s := "/dev/null";
    forall i | 0 <= i < |s| ensures SpaceWidth(s[i..]) == 0 {
      assert s[i..][0] == s[i];
    }
  }

  lemma DevNull(note: Text, path: Text)
    requires IsNote(note) && path + note == "/dev/null"
    ensures RefusedPath(path) || path == ""
  {
    if path != "" {
      assert path[0] == (path + note)[0] == '/';
    }
  }

  // ---- printing any patch ---------------------------------------------------------------

  // Lines that git writes around the headers of a file.
  datatype GitKind =
    | DiffGit
    | Index
    | NewFileMode
    | DeletedFileMode
    | OldMode
    | NewMode
    | Similarity
    | RenameFrom
    | RenameTo

  datatype GitLine = GitLine(kind: GitKind, rest: Text)

  // A hunk with the form of its header; its body may hold no-newline markers.
  datatype HunkText = HunkText(hunk: Hunk, form: Form, body: seq<Text>)

  // The part of a patch for one file: git's lines, the text of the old header,
  // the path with what follows it in the new header, more of git's lines, hunks.
  datatype FileText = FileText(git: seq<GitLine>, was: Text, path: Text, note: Text, meta: seq<GitLine>, hunks: seq<HunkText>)

  function GitText(g: GitLine): Text {
    (match g.kind
     case DiffGit => "diff --git "
     case Index => "index "
     case NewFileMode => "new file mode "
     case DeletedFileMode => "deleted file mode "
     case OldMode => "old mode "
     case NewMode => "new mode "
     case Similarity => "similarity index "
     case RenameFrom => "rename from "
     case RenameTo => "rename to ") + g.rest
  }

  function GitTexts(git: seq<GitLine>): seq<Text> {
    if git == [] then [] else [GitText(git[0])] + GitTexts(git[1..])
  }

  // The lines of a body that belong to the hunk.
  function Kept(body: seq<Text>): seq<Text> {
    if body == [] then [] else (if body[0] == NO_NEWLINE then [] else [body[0]]) + Kept(body[1..])
  }

  // What a written hunk, file and patch stand for.
  function HunkOf(t: HunkText): Hunk { Meant(t.hunk, t.form).(lines := Kept(t.body)) }

  function HunksOf(ts: seq<HunkText>): seq<Hunk> {
    if ts == [] then [] else [HunkOf(ts[0])] + HunksOf(ts[1..])
  }

  function FileOf(f: FileText): FilePatch { FilePatch(f.path, HunksOf(f.hunks)) }

  function FilesOf(fs: seq<FileText>): seq<FilePatch> {
    if fs == [] then [] else [FileOf(fs[0])] + FilesOf(fs[1..])
  }

  predicate GoodLine(line: Text) { line != "" && IsMarker(line[0]) && !IsOldHeader(line) }

  predicate GoodBody(body: seq<Text>) {
    forall k :: 0 <= k < |body| ==> body[k] == NO_NEWLINE || GoodLine(body[k])
  }

  ghost predicate GoodHunks(ts: seq<HunkText>) {
    forall k :: 0 <= k < |ts| ==> Printable(ts[k].hunk) && GoodBody(ts[k].body)
  }

  ghost predicate GoodFile(f: FileText) {
    && GoodPath(f.path) && IsNote(f.note) && f.hunks != [] && GoodHunks(f.hunks)
    && forall k :: 0 <= k < |f.meta| ==> f.meta[k].kind != DiffGit
  }

  // Between two files, git's lines begin with the one that ends a hunk.
  ghost predicate GoodPatch(fs: seq<FileText>) {
    && (forall f :: f in fs ==> GoodFile(f))
    && forall k :: 1 <= k < |fs| && fs[k].git != [] ==> fs[k].git[0].kind == DiffGit
  }

  function RenderHunks(ts: seq<HunkText>): seq<Text>
    requires forall k :: 0 <= k < |ts| ==> Printable(ts[k].hunk)
  {
    if ts == [] then []
    else
      assert Printable(ts[0].hunk);
      [RenderHeaderAs(ts[0].hunk, ts[0].form)] + ts[0].body + RenderHunks(ts[1..])
  }

  function RenderFile(f: FileText): seq<Text>
    requires forall k :: 0 <= k < |f.hunks| ==> Printable(f.hunks[k].hunk)
  {
    GitTexts(f.git) + (["--- " + f.was, "+++ b/" + f.path + f.note] + (GitTexts(f.meta) + RenderHunks(f.hunks)))
  }

  ghost function RenderFiles(fs: seq<FileText>): seq<Text>
    requires forall f :: f in fs ==> GoodFile(f)
  {
    if fs == [] then []
    else
      assert GoodFile(fs[0]);
      RenderFile(fs[0]) + RenderFiles(fs[1..])
  }

  predicate EndsBody(rest: seq<Text>) { rest == [] || EndsHunk(rest[0]) }

  lemma MarkedLine(line: Text)
    requires line != "" && IsMarker(line[0])
    ensures !IsGitHeader(line) && !IsHunkStart(line) && !IsMetadata(line) && line != NO_NEWLINE
  {
    assert line[0] != 'd' && line[0] != '@' && line[0] != '\\';
  }

  lemma NoNewlineLine()
    ensures !EndsHunk(NO_NEWLINE)
  {
    assert NO_NEWLINE[0] == '\\';
  }

  lemma GitLineKind(g: GitLine)
    ensures var s := GitText(g);
      IsGitHeader(s) == g.kind.DiffGit? && IsMetadata(s) == !g.kind.DiffGit? && !IsOldHeader(s)
  {
    var s := GitText(g);
    if g.kind.DiffGit? {
      assert s[0] == 'd' && s[1] == 'i';
    } else {
      GitPrefix(g);
      assert s[0] != '-' && !(s[0] == 'd' && s[1] == 'i');
    }
  }

  lemma GitPrefix(g: GitLine)
    requires !g.kind.DiffGit?
    ensures IsMetadata(GitText(g)) && GitText(g)[0] != '-'
    ensures !(GitText(g)[0] == 'd' && GitText(g)[1] == 'i')
  {
    var s := GitText(g);
    match g.kind
    case Index => assert s[..6] == "index ";
    case NewFileMode => assert s[..14] == "new file mode ";
    case DeletedFileMode => assert s[..18] == "deleted file mode " && s[..18][1] == 'e';
    case OldMode => assert s[..9] == "old mode ";
    case NewMode => assert s[..9] == "new mode ";
    case Similarity => assert s[..17] == "similarity index ";
    case RenameFrom => assert s[..12] == "rename from ";
    case RenameTo => assert s[..10] == "rename to ";
  }

  lemma {:induction false} BodyRoundTrip(path: Text, body: seq<Text>, rest: seq<Text>)
    requires GoodBody(body) && EndsBody(rest)
    ensures ParseBody(path, body + rest) == Ok(Parsed(Kept(body), rest))
  {
    if body == [] {
      assert body + rest == rest;
    } else {
      BodyRoundTrip(path, body[1..], rest);
      var line := body[0];
      assert (body + rest)[1..] == body[1..] + rest && (body + rest)[0] == line;
      if line == NO_NEWLINE {
        NoNewlineLine();
        assert [] + Kept(body[1..]) == Kept(body[1..]);
      } else {
        assert GoodLine(line);
        MarkedLine(line);
      }
    }
  }

  predicate IsBodyLine(line: Text) { line == NO_NEWLINE || (line != "" && IsMarker(line[0])) }

  // The body of a hunk is read up to the first line that ends it, exactly if all
  // lines before that one are marked or no-newline markers; the latter are left out.
  lemma {:induction false} BodyExactly(path: Text, lines: seq<Text>, n: nat)
    requires n <= |lines| && EndsBody(lines[n..]) && forall k :: 0 <= k < n ==> !EndsHunk(lines[k])
    ensures ParseBody(path, lines).Ok? <==> forall k :: 0 <= k < n ==> IsBodyLine(lines[k])
    ensures ParseBody(path, lines).Ok? ==> ParseBody(path, lines) == Ok(Parsed(Kept(lines[..n]), lines[n..]))
  {
    hide EndsHunk, IsMarker;
    if n > 0 {
      var rest := lines[1..];
      assert rest[n - 1..] == lines[n..];
      assert forall k :: 0 <= k < n - 1 ==> rest[k] == lines[k + 1];
      BodyExactly(path, rest, n - 1);
      assert lines[..n][1..] == rest[..n - 1] && lines[..n][0] == lines[0];
      assert (forall k :: 0 <= k < n ==> IsBodyLine(lines[k])) <==>
        IsBodyLine(lines[0]) && forall k :: 0 <= k < n - 1 ==> IsBodyLine(rest[k]);
      assert [] + Kept(rest[..n - 1]) == Kept(rest[..n - 1]);
    } else {
      assert lines[0..] == lines && lines[..0] == [];
    }
  }

  lemma RenderedHeaderStarts(h: Hunk, form: Form)
    requires Printable(h)
    ensures var s := RenderHeaderAs(h, form);
      IsHunkStart(s) && !IsMetadata(s) && !IsGitHeader(s) && !IsOldHeader(s)
  {
    var s := RenderHeaderAs(h, form);
    assert s[0] == '@' && s[1] == '@' && s[2] == ' ';
    assert s[..3] == "@@ ";
  }

  lemma HunkStep(path: Text, t: HunkText, more: seq<Text>)
    requires Printable(t.hunk) && GoodBody(t.body) && EndsBody(more) && ParseHunks(path, more).Ok?
    ensures var p := ParseHunks(path, more).value;
      ParseHunks(path, [RenderHeaderAs(t.hunk, t.form)] + (t.body + more)) == Ok(Parsed([HunkOf(t)] + p.value, p.rest))
  {
    hide IsMetadata, IsGitHeader, IsOldHeader, IsHunkStart, PatchPathFromHeader, ParseHunkHeader, RenderHeaderAs, Kept;
    var lines := [RenderHeaderAs(t.hunk, t.form)] + (t.body + more);
    assert lines[0] == RenderHeaderAs(t.hunk, t.form) && lines[1..] == t.body + more;
    RenderedHeaderStarts(t.hunk, t.form);
    HeaderRoundTrip(t.hunk, t.form);
    BodyRoundTrip(path, t.body, more);
  }

  // Where the hunks of a file end: at the end of the patch or at the next file.
  predicate EndsFile(rest: seq<Text>) { rest == [] || IsOldHeader(rest[0]) || IsGitHeader(rest[0]) }

  lemma HunksShape(ts: seq<HunkText>, rest: seq<Text>)
    requires ts != [] && GoodHunks(ts)
    ensures RenderHunks(ts) + rest
      == [RenderHeaderAs(ts[0].hunk, ts[0].form)] + (ts[0].body + (RenderHunks(ts[1..]) + rest))
  {
    hide RenderHeaderAs, GoodBody;
  }

  lemma HunksStart(ts: seq<HunkText>, rest: seq<Text>)
    requires GoodHunks(ts) && EndsFile(rest)
    ensures EndsBody(RenderHunks(ts) + rest)
  {
    hide IsGitHeader, IsOldHeader, IsHunkStart, RenderHeaderAs, GoodBody;
    if ts == [] {
      assert RenderHunks(ts) + rest == rest;
    } else {
      assert (RenderHunks(ts) + rest)[0] == RenderHeaderAs(ts[0].hunk, ts[0].form);
      RenderedHeaderStarts(ts[0].hunk, ts[0].form);
    }
  }

  lemma NoHunkLeft(path: Text, rest: seq<Text>)
    requires EndsFile(rest)
    ensures ParseHunks(path, RenderHunks([]) + rest) == Ok(Parsed([], rest))
  {
    hide IsMetadata, IsGitHeader, IsOldHeader, IsHunkStart, ParseHunkHeader, ParseBody;
    assert RenderHunks([]) + rest == rest;
  }

  lemma {:induction false} HunksRoundTrip(path: Text, ts: seq<HunkText>, rest: seq<Text>)
    requires GoodHunks(ts) && EndsFile(rest)
    ensures ParseHunks(path, RenderHunks(ts) + rest) == Ok(Parsed(HunksOf(ts), rest))
  {
    hide ParseHunks, RenderHunks, EndsFile, EndsBody, RenderHeaderAs, GoodBody, HunkOf;
    if ts == [] {
      NoHunkLeft(path, rest);
    } else {
      HunksRoundTrip(path, ts[1..], rest);
      HunksStart(ts[1..], rest);
      HunkStep(path, ts[0], RenderHunks(ts[1..]) + rest);
      HunksShape(ts, rest);
    }
  }

  lemma MetaLine(path: Text, line: Text, rest: seq<Text>)
    requires IsMetadata(line) && !IsGitHeader(line) && !IsOldHeader(line)
    ensures ParseHunks(path, [line] + rest) == ParseHunks(path, rest)
  {
    hide IsMetadata, IsGitHeader, IsOldHeader, IsHunkStart, ParseHunkHeader, ParseBody;
    assert ([line] + rest)[1..] == rest;
  }

  lemma GitLineSkipped(line: Text, rest: seq<Text>)
    requires IsMetadata(line) || IsGitHeader(line)
    ensures ParseFiles([line] + rest) == ParseFiles(rest)
  {
    hide IsMetadata, IsGitHeader, IsOldHeader, PatchPathFromHeader, ParseHunks;
    assert ([line] + rest)[1..] == rest;
  }

  // Git's lines between the headers of a file and its hunks are skipped.
  lemma {:induction false} MetaSkipped(path: Text, meta: seq<GitLine>, rest: seq<Text>)
    requires forall k :: 0 <= k < |meta| ==> meta[k].kind != DiffGit
    ensures ParseHunks(path, GitTexts(meta) + rest) == ParseHunks(path, rest)
  {
    hide IsMetadata, IsGitHeader, IsOldHeader, IsHunkStart, ParseHunkHeader, ParseBody, GitText;
    if meta == [] {
      assert GitTexts(meta) + rest == rest;
    } else {
      hide ParseHunks;
      MetaSkipped(path, meta[1..], rest);
      GitLineKind(meta[0]);
      assert GitTexts(meta) + rest == [GitText(meta[0])] + (GitTexts(meta[1..]) + rest);
      MetaLine(path, GitText(meta[0]), GitTexts(meta[1..]) + rest);
    }
  }

  // So are those in front of a file.
  lemma {:induction false} GitSkipped(git: seq<GitLine>, rest: seq<Text>)
    ensures ParseFiles(GitTexts(git) + rest) == ParseFiles(rest)
  {
    hide IsMetadata, IsGitHeader, IsOldHeader, PatchPathFromHeader, ParseHunks, GitText;
    if git == [] {
      assert GitTexts(git) + rest == rest;
    } else {
      hide ParseFiles;
      GitSkipped(git[1..], rest);
      GitLineKind(git[0]);
      assert GitTexts(git) + rest == [GitText(git[0])] + (GitTexts(git[1..]) + rest);
      GitLineSkipped(GitText(git[0]), GitTexts(git[1..]) + rest);
    }
  }

  lemma OldHeaderLine(was: Text, rest: Text)
    ensures IsOldHeader("--- " + was) && !IsGitHeader("--- " + was) && !IsMetadata("--- " + was)
    ensures HasPrefix("+++ b/" + rest, "+++ ")
  {
    var a, b := "--- " + was, "+++ b/" + rest;
    assert a[..4] == "--- " && a[0] == '-';
    assert b[..4] == "+++ ";
  }

  lemma FileParses(lines: seq<Text>, path: Text, p: Parsed<seq<Hunk>>)
    requires |lines| >= 2 && IsOldHeader(lines[0]) && !IsGitHeader(lines[0]) && !IsMetadata(lines[0])
    requires HasPrefix(lines[1], "+++ ") && PatchPathFromHeader(lines[1]) == Ok(path)
    requires ParseHunks(path, lines[2..]) == Ok(p) && p.value != [] && ParseFiles(p.rest).Ok?
    ensures ParseFiles(lines) == Ok([FilePatch(path, p.value)] + ParseFiles(p.rest).value)
  {
    hide IsMetadata, IsGitHeader, IsOldHeader, IsHunkStart, PatchPathFromHeader, ParseHunkHeader;
  }

  // A written file without git's lines in front.
  function AfterGit(f: FileText, hunks: seq<Text>): seq<Text> {
    ["--- " + f.was, "+++ b/" + f.path + f.note] + (GitTexts(f.meta) + hunks)
  }

  lemma FileShape(f: FileText, more: seq<Text>)
    requires GoodHunks(f.hunks)
    ensures RenderFile(f) + more == GitTexts(f.git) + AfterGit(f, RenderHunks(f.hunks) + more)
  {
    hide GitTexts, RenderHunks;
  }

  lemma AfterGitParses(f: FileText, hunks: seq<Text>, p: Parsed<seq<Hunk>>)
    requires GoodPath(f.path) && IsNote(f.note)
    requires ParseHunks(f.path, GitTexts(f.meta) + hunks) == Ok(p) && p.value != [] && ParseFiles(p.rest).Ok?
    ensures ParseFiles(AfterGit(f, hunks)) == Ok([FilePatch(f.path, p.value)] + ParseFiles(p.rest).value)
  {
    hide ParseFiles, ParseHunks, IsMetadata, IsGitHeader, IsOldHeader, HasPrefix, PatchPathFromHeader, GoodPath;
    var lines := AfterGit(f, hunks);
    assert "+++ b/" + f.path + f.note == "+++ b/" + (f.path + f.note);
    OldHeaderLine(f.was, f.path + f.note);
    PathRoundTripExactly(f.path, f.note);
    assert lines[2..] == GitTexts(f.meta) + hunks;
    FileParses(lines, f.path, p);
  }

  lemma FileStep(f: FileText, more: seq<Text>)
    requires GoodFile(f) && EndsFile(more) && ParseFiles(more).Ok?
    ensures ParseFiles(RenderFile(f) + more) == Ok([FileOf(f)] + ParseFiles(more).value)
  {
    assert HunksOf(f.hunks) != [];
    hide ParseFiles, ParseHunks, RenderHunks, RenderFile, HunksOf, EndsFile, GoodPath, GoodHunks;
    var hunks := RenderHunks(f.hunks) + more;
    FileShape(f, more);
    MetaSkipped(f.path, f.meta, hunks);
    HunksRoundTrip(f.path, f.hunks, more);
    AfterGitParses(f, hunks, Parsed(HunksOf(f.hunks), more));
    GitSkipped(f.git, AfterGit(f, hunks));
  }

  lemma FileStarts(f: FileText)
    requires GoodFile(f) && (f.git != [] ==> f.git[0].kind == DiffGit)
    ensures EndsFile(RenderFile(f)) && RenderFile(f) != []
  {
    if f.git != [] { GitLineKind(f.git[0]); }
    OldHeaderLine(f.was, f.path + f.note);
  }

  lemma {:induction false} FilesRoundTrip(fs: seq<FileText>)
    requires GoodPatch(fs)
    ensures ParseFiles(RenderFiles(fs)) == Ok(FilesOf(fs))
  {
    hide IsMetadata, IsGitHeader, IsOldHeader, EndsFile, ParseFiles, RenderFile, FileOf, GoodPath, GoodBody;
    if fs == [] {
      NoFiles();
    } else {
      var f, more := fs[0], RenderFiles(fs[1..]);
      FilesRoundTrip(fs[1..]);
      if |fs| > 1 {
        FileStarts(fs[1]);
        assert more == RenderFile(fs[1]) + RenderFiles(fs[1..][1..]);
        StartsAlike(RenderFile(fs[1]), RenderFiles(fs[1..][1..]));
      } else {
        NoFiles();
      }
      FileStep(f, more);
    }
  }

  lemma NoFiles()
    ensures ParseFiles([]) == Ok([]) && EndsFile([])
  {
  }

  lemma StartsAlike(a: seq<Text>, b: seq<Text>)
    requires a != [] && EndsFile(a)
    ensures EndsFile(a + b)
  {
    assert (a + b)[0] == a[0];
  }

  // Reading a written patch gives what it stands for: any number of files and
  // hunks, headers in all four forms, with git's lines around them and
  // no-newline markers in the hunks.
  lemma PatchTextRoundTrip(fs: seq<FileText>)
    requires GoodPatch(fs) && OneLineEach(RenderFiles(fs))
    ensures ParsePatch(Unlines(RenderFiles(fs))) == Ok(FilesOf(fs))
  {
    LinesOfUnlines(RenderFiles(fs));
    FilesRoundTrip(fs);
  }

  // ---- patches in the printer's own form -----------------------------------------------------

  function Plain(h: Hunk): HunkText { HunkText(h, FULL, h.lines) }

  function PlainFile(path: Text, h: Hunk): FileText { FileText([], "a/" + path, path, "", [], [Plain(h)]) }

  // A patch with one hunk, as the printer writes it.
  function RenderOne(path: Text, h: Hunk): seq<Text>
    requires Printable(h)
  {
    ["--- a/" + path, "+++ b/" + path, RenderHeader(h)] + h.lines
  }

  lemma RenderOneIsPlain(path: Text, h: Hunk)
    requires Printable(h)
    ensures RenderFile(PlainFile(path, h)) == RenderOne(path, h)
  {
    RenderHeaderShape(h);
    hide RenderHeader, RenderHeaderAs;
    var f := PlainFile(path, h);
    assert [Plain(h)][1..] == [];
    assert RenderHunks(f.hunks) == [RenderHeader(h)] + h.lines;
    assert "--- " + ("a/" + path) == "--- a/" + path && "+++ b/" + path + "" == "+++ b/" + path;
  }

  lemma {:induction false} PlainIsKept(body: seq<Text>)
    requires forall k :: 0 <= k < |body| ==> GoodLine(body[k])
    ensures Kept(body) == body && GoodBody(body)
  {
    if body != [] {
      PlainIsKept(body[1..]);
      MarkedLine(body[0]);
      assert body == [body[0]] + body[1..];
    }
  }

  // ---- a cut-off diff is never taken for a patch -------------------------------------------

  predicate EndsCut(lines: seq<Text>) { lines != [] && lines[|lines| - 1] == TRUNCATED }

  lemma CutLineFits()
    ensures !IsGitHeader(TRUNCATED) && !IsMetadata(TRUNCATED) && !IsOldHeader(TRUNCATED)
    ensures !IsHunkStart(TRUNCATED) && !HasPrefix(TRUNCATED, "+++ ") && !IsMarker(TRUNCATED[0])
    ensures TRUNCATED != NO_NEWLINE
  {
    assert TRUNCATED[0] == '[';
  }

  lemma {:induction false} CutBody(path: Text, lines: seq<Text>)
    requires EndsCut(lines) && ParseBody(path, lines).Ok?
    ensures EndsCut(ParseBody(path, lines).value.rest)
  {
    hide IsMetadata, IsGitHeader, IsOldHeader, IsHunkStart, PatchPathFromHeader, ParseHunkHeader;
    CutLineFits();
    if !EndsHunk(lines[0]) {
      CutBody(path, lines[1..]);
    }
  }

  lemma {:induction false} CutHunks(path: Text, lines: seq<Text>)
    requires EndsCut(lines) && ParseHunks(path, lines).Ok?
    ensures EndsCut(ParseHunks(path, lines).value.rest)
    decreases |lines|
  {
    hide IsMetadata, IsGitHeader, IsOldHeader, IsHunkStart, PatchPathFromHeader, ParseHunkHeader;
    CutLineFits();
    if !IsGitHeader(lines[0]) && !IsOldHeader(lines[0]) {
      if IsMetadata(lines[0]) {
        CutHunks(path, lines[1..]);
      } else {
        CutBody(path, lines[1..]);
        CutHunks(path, ParseBody(path, lines[1..]).value.rest);
      }
    }
  }

  lemma {:induction false} CutFilesRejected(lines: seq<Text>)
    requires EndsCut(lines)
    ensures ParseFiles(lines).Err?
    decreases |lines|
  {
    hide IsMetadata, IsGitHeader, IsOldHeader, IsHunkStart, PatchPathFromHeader, ParseHunkHeader;
    CutLineFits();
    if IsGitHeader(lines[0]) || IsMetadata(lines[0]) {
      CutFilesRejected(lines[1..]);
    } else if IsOldHeader(lines[0]) && |lines| > 1 && HasPrefix(lines[1], "+++ ") && PatchPathFromHeader(lines[1]).Ok? {
      var path := PatchPathFromHeader(lines[1]).value;
      if |lines| > 2 && ParseHunks(path, lines[2..]).Ok? {
        CutHunks(path, lines[2..]);
        CutFilesRejected(ParseHunks(path, lines[2..]).value.rest);
      }
    }
  }

  // Whatever was cut off, and wherever, the cut diff does not parse.
  lemma TruncatedDiffIsRejected(value: Text)
    requires |value| > MAX_TOOL_OUTPUT_BYTES
    ensures ParsePatch(Normalize(Truncate(value))).Err?
  {
    hide Normalize;
    var kept := NormalizeOnto(value[..MAX_TOOL_OUTPUT_BYTES], TRUNCATED);
    SplitOnto(kept, TRUNCATED);
    var lines := Lines(kept + "\n" + TRUNCATED);
    assert EndsCut(lines);
    hide ParseFiles, EndsCut, Split;
    CutFilesRejected(lines);
  }

  // A last line without a carriage return stays the last line.
  lemma NormalizeOnto(s: Text, line: Text) returns (kept: Text)
    requires NoCr(line)
    ensures Normalize(s + "\n" + line) == kept + "\n" + line
  {
    var x := CrlfOnto(s, line);
    kept := CrToLf(x);
    CrOnto(x, line);
  }

  lemma StartsBefore(s: Text, line: Text)
    ensures StartsCrlf(s + "\n" + line) <==> s == "\r" || StartsCrlf(s)
  {
  }

  lemma {:induction false} CrlfOnto(s: Text, line: Text) returns (kept: Text)
    requires NoCr(line)
    ensures CrlfToLf(s + "\n" + line) == kept + "\n" + line
  {
    var t := s + "\n" + line;
    var k := if StartsCrlf(s) then 2 else 1;
    assert k <= |s| || s == "";
    hide CrlfToLf, StartsCrlf;
    StartsBefore(s, line);
    CrlfStep(t);
    if s == "" || s == "\r" {
      kept := "";
      assert t[|s| + 1..] == line;
      CrlfToLfIdentity(line);
    } else {
      var rest := CrlfOnto(s[k..], line);
      assert t[0] == s[0] && t[k..] == s[k..] + "\n" + line;
      var first := if k == 2 then "\n" else [s[0]];
      kept := first + rest;
      assert CrlfToLf(t) == first + (rest + "\n" + line);
      assert first + (rest + "\n" + line) == kept + "\n" + line;
    }
  }

  lemma {:induction false} CrOnto(s: Text, line: Text)
    requires NoCr(line)
    ensures CrToLf(s + "\n" + line) == CrToLf(s) + "\n" + line
  {
    var t := s + "\n" + line;
    if s == "" {
      assert t[1..] == line;
      CrToLfClean(line);
    } else {
      CrOnto(s[1..], line);
      assert t[0] == s[0] && t[1..] == s[1..] + "\n" + line;
      var first := [if s[0] == '\r' then '\n' else s[0]];
      assert CrToLf(t) == first + CrToLf(t[1..]) && CrToLf(s) == first + CrToLf(s[1..]);
    }
  }

  lemma {:induction false} SplitOnto(s: Text, line: Text)
    requires OneLine(line)
    ensures Split(s + "\n" + line) == Split(s) + [line]
  {
    var t := s + "\n" + line;
    if s == "" {
      assert t == "\n" + line && t[1..] == line;
      SplitLine(line, "");
    } else {
      SplitOnto(s[1..], line);
      assert t[0] == s[0] && t[1..] == s[1..] + "\n" + line;
      var rest := Split(s[1..]);
      assert ([""] + rest) + [line] == [""] + (rest + [line]);
      assert (rest + [line])[0] == rest[0] && (rest + [line])[1..] == rest[1..] + [line];
      assert ([[s[0]] + rest[0]] + rest[1..]) + [line] == [[s[0]] + rest[0]] + (rest[1..] + [line]);
    }
  }

  // ---- the diff as a printed patch ------------------------------------------------------------

  // The header that the printer writes with its fixed starts of 1.
  lemma WholeFileHeader(h: Hunk)
    requires Printable(h) && h.oldStart == 1 && h.newStart == 1
    ensures RenderHeader(h) == "@@ -1," + Decimal(h.oldCount) + " +1," + Decimal(h.newCount) + " @@"
  {
    assert Decimal(1) == "1";
    assert "@@ -" + Decimal(1) + "," == "@@ -1," && " +" + Decimal(1) + "," == " +1,";
    assert "@@ -" + Decimal(h.oldStart) + "," + Decimal(h.oldCount) + " +" + Decimal(h.newStart) + ","
        == "@@ -1," + Decimal(h.oldCount) + " +1,";
  }

  lemma DiffIsRendered(path: Text, oldContent: Text, newContent: Text)
    requires |SplitContentLines(oldContent)| <= MAX_INT && |SplitContentLines(newContent)| <= MAX_INT
    ensures var h := WholeFileHunk(SplitContentLines(oldContent), SplitContentLines(newContent));
      Printable(h) && DiffLines(path, oldContent, newContent) == RenderOne(TrimSpace(path), h)
  {
    hide SplitContentLines, TrimSpace, RenderHeader, Decimal, Marked;
    var oldLines, newLines := SplitContentLines(oldContent), SplitContentLines(newContent);
    WholeFileHeader(WholeFileHunk(oldLines, newLines));
  }

  lemma {:induction false} UnlinesLength(lines: seq<Text>)
    ensures |Unlines(lines)| >= |lines|
  {
    if lines != [] {
      UnlinesLength(lines[1..]);
    }
  }

  lemma HeaderLinesClean(display: Text, oldCount: nat, newCount: nat)
    requires NoSpace(display)
    ensures CleanLines(DiffHeader(display, oldCount, newCount))
  {
    NoSpaceIsOneLine(display);
    DecimalValue(oldCount);
    DecimalValue(newCount);
    assert CleanLine(Decimal(oldCount)) && CleanLine(Decimal(newCount));
    hide Decimal;
  }

  lemma MarkedClean(marker: char, lines: seq<Text>)
    requires CleanLines(lines) && marker != '\n' && marker != '\r'
    ensures CleanLines(Marked(marker, lines))
  {
  }

  lemma NewlineNoCr(s: Text)
    requires NoCr(s)
    ensures NoCr(s + "\n")
  {
  }

  lemma DiffLinesClean(path: Text, oldContent: Text, newContent: Text)
    requires NoSpace(path)
    ensures CleanLines(DiffLines(path, oldContent, newContent))
    ensures NoCr(Unlines(DiffLines(path, oldContent, newContent)))
  {
    var oldLines, newLines := SplitContentLines(oldContent), SplitContentLines(newContent);
    var lines := DiffLines(path, oldContent, newContent);
    assert lines == DiffHeader(TrimSpace(path), |oldLines|, |newLines|) + Marked('-', oldLines) + Marked('+', newLines);
    hide DiffLines, SplitContentLines, CleanLine, TrimSpace, Unlines, NoCr, Join;
    assert lines != [];
    hide DiffHeader;
    ContentLinesClean(oldContent);
    ContentLinesClean(newContent);
    TrimNothing(path);
    HeaderLinesClean(path, |oldLines|, |newLines|);
    MarkedClean('-', oldLines);
    MarkedClean('+', newLines);
    JoinNoCr(lines);
    UnlinesIsJoin(lines);
    assert NoCr(Join(lines) + "\n") by { NewlineNoCr(Join(lines)); }
  }

  // ---- what the parser makes of a diff -----------------------------------------------------------

  // An old line that begins with "-- " is printed as a file header.
  predicate LooksLikeHeader(line: Text) { HasPrefix(line, "-- ") }

  lemma DashLine(line: Text)
    ensures IsOldHeader("-" + line) <==> LooksLikeHeader(line)
  {
    var printed := "-" + line;
    assert printed[1..] == line;
    if LooksLikeHeader(line) {
      assert printed[..4] == "-" + line[..3];
    }
  }

  lemma {:induction false} PlusLinesEndInError(path: Text, plus: seq<Text>)
    requires forall k :: 0 <= k < |plus| ==> plus[k] != "" && plus[k][0] == '+'
    ensures match ParseHunks(path, plus) case Ok(p) => p.value == [] case Err(_) => true
  {
    if plus != [] {
      assert plus[0][0] == '+';
    }
  }

  // No file can start inside the removed and added lines of a diff.
  lemma DiffTailRejected(minus: seq<Text>, plus: seq<Text>)
    requires minus != [] && IsOldHeader(minus[0])
    requires forall k :: 0 <= k < |minus| ==> minus[k] != "" && minus[k][0] == '-'
    requires forall k :: 0 <= k < |plus| ==> plus[k] != "" && plus[k][0] == '+'
    ensures ParseFiles(minus + plus).Err?
  {
    var lines := minus + plus;
    assert lines[0] == minus[0] && minus[0][0] == '-';
    assert !IsGitHeader(lines[0]) && !IsMetadata(lines[0]);
    assert |lines| > 1 && HasPrefix(lines[1], "+++ ") ==> lines[1][0] == '+';
    hide ParseFiles, IsGitHeader, IsMetadata, IsOldHeader, HasPrefix, PatchPathFromHeader, ParseHunks;
    if |lines| > 1 && HasPrefix(lines[1], "+++ ") && PatchPathFromHeader(lines[1]).Ok? {
      assert |minus| == 1;
      assert lines[2..] == plus[1..];
      PlusLinesEndInError(PatchPathFromHeader(lines[1]).value, plus[1..]);
    }
    NoHunksIsAnError(lines);
  }

  lemma NoHunksIsAnError(lines: seq<Text>)
    requires lines != [] && IsOldHeader(lines[0]) && !IsGitHeader(lines[0]) && !IsMetadata(lines[0])
    requires |lines| > 1 && HasPrefix(lines[1], "+++ ") && PatchPathFromHeader(lines[1]).Ok? ==>
      match ParseHunks(PatchPathFromHeader(lines[1]).value, lines[2..]) case Ok(p) => p.value == [] case Err(_) => true
    ensures ParseFiles(lines).Err?
  {
    hide IsGitHeader, IsMetadata, IsOldHeader, HasPrefix, PatchPathFromHeader, ParseHunks;
  }

  lemma {:induction false} BodyStopsAtHeader(path: Text, minus: seq<Text>, plus: seq<Text>) returns (n: nat)
    requires forall k :: 0 <= k < |minus| ==> minus[k] != "" && minus[k][0] == '-'
    requires exists k :: 0 <= k < |minus| && IsOldHeader(minus[k])
    ensures n < |minus| && IsOldHeader(minus[n])
    ensures ParseBody(path, minus + plus) == Ok(Parsed(minus[..n], minus[n..] + plus))
  {
    var lines := minus + plus;
    assert lines[0] == minus[0] && minus[0][0] == '-';
    if IsOldHeader(minus[0]) {
      n := 0;
    } else {
      assert lines[1..] == minus[1..] + plus;
      var k :| 0 <= k < |minus| && IsOldHeader(minus[k]);
      assert minus[1..][k - 1] == minus[k];
      n := BodyStopsAtHeader(path, minus[1..], plus);
      n := n + 1;
      assert [minus[0]] + minus[1..][..n - 1] == minus[..n];
      assert minus[1..][n - 1..] == minus[n..];
    }
  }

  // The hunk ends at the look-alike, and no file can be read from there on.
  lemma LookalikeCutsHunk(path: Text, header: Text, h: Hunk, minus: seq<Text>, plus: seq<Text>) returns (n: nat)
    requires ParseHunkHeader(header) == Header(h) && IsHunkStart(header) && !IsMetadata(header)
    requires !IsGitHeader(header) && !IsOldHeader(header)
    requires forall k :: 0 <= k < |minus| ==> minus[k] != "" && minus[k][0] == '-'
    requires forall k :: 0 <= k < |plus| ==> plus[k] != "" && plus[k][0] == '+'
    requires exists k :: 0 <= k < |minus| && IsOldHeader(minus[k])
    ensures n <= |minus|
    ensures ParseHunks(path, [header] + (minus + plus))
      == Ok(Parsed([h.(lines := minus[..n])], minus[n..] + plus))
    ensures ParseFiles(minus[n..] + plus).Err?
  {
    hide IsMetadata, IsGitHeader, IsOldHeader, IsHunkStart, PatchPathFromHeader, ParseHunkHeader;
    var lines := [header] + (minus + plus);
    assert lines[0] == header && lines[1..] == minus + plus;
    n := BodyStopsAtHeader(path, minus, plus);
    var tail := minus[n..] + plus;
    assert tail[0] == minus[n];
    assert ParseHunks(path, tail) == Ok(Parsed([], tail));
    assert [h.(lines := minus[..n])] + [] == [h.(lines := minus[..n])];
    DiffTailRejected(minus[n..], plus);
  }

  lemma RenderedDiffShape(path: Text, oldLines: seq<Text>, newLines: seq<Text>)
    requires Printable(WholeFileHunk(oldLines, newLines))
    ensures var h := WholeFileHunk(oldLines, newLines);
      var lines := RenderOne(path, h);
      && |lines| >= 3 && lines[0] == "--- a/" + path && lines[1] == "+++ b/" + path
      && lines[2..] == [RenderHeader(h)] + (Marked('-', oldLines) + Marked('+', newLines))
  {
  }

  lemma HeaderLookalikeRejected(path: Text, oldLines: seq<Text>, newLines: seq<Text>)
    requires |oldLines| <= MAX_INT && |newLines| <= MAX_INT
    requires exists k :: 0 <= k < |oldLines| && LooksLikeHeader(oldLines[k])
    ensures ParseFiles(RenderOne(path, WholeFileHunk(oldLines, newLines))).Err?
  {
    hide IsMetadata, IsGitHeader, IsOldHeader, IsHunkStart, PatchPathFromHeader, ParseHunkHeader;
    var h := WholeFileHunk(oldLines, newLines);
    var lines := RenderOne(path, h);
    var minus, plus := Marked('-', oldLines), Marked('+', newLines);
    RenderedDiffShape(path, oldLines, newLines);
    assert "--- a/" + path == "--- " + ("a/" + path);
    OldHeaderLine("a/" + path, path);
    if PatchPathFromHeader(lines[1]).Ok? {
      RenderHeaderShape(h);
      RenderedHeaderStarts(h, FULL);
      HeaderRoundTrip(h, FULL);
      var k :| 0 <= k < |oldLines| && LooksLikeHeader(oldLines[k]);
      DashLine(oldLines[k]);
      assert IsOldHeader(minus[k]);
      var n := LookalikeCutsHunk(PatchPathFromHeader(lines[1]).value, RenderHeader(h), h.(lines := []), minus, plus);
    }
  }

  lemma SidesPush(mark: Text, line: Text, rest: seq<Text>)
    requires mark == "-" || mark == "+"
    ensures OldSide([mark + line] + rest) == (if mark == "-" then [line] else []) + OldSide(rest)
    ensures NewSide([mark + line] + rest) == (if mark == "+" then [line] else []) + NewSide(rest)
  {
    var body := [mark + line] + rest;
    assert body[0][1..] == line && body[1..] == rest;
  }

  lemma {:induction false} MarkedSides(oldLines: seq<Text>, newLines: seq<Text>)
    ensures OldSide(Marked('-', oldLines) + Marked('+', newLines)) == oldLines
    ensures NewSide(Marked('-', oldLines) + Marked('+', newLines)) == newLines
  {
    assert OldSide([]) == NewSide([]) == [];
    hide OldSide, NewSide;
    var body := Marked('-', oldLines) + Marked('+', newLines);
    if oldLines != [] {
      var rest := Marked('-', oldLines[1..]) + Marked('+', newLines);
      MarkedSides(oldLines[1..], newLines);
      assert body == ["-" + oldLines[0]] + rest;
      SidesPush("-", oldLines[0], rest);
    } else if newLines != [] {
      var rest := Marked('-', []) + Marked('+', newLines[1..]);
      MarkedSides([], newLines[1..]);
      assert body == ["+" + newLines[0]] + rest;
      SidesPush("+", newLines[0], rest);
    }
  }

  // The diff's hunk turns the old lines into the new lines.
  lemma WholeFileApplies(oldLines: seq<Text>, newLines: seq<Text>)
    ensures ApplyHunks(oldLines, 0, [WholeFileHunk(oldLines, newLines)]) == Ok(newLines)
  {
    var h := WholeFileHunk(oldLines, newLines);
    MarkedSides(oldLines, newLines);
    assert WellMarked(h.lines);
    assert [h] == [h] + [];
    assert oldLines[0..|oldLines|] == oldLines;
    FitsCons(oldLines, 0, h, []);
    assert Patched(oldLines, |oldLines|, []) == [] && oldLines[0..0] == [];
    assert [] + newLines + [] == newLines;
    AppliesExactlyWhenItFits(oldLines, 0, [h]);
  }

  // When writing the new lines back gives exactly the new text.
  predicate SameEnding(oldContent: Text, newContent: Text) {
    && NoCr(newContent)
    && if newContent == "" then oldContent != "\n"
       else EndsWithNewline(newContent) == EndsWithNewline(oldContent)
  }

  lemma RejoinExactly(oldContent: Text, newContent: Text)
    ensures Rejoin(oldContent, SplitContentLines(newContent)) == newContent <==> SameEnding(oldContent, newContent)
  {
    var lines := SplitContentLines(newContent);
    var d := Rejoin(oldContent, lines);
    ContentLinesClean(newContent);
    RejoinedLines(oldContent, lines);
    if NoCr(newContent) {
      ContentOfLines(newContent);
      assert HasSuffix(oldContent, "\n") <==> EndsWithNewline(oldContent);
      assert Join(lines) + "" == Join(lines);
      assert |Join(lines) + "\n"| == |Join(lines)| + 1;
    }
  }

  // ---- the round trip ------------------------------------------------------------------------------

  // Reading the diff of two texts yields one patch for that path, and applying
  // it to the old text gives exactly the new text.
  ghost predicate Recovers(path: Text, oldContent: Text, newContent: Text) {
    match ParsePatch(Normalize(DiffText(path, oldContent, newContent)))
    case Err(_) => false
    case Ok(files) =>
      |files| == 1 && files[0].path == path && ApplyText(oldContent, files[0]) == Ok(newContent)
  }

  // What a caller can check beforehand.
  ghost predicate Recoverable(path: Text, oldContent: Text, newContent: Text) {
    && GoodPath(path)
    && |Unlines(DiffLines(path, oldContent, newContent))| <= MAX_TOOL_OUTPUT_BYTES
    && (forall k :: 0 <= k < |SplitContentLines(oldContent)| ==> !LooksLikeHeader(SplitContentLines(oldContent)[k]))
    && SameEnding(oldContent, newContent)
  }

  lemma DiffParses(path: Text, oldContent: Text, newContent: Text)
    requires NoSpace(path)
    requires |Unlines(DiffLines(path, oldContent, newContent))| <= MAX_TOOL_OUTPUT_BYTES
    ensures var h := WholeFileHunk(SplitContentLines(oldContent), SplitContentLines(newContent));
      && Printable(h)
      && ParsePatch(Normalize(DiffText(path, oldContent, newContent))) == ParseFiles(RenderOne(path, h))
  {
    var lines := DiffLines(path, oldContent, newContent);
    DiffLinesClean(path, oldContent, newContent);
    NormalizeClean(Unlines(lines));
    LinesOfUnlines(lines);
    UnlinesLength(lines);
    TrimNothing(path);
    DiffIsRendered(path, oldContent, newContent);
  }

  lemma DiffIsGoodFile(path: Text, oldLines: seq<Text>, newLines: seq<Text>)
    requires GoodPath(path) && Printable(WholeFileHunk(oldLines, newLines))
    requires forall k :: 0 <= k < |oldLines| ==> !LooksLikeHeader(oldLines[k])
    ensures var f := PlainFile(path, WholeFileHunk(oldLines, newLines));
      GoodFile(f) && FileOf(f) == FilePatch(path, [WholeFileHunk(oldLines, newLines)])
  {
    hide GoodPath;
    var body := WholeFileHunk(oldLines, newLines).lines;
    forall k | 0 <= k < |body| ensures GoodLine(body[k]) {
      if k < |oldLines| {
        assert body[k] == "-" + oldLines[k];
        DashLine(oldLines[k]);
      } else {
        assert body[k] == "+" + newLines[k - |oldLines|];
      }
    }
    PlainIsKept(body);
    var ts := [Plain(WholeFileHunk(oldLines, newLines))];
    assert ts[1..] == [] && HunksOf(ts) == [HunkOf(ts[0])] + HunksOf(ts[1..]);
  }

  lemma PlainDiffParses(path: Text, oldContent: Text, newContent: Text)
    requires GoodPath(path)
    requires |Unlines(DiffLines(path, oldContent, newContent))| <= MAX_TOOL_OUTPUT_BYTES
    requires forall k :: 0 <= k < |SplitContentLines(oldContent)| ==> !LooksLikeHeader(SplitContentLines(oldContent)[k])
    ensures ParsePatch(Normalize(DiffText(path, oldContent, newContent)))
      == Ok([FilePatch(path, [WholeFileHunk(SplitContentLines(oldContent), SplitContentLines(newContent))])])
  {
    hide RenderFile, DiffLines, LooksLikeHeader, SplitContentLines, Normalize, WholeFileHunk, ParsePatch;
    var oldLines, newLines := SplitContentLines(oldContent), SplitContentLines(newContent);
    DiffParses(path, oldContent, newContent);
    DiffIsGoodFile(path, oldLines, newLines);
    RenderOneIsPlain(path, WholeFileHunk(oldLines, newLines));
    OneFileRoundTrip(PlainFile(path, WholeFileHunk(oldLines, newLines)));
  }

  lemma OneFileRoundTrip(f: FileText)
    requires GoodFile(f)
    ensures ParseFiles(RenderFile(f)) == Ok([FileOf(f)])
  {
    hide RenderFile, FileOf, GoodPath, GoodBody, ParseFiles;
    FilesRoundTrip([f]);
    assert [f][1..] == [];
    assert RenderFiles([f]) == RenderFile(f) + [] == RenderFile(f);
    assert FilesOf([f]) == [FileOf(f)] + [] == [FileOf(f)];
  }

  lemma RecoverableRecovers(path: Text, oldContent: Text, newContent: Text)
    requires Recoverable(path, oldContent, newContent)
    ensures Recovers(path, oldContent, newContent)
  {
    PlainDiffParses(path, oldContent, newContent);
    WholeFileApplies(SplitContentLines(oldContent), SplitContentLines(newContent));
    RejoinExactly(oldContent, newContent);
  }

  // The path of the first file of a parsed patch comes from a header.
  lemma {:induction false} ParsedPathsHaveNoSpace(lines: seq<Text>)
    requires ParseFiles(lines).Ok?
    ensures forall f :: f in ParseFiles(lines).value ==> NoSpace(f.path)
    decreases |lines|
  {
    hide IsMetadata, IsGitHeader, IsOldHeader, IsHunkStart, PatchPathFromHeader, ParseHunkHeader;
    if lines != [] {
      if IsGitHeader(lines[0]) || IsMetadata(lines[0]) {
        ParsedPathsHaveNoSpace(lines[1..]);
      } else {
        ParsedPathHasNoSpace(lines[1]);
        var path := PatchPathFromHeader(lines[1]).value;
        ParsedPathsHaveNoSpace(ParseHunks(path, lines[2..]).value.rest);
      }
    }
  }

  lemma RecoversIsRecoverable(path: Text, oldContent: Text, newContent: Text)
    requires Recovers(path, oldContent, newContent)
    ensures Recoverable(path, oldContent, newContent)
  {
    var text := Unlines(DiffLines(path, oldContent, newContent));
    var oldLines, newLines := SplitContentLines(oldContent), SplitContentLines(newContent);
    ParsedPathsHaveNoSpace(Lines(Normalize(DiffText(path, oldContent, newContent))));
    assert NoSpace(path);
    DiffLinesClean(path, oldContent, newContent);
    if |text| > MAX_TOOL_OUTPUT_BYTES {
      TruncatedDiffIsRejected(text);
      assert false;
    }
    DiffParses(path, oldContent, newContent);
    UnlinesLength(DiffLines(path, oldContent, newContent));
    if exists k :: 0 <= k < |oldLines| && LooksLikeHeader(oldLines[k]) {
      HeaderLookalikeRejected(path, oldLines, newLines);
      assert false;
    }
    FirstPathOfRendered(path, WholeFileHunk(oldLines, newLines));
    PathRoundTripExactly(path, "");
    PlainDiffParses(path, oldContent, newContent);
    WholeFileApplies(oldLines, newLines);
    RejoinExactly(oldContent, newContent);
  }

  lemma FirstPathOfRendered(path: Text, h: Hunk)
    requires Printable(h)
    ensures match ParseFiles(RenderOne(path, h))
      case Ok(files) => files != [] && PatchPathFromHeader("+++ b/" + path + "") == Ok(files[0].path)
      case Err(_) => true
  {
    hide IsMetadata, IsGitHeader, IsOldHeader, IsHunkStart, PatchPathFromHeader, ParseHunkHeader, RenderHeader;
    assert "--- a/" + path == "--- " + ("a/" + path) && "+++ b/" + path + "" == "+++ b/" + path;
    OldHeaderLine("a/" + path, path);
    assert RenderOne(path, h)[1] == "+++ b/" + path;
  }

  // Diff, parse, apply is the identity on the new text exactly under these
  // conditions, for every path and every pair of texts.
  lemma RoundTripExactly(path: Text, oldContent: Text, newContent: Text)
    ensures Recovers(path, oldContent, newContent) <==> Recoverable(path, oldContent, newContent)
  {
    if Recovers(path, oldContent, newContent) {
      RecoversIsRecoverable(path, oldContent, newContent);
    } else if Recoverable(path, oldContent, newContent) {
      RecoverableRecovers(path, oldContent, newContent);
    }
  }

  // ---- what parsing guarantees about hunk lines ---------------------------------------------------

  // The lines of a parsed hunk are lines of the patch.
  lemma {:induction false} BodyLines(path: Text, lines: seq<Text>)
    requires ParseBody(path, lines).Ok?
    ensures var p := ParseBody(path, lines).value;
      (forall l :: l in p.value ==> l in lines) && (forall l :: l in p.rest ==> l in lines)
  {
    hide IsMetadata, IsGitHeader, IsOldHeader, IsHunkStart;
    if lines != [] && !EndsHunk(lines[0]) {
      BodyLines(path, lines[1..]);
    }
  }

  lemma {:induction false} HunkLines(path: Text, lines: seq<Text>)
    requires ParseHunks(path, lines).Ok?
    ensures var p := ParseHunks(path, lines).value;
      (forall h, l :: h in p.value && l in h.lines ==> l in lines) && (forall l :: l in p.rest ==> l in lines)
    decreases |lines|
  {
    hide IsMetadata, IsGitHeader, IsOldHeader, IsHunkStart, ParseHunkHeader, ParseBody;
    if lines != [] && !IsGitHeader(lines[0]) && !IsOldHeader(lines[0]) {
      assert lines == [lines[0]] + lines[1..];
      if IsMetadata(lines[0]) {
        HunkLines(path, lines[1..]);
      } else {
        BodyLines(path, lines[1..]);
        var body := ParseBody(path, lines[1..]).value;
        HunkLines(path, body.rest);
        var p, more := ParseHunks(path, lines).value, ParseHunks(path, body.rest).value;
        forall h, l | h in p.value && l in h.lines ensures l in lines {
          if h !in more.value {
            assert h == p.value[0] && h.lines == body.value;
            assert l in lines[1..];
          } else {
            assert l in body.rest && l in lines[1..];
          }
        }
      }
    }
  }

  lemma {:induction false} FileLines(lines: seq<Text>)
    requires ParseFiles(lines).Ok?
    ensures forall f, h, l :: f in ParseFiles(lines).value && h in f.hunks && l in h.lines ==> l in lines
    decreases |lines|
  {
    hide IsMetadata, IsGitHeader, IsOldHeader, PatchPathFromHeader, ParseHunks;
    if lines != [] {
      assert lines == [lines[0]] + lines[1..];
      if IsGitHeader(lines[0]) || IsMetadata(lines[0]) {
        FileLines(lines[1..]);
      } else {
        var path := PatchPathFromHeader(lines[1]).value;
        HunkLines(path, lines[2..]);
        var p := ParseHunks(path, lines[2..]).value;
        FileLines(p.rest);
        var files, more := ParseFiles(lines).value, ParseFiles(p.rest).value;
        forall f, h, l | f in files && h in f.hunks && l in h.lines ensures l in lines {
          if f !in more {
            assert f == files[0] && f.hunks == p.value;
            assert l in lines[2..];
          } else {
            assert l in p.rest && l in lines[2..];
          }
        }
      }
    }
  }

  // Every file of a parsed patch meets the condition of TextInversionExactly.
  lemma ParsedHunksAreClean(patch: Text)
    requires ParsePatch(Normalize(patch)).Ok?
    ensures forall f :: f in ParsePatch(Normalize(patch)).value ==> CleanHunks(f.hunks)
  {
    var lines := Lines(Normalize(patch));
    NormalizeClean(patch);
    TextOfLines(Normalize(patch));
    SplitNoCr(Normalize(patch));
    assert forall l :: l in lines ==> CleanLine(l);
    FileLines(lines);
  }
}
