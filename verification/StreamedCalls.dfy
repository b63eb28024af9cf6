// Tool calls from a chat-completions provider, streamed and whole
// (modules/agent/internal/runtime/provider.go, completeStream,
// completeHTTPResponse, publicToolName, internalToolName).
module StreamedCalls {
  import opened Strings
  import opened Wrappers

  // A piece of a streamed tool call: parts that are absent are empty.
  datatype Fragment = Fragment(index: int, id: Text, name: Text, arguments: Text)

  // One choice of one streamed chunk.
  datatype Delta = Delta(content: Text, calls: seq<Fragment>)

  // A tool call of an unstreamed message.
  datatype WholeCall = WholeCall(id: Text, name: Text, arguments: Text)

  datatype Builder = Builder(id: Text, name: Text, arguments: Text)

  datatype Call<A> = Call(id: Text, name: Text, arguments: Option<A>)

  datatype Chunk<A> = Content(text: Text) | Calls(calls: seq<Call<A>>) | Final

  // ---- tool names ----------------------------------------------------------------------

  // strings.ReplaceAll(name, ".", "__")
  function PublicToolName(name: Text): Text {
    if name == "" then ""
    else (if name[0] == '.' then "__" else [name[0]]) + PublicToolName(name[1..])
  }

  // strings.ReplaceAll(name, "__", ".")
  function InternalToolName(name: Text): Text {
    if name == "" then ""
    else if |name| >= 2 && name[0] == '_' && name[1] == '_' then "." + InternalToolName(name[2..])
    else [name[0]] + InternalToolName(name[1..])
  }

  // No underscore right before an underscore or a dot.
  predicate PlainName(name: Text) {
    forall k :: 0 <= k < |name| - 1 && name[k] == '_' ==> name[k + 1] != '_' && name[k + 1] != '.'
  }

  lemma {:induction false} NameRoundTripExactly(name: Text)
    ensures InternalToolName(PublicToolName(name)) == name <==> PlainName(name)
  {
    if name != "" {
      var rest := name[1..];
      NameRoundTripExactly(rest);
      var p, q := PublicToolName(name), PublicToolName(rest);
      assert name == [name[0]] + rest;
      assert PlainName(name) <==> PlainName(rest) && (rest != "" && name[0] == '_' ==> rest[0] != '_' && rest[0] != '.') by {
        assert forall k :: 0 <= k < |rest| ==> rest[k] == name[k + 1];
      }
      if name[0] == '.' {
        assert p[2..] == q;
      } else {
        assert p[1..] == q;
        if name[0] == '_' && rest != "" && (rest[0] == '_' || rest[0] == '.') {
          assert p[1] == '_';
          assert InternalToolName(p)[0] == '.';
        } else if name[0] == '_' && rest != "" {
          assert q[0] == rest[0] && p[1] == q[0];
        }
      }
    }
  }

  lemma NameStaysNonEmpty(name: Text)
    ensures InternalToolName(name) == "" <==> name == ""
  {
  }

  // ---- collecting fragments ----------------------------------------------------------------

  function Joined(b: Builder, f: Fragment): Builder {
    Builder(if f.id != "" then f.id else b.id,
            if f.name != "" then InternalToolName(f.name) else b.name,
            b.arguments + f.arguments)
  }

  const NEW_BUILDER := Builder("", "", "")

  function BuilderAt(builders: map<int, Builder>, index: int): Builder {
    if index in builders then builders[index] else NEW_BUILDER
  }

  function Absorb(builders: map<int, Builder>, f: Fragment): map<int, Builder> {
    builders[f.index := Joined(BuilderAt(builders, f.index), f)]
  }

  function AbsorbAll(builders: map<int, Builder>, fragments: seq<Fragment>): map<int, Builder> {
    if fragments == [] then builders
    else Absorb(AbsorbAll(builders, fragments[..|fragments| - 1]), fragments[|fragments| - 1])
  }

  function Arguments<A>(parse: Text -> A, text: Text): Option<A> {
    if text == "" then None else Some(parse(text))
  }

  // The calls of the builders `lo`, ..., `hi - 1`, in order; nameless ones are skipped.
  function CallsOf<A>(parse: Text -> A, builders: map<int, Builder>, hi: nat): seq<Call<A>> {
    if hi == 0 then []
    else
      var b := BuilderAt(builders, hi - 1);
      CallsOf(parse, builders, hi - 1)
      + if b.name == "" then [] else [Call(b.id, b.name, Arguments(parse, b.arguments))]
  }

  // ---- the streamed form --------------------------------------------------------------------

  datatype Line = Skip | Done | Data(text: Text)

  function LineOf(raw: Text): Line {
    var line := TrimSpace(raw);
    if line == "" || HasPrefix(line, ":") then Skip
    else if !HasPrefix(line, "data:") then Skip
    else
      var data := TrimSpace(TrimPrefix(line, "data:"));
      if data == "[DONE]" then Done else Data(data)
  }

  // The deltas up to [DONE] or the first chunk that is not valid JSON, and
  // whether the stream was read without an error.
  datatype Scan = Scan(deltas: seq<Delta>, ok: bool)

  function ScanLines(lines: seq<Text>, fails: bool, decode: Text -> Option<seq<Delta>>): Scan {
    if lines == [] then Scan([], !fails)
    else
      match LineOf(lines[0])
      case Skip => ScanLines(lines[1..], fails, decode)
      case Done => Scan([], true)
      case Data(text) =>
        match decode(text)
        case None => Scan([], false)
        case Some(choices) =>
          var s := ScanLines(lines[1..], fails, decode);
          Scan(choices + s.deltas, s.ok)
  }

  function Contents<A>(deltas: seq<Delta>): seq<Chunk<A>> {
    if deltas == [] then []
    else Contents(deltas[..|deltas| - 1])
         + if deltas[|deltas| - 1].content == "" then [] else [Content(deltas[|deltas| - 1].content)]
  }

  function Fragments(deltas: seq<Delta>): seq<Fragment> {
    if deltas == [] then [] else Fragments(deltas[..|deltas| - 1]) + deltas[|deltas| - 1].calls
  }

  function Ending<A>(parse: Text -> A, builders: map<int, Builder>): Chunk<A> {
    var calls := CallsOf(parse, builders, |builders|);
    if calls == [] then Final else Calls(calls)
  }

  // What a stream of these lines emits.
  function StreamChunks<A>(lines: seq<Text>, fails: bool, decode: Text -> Option<seq<Delta>>, parse: Text -> A): seq<Chunk<A>> {
    var s := ScanLines(lines, fails, decode);
    Contents(s.deltas) + if s.ok then [Ending(parse, AbsorbAll(map[], Fragments(s.deltas)))] else []
  }

  lemma {:induction false} AbsorbConcat(builders: map<int, Builder>, a: seq<Fragment>, b: seq<Fragment>)
    ensures AbsorbAll(builders, a + b) == AbsorbAll(AbsorbAll(builders, a), b)
  {
    if b == [] {
      assert a + b == a;
    } else {
      assert (a + b)[..|a + b| - 1] == a + b[..|b| - 1];
      AbsorbConcat(builders, a, b[..|b| - 1]);
    }
  }

  lemma AbsorbPush(builders: map<int, Builder>, fragments: seq<Fragment>, k: nat)
    requires k < |fragments|
    ensures AbsorbAll(builders, fragments[..k + 1]) == Absorb(AbsorbAll(builders, fragments[..k]), fragments[k])
  {
    assert fragments[..k + 1][..k] == fragments[..k];
  }

  lemma {:induction false} ContentsConcat<A>(a: seq<Delta>, b: seq<Delta>)
    ensures Contents<A>(a + b) == Contents<A>(a) + Contents<A>(b)
  {
    if b == [] {
      assert a + b == a;
    } else {
      assert (a + b)[..|a + b| - 1] == a + b[..|b| - 1] && (a + b)[|a + b| - 1] == b[|b| - 1];
      ContentsConcat<A>(a, b[..|b| - 1]);
    }
  }

  lemma {:induction false} FragmentsConcat(a: seq<Delta>, b: seq<Delta>)
    ensures Fragments(a + b) == Fragments(a) + Fragments(b)
  {
    if b == [] {
      assert a + b == a;
    } else {
      assert (a + b)[..|a + b| - 1] == a + b[..|b| - 1] && (a + b)[|a + b| - 1] == b[|b| - 1];
      FragmentsConcat(a, b[..|b| - 1]);
    }
  }

  lemma DeltasPush<A>(deltas: seq<Delta>, k: nat)
    requires k < |deltas|
    ensures Contents<A>(deltas[..k + 1]) == Contents<A>(deltas[..k]) + Contents<A>([deltas[k]])
    ensures Fragments(deltas[..k + 1]) == Fragments(deltas[..k]) + deltas[k].calls
  {
    assert deltas[..k + 1] == deltas[..k] + [deltas[k]];
    ContentsConcat<A>(deltas[..k], [deltas[k]]);
    FragmentsConcat(deltas[..k], [deltas[k]]);
    assert [deltas[k]][..0] == [] && Fragments([deltas[k]]) == [] + deltas[k].calls;
  }

  // One choice: its text is passed on, its fragments are added to the builders.
  method ReadChoice<A>(choice: Delta, builders: map<int, Builder>, emitted: seq<Chunk<A>>)
    returns (next: map<int, Builder>, out: seq<Chunk<A>>)
    ensures next == AbsorbAll(builders, choice.calls)
    ensures out == emitted + Contents([choice])
  {
    assert [choice][..0] == [];
    assert Contents<A>([choice]) == if choice.content == "" then [] else [Content(choice.content)];
    assert emitted + [] == emitted;
    assert choice.calls[..0] == [] && AbsorbAll(builders, []) == builders;
    hide InternalToolName, Contents, AbsorbAll;
    out := emitted;
    if choice.content != "" {
      out := out + [Content(choice.content)];
    }
    next := builders;
    for k := 0 to |choice.calls|
      invariant next == AbsorbAll(builders, choice.calls[..k])
    {
      var f := choice.calls[k];
      var call := NEW_BUILDER;
      if f.index in next {
        call := next[f.index];
      }
      if f.id != "" {
        call := call.(id := f.id);
      }
      if f.name != "" {
        call := call.(name := InternalToolName(f.name));
      }
      if f.arguments != "" {
        call := call.(arguments := call.arguments + f.arguments);
      }
      assert f.arguments == "" ==> call.arguments + f.arguments == call.arguments;
      next := next[f.index := call];
      AbsorbPush(builders, choice.calls, k);
    }
    assert choice.calls[..|choice.calls|] == choice.calls;
  }

  method ReadChoices<A>(choices: seq<Delta>, builders: map<int, Builder>, emitted: seq<Chunk<A>>)
    returns (next: map<int, Builder>, out: seq<Chunk<A>>)
    ensures next == AbsorbAll(builders, Fragments(choices))
    ensures out == emitted + Contents(choices)
  {
    assert choices[..0] == [] && Contents<A>([]) == [] && AbsorbAll(builders, Fragments([])) == builders;
    hide Contents, Fragments, AbsorbAll;
    next, out := builders, emitted;
    assert emitted + [] == emitted;
    for k := 0 to |choices|
      invariant next == AbsorbAll(builders, Fragments(choices[..k]))
      invariant out == emitted + Contents(choices[..k])
    {
      next, out := ReadChoice(choices[k], next, out);
      DeltasPush<A>(choices, k);
      AbsorbConcat(builders, Fragments(choices[..k]), choices[k].calls);
    }
    assert choices[..|choices|] == choices;
  }

  lemma ScanStep(lines: seq<Text>, k: nat, fails: bool, decode: Text -> Option<seq<Delta>>)
    requires k < |lines|
    ensures var s, next := ScanLines(lines[k..], fails, decode), ScanLines(lines[k + 1..], fails, decode);
      match LineOf(lines[k])
      case Skip => s == next
      case Done => s == Scan([], true)
      case Data(text) =>
        match decode(text)
        case None => s == Scan([], false)
        case Some(choices) => s == Scan(choices + next.deltas, next.ok)
  {
    assert lines[k..][1..] == lines[k + 1..];
  }

  lemma ScanNothing<A>(fails: bool, decode: Text -> Option<seq<Delta>>)
    ensures ScanLines([], fails, decode) == Scan([], !fails)
    ensures Contents<A>([]) == [] && AbsorbAll(map[], Fragments([])) == map[]
  {
  }

  method CompleteStream<A>(lines: seq<Text>, fails: bool, decode: Text -> Option<seq<Delta>>, parse: Text -> A)
    returns (ok: bool, emitted: seq<Chunk<A>>)
    ensures ok == ScanLines(lines, fails, decode).ok
    ensures emitted == StreamChunks(lines, fails, decode, parse)
  {
    hide LineOf, Contents, Fragments, CallsOf, ScanLines, AbsorbAll;
    ghost var whole, seen := ScanLines(lines, fails, decode), [];
    var builders: map<int, Builder> := map[];
    emitted := [];
    ScanNothing<A>(fails, decode);
    assert lines[0..] == lines;
    var k, done := 0, false;
    while k < |lines| && !done
      invariant k <= |lines|
      invariant builders == AbsorbAll(map[], Fragments(seen)) && emitted == Contents(seen)
      invariant if done then whole == Scan(seen, true)
                else var s := ScanLines(lines[k..], fails, decode); whole == Scan(seen + s.deltas, s.ok)
      decreases |lines| - k, !done
    {
      ScanStep(lines, k, fails, decode);
      assert seen + [] == seen;
      match LineOf(lines[k])
      case Skip => k := k + 1;
      case Done => done := true;
      case Data(text) =>
        var chunk := decode(text);
        if chunk.None? {
          return false, emitted;
        }
        ContentsConcat<A>(seen, chunk.value);
        FragmentsConcat(seen, chunk.value);
        AbsorbConcat(map[], Fragments(seen), Fragments(chunk.value));
        ghost var s := ScanLines(lines[k + 1..], fails, decode);
        assert seen + (chunk.value + s.deltas) == (seen + chunk.value) + s.deltas;
        builders, emitted := ReadChoices(chunk.value, builders, emitted);
        seen := seen + chunk.value;
        k := k + 1;
    }
    assert seen + [] == seen;
    assert !done ==> lines[k..] == [];
    if !done && fails {
      return false, emitted;
    }
    var calls := EmitCalls(parse, builders);
    ok := true;
    emitted := emitted + if calls == [] then [Final] else [Calls(calls)];
  }

  method EmitCalls<A>(parse: Text -> A, builders: map<int, Builder>) returns (calls: seq<Call<A>>)
    ensures calls == CallsOf(parse, builders, |builders|)
  {
    calls := [];
    for index := 0 to |builders|
      invariant calls == CallsOf(parse, builders, index)
    {
      if index !in builders || builders[index].name == "" {
        continue;
      }
      var call := builders[index];
      var args: Option<A> := None;
      if call.arguments != "" {
        args := Some(parse(call.arguments));
      }
      calls := calls + [Call(call.id, call.name, args)];
    }
  }

  // ---- the unstreamed form ------------------------------------------------------------------

  function WholeCalls<A>(parse: Text -> A, calls: seq<WholeCall>): seq<Call<A>> {
    if calls == [] then []
    else
      var c := calls[|calls| - 1];
      WholeCalls(parse, calls[..|calls| - 1]) + [Call(c.id, InternalToolName(c.name), Arguments(parse, c.arguments))]
  }

  function MessageChunks<A>(content: Text, toolCalls: seq<WholeCall>, parse: Text -> A): seq<Chunk<A>> {
    if toolCalls == [] then [Content(content), Final] else [Calls(WholeCalls(parse, toolCalls))]
  }

  method CompleteMessage<A>(content: Text, toolCalls: seq<WholeCall>, parse: Text -> A)
    returns (emitted: seq<Chunk<A>>)
    ensures emitted == MessageChunks(content, toolCalls, parse)
  {
    if |toolCalls| > 0 {
      var calls: seq<Call<A>> := [];
      for k := 0 to |toolCalls|
        invariant calls == WholeCalls(parse, toolCalls[..k])
      {
        var args: Option<A> := None;
        if toolCalls[k].arguments != "" {
          args := Some(parse(toolCalls[k].arguments));
        }
        calls := calls + [Call(toolCalls[k].id, InternalToolName(toolCalls[k].name), args)];
        assert toolCalls[..k + 1][..k] == toolCalls[..k];
      }
      assert toolCalls[..|toolCalls|] == toolCalls;
      return [Calls(calls)];
    }
    return [Content(content), Final];
  }

  // ---- fragments in any order ------------------------------------------------------------------

  function Only(fragments: seq<Fragment>, index: int): seq<Fragment> {
    if fragments == [] then []
    else
      var last := fragments[|fragments| - 1];
      Only(fragments[..|fragments| - 1], index) + if last.index == index then [last] else []
  }

  function Build(fragments: seq<Fragment>): Builder {
    if fragments == [] then NEW_BUILDER
    else Joined(Build(fragments[..|fragments| - 1]), fragments[|fragments| - 1])
  }

  // A call's builder depends on that call's fragments alone.
  lemma {:induction false} BuilderIsOwn(fragments: seq<Fragment>, index: int)
    ensures var b := AbsorbAll(map[], fragments);
      && (index in b <==> Only(fragments, index) != [])
      && BuilderAt(b, index) == Build(Only(fragments, index))
  {
    if fragments != [] {
      BuilderIsOwn(fragments[..|fragments| - 1], index);
      var own := Only(fragments[..|fragments| - 1], index);
      assert forall f :: (own + [f])[..|own|] == own;
      assert own + [] == own;
    }
  }

  // Streams that agree call by call emit the same calls, however the calls'
  // fragments are interleaved.
  lemma InterleavingIsIrrelevant<A>(parse: Text -> A, a: seq<Fragment>, b: seq<Fragment>)
    requires forall index :: Only(a, index) == Only(b, index)
    ensures AbsorbAll(map[], a) == AbsorbAll(map[], b)
    ensures Ending(parse, AbsorbAll(map[], a)) == Ending(parse, AbsorbAll(map[], b))
  {
    var x, y := AbsorbAll(map[], a), AbsorbAll(map[], b);
    forall index ensures (index in x <==> index in y) && (index in x && index in y ==> x[index] == y[index]) {
      BuilderIsOwn(a, index);
      BuilderIsOwn(b, index);
    }
    assert x.Keys == y.Keys;
    assert x == y;
  }

  function ArgumentsText(fragments: seq<Fragment>): Text {
    if fragments == [] then ""
    else ArgumentsText(fragments[..|fragments| - 1]) + fragments[|fragments| - 1].arguments
  }

  // The fragments of one call: each repeats its id and its name or leaves them
  // out, some give the name, and the arguments add up.
  ghost predicate CutsCall(fragments: seq<Fragment>, c: WholeCall) {
    && (forall f :: f in fragments ==> (f.id == "" || f.id == c.id) && (f.name == "" || f.name == c.name))
    && (exists f :: f in fragments && f.name == c.name != "")
    && (exists f :: f in fragments && f.id == c.id)
    && ArgumentsText(fragments) == c.arguments
  }

  ghost predicate Fragmentation(fragments: seq<Fragment>, whole: seq<WholeCall>) {
    && (forall f :: f in fragments ==> 0 <= f.index < |whole|)
    && forall k: nat :: k < |whole| ==> CutsCall(Only(fragments, k), whole[k])
  }

  lemma {:induction false} BuildOfCut(fragments: seq<Fragment>, c: WholeCall)
    requires forall f :: f in fragments ==> (f.id == "" || f.id == c.id) && (f.name == "" || f.name == c.name)
    ensures Build(fragments).arguments == ArgumentsText(fragments)
    ensures Build(fragments).id == if exists f :: f in fragments && f.id == c.id then c.id else ""
    ensures Build(fragments).name ==
      if exists f :: f in fragments && f.name == c.name != "" then InternalToolName(c.name) else ""
  {
    hide InternalToolName;
    if fragments != [] {
      var front, last := fragments[..|fragments| - 1], fragments[|fragments| - 1];
      assert fragments == front + [last];
      assert forall f :: f in fragments <==> f in front || f == last;
      BuildOfCut(front, c);
    }
  }

  ghost function UpTo(n: nat): (r: set<int>)
    ensures |r| == n && forall k :: k in r <==> 0 <= k < n
  {
    if n == 0 then {} else UpTo(n - 1) + {n - 1}
  }

  lemma {:induction false} OnlyMembers(fragments: seq<Fragment>, index: int)
    ensures forall f :: f in Only(fragments, index) <==> f in fragments && f.index == index
  {
    if fragments != [] {
      OnlyMembers(fragments[..|fragments| - 1], index);
      assert fragments == fragments[..|fragments| - 1] + [fragments[|fragments| - 1]];
    }
  }

  // A builder that was given all of a call.
  predicate Holds(b: Builder, c: WholeCall) {
    b == Builder(c.id, InternalToolName(c.name), c.arguments) && b.name != ""
  }

  lemma CutBuilder(fragments: seq<Fragment>, whole: seq<WholeCall>, k: nat)
    requires Fragmentation(fragments, whole) && k < |whole|
    ensures k in AbsorbAll(map[], fragments) && Holds(AbsorbAll(map[], fragments)[k], whole[k])
  {
    hide AbsorbAll, Only, Build, InternalToolName, ArgumentsText;
    assert CutsCall(Only(fragments, k), whole[k]);
    BuilderIsOwn(fragments, k);
    BuildOfCut(Only(fragments, k), whole[k]);
    NameStaysNonEmpty(whole[k].name);
  }

  lemma {:induction false} CallsOfWhole<A>(parse: Text -> A, builders: map<int, Builder>, whole: seq<WholeCall>)
    requires forall k: nat :: k < |whole| ==> k in builders && Holds(builders[k], whole[k])
    ensures CallsOf(parse, builders, |whole|) == WholeCalls(parse, whole)
  {
    hide InternalToolName;
    if whole != [] {
      var n := |whole| - 1;
      CallsOfWhole(parse, builders, whole[..n]);
      assert builders[n].name == InternalToolName(whole[n].name);
    }
  }

  // The streamed form refines the unstreamed one: for every way of cutting the
  // calls of a message into fragments and of interleaving the calls, the stream
  // ends with exactly the calls the whole message would have yielded.
  lemma StreamRefinesMessage<A>(parse: Text -> A, fragments: seq<Fragment>, whole: seq<WholeCall>)
    requires Fragmentation(fragments, whole) && whole != []
    ensures Ending(parse, AbsorbAll(map[], fragments)) == Calls(WholeCalls(parse, whole))
  {
    hide AbsorbAll, InternalToolName, CutsCall, Only;
    var b := AbsorbAll(map[], fragments);
    forall k: nat | k < |whole| ensures k in b && Holds(b[k], whole[k]) {
      CutBuilder(fragments, whole, k);
    }
    forall k ensures k in b.Keys <==> 0 <= k < |whole| {
      BuilderIsOwn(fragments, k);
      OnlyMembers(fragments, k);
      if k in b { assert Only(fragments, k)[0] in Only(fragments, k); }
    }
    assert b.Keys == UpTo(|whole|);
    CallsOfWhole(parse, b, whole);
  }

  // ---- from raw lines to the message ------------------------------------------------------------

  // A line of the stream as a server writes it: a chunk of JSON, or a line that
  // carries no data.
  datatype Sent = Chunk(gap: Text, json: Text, tail: Text) | Noise(text: Text)

  predicate Trimmed(s: Text) { s != "" && SpaceWidth(s) == 0 && !EndsInSpace(s, 1) && !EndsInSpace(s, 2) && !EndsInSpace(s, 3) }

  predicate IsBlank(s: Text) { forall k :: 0 <= k < |s| ==> s[k] == ' ' || s[k] == '\t' || s[k] == '\r' }

  predicate WellSent(x: Sent) {
    match x
    case Chunk(gap, json, tail) => IsBlank(gap) && Trimmed(json) && json != "[DONE]" && IsBlank(tail)
    case Noise(text) => !HasPrefix(TrimSpace(text), "data:")
  }

  function LineText(x: Sent): Text {
    match x
    case Chunk(gap, json, tail) => "data:" + gap + json + tail
    case Noise(text) => text
  }

  lemma {:induction false} TrimBlankRight(s: Text, tail: Text)
    requires IsBlank(tail)
    ensures TrimRight(s + tail) == TrimRight(s)
    decreases |tail|
  {
    if tail == "" {
      assert s + tail == s;
    } else {
      var t := s + tail;
      assert t[|t| - 1] == tail[|tail| - 1];
      assert t[|t| - 1..] == [t[|t| - 1]];
      assert EndsInSpace(t, 1);
      assert t[..|t| - 1] == s + tail[..|tail| - 1];
      TrimBlankRight(s, tail[..|tail| - 1]);
    }
  }

  lemma {:induction false} TrimBlankLeft(gap: Text, s: Text)
    requires IsBlank(gap) && SpaceWidth(s) == 0
    ensures TrimLeft(gap + s) == s
  {
    if gap == "" {
      assert gap + s == s;
    } else {
      assert (gap + s)[0] == gap[0];
      assert (gap + s)[1..] == gap[1..] + s;
      TrimBlankLeft(gap[1..], s);
    }
  }

  predicate Ascii(s: Text) { forall k :: 0 <= k < |s| ==> s[k] < '\U{80}' }

  lemma AsciiWidth(s: Text)
    requires s != "" && s[0] < '\U{80}'
    ensures SpaceWidth(s) <= 1
  {
  }

  // What stands before a trimmed text does not make its end a space.
  lemma NoSpaceAtEnd(front: Text, s: Text, w: nat)
    requires Trimmed(s) && Ascii(front) && 1 <= w <= 3
    ensures !EndsInSpace(front + s, w)
  {
    hide SpaceWidth;
    var t := front + s;
    if w <= |s| {
      assert t[|t| - w..] == s[|s| - w..];
    } else if w <= |t| {
      assert t[|t| - w..][0] == front[|front| - (w - |s|)];
      AsciiWidth(t[|t| - w..]);
    }
  }

  lemma TrimmedEnd(front: Text, s: Text)
    requires Trimmed(s) && Ascii(front)
    ensures TrimRight(front + s) == front + s
  {
    NoSpaceAtEnd(front, s, 1);
    NoSpaceAtEnd(front, s, 2);
    NoSpaceAtEnd(front, s, 3);
    hide EndsInSpace;
  }

  lemma DataFront(gap: Text, json: Text, tail: Text)
    requires IsBlank(gap)
    ensures Ascii("data:" + gap) && TrimLeft("data:" + gap + json + tail) == "data:" + gap + json + tail
    ensures ("data:" + gap) + json == "data:" + (gap + json)
  {
    var raw := "data:" + gap + json + tail;
    assert raw[0] == 'd';
    assert SpaceWidth(raw) == 0;
    hide SpaceWidth;
  }

  lemma ChunkTrimmed(gap: Text, json: Text, tail: Text)
    requires IsBlank(gap) && Trimmed(json) && IsBlank(tail)
    ensures TrimSpace("data:" + gap + json + tail) == "data:" + (gap + json)
    ensures TrimSpace(gap + json) == json
  {
    assert SpaceWidth(json) == 0 && Ascii("");
    hide TrimRight, TrimLeft, SpaceWidth, Trimmed, IsBlank, Ascii;
    DataFront(gap, json, tail);
    TrimBlankRight("data:" + gap + json, tail);
    TrimmedEnd("data:" + gap, json);
    TrimBlankLeft(gap, json);
    TrimmedEnd("", json);
    assert "" + json == json;
  }

  lemma ChunkLine(gap: Text, json: Text, tail: Text)
    requires IsBlank(gap) && Trimmed(json) && IsBlank(tail)
    ensures LineOf("data:" + gap + json + tail) == if json == "[DONE]" then Done else Data(json)
  {
    var line := "data:" + (gap + json);
    assert line[0] == 'd' && line[..5] == "data:" && line[5..] == gap + json;
    assert HasPrefix(line, "data:") && !HasPrefix(line, ":");
    hide TrimSpace, Trimmed, IsBlank;
    ChunkTrimmed(gap, json, tail);
  }

  function LineTexts(sent: seq<Sent>): seq<Text> {
    if sent == [] then [] else [LineText(sent[0])] + LineTexts(sent[1..])
  }

  // The choices of all chunks, in order.
  function Decoded(sent: seq<Sent>, decode: Text -> Option<seq<Delta>>): seq<Delta> {
    if sent == [] then []
    else
      var rest := Decoded(sent[1..], decode);
      if sent[0].Chunk? && decode(sent[0].json).Some? then decode(sent[0].json).value + rest else rest
  }

  lemma {:induction false} SentIsScanned(sent: seq<Sent>, rest: seq<Text>, fails: bool, decode: Text -> Option<seq<Delta>>)
    requires forall x :: x in sent ==> WellSent(x) && (x.Chunk? ==> decode(x.json).Some?)
    ensures var s, t := ScanLines(LineTexts(sent) + rest, fails, decode), ScanLines(rest, fails, decode);
      s == Scan(Decoded(sent, decode) + t.deltas, t.ok)
  {
    hide LineOf, TrimSpace, Trimmed, IsBlank, HasPrefix;
    var t := ScanLines(rest, fails, decode);
    if sent == [] {
      assert LineTexts(sent) + rest == rest && [] + t.deltas == t.deltas;
    } else {
      var x := sent[0];
      SentIsScanned(sent[1..], rest, fails, decode);
      var lines := LineTexts(sent) + rest;
      assert lines[0] == LineText(x) && lines[1..] == LineTexts(sent[1..]) + rest;
      if x.Chunk? {
        ChunkLine(x.gap, x.json, x.tail);
        var value, more := decode(x.json).value, Decoded(sent[1..], decode);
        assert value + (more + t.deltas) == (value + more) + t.deltas;
      } else {
        NoiseLine(x.text);
      }
    }
  }

  lemma NoiseLine(text: Text)
    requires !HasPrefix(TrimSpace(text), "data:")
    ensures LineOf(text) == Skip
  {
    hide TrimSpace;
  }

  // How a stream of well-formed lines can go on: with the done marker, an
  // undecodable chunk, or nothing more.
  datatype Ended = Marker(gap: Text, tail: Text, more: seq<Text>) | Broken(chunk: Sent, more: seq<Text>) | NoMore

  predicate EndsStream(end: Ended, decode: Text -> Option<seq<Delta>>) {
    match end
    case Marker(gap, tail, _) => IsBlank(gap) && IsBlank(tail)
    case Broken(chunk, _) => chunk.Chunk? && WellSent(chunk) && decode(chunk.json).None?
    case NoMore => true
  }

  function EndText(end: Ended): seq<Text> {
    match end
    case Marker(gap, tail, more) => ["data:" + gap + "[DONE]" + tail] + more
    case Broken(chunk, more) => [LineText(chunk)] + more
    case NoMore => []
  }

  // Every chunk is read, whole and in order, whatever other lines stand between
  // them; the stream ends well with the marker, whatever follows it, badly with
  // a chunk that cannot be decoded, and otherwise as its reader does.
  lemma StreamIsRead(sent: seq<Sent>, end: Ended, fails: bool, decode: Text -> Option<seq<Delta>>)
    requires forall x :: x in sent ==> WellSent(x) && (x.Chunk? ==> decode(x.json).Some?)
    requires EndsStream(end, decode)
    ensures ScanLines(LineTexts(sent) + EndText(end), fails, decode) ==
      Scan(Decoded(sent, decode), match end case Marker(_, _, _) => true case Broken(_, _) => false case NoMore => !fails)
  {
    hide LineOf;
    SentIsScanned(sent, EndText(end), fails, decode);
    match end
    case Marker(gap, tail, more) =>
      assert Trimmed("[DONE]") by { DoneIsTrimmed(); }
      ChunkLine(gap, "[DONE]", tail);
      assert EndText(end)[0] == "data:" + gap + "[DONE]" + tail;
    case Broken(chunk, more) =>
      ChunkLine(chunk.gap, chunk.json, chunk.tail);
      assert EndText(end)[0] == LineText(chunk);
    case NoMore =>
  }

  lemma DoneIsTrimmed()
    ensures Trimmed("[DONE]")
  {
    var s := "[DONE]";
    assert s[5..][0] == ']' && s[4..][0] == 'E' && s[3..][0] == 'N';
  }

  // A whole call keeps its id and its parsed arguments; empty arguments are none.
  lemma {:induction false} WholeCallAt<A>(parse: Text -> A, calls: seq<WholeCall>, k: nat)
    requires k < |calls|
    ensures |WholeCalls(parse, calls)| == |calls|
    ensures var c := WholeCalls(parse, calls)[k];
      && c.id == calls[k].id && c.name == InternalToolName(calls[k].name)
      && (c.arguments == None <==> calls[k].arguments == "")
      && (calls[k].arguments != "" ==> c.arguments == Some(parse(calls[k].arguments)))
  {
    hide InternalToolName;
    WholeCallsLength(parse, calls);
    if k < |calls| - 1 {
      WholeCallAt(parse, calls[..|calls| - 1], k);
    } else {
      WholeCallsLength(parse, calls[..k]);
    }
  }

  lemma {:induction false} WholeCallsLength<A>(parse: Text -> A, calls: seq<WholeCall>)
    ensures |WholeCalls(parse, calls)| == |calls|
  {
    hide InternalToolName;
    if calls != [] {
      WholeCallsLength(parse, calls[..|calls| - 1]);
    }
  }

  function Spoken<A>(chunks: seq<Chunk<A>>): Text {
    if chunks == [] then ""
    else
      var last := chunks[|chunks| - 1];
      Spoken(chunks[..|chunks| - 1]) + if last.Content? then last.text else ""
  }

  function ContentText(deltas: seq<Delta>): Text {
    if deltas == [] then "" else ContentText(deltas[..|deltas| - 1]) + deltas[|deltas| - 1].content
  }

  // The lines stream the message: read without an error, their texts add up to
  // its content and their fragments to its calls.
  ghost predicate Streams(lines: seq<Text>, fails: bool, decode: Text -> Option<seq<Delta>>,
                          content: Text, whole: seq<WholeCall>) {
    var s := ScanLines(lines, fails, decode);
    s.ok && ContentText(s.deltas) == content && Fragmentation(Fragments(s.deltas), whole)
  }

  lemma {:induction false} SpokenContents<A>(deltas: seq<Delta>)
    ensures Spoken(Contents<A>(deltas)) == ContentText(deltas)
  {
    if deltas != [] {
      SpokenContents<A>(deltas[..|deltas| - 1]);
      var front, last := Contents<A>(deltas[..|deltas| - 1]), deltas[|deltas| - 1].content;
      if last != "" {
        assert (front + [Content(last)])[..|front|] == front;
      } else {
        assert front + [] == front;
      }
    }
  }

  lemma SpokenPush<A>(front: seq<Chunk<A>>, last: Chunk<A>)
    ensures Spoken(front + [last]) == Spoken(front) + if last.Content? then last.text else ""
  {
    assert (front + [last])[..|front|] == front;
  }

  lemma SpokenMessage<A>(content: Text, whole: seq<WholeCall>, parse: Text -> A)
    ensures Spoken(MessageChunks(content, whole, parse)) == if whole == [] then content else ""
  {
    hide WholeCalls;
    if whole == [] {
      var text: seq<Chunk<A>> := [Content(content)];
      assert MessageChunks(content, whole, parse) == text + [Final] && [] + text == text;
      SpokenPush<A>([], Content(content));
      SpokenPush(text, Final);
    } else {
      assert [] + MessageChunks(content, whole, parse) == MessageChunks(content, whole, parse);
      SpokenPush([], MessageChunks(content, whole, parse)[0]);
    }
  }

  // Both forms of one message end with the same chunk, the message's calls or
  // the plain end; and they pass on the same text if and only if the message has
  // no calls or no text, since the whole form drops a text beside calls.
  lemma StreamAgreesWithMessage<A>(lines: seq<Text>, fails: bool, decode: Text -> Option<seq<Delta>>, parse: Text -> A,
                                   content: Text, whole: seq<WholeCall>)
    requires Streams(lines, fails, decode, content, whole)
    ensures var streamed, unstreamed := StreamChunks(lines, fails, decode, parse), MessageChunks(content, whole, parse);
      && streamed != [] && streamed[|streamed| - 1] == unstreamed[|unstreamed| - 1]
      && Spoken(streamed) == content
      && (Spoken(streamed) == Spoken(unstreamed) <==> whole == [] || content == "")
  {
    hide ScanLines, Contents, Fragments, AbsorbAll, Only, CutsCall, Spoken, WholeCalls, CallsOf;
    var s := ScanLines(lines, fails, decode);
    var fragments := Fragments(s.deltas);
    var ending := Ending(parse, AbsorbAll(map[], fragments));
    assert fragments != [] ==> fragments[0] in fragments;
    if whole == [] {
      assert fragments == [];
      AbsorbNothing(parse);
    } else {
      StreamRefinesMessage(parse, fragments, whole);
    }
    SpokenContents<A>(s.deltas);
    SpokenPush(Contents<A>(s.deltas), ending);
    SpokenMessage(content, whole, parse);
    assert !ending.Content?;
  }

  lemma AbsorbNothing<A>(parse: Text -> A)
    ensures Ending(parse, AbsorbAll(map[], [])) == Final
  {
  }

  // ---- calls that are lost ---------------------------------------------------------------------------

  predicate AllNamed(builders: map<int, Builder>) { forall k :: k in builders ==> builders[k].name != "" }

  lemma {:induction false} CallCount<A>(parse: Text -> A, builders: map<int, Builder>, hi: nat)
    requires AllNamed(builders)
    ensures |CallsOf(parse, builders, hi)| == |set k | k in builders && 0 <= k < hi|
  {
    if hi > 0 {
      CallCount(parse, builders, hi - 1);
      var below := set k | k in builders && 0 <= k < hi - 1;
      assert (set k | k in builders && 0 <= k < hi) == if hi - 1 in builders then below + {hi - 1} else below;
    } else {
      assert (set k | k in builders && 0 <= k < hi) == {};
    }
  }

  // Emission counts the builders and takes the indices 0, 1, ... up to that
  // count: of n named calls none is lost exactly when their indices are 0 to n - 1.
  lemma NothingLostExactly<A>(parse: Text -> A, builders: map<int, Builder>)
    requires AllNamed(builders)
    ensures |CallsOf(parse, builders, |builders|)| == |builders| <==>
      forall k :: k in builders <==> 0 <= k < |builders|
  {
    var n := |builders|;
    CallCount(parse, builders, n);
    var seen := set k | k in builders && 0 <= k < n;
    assert seen <= builders.Keys && |builders.Keys| == n;
    if |seen| == n {
      SameSize(seen, builders.Keys);
      SameSize(seen, UpTo(n));
    }
    if forall k :: k in builders <==> 0 <= k < n {
      assert seen == builders.Keys;
    }
  }

  lemma SameSize(a: set<int>, b: set<int>)
    requires a <= b && |a| == |b|
    ensures a == b
  {
    assert |b - a| == 0;
  }
}
