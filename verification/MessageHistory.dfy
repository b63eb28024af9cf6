// The stored messages of a session
// (modules/gateway/internal/gateway/repository/message.go): streamed deltas are
// appended to the last message while its role and run stay the same.
module MessageHistory {
  import opened Strings

  datatype Block = Block(kind: Text, text: Text)

  datatype Message = Message(session: Text, role: Text, run: Text, seqNo: nat, content: seq<Block>)

  // One call: Add and AddWithMetadata store a message of their own,
  // AddOrAppend (with `merges`) may extend the last one.
  datatype Op = Op(session: Text, role: Text, run: Text, content: seq<Block>, merges: bool)

  predicate Appendable(role: Text) { role == "assistant" || role == "subagent" }

  function Delta(session: Text, role: Text, text: Text, run: Text): Op {
    Op(session, role, run, [Block("text", text)], true)
  }

  // Appending to the last block, which becomes a text block.
  function Extended(content: seq<Block>, text: Text): seq<Block> {
    var blocks := if content == [] then [Block("text", "")] else content;
    var n := |blocks| - 1;
    blocks[n := Block("text", blocks[n].text + text)]
  }

  function ContentText(content: seq<Block>): Text {
    if content == [] then "" else ContentText(content[..|content| - 1]) + content[|content| - 1].text
  }

  // Whether a call extends the message with this role and run.
  predicate Joins(role: Text, run: Text, op: Op) {
    op.merges && Appendable(op.role) && role == op.role && run == op.run
  }

  // A session's messages after one more call for it.
  function Step(messages: seq<Message>, op: Op): seq<Message> {
    var n := |messages|;
    if n > 0 && Joins(messages[n - 1].role, messages[n - 1].run, op) then
      messages[n - 1 := messages[n - 1].(content := Extended(messages[n - 1].content, ContentText(op.content)))]
    else messages + [Message(op.session, op.role, op.run, n + 1, op.content)]
  }

  function Steps(messages: seq<Message>, ops: seq<Op>): seq<Message> {
    if ops == [] then messages else Step(Steps(messages, ops[..|ops| - 1]), ops[|ops| - 1])
  }

  // ---- the store ------------------------------------------------------------------------------

  function OfSession(rows: seq<Message>, session: Text): seq<Message> {
    if rows == [] then []
    else OfSession(rows[..|rows| - 1], session)
         + if rows[|rows| - 1].session == session then [rows[|rows| - 1]] else []
  }

  predicate Numbered(messages: seq<Message>) {
    forall k :: 0 <= k < |messages| ==> messages[k].seqNo == k + 1
  }

  // Row `k` is the newest of its session.
  predicate IsNewest(rows: seq<Message>, session: Text, k: int) {
    && 0 <= k < |rows| && rows[k].session == session
    && forall j :: 0 <= j < |rows| && rows[j].session == session ==> rows[j].seqNo <= rows[k].seqNo
  }

  const MAX_LIST_LIMIT: nat := 500
  const DEFAULT_LIST_LIMIT: nat := 200

  function ListLimit(limit: int): (r: nat)
    ensures 1 <= limit <= 500 ==> r == limit
    ensures limit < 1 || limit > 500 ==> r == 200
  {
    if limit <= 0 || limit > MAX_LIST_LIMIT then DEFAULT_LIST_LIMIT else limit
  }

  function LastOf<T>(s: seq<T>, n: nat): seq<T> { if |s| <= n then s else s[|s| - n..] }

  function Reversed<T>(s: seq<T>): (r: seq<T>)
    ensures |r| == |s| && forall k :: 0 <= k < |s| ==> r[k] == s[|s| - 1 - k]
  {
    if s == [] then [] else [s[|s| - 1]] + Reversed(s[..|s| - 1])
  }

  // The rows a query keeps: by role, by number, or all of them.
  function Filtered(messages: seq<Message>, keep: Message -> bool): seq<Message> {
    if messages == [] then []
    else Filtered(messages[..|messages| - 1], keep)
         + if keep(messages[|messages| - 1]) then [messages[|messages| - 1]] else []
  }

  // What "order by seq desc limit n" returns for rows numbered in table order.
  function NewestFirst(messages: seq<Message>, n: nat): seq<Message> { Reversed(LastOf(messages, n)) }

  // The in-place reversal of listLatestQuery.
  method ReverseRows(rows: array<Message>)
    modifies rows
    ensures rows[..] == Reversed(old(rows[..]))
  {
    var left, right := 0, rows.Length - 1;
    while left < right
      invariant 0 <= left <= right + 1 && left + right == rows.Length - 1
      invariant forall k :: 0 <= k < left || right < k < rows.Length ==> rows[k] == old(rows[rows.Length - 1 - k])
      invariant forall k :: left <= k <= right ==> rows[k] == old(rows[k])
    {
      rows[left], rows[right] := rows[right], rows[left];
      left, right := left + 1, right - 1;
    }
    assert forall k :: 0 <= k < rows.Length ==> rows[k] == old(rows[rows.Length - 1 - k]);
  }

  lemma {:induction false} OfSessionConcat(a: seq<Message>, b: seq<Message>, session: Text)
    ensures OfSession(a + b, session) == OfSession(a, session) + OfSession(b, session)
  {
    if b == [] {
      assert a + b == a;
    } else {
      assert (a + b)[..|a + b| - 1] == a + b[..|b| - 1] && (a + b)[|a + b| - 1] == b[|b| - 1];
      OfSessionConcat(a, b[..|b| - 1], session);
    }
  }

  lemma OneOfSession(m: Message, session: Text)
    ensures OfSession([m], session) == if m.session == session then [m] else []
  {
    assert [m][..0] == [];
  }

  lemma SplitAtRow(rows: seq<Message>, k: nat, session: Text)
    requires k < |rows|
    ensures OfSession(rows, session)
      == OfSession(rows[..k], session) + OfSession([rows[k]], session) + OfSession(rows[k + 1..], session)
  {
    assert rows == (rows[..k] + [rows[k]]) + rows[k + 1..];
    OfSessionConcat(rows[..k] + [rows[k]], rows[k + 1..], session);
    OfSessionConcat(rows[..k], [rows[k]], session);
  }

  // The row with the greatest number is the session's last.
  lemma NewestIsLast(rows: seq<Message>, session: Text, k: int)
    requires Numbered(OfSession(rows, session))
    requires k == -1 <==> forall j :: 0 <= j < |rows| ==> rows[j].session != session
    requires k != -1 ==> IsNewest(rows, session, k)
    ensures k == -1 <==> OfSession(rows, session) == []
    ensures k != -1 ==> rows[k].seqNo == |OfSession(rows, session)| && OfSession(rows[k + 1..], session) == []
    ensures k != -1 ==> rows[k] == OfSession(rows, session)[|OfSession(rows, session)| - 1]
  {
    var mine := OfSession(rows, session);
    if k == -1 {
      NoneOfSession(rows, session);
    } else {
      SplitAtRow(rows, k, session);
      OneOfSession(rows[k], session);
      assert mine[|OfSession(rows[..k], session)|] == rows[k];
      var j := LastRow(rows, session);
    }
  }

  lemma {:induction false} NoneOfSession(rows: seq<Message>, session: Text)
    requires forall j :: 0 <= j < |rows| ==> rows[j].session != session
    ensures OfSession(rows, session) == []
  {
    if rows != [] { NoneOfSession(rows[..|rows| - 1], session); }
  }

  lemma {:induction false} LastRow(rows: seq<Message>, session: Text) returns (j: nat)
    requires OfSession(rows, session) != []
    ensures j < |rows| && rows[j].session == session
    ensures rows[j] == OfSession(rows, session)[|OfSession(rows, session)| - 1]
  {
    var n := |rows| - 1;
    if rows[n].session == session {
      j := n;
    } else {
      assert OfSession(rows[..n], session) == OfSession(rows, session);
      j := LastRow(rows[..n], session);
    }
  }

  lemma AddedRow(rows: seq<Message>, m: Message)
    ensures OfSession(rows + [m], m.session) == OfSession(rows, m.session) + [m]
    ensures forall other :: other != m.session ==> OfSession(rows + [m], other) == OfSession(rows, other)
  {
    assert (rows + [m])[..|rows|] == rows;
    forall other ensures OfSession(rows + [m], other) == OfSession(rows, other) + OfSession([m], other) {
      OfSessionConcat(rows, [m], other);
    }
    OneOfSession(m, m.session);
    forall other | other != m.session ensures OfSession([m], other) == [] { OneOfSession(m, other); }
  }

  lemma ChangedElsewhere(rows: seq<Message>, k: nat, m: Message, other: Text)
    requires k < |rows| && rows[k].session == m.session && other != m.session
    ensures OfSession(rows[k := m], other) == OfSession(rows, other)
  {
    var changed := rows[k := m];
    assert changed[..k] == rows[..k] && changed[k + 1..] == rows[k + 1..];
    SplitAtRow(rows, k, other);
    SplitAtRow(changed, k, other);
    OneOfSession(rows[k], other);
    OneOfSession(m, other);
  }

  // Rewriting the session's last row in place.
  lemma ChangedRow(rows: seq<Message>, k: nat, m: Message)
    requires k < |rows| && rows[k].session == m.session && OfSession(rows[k + 1..], m.session) == []
    ensures var n := |OfSession(rows, m.session)| - 1;
      n >= 0 && rows[k] == OfSession(rows, m.session)[n]
      && OfSession(rows[k := m], m.session) == OfSession(rows, m.session)[n := m]
    ensures forall other :: other != m.session ==> OfSession(rows[k := m], other) == OfSession(rows, other)
  {
    hide OfSession;
    var changed, front := rows[k := m], OfSession(rows[..k], m.session);
    assert changed[..k] == rows[..k] && changed[k + 1..] == rows[k + 1..];
    SplitAtRow(rows, k, m.session);
    SplitAtRow(changed, k, m.session);
    OneOfSession(rows[k], m.session);
    OneOfSession(m, m.session);
    assert OfSession(rows, m.session) == front + [rows[k]] && OfSession(changed, m.session) == front + [m];
    forall other | other != m.session ensures OfSession(changed, other) == OfSession(rows, other) {
      ChangedElsewhere(rows, k, m, other);
    }
  }

  lemma StepKeepsNumbers(messages: seq<Message>, op: Op)
    requires Numbered(messages)
    ensures Numbered(Step(messages, op))
  {
  }

  class MessageRepository {
    var rows: seq<Message>

    ghost predicate Valid()
      reads this
    {
      forall session :: Numbered(OfSession(rows, session))
    }

    constructor ()
      ensures Valid() && rows == []
    {
      rows := [];
    }

    // "order by seq desc" with First; -1 when the session has no messages.
    method Newest(session: Text) returns (k: int)
      ensures k == -1 <==> forall j :: 0 <= j < |rows| ==> rows[j].session != session
      ensures k != -1 ==> IsNewest(rows, session, k)
    {
      k := -1;
      for i := 0 to |rows|
        invariant -1 <= k < i
        invariant k == -1 ==> forall j :: 0 <= j < i ==> rows[j].session != session
        invariant k >= 0 ==> rows[k].session == session
        invariant k >= 0 ==> forall j :: 0 <= j < i && rows[j].session == session ==> rows[j].seqNo <= rows[k].seqNo
      {
        if rows[i].session == session {
          if k == -1 {
            k := i;
          } else if rows[i].seqNo > rows[k].seqNo {
            k := i;
          }
        }
      }
    }

    method Add(session: Text, role: Text, content: seq<Block>, run: Text)
      requires Valid()
      modifies this
      ensures Valid()
      ensures OfSession(rows, session) ==
        old(OfSession(rows, session)) + [Message(session, role, run, |old(OfSession(rows, session))| + 1, content)]
      ensures forall other :: other != session ==> OfSession(rows, other) == old(OfSession(rows, other))
    {
      var last := Newest(session);
      NewestIsLast(rows, session, last);
      var seqNo := 1;
      if last >= 0 {
        seqNo := rows[last].seqNo + 1;
      }
      AddedRow(rows, Message(session, role, run, seqNo, content));
      rows := rows + [Message(session, role, run, seqNo, content)];
    }

    method AddOrAppend(session: Text, role: Text, text: Text, run: Text)
      requires Valid()
      modifies this
      ensures Valid()
      ensures OfSession(rows, session) == Step(old(OfSession(rows, session)), Delta(session, role, text, run))
      ensures forall other :: other != session ==> OfSession(rows, other) == old(OfSession(rows, other))
    {
      hide OfSession, Extended, Numbered;
      var last := Newest(session);
      NewestIsLast(rows, session, last);
      ExtendedIs([], text);
      if role != "assistant" && role != "subagent" {
        Add(session, role, [Block("text", text)], run);
        return;
      }
      if last == -1 {
        Add(session, role, [Block("text", text)], run);
        return;
      }
      var message := rows[last];
      if message.role != role || message.run != run {
        Add(session, role, [Block("text", text)], run);
        return;
      }
      var content := message.content;
      if |content| == 0 {
        content := [Block("text", "")];
      }
      var n := |content| - 1;
      content := content[n := Block("text", content[n].text + text)];
      ExtendedIs(message.content, text);
      ChangedRow(rows, last, message.(content := content));
      StepKeepsNumbers(OfSession(rows, session), Delta(session, role, text, run));
      ghost var before := rows;
      rows := rows[last := message.(content := content)];
      assert OfSession(rows, session) == Step(OfSession(before, session), Delta(session, role, text, run));
      forall other ensures Numbered(OfSession(rows, other)) {
        assert other != session ==> OfSession(rows, other) == OfSession(before, other);
      }
    }

    // ListLatest, ListLatestConversation and ListConversationAfterSeq differ in `keep`.
    method ListLatest(session: Text, keep: Message -> bool, limit: int) returns (out: seq<Message>)
      requires Valid()
      ensures out == LastOf(Filtered(OfSession(rows, session), keep), ListLimit(limit))
    {
      var n := limit;
      if n <= 0 || n > MAX_LIST_LIMIT {
        n := DEFAULT_LIST_LIMIT;
      }
      var found := NewestFirst(Filtered(OfSession(rows, session), keep), n);
      var a := new Message[|found|](k requires 0 <= k < |found| => found[k]);
      assert a[..] == found;
      ReverseRows(a);
      out := a[..];
      ReversedTwice(LastOf(Filtered(OfSession(rows, session), keep), n));
    }

    method CopyToSession(source: seq<Message>, target: Text, startSeq: nat)
      modifies this
      ensures OfSession(rows, target) == old(OfSession(rows, target)) + Copies(source, target, startSeq)
      ensures forall other :: other != target ==> OfSession(rows, other) == old(OfSession(rows, other))
    {
      ghost var before := rows;
      for k := 0 to |source|
        invariant OfSession(rows, target) == OfSession(before, target) + Copies(source[..k], target, startSeq)
        invariant forall other :: other != target ==> OfSession(rows, other) == OfSession(before, other)
      {
        var copied := source[k].(session := target, seqNo := startSeq + k);
        assert (rows + [copied])[..|rows|] == rows;
        assert source[..k + 1][..k] == source[..k];
        rows := rows + [copied];
      }
      assert source[..|source|] == source;
    }
  }

  function Copies(source: seq<Message>, target: Text, startSeq: nat): seq<Message> {
    if source == [] then []
    else Copies(source[..|source| - 1], target, startSeq)
         + [source[|source| - 1].(session := target, seqNo := startSeq + |source| - 1)]
  }

  lemma ReversedTwice<T>(s: seq<T>)
    ensures Reversed(Reversed(s)) == s
  {
    assert |Reversed(Reversed(s))| == |s|;
    forall k | 0 <= k < |s| ensures Reversed(Reversed(s))[k] == s[k] {}
  }

  lemma ExtendedIs(content: seq<Block>, text: Text)
    ensures ContentText([Block("text", text)]) == text
    ensures var blocks := if content == [] then [Block("text", "")] else content;
      Extended(content, text) == blocks[|blocks| - 1 := Block("text", blocks[|blocks| - 1].text + text)]
  {
    assert [Block("text", text)][..0] == [];
  }

  // ---- any number of calls ----------------------------------------------------------------------

  lemma {:induction false} ContentConcat(a: seq<Block>, b: Block)
    ensures ContentText(a + [b]) == ContentText(a) + b.text
  {
    assert (a + [b])[..|a|] == a;
  }

  lemma ExtendedText(content: seq<Block>, text: Text)
    ensures ContentText(Extended(content, text)) == ContentText(content) + text
  {
    if content == [] {
      assert Extended(content, text) == [] + [Block("text", "" + text)];
      ContentConcat([], Block("text", "" + text));
    } else {
      var n := |content| - 1;
      assert Extended(content, text) == content[..n] + [Block("text", content[n].text + text)];
      ContentConcat(content[..n], Block("text", content[n].text + text));
    }
  }

  function OpText(ops: seq<Op>): Text {
    if ops == [] then "" else OpText(ops[..|ops| - 1]) + ContentText(ops[|ops| - 1].content)
  }

  function HistoryText(messages: seq<Message>): Text {
    if messages == [] then ""
    else HistoryText(messages[..|messages| - 1]) + ContentText(messages[|messages| - 1].content)
  }

  lemma StepText(messages: seq<Message>, op: Op)
    ensures HistoryText(Step(messages, op)) == HistoryText(messages) + ContentText(op.content)
  {
    var n, next := |messages|, Step(messages, op);
    if n > 0 && Joins(messages[n - 1].role, messages[n - 1].run, op) {
      assert next[..n - 1] == messages[..n - 1];
      ExtendedText(messages[n - 1].content, ContentText(op.content));
    } else {
      assert next[..n] == messages;
    }
  }

  // Nothing is lost, doubled or reordered: the text of the history is the text
  // of the calls in call order, and the messages are numbered 1, 2, 3, ...
  lemma {:induction false} HistoryKeepsText(ops: seq<Op>)
    ensures HistoryText(Steps([], ops)) == OpText(ops)
    ensures Numbered(Steps([], ops))
  {
    assert Numbered([]);
    hide Step, Numbered;
    if ops != [] {
      HistoryKeepsText(ops[..|ops| - 1]);
      StepText(Steps([], ops[..|ops| - 1]), ops[|ops| - 1]);
      StepKeepsNumbers(Steps([], ops[..|ops| - 1]), ops[|ops| - 1]);
    }
  }

  // ---- the history as a run-length merge -----------------------------------------------------------

  // Call `b` is a delta of the same assistant or subagent run as `a`.
  predicate JoinsCall(a: Op, b: Op) {
    b.merges && a.role == b.role && a.run == b.run && b.role in {"assistant", "subagent"}
  }

  // `op` added to the last group or as a group of its own.
  function Placed(groups: seq<seq<Op>>, op: Op): seq<seq<Op>> {
    var n := |groups|;
    if n > 0 && groups[n - 1] != [] && JoinsCall(groups[n - 1][|groups[n - 1]| - 1], op)
    then groups[..n - 1] + [groups[n - 1] + [op]]
    else groups + [[op]]
  }

  function Groups(ops: seq<Op>): seq<seq<Op>> {
    if ops == [] then [] else Placed(Groups(ops[..|ops| - 1]), ops[|ops| - 1])
  }

  function Flat(groups: seq<seq<Op>>): seq<Op> {
    if groups == [] then [] else Flat(groups[..|groups| - 1]) + groups[|groups| - 1]
  }

  // Every call of a group joins the one before it ...
  ghost predicate Linked(g: seq<Op>) {
    g != [] && forall k :: 0 < k < |g| ==> JoinsCall(g[k - 1], g[k])
  }

  // ... and the next group's first call does not.
  predicate Separated(g: seq<Op>, h: seq<Op>) { g != [] && h != [] && !JoinsCall(g[|g| - 1], h[0]) }

  ghost predicate MaximalRuns(groups: seq<seq<Op>>) {
    && (forall g :: 0 <= g < |groups| ==> Linked(groups[g]))
    && (forall g, h :: 0 <= g < h < |groups| && h == g + 1 ==> Separated(groups[g], groups[h]))
  }

  lemma PlacedInMaximalRuns(groups: seq<seq<Op>>, op: Op)
    requires MaximalRuns(groups)
    ensures MaximalRuns(Placed(groups, op)) && Flat(Placed(groups, op)) == Flat(groups) + [op]
  {
    hide JoinsCall;
    var n, next := |groups|, Placed(groups, op);
    if n > 0 && JoinsCall(groups[n - 1][|groups[n - 1]| - 1], op) {
      var grown := groups[n - 1] + [op];
      assert next[..n - 1] == groups[..n - 1] && next[n - 1] == grown;
      assert Linked(grown) && (n > 1 ==> Separated(groups[n - 2], groups[n - 1]));
    } else {
      assert next[..n] == groups && Linked([op]);
    }
  }

  // The grouping leaves the calls in order and makes the runs as long as they
  // can be.
  lemma {:induction false} GroupsAreMaximalRuns(ops: seq<Op>)
    ensures Flat(Groups(ops)) == ops && MaximalRuns(Groups(ops))
  {
    assert Flat([]) == [] && MaximalRuns([]);
    hide MaximalRuns, Placed, Flat;
    if ops != [] {
      GroupsAreMaximalRuns(ops[..|ops| - 1]);
      PlacedInMaximalRuns(Groups(ops[..|ops| - 1]), ops[|ops| - 1]);
      assert ops == ops[..|ops| - 1] + [ops[|ops| - 1]];
    }
  }

  // Message `m` is what group `g` comes to.
  ghost predicate MergeOf(m: Message, g: seq<Op>) {
    && g != [] && m.role == g[0].role && m.run == g[0].run && m.session == g[0].session
    && m.role == g[|g| - 1].role && m.run == g[|g| - 1].run
    && ContentText(m.content) == OpText(g)
  }

  lemma MergeStep(m: Message, g: seq<Op>, op: Op)
    requires MergeOf(m, g) && Joins(m.role, m.run, op)
    ensures MergeOf(m.(content := Extended(m.content, ContentText(op.content))), g + [op])
  {
    ExtendedText(m.content, ContentText(op.content));
    assert (g + [op])[..|g|] == g;
  }

  lemma MergeStart(op: Op, n: nat)
    ensures MergeOf(Message(op.session, op.role, op.run, n, op.content), [op])
  {
    assert [op][..0] == [];
  }

  ghost predicate MergesOf(messages: seq<Message>, groups: seq<seq<Op>>) {
    |messages| == |groups| && forall k :: 0 <= k < |groups| ==> MergeOf(messages[k], groups[k])
  }

  lemma PlacedMerges(messages: seq<Message>, groups: seq<seq<Op>>, op: Op)
    requires MergesOf(messages, groups)
    ensures MergesOf(Step(messages, op), Placed(groups, op))
  {
    hide MergeOf, Extended;
    var n := |messages|;
    if n > 0 {
      LastRunIsLastCall(messages[n - 1], groups[n - 1]);
    }
    if n > 0 && Joins(messages[n - 1].role, messages[n - 1].run, op) {
      MergeStep(messages[n - 1], groups[n - 1], op);
    } else {
      MergeStart(op, n + 1);
    }
  }

  // One message per maximal run of calls, holding the run's text in call order.
  lemma {:induction false} HistoryIsRunLengthMerge(ops: seq<Op>)
    ensures MergesOf(Steps([], ops), Groups(ops))
    ensures MaximalRuns(Groups(ops)) && Flat(Groups(ops)) == ops
  {
    hide MergeOf, MaximalRuns, Step, Placed;
    GroupsAreMaximalRuns(ops);
    if ops != [] {
      HistoryIsRunLengthMerge(ops[..|ops| - 1]);
      PlacedMerges(Steps([], ops[..|ops| - 1]), Groups(ops[..|ops| - 1]), ops[|ops| - 1]);
    }
  }

  lemma LastRunIsLastCall(m: Message, g: seq<Op>)
    requires MergeOf(m, g)
    ensures g != [] && m.role == g[|g| - 1].role && m.run == g[|g| - 1].run
  {
  }

  // A delta's text goes to the end of the last block, which becomes a text block;
  // all other blocks stay.
  lemma ExtendedExactly(content: seq<Block>, text: Text)
    ensures var r := Extended(content, text);
      && |r| == (if content == [] then 1 else |content|)
      && r[..|r| - 1] == (if content == [] then [] else content[..|content| - 1])
      && r[|r| - 1].kind == "text"
      && r[|r| - 1].text == (if content == [] then "" else content[|content| - 1].text) + text
  {
  }

  ghost predicate AllDeltas(ops: seq<Op>) {
    forall k :: 0 <= k < |ops| ==> ops[k].merges && |ops[k].content| == 1 && ops[k].content[0].kind == "text"
  }

  predicate OneTextBlock(m: Message) { |m.content| == 1 && m.content[0].kind == "text" }

  // A history of deltas holds one text block per message, so each run of deltas
  // is stored as exactly its text.
  lemma {:induction false} DeltasMakeOneBlock(ops: seq<Op>)
    requires AllDeltas(ops)
    ensures forall k :: 0 <= k < |Steps([], ops)| ==> OneTextBlock(Steps([], ops)[k])
    ensures |Steps([], ops)| == |Groups(ops)|
    ensures forall k :: 0 <= k < |Groups(ops)| ==> Steps([], ops)[k].content == [Block("text", OpText(Groups(ops)[k]))]
  {
    hide Step, Placed, OpText, ContentText;
    HistoryIsRunLengthMerge(ops);
    if ops != [] {
      DeltasMakeOneBlock(ops[..|ops| - 1]);
      StepKeepsOneBlock(Steps([], ops[..|ops| - 1]), ops[|ops| - 1]);
    }
    forall k | 0 <= k < |Groups(ops)| ensures Steps([], ops)[k].content == [Block("text", OpText(Groups(ops)[k]))] {
      var m := Steps([], ops)[k];
      assert OneTextBlock(m) && MergeOf(m, Groups(ops)[k]);
      OneBlockText(m.content);
    }
  }

  lemma OneBlockText(content: seq<Block>)
    requires |content| == 1
    ensures ContentText(content) == content[0].text
  {
    assert content[..0] == [];
  }

  lemma StepKeepsOneBlock(messages: seq<Message>, op: Op)
    requires forall k :: 0 <= k < |messages| ==> OneTextBlock(messages[k])
    requires |op.content| == 1 && op.content[0].kind == "text"
    ensures forall k :: 0 <= k < |Step(messages, op)| ==> OneTextBlock(Step(messages, op)[k])
  {
  }

  // ---- copying and listing --------------------------------------------------------------------------

  // A copied history continues the target's numbers exactly when it starts
  // right after them.
  lemma CopyKeepsNumbersExactly(messages: seq<Message>, source: seq<Message>, target: Text, startSeq: nat)
    requires Numbered(messages) && source != []
    ensures Numbered(messages + Copies(source, target, startSeq)) <==> startSeq == |messages| + 1
  {
    CopiesAt(source, target, startSeq);
    var all := messages + Copies(source, target, startSeq);
    assert all[|messages|].seqNo == startSeq;
  }

  lemma {:induction false} CopiesAt(source: seq<Message>, target: Text, startSeq: nat)
    ensures |Copies(source, target, startSeq)| == |source|
    ensures forall k :: 0 <= k < |source| ==>
      Copies(source, target, startSeq)[k] == source[k].(session := target, seqNo := startSeq + k)
  {
    if source != [] { CopiesAt(source[..|source| - 1], target, startSeq); }
  }

  predicate Ascends(f: seq<Message>) { forall j, k :: 0 <= j < k < |f| ==> f[j].seqNo < f[k].seqNo }

  // A query's rows stay in ascending order when only some are kept, and the
  // last of them are the newest.
  lemma {:induction false} FilteredAscends(messages: seq<Message>, keep: Message -> bool)
    requires Numbered(messages)
    ensures var f := Filtered(messages, keep);
      && Ascends(f)
      && (forall m :: m in f <==> m in messages && keep(m))
  {
    if messages != [] {
      var n := |messages| - 1;
      FilteredAscends(messages[..n], keep);
      assert messages == messages[..n] + [messages[n]];
      assert forall m :: m in messages[..n] ==> m.seqNo <= n;
    }
  }

  // What ListLatest returns: ascending numbers, at most the limit, and nothing
  // newer left out.
  lemma LatestAreTheNewest(messages: seq<Message>, keep: Message -> bool, limit: int)
    requires Numbered(messages)
    ensures var f := Filtered(messages, keep);
      var r := LastOf(f, ListLimit(limit));
      && |r| == (if |f| < ListLimit(limit) then |f| else ListLimit(limit))
      && Ascends(r)
      && (forall m, k :: m in messages && keep(m) && m !in r && 0 <= k < |r| ==> m.seqNo < r[k].seqNo)
  {
    hide Filtered, ListLimit, Numbered, Ascends;
    FilteredAscends(messages, keep);
    LastAreGreatest(Filtered(messages, keep), ListLimit(limit));
  }

  lemma LastAreGreatest(f: seq<Message>, n: nat)
    requires Ascends(f)
    ensures var r := LastOf(f, n);
      && |r| == (if |f| < n then |f| else n)
      && Ascends(r)
      && (forall m, k :: m in f && m !in r && 0 <= k < |r| ==> m.seqNo < r[k].seqNo)
  {
    var r := LastOf(f, n);
    var skipped := |f| - |r|;
    assert forall k :: 0 <= k < |r| ==> r[k] == f[skipped + k];
    forall m, k | m in f && m !in r && 0 <= k < |r| ensures m.seqNo < r[k].seqNo {
      var j :| 0 <= j < |f| && f[j] == m;
      assert j < skipped;
    }
  }
}
