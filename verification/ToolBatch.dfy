// Running the tool calls of one provider message
// (modules/agent/internal/runtime/runtime.go, executeToolBatch and
// batchToHistory). Neighbouring subagent.run calls run in parallel; every
// other call is a barrier.
module ToolBatch {
  import opened Strings

  datatype Call = Call(id: Text, name: Text)

  // `NoStatus` is the zero value of a slot that was never filled in.
  datatype Status = NoStatus | Completed | Failed | Denied

  datatype ToolResult = ToolResult(callId: Text, name: Text, status: Status, error: Text)

  // What the tool, its policy check or the permission dialogue decides.
  datatype Outcome = Outcome(status: Status, error: Text)

  datatype Item = Item(call: Call, invocation: Call, result: ToolResult, ok: bool)

  datatype Exchange = Exchange(call: Call, result: ToolResult)

  const NO_CALL := Call("", "")
  const NO_RESULT := ToolResult("", "", NoStatus, "")

  function FreshItem(call: Call): Item { Item(call, NO_CALL, NO_RESULT, false) }

  // The call that is executed; one without id gets an id of its own.
  function Invocation(runId: Text, index: nat, call: Call): Call {
    if call.id == "" then call.(id := "tool_" + runId + "_model_" + Decimal(index + 1)) else call
  }

  // Slot `index` after its call ran, or was refused for its name.
  function Ran(runId: Text, tools: set<Text>, index: nat, call: Call, outcome: Outcome): Item {
    if call.name == "" then
      Item(call, NO_CALL, ToolResult(call.id, call.name, Failed, "tool name is required"), false)
    else if call.name !in tools then
      Item(call, NO_CALL, ToolResult(call.id, call.name, Failed, "unknown tool " + call.name), false)
    else
      var inv := Invocation(runId, index, call);
      Item(call, inv, ToolResult(inv.id, inv.name, outcome.status, outcome.error), outcome.status == Completed)
  }

  // Why a call is refused without being run; empty if it is run.
  function Refusal(tools: set<Text>, call: Call): Text {
    if call.name == "" then "tool name is required"
    else if call.name in tools then ""
    else "unknown tool " + call.name
  }

  // The id under which a call runs: its own, or one made from run and position.
  predicate IsIdOf(runId: Text, index: nat, call: Call, id: Text) {
    if call.id != "" then id == call.id else id == "tool_" + runId + "_model_" + Decimal(index + 1)
  }

  // ---- batchToHistory --------------------------------------------------------------------

  predicate Untouched(item: Item) { item.result == NO_RESULT }

  predicate Blank(call: Call) { call.id == "" && call.name == "" }

  function ExchangeOf(item: Item): Exchange {
    Exchange(if item.invocation.id != "" then item.invocation else item.call,
             if Untouched(item) then ToolResult(item.call.id, item.call.name, Failed, "tool was not executed")
             else item.result)
  }

  predicate Skipped(item: Item) { Untouched(item) && Blank(item.call) }

  function History(items: seq<Item>): seq<Exchange> {
    if items == [] then []
    else History(items[..|items| - 1])
         + if Skipped(items[|items| - 1]) then [] else [ExchangeOf(items[|items| - 1])]
  }

  class Batch {
    const runId: Text
    const tools: set<Text>
    const items: array<Item>

    constructor (runId: Text, tools: set<Text>, calls: seq<Call>)
      ensures fresh(items) && items.Length == |calls|
      ensures items[..] == seq(|calls|, k requires 0 <= k < |calls| => FreshItem(calls[k]))
      ensures this.runId == runId && this.tools == tools
    {
      this.runId, this.tools := runId, tools;
      items := new Item[|calls|](k requires 0 <= k < |calls| => FreshItem(calls[k]));
    }

    method RunOne(index: nat, outcome: Outcome)
      requires index < items.Length
      modifies items
      ensures items[..] == old(items[..])[index := Ran(runId, tools, index, old(items[index].call), outcome)]
      ensures var item, call := items[index], old(items[index].call);
        && item.call == call && item.result.name == call.name
        && if Refusal(tools, call) == "" then
             && IsIdOf(runId, index, call, item.invocation.id) && item.invocation.name == call.name
             && item.result.callId == item.invocation.id
             && item.result.status == outcome.status && item.result.error == outcome.error
             && (item.ok <==> outcome.status == Completed)
           else
             && item.invocation == NO_CALL && item.result.callId == call.id
             && item.result.status == Failed && item.result.error == Refusal(tools, call) && !item.ok
    {
      var call := items[index].call;
      var failed := ToolResult(call.id, call.name, Failed, "");
      if call.name == "" {
        items[index] := Item(call, NO_CALL, failed.(error := "tool name is required"), false);
        return;
      }
      if call.name !in tools {
        items[index] := Item(call, NO_CALL, failed.(error := "unknown tool " + call.name), false);
        return;
      }
      var invocation := call;
      if invocation.id == "" {
        invocation := invocation.(id := "tool_" + runId + "_model_" + Decimal(index + 1));
      }
      items[index] := Item(call, invocation,
                           ToolResult(invocation.id, invocation.name, outcome.status, outcome.error),
                           outcome.status == Completed);
    }

    method BatchToHistory() returns (history: seq<Exchange>)
      ensures history == History(items[..])
    {
      history := [];
      for k := 0 to items.Length
        invariant history == History(items[..k])
      {
        assert items[..k + 1][..k] == items[..k];
        var item := items[k];
        var call := item.call;
        if item.invocation.id != "" {
          call := item.invocation;
        }
        var empty := item.result.callId == "" && item.result.name == "" && item.result.error == "";
        if empty && item.result.status == NoStatus {
          if item.call.id == "" && item.call.name == "" {
            continue;
          }
          item := item.(result := ToolResult(item.call.id, item.call.name, Failed, "tool was not executed"));
        }
        history := history + [Exchange(call, item.result)];
      }
      assert items[..items.Length] == items[..];
    }
  }

  // ---- the protocol ------------------------------------------------------------------------

  datatype Phase = Pending | Spawned | Running | Finished | Abandoned

  // Where the batch's own goroutine is.
  datatype Main =
    | AtTop(index: nat)
    | InBarrier(index: nat)
    | Spawning(start: nat, next: nat, end: nat)
    | Waiting(start: nat, end: nat)
    | Returned(aborted: bool)

  datatype Event = Start(index: nat) | Finish(index: nat)

  datatype World = World(items: seq<Item>, phase: seq<Phase>, main: Main, cancelled: bool, log: seq<Event>)

  datatype Action =
    | Cancel
    | Top
    | BarrierDone(outcome: Outcome)
    | Spawn
    | WorkerStart(index: nat)
    | WorkerDone(worker: nat, result: Outcome)
    | GroupDone

  datatype Setup = Setup(runId: Text, tools: set<Text>, calls: seq<Call>)

  predicate Parallel(calls: seq<Call>, i: nat) { i < |calls| && calls[i].name == "subagent.run" }

  // The first call after `i` that is not a subagent.run.
  function GroupEnd(calls: seq<Call>, i: nat): (e: nat)
    requires i <= |calls|
    ensures i <= e <= |calls|
    decreases |calls| - i
  {
    if Parallel(calls, i) then GroupEnd(calls, i + 1) else i
  }

  function Init(s: Setup): World {
    var n := |s.calls|;
    World(seq(n, k requires 0 <= k < n => FreshItem(s.calls[k])), seq(n, k => Pending), AtTop(0), false, [])
  }

  predicate Shape(s: Setup, w: World) { |w.items| == |w.phase| == |s.calls| }

  predicate Settled(p: Phase) { p.Pending? || p.Finished? || p.Abandoned? }

  predicate Enabled(s: Setup, w: World, act: Action)
    requires Shape(s, w)
  {
    match act
    case Cancel => !w.cancelled
    case Top => w.main.AtTop? && w.main.index <= |s.calls|
    case BarrierDone(o) => w.main.InBarrier? && w.main.index < |s.calls| && o.status != NoStatus
    case Spawn => w.main.Spawning? && w.main.next <= w.main.end <= |s.calls|
    case WorkerStart(i) => i < |s.calls| && w.phase[i].Spawned?
    case WorkerDone(i, o) =>
      i < |s.calls| && w.phase[i].Running? && !w.main.InBarrier? && o.status != NoStatus
    case GroupDone =>
      && w.main.Waiting? && w.main.start <= w.main.end <= |s.calls|
      && forall k :: w.main.start <= k < w.main.end ==> Settled(w.phase[k])
  }

  function Begin(w: World, i: nat): World
    requires i < |w.phase|
  {
    w.(phase := w.phase[i := Running], log := w.log + [Start(i)])
  }

  function Complete(s: Setup, w: World, i: nat, o: Outcome): World
    requires Shape(s, w) && i < |s.calls|
  {
    w.(items := w.items[i := Ran(s.runId, s.tools, i, s.calls[i], o)],
       phase := w.phase[i := Finished], log := w.log + [Finish(i)])
  }

  function Apply(s: Setup, w: World, act: Action): World
    requires Shape(s, w) && Enabled(s, w, act)
  {
    match act
    case Cancel => w.(cancelled := true)
    case Top =>
      var i := w.main.index;
      if i == |s.calls| then w.(main := Returned(w.cancelled))
      else if w.cancelled then w.(main := Returned(true))
      else if !Parallel(s.calls, i) then Begin(w, i).(main := InBarrier(i))
      else w.(main := Spawning(i, i, GroupEnd(s.calls, i)))
    case BarrierDone(o) => Complete(s, w, w.main.index, o).(main := AtTop(w.main.index + 1))
    case Spawn =>
      var m := w.main;
      if m.next == m.end || w.cancelled then w.(main := Waiting(m.start, m.end))
      else w.(phase := w.phase[m.next := Spawned], main := m.(next := m.next + 1))
    case WorkerStart(i) =>
      if w.cancelled then w.(phase := w.phase[i := Abandoned]) else Begin(w, i)
    case WorkerDone(i, o) => Complete(s, w, i, o)
    case GroupDone => w.(main := AtTop(w.main.end))
  }

  // ---- the invariant --------------------------------------------------------------------------

  // `i` and `j` lie in one run of neighbouring subagent.run calls.
  ghost predicate SameGroup(calls: seq<Call>, i: nat, j: nat) {
    forall k :: i <= k <= j ==> Parallel(calls, k)
  }

  predicate AllAre(phase: seq<Phase>, lo: nat, hi: nat, p: Phase) {
    hi <= |phase| && forall k :: lo <= k < hi ==> phase[k] == p
  }

  ghost predicate IsGroup(calls: seq<Call>, start: nat, end: nat) {
    start < end <= |calls| && forall k :: start <= k < end ==> Parallel(calls, k)
  }

  // A call that was passed over was passed over because of a cancellation.
  predicate PassedOver(w: World, lo: nat, hi: nat) {
    hi <= |w.phase| && forall k :: lo <= k < hi && (w.phase[k].Pending? || w.phase[k].Abandoned?) ==> w.cancelled
  }

  ghost predicate MainFits(s: Setup, w: World)
    requires Shape(s, w)
  {
    var n := |s.calls|;
    match w.main
    case AtTop(i) =>
      && i <= n && AllAre(w.phase, i, n, Pending)
      && (forall k :: 0 <= k < i ==> Settled(w.phase[k])) && PassedOver(w, 0, i)
    case InBarrier(i) =>
      && i < n && !Parallel(s.calls, i) && w.phase[i] == Running
      && AllAre(w.phase, 0, i, Finished) && AllAre(w.phase, i + 1, n, Pending)
    case Spawning(start, next, end) =>
      && IsGroup(s.calls, start, end) && start <= next <= end
      && AllAre(w.phase, 0, start, Finished) && AllAre(w.phase, next, n, Pending)
      && PassedOver(w, start, next)
    case Waiting(start, end) =>
      && IsGroup(s.calls, start, end)
      && AllAre(w.phase, 0, start, Finished) && AllAre(w.phase, end, n, Pending)
      && PassedOver(w, start, end)
    case Returned(aborted) =>
      && (forall k :: 0 <= k < n ==> Settled(w.phase[k]))
      && (if aborted then w.cancelled else AllAre(w.phase, 0, n, Finished))
  }

  // Where a call that may be under way can be.
  ghost predicate Active(s: Setup, w: World, i: nat)
    requires Shape(s, w)
  {
    match w.main
    case InBarrier(b) => i == b
    case Spawning(start, next, end) => start <= i < next
    case Waiting(start, end) => start <= i < end
    case _ => false
  }

  ghost predicate Begun(p: Phase) { p.Running? || p.Finished? }

  predicate NoEventTwice(log: seq<Event>) {
    forall p, q :: 0 <= p < q < |log| ==> log[p] != log[q]
  }

  // Every call starts once, ends once, after it started, and after everything
  // before its own group has ended.
  ghost predicate Ordered(calls: seq<Call>, log: seq<Event>) {
    && NoEventTwice(log)
    && (forall q, i :: 0 <= q < |log| && log[q] == Finish(i) ==> Start(i) in log[..q])
    && (forall q, i, j: nat :: 0 <= q < |log| && log[q] == Start(j) && 0 <= i < j && !SameGroup(calls, i, j) ==>
          Finish(i) in log[..q])
  }

  ghost predicate LogFits(phase: seq<Phase>, log: seq<Event>) {
    && (forall i: nat :: Start(i) in log <==> i < |phase| && Begun(phase[i]))
    && (forall i: nat :: Finish(i) in log <==> i < |phase| && phase[i].Finished?)
  }

  // A finished call's slot holds what the call came to; every other slot is fresh.
  ghost predicate ItemFits(s: Setup, i: nat, p: Phase, item: Item)
    requires i < |s.calls|
  {
    if p.Finished? then exists o: Outcome :: o.status != NoStatus && item == Ran(s.runId, s.tools, i, s.calls[i], o)
    else item == FreshItem(s.calls[i])
  }

  ghost predicate ItemsFit(s: Setup, phase: seq<Phase>, items: seq<Item>) {
    |items| == |phase| == |s.calls| && forall i: nat :: i < |items| ==> ItemFits(s, i, phase[i], items[i])
  }

  ghost predicate RecordsFit(s: Setup, phase: seq<Phase>, items: seq<Item>, log: seq<Event>) {
    LogFits(phase, log) && Ordered(s.calls, log) && ItemsFit(s, phase, items)
  }

  ghost predicate Inv(s: Setup, w: World) {
    Shape(s, w) && MainFits(s, w) && RecordsFit(s, w.phase, w.items, w.log)
  }

  // ---- every step keeps it ----------------------------------------------------------------------

  lemma InitInv(s: Setup)
    ensures Inv(s, Init(s))
  {
  }

  lemma {:induction false} GroupEndIsGroup(calls: seq<Call>, i: nat)
    requires i < |calls| && Parallel(calls, i)
    ensures IsGroup(calls, i, GroupEnd(calls, i))
    ensures !Parallel(calls, GroupEnd(calls, i))
    decreases |calls| - i
  {
    if Parallel(calls, i + 1) {
      GroupEndIsGroup(calls, i + 1);
    }
  }

  lemma LogPush(log: seq<Event>, e: Event)
    ensures forall x :: x in log + [e] <==> x in log || x == e
    ensures forall q :: 0 <= q < |log| ==> (log + [e])[..q] == log[..q]
    ensures (log + [e])[..|log|] == log
  {
  }

  lemma StartKeepsOrder(calls: seq<Call>, log: seq<Event>, j: nat)
    requires Ordered(calls, log) && Start(j) !in log
    requires forall i: nat :: i < j && !SameGroup(calls, i, j) ==> Finish(i) in log
    ensures Ordered(calls, log + [Start(j)])
  {
    hide SameGroup;
    LogPush(log, Start(j));
    var l := log + [Start(j)];
    forall p, q | 0 <= p < q < |l| ensures l[p] != l[q] {
      if q == |log| { assert l[p] in log; }
    }
  }

  lemma FinishKeepsOrder(calls: seq<Call>, log: seq<Event>, j: nat)
    requires Ordered(calls, log) && Finish(j) !in log && Start(j) in log
    ensures Ordered(calls, log + [Finish(j)])
  {
    hide SameGroup;
    LogPush(log, Finish(j));
    var l := log + [Finish(j)];
    forall p, q | 0 <= p < q < |l| ensures l[p] != l[q] {
      if q == |log| { assert l[p] in log; }
    }
  }

  // Everything before `i`'s own group is finished when `i` is about to start.
  ghost predicate MayBegin(s: Setup, w: World, j: nat)
    requires Shape(s, w)
  {
    && j < |s.calls| && !Begun(w.phase[j])
    && forall i: nat :: i < j && !SameGroup(s.calls, i, j) ==> w.phase[i].Finished?
  }

  lemma BeginKeeps(s: Setup, w: World, j: nat)
    requires Inv(s, w) && MayBegin(s, w, j)
    ensures var w' := Begin(w, j); RecordsFit(s, w'.phase, w'.items, w'.log)
  {
    hide SameGroup, MainFits, Ordered, ItemFits;
    LogPush(w.log, Start(j));
    StartKeepsOrder(s.calls, w.log, j);
    FreshFits(s, w, j, Running);
  }

  lemma FreshFits(s: Setup, w: World, j: nat, p: Phase)
    requires Shape(s, w) && ItemsFit(s, w.phase, w.items) && j < |s.calls|
    requires !w.phase[j].Finished? && !p.Finished?
    ensures ItemFits(s, j, p, w.items[j])
  {
    assert ItemFits(s, j, w.phase[j], w.items[j]);
  }

  lemma CompleteKeeps(s: Setup, w: World, j: nat, o: Outcome)
    requires Inv(s, w) && j < |s.calls| && w.phase[j].Running? && o.status != NoStatus
    ensures var w' := Complete(s, w, j, o); RecordsFit(s, w'.phase, w'.items, w'.log)
  {
    hide MainFits, Ordered, ItemFits, Ran;
    LogPush(w.log, Finish(j));
    FinishKeepsOrder(s.calls, w.log, j);
    RanFits(s, j, o);
  }

  lemma RanFits(s: Setup, j: nat, o: Outcome)
    requires j < |s.calls| && o.status != NoStatus
    ensures ItemFits(s, j, Finished, Ran(s.runId, s.tools, j, s.calls[j], o))
  {
  }

  // A step that only changes phases of calls that have not begun.
  lemma QuietKeeps(s: Setup, w: World, w': World)
    requires Inv(s, w) && Shape(s, w') && w'.items == w.items && w'.log == w.log
    requires forall i: nat :: i < |s.calls| ==>
      w'.phase[i] == w.phase[i] || (!Begun(w.phase[i]) && !Begun(w'.phase[i]))
    ensures RecordsFit(s, w'.phase, w'.items, w'.log)
  {
    hide MainFits, Ordered, ItemFits;
    forall i: nat | i < |s.calls| ensures ItemFits(s, i, w'.phase[i], w'.items[i]) {
      assert ItemFits(s, i, w.phase[i], w.items[i]);
      if w'.phase[i] != w.phase[i] { FreshFits(s, w, i, w'.phase[i]); }
    }
  }

  lemma StepKeepsMain(s: Setup, w: World, act: Action)
    requires Shape(s, w) && MainFits(s, w) && Enabled(s, w, act)
    ensures Shape(s, Apply(s, w, act)) && MainFits(s, Apply(s, w, act))
  {
    hide Ran;
    if act.Top? && w.main.index < |s.calls| && Parallel(s.calls, w.main.index) {
      GroupEndIsGroup(s.calls, w.main.index);
    }
  }

  // Whoever starts a call may start it, and a barrier's call is running.
  lemma StartersMayBegin(s: Setup, w: World)
    requires Shape(s, w) && MainFits(s, w)
    ensures w.main.AtTop? && !w.cancelled && w.main.index < |s.calls| ==> MayBegin(s, w, w.main.index)
    ensures w.main.InBarrier? ==> w.main.index < |s.calls| && w.phase[w.main.index].Running?
    ensures forall j: nat :: j < |s.calls| && w.phase[j].Spawned? ==> MayBegin(s, w, j)
  {
    assert forall j: nat :: j < |s.calls| && w.phase[j].Spawned? ==> Active(s, w, j) && !w.main.InBarrier?;
  }

  lemma StepKeepsRecords(s: Setup, w: World, act: Action)
    requires Inv(s, w) && Enabled(s, w, act)
    ensures var w' := Apply(s, w, act); RecordsFit(s, w'.phase, w'.items, w'.log)
  {
    hide RecordsFit, MayBegin, Ran;
    StartersMayBegin(s, w);
    match act
    case Top =>
      if w.main.index < |s.calls| && !w.cancelled && !Parallel(s.calls, w.main.index) {
        BeginKeeps(s, w, w.main.index);
      }
    case BarrierDone(o) =>
      CompleteKeeps(s, w, w.main.index, o);
    case WorkerStart(i) =>
      if w.cancelled {
        QuietKeeps(s, w, Apply(s, w, act));
      } else {
        BeginKeeps(s, w, i);
      }
    case WorkerDone(i, o) => CompleteKeeps(s, w, i, o);
    case Spawn => QuietKeeps(s, w, Apply(s, w, act));
    case _ =>
  }

  lemma StepKeepsInv(s: Setup, w: World, act: Action)
    requires Inv(s, w) && Enabled(s, w, act)
    ensures Inv(s, Apply(s, w, act))
  {
    hide MainFits, RecordsFit, Ran;
    StepKeepsMain(s, w, act);
    StepKeepsRecords(s, w, act);
  }

  // ---- what a batch promises, under every schedule ---------------------------------------------------

  ghost predicate IsRun(s: Setup, states: seq<World>, acts: seq<Action>) {
    && |states| == |acts| + 1
    && states[0] == Init(s)
    && (forall i :: 0 <= i < |states| ==> Shape(s, states[i]))
    && forall i :: 0 <= i < |acts| ==>
         Enabled(s, states[i], acts[i]) && states[i + 1] == Apply(s, states[i], acts[i])
  }

  lemma {:induction false} RunInvariant(s: Setup, states: seq<World>, acts: seq<Action>, i: nat)
    requires IsRun(s, states, acts) && i < |states|
    ensures Inv(s, states[i])
  {
    hide Inv;
    if i == 0 {
      InitInv(s);
    } else {
      RunInvariant(s, states, acts, i - 1);
      StepKeepsInv(s, states[i - 1], acts[i - 1]);
    }
  }

  // The barriers: a call starts once, and only after every earlier call outside
  // its own group has finished.
  lemma BarriersHold(s: Setup, states: seq<World>, acts: seq<Action>, t: nat, q: nat, j: nat)
    requires IsRun(s, states, acts) && t < |states|
    requires q < |states[t].log| && states[t].log[q] == Start(j)
    ensures forall p :: 0 <= p < |states[t].log| && states[t].log[p] == Start(j) ==> p == q
    ensures forall i: nat :: i < j && !SameGroup(s.calls, i, j) ==> Finish(i) in states[t].log[..q]
  {
    hide MainFits, ItemsFit, SameGroup;
    RunInvariant(s, states, acts, t);
  }

  // In particular two calls are under way together only inside one group.
  lemma OverlapOnlyInGroups(s: Setup, states: seq<World>, acts: seq<Action>, t: nat, i: nat, j: nat)
    requires IsRun(s, states, acts) && t < |states| && i < j < |s.calls|
    requires states[t].phase[i].Running? && states[t].phase[j].Running?
    ensures SameGroup(s.calls, i, j)
  {
    hide MainFits, ItemsFit, SameGroup;
    RunInvariant(s, states, acts, t);
    var log := states[t].log;
    assert Start(j) in log && Finish(i) !in log;
    var q :| 0 <= q < |log| && log[q] == Start(j);
    assert Finish(i) in log[..q] ==> Finish(i) in log;
  }

  lemma {:induction false} HistoryLength(items: seq<Item>)
    ensures |History(items)| <= |items|
    ensures |History(items)| == |items| <==> forall k :: 0 <= k < |items| ==> !Skipped(items[k])
    ensures |History(items)| == |items| ==> forall k :: 0 <= k < |items| ==> History(items)[k] == ExchangeOf(items[k])
  {
    hide Skipped, ExchangeOf;
    if items != [] {
      HistoryLength(items[..|items| - 1]);
      assert forall k :: 0 <= k < |items| - 1 ==> items[..|items| - 1][k] == items[k];
    }
  }

  // This step ends call `k` with outcome `o`.
  predicate CompletedBy(w: World, act: Action, k: nat, o: Outcome) {
    act == WorkerDone(k, o) || (act == BarrierDone(o) && w.main == InBarrier(k))
  }

  // The exchange recorded for call `k`: it repeats the call, and its result is
  // the outcome of the step that ended the call, or the reason why it was not run.
  ghost predicate Answers(s: Setup, states: seq<World>, acts: seq<Action>, t: nat, k: nat, e: Exchange)
    requires k < |s.calls| && t <= |acts| < |states|
  {
    var c := s.calls[k];
    && e.call.name == c.name && (c.id != "" ==> e.call.id == c.id)
    && e.result.name == c.name && e.result.callId == e.call.id
    && if Finish(k) !in states[t].log then
         e.result.status == Failed && e.result.error == "tool was not executed"
       else if Refusal(s.tools, c) != "" then
         e.result.status == Failed && e.result.error == Refusal(s.tools, c)
       else
         && IsIdOf(s.runId, k, c, e.call.id)
         && exists u: nat :: u < t && CompletedBy(states[u], acts[u], k, Outcome(e.result.status, e.result.error))
  }

  lemma FilledStep(s: Setup, w: World, act: Action, k: nat) returns (o: Outcome)
    requires Inv(s, w) && Enabled(s, w, act) && k < |s.calls|
    requires Apply(s, w, act).phase[k].Finished? && !w.phase[k].Finished?
    ensures CompletedBy(w, act, k, o) && o.status != NoStatus
    ensures Apply(s, w, act).items[k] == Ran(s.runId, s.tools, k, s.calls[k], o)
  {
    hide MainFits, RecordsFit, Ran;
    o := if act.WorkerDone? then act.result else act.outcome;
  }

  lemma FilledStays(s: Setup, w: World, act: Action, k: nat)
    requires Inv(s, w) && Enabled(s, w, act) && k < |s.calls| && w.phase[k].Finished?
    ensures Apply(s, w, act).items[k] == w.items[k]
  {
    hide RecordsFit, Ran;
    StartersMayBegin(s, w);
  }

  // A finished slot was filled in by the step that ended its call.
  lemma {:induction false} FilledByStep(s: Setup, states: seq<World>, acts: seq<Action>, t: nat, k: nat)
    returns (u: nat, o: Outcome)
    requires IsRun(s, states, acts) && t < |states| && k < |s.calls| && states[t].phase[k].Finished?
    ensures u < t && CompletedBy(states[u], acts[u], k, o) && o.status != NoStatus
    ensures states[t].items[k] == Ran(s.runId, s.tools, k, s.calls[k], o)
  {
    assert states[0] == Init(s);
    hide Inv, Ran, Enabled, CompletedBy;
    RunInvariant(s, states, acts, t - 1);
    assert states[t] == Apply(s, states[t - 1], acts[t - 1]);
    if states[t - 1].phase[k].Finished? {
      FilledStays(s, states[t - 1], acts[t - 1], k);
      u, o := FilledByStep(s, states, acts, t - 1, k);
    } else {
      u := t - 1;
      o := FilledStep(s, states[u], acts[u], k);
    }
  }

  lemma RanAnswers(runId: Text, tools: set<Text>, k: nat, c: Call, o: Outcome)
    requires o.status != NoStatus
    ensures var e := ExchangeOf(Ran(runId, tools, k, c, o));
      && e.call.name == c.name && (c.id != "" ==> e.call.id == c.id)
      && e.result.name == c.name && e.result.callId == e.call.id
      && if Refusal(tools, c) == "" then
           IsIdOf(runId, k, c, e.call.id) && e.result.status == o.status && e.result.error == o.error
         else e.result.status == Failed && e.result.error == Refusal(tools, c)
    ensures !Skipped(Ran(runId, tools, k, c, o))
  {
    hide Decimal;
  }

  lemma SlotAnswers(s: Setup, states: seq<World>, acts: seq<Action>, t: nat, k: nat)
    requires IsRun(s, states, acts) && t < |states| && k < |s.calls|
    ensures Answers(s, states, acts, t, k, ExchangeOf(states[t].items[k]))
    ensures Skipped(states[t].items[k]) <==> Finish(k) !in states[t].log && Blank(s.calls[k])
  {
    var w := states[t];
    RunInvariant(s, states, acts, t);
    assert ItemFits(s, k, w.phase[k], w.items[k]);
    assert Finish(k) in w.log <==> w.phase[k].Finished?;
    if w.phase[k].Finished? {
      hide Ran, ExchangeOf, Skipped, Inv, ItemFits, IsRun, IsIdOf, Refusal;
      var u, o := FilledByStep(s, states, acts, t, k);
      RanAnswers(s.runId, s.tools, k, s.calls[k], o);
      assert o == Outcome(o.status, o.error);
    } else {
      hide Inv, Ran, IsRun;
      assert w.items[k] == FreshItem(s.calls[k]);
    }
  }

  // The history a batch returns, also when it was cancelled half way: one
  // exchange per call in provider order, each answering its own call with what
  // that call came to, exactly when every call that never ran has a name or an id.
  lemma HistoryAnswersEveryCall(s: Setup, states: seq<World>, acts: seq<Action>, t: nat)
    requires IsRun(s, states, acts) && t < |states| && states[t].main.Returned?
    ensures var w, h := states[t], History(states[t].items);
      && (|h| == |s.calls| <==> forall k: nat :: k < |s.calls| && Blank(s.calls[k]) ==> Finish(k) in w.log)
      && (|h| == |s.calls| ==> forall k: nat :: k < |s.calls| ==> Answers(s, states, acts, t, k, h[k]))
      && (!w.main.aborted ==> |h| == |s.calls| && forall k: nat :: k < |s.calls| ==> Finish(k) in w.log)
  {
    hide Answers, Ordered, ItemsFit, Skipped, ExchangeOf, Blank;
    RunInvariant(s, states, acts, t);
    var w := states[t];
    HistoryLength(w.items);
    forall k: nat | k < |s.calls|
      ensures Answers(s, states, acts, t, k, ExchangeOf(w.items[k]))
      ensures Skipped(w.items[k]) <==> Finish(k) !in w.log && Blank(s.calls[k])
    {
      SlotAnswers(s, states, acts, t, k);
    }
    if !w.main.aborted {
      forall k: nat | k < |s.calls| ensures Finish(k) in w.log {
        assert w.phase[k] == Finished;
      }
    }
  }

  // ---- cancellation --------------------------------------------------------------------------------

  // From a cancellation on no call starts, and no worker is created.
  lemma {:induction false} NothingStartsAfterCancel(s: Setup, states: seq<World>, acts: seq<Action>, t: nat, j: nat)
    requires IsRun(s, states, acts) && t <= j < |states| && states[t].cancelled
    ensures states[j].cancelled
    ensures forall i: nat :: Start(i) in states[j].log <==> Start(i) in states[t].log
    ensures forall i :: 0 <= i < |s.calls| && states[j].phase[i].Spawned? ==> states[t].phase[i].Spawned?
    decreases j
  {
    hide Ran;
    if t < j {
      NothingStartsAfterCancel(s, states, acts, t, j - 1);
      assert Enabled(s, states[j - 1], acts[j - 1]) && states[j] == Apply(s, states[j - 1], acts[j - 1]);
    }
  }

  // A batch reports that it was aborted exactly when it was cancelled by the
  // time it returned.
  lemma AbortedExactly(s: Setup, w: World, act: Action)
    requires Shape(s, w) && Enabled(s, w, act) && !w.main.Returned? && Apply(s, w, act).main.Returned?
    ensures Apply(s, w, act).main.aborted <==> w.cancelled
  {
  }

  // The calls of a group do overlap: there is a run in which two neighbouring
  // subagent.run calls at the head of a batch are under way together.
  lemma NeighboursOverlap(s: Setup) returns (states: seq<World>, acts: seq<Action>)
    requires Parallel(s.calls, 0) && Parallel(s.calls, 1)
    ensures IsRun(s, states, acts) && |acts| == 5
    ensures states[5].phase[0].Running? && states[5].phase[1].Running?
  {
    GroupEndIsGroup(s.calls, 0);
    var end := GroupEnd(s.calls, 0);
    assert end == GroupEnd(s.calls, 2) >= 2;
    acts := [Top, Spawn, Spawn, WorkerStart(0), WorkerStart(1)];
    var w0 := Init(s);
    var w1 := Apply(s, w0, acts[0]);
    var w2 := Apply(s, w1, acts[1]);
    var w3 := Apply(s, w2, acts[2]);
    var w4 := Apply(s, w3, acts[3]);
    states := [w0, w1, w2, w3, w4, Apply(s, w4, acts[4])];
  }

  // ---- a batch always returns ---------------------------------------------------------------------

  function Work(p: Phase): nat {
    match p
    case Spawned => 2
    case Running => 1
    case _ => 0
  }

  function TotalWork(phase: seq<Phase>): nat {
    if phase == [] then 0 else TotalWork(phase[..|phase| - 1]) + Work(phase[|phase| - 1])
  }

  lemma {:induction false} TotalWorkUpdate(phase: seq<Phase>, i: nat, p: Phase)
    requires i < |phase|
    ensures TotalWork(phase[i := p]) == TotalWork(phase) - Work(phase[i]) + Work(p)
  {
    var n := |phase| - 1;
    if i < n {
      TotalWorkUpdate(phase[..n], i, p);
      assert phase[i := p][..n] == phase[..n][i := p];
    } else {
      assert phase[i := p][..n] == phase[..n];
    }
  }

  lemma {:induction false} NothingPendingWorks(n: nat)
    ensures TotalWork(seq(n, k => Pending)) == 0
  {
    if n > 0 {
      assert seq(n, k => Pending)[..n - 1] == seq(n - 1, k => Pending);
      NothingPendingWorks(n - 1);
    }
  }

  // Steps left, at most.
  function Rank(n: nat, m: Main): int {
    match m
    case AtTop(i) => 10 * (n - i) + 1
    case InBarrier(i) => 10 * (n - i) - 1
    case Spawning(start, next, end) => 10 * (n - end) + 3 + 4 * (end - next)
    case Waiting(start, end) => 10 * (n - end) + 2
    case Returned(_) => 0
  }

  function Left(s: Setup, w: World): int { Rank(|s.calls|, w.main) + TotalWork(w.phase) }

  lemma StepUsesUp(s: Setup, w: World, act: Action)
    requires Inv(s, w) && Enabled(s, w, act) && act != Cancel
    ensures 0 <= Left(s, Apply(s, w, act)) < Left(s, w)
  {
    hide RecordsFit, TotalWork, Ran;
    match act
    case Top =>
      var i := w.main.index;
      if i < |s.calls| && !w.cancelled {
        if Parallel(s.calls, i) { GroupEndIsGroup(s.calls, i); } else { TotalWorkUpdate(w.phase, i, Running); }
      }
    case BarrierDone(o) => TotalWorkUpdate(w.phase, w.main.index, Finished);
    case Spawn => if w.main.next < w.main.end { TotalWorkUpdate(w.phase, w.main.next, Spawned); }
    case WorkerStart(i) => TotalWorkUpdate(w.phase, i, if w.cancelled then Abandoned else Running);
    case WorkerDone(i, o) => TotalWorkUpdate(w.phase, i, Finished);
    case GroupDone =>
  }

  function StepsOf(acts: seq<Action>): nat {
    if acts == [] then 0 else StepsOf(acts[..|acts| - 1]) + if acts[|acts| - 1] == Cancel then 0 else 1
  }

  // However the goroutines are scheduled, a batch of n calls takes at most
  // 10n + 1 steps, and until it has returned some step other than a
  // cancellation is possible.
  lemma {:induction false} BatchReturns(s: Setup, states: seq<World>, acts: seq<Action>)
    requires IsRun(s, states, acts)
    ensures Inv(s, states[|acts|])
    ensures StepsOf(acts) + Left(s, states[|acts|]) <= 10 * |s.calls| + 1
    ensures Left(s, states[|acts|]) >= 0
    decreases |acts|
  {
    NothingPendingWorks(|s.calls|);
    assert Left(s, Init(s)) == 10 * |s.calls| + 1;
    assert forall w :: Shape(s, w) && Enabled(s, w, Cancel) ==> Left(s, Apply(s, w, Cancel)) == Left(s, w);
    hide Inv, Left, Enabled;
    RunInvariant(s, states, acts, |acts|);
    if acts != [] {
      var n := |acts| - 1;
      BatchReturns(s, states[..n + 1], acts[..n]);
      RunInvariant(s, states, acts, n);
      if acts[n] != Cancel {
        StepUsesUp(s, states[n], acts[n]);
      }
    }
  }

  lemma NeverStuck(s: Setup, states: seq<World>, acts: seq<Action>, t: nat) returns (act: Action)
    requires IsRun(s, states, acts) && t < |states| && !states[t].main.Returned?
    ensures act != Cancel && Enabled(s, states[t], act)
  {
    hide RecordsFit;
    RunInvariant(s, states, acts, t);
    var w := states[t];
    match w.main
    case AtTop(i) => act := Top;
    case InBarrier(i) => act := BarrierDone(Outcome(Completed, ""));
    case Spawning(start, next, end) => act := Spawn;
    case Waiting(start, end) =>
      if k: nat :| k < |s.calls| && start <= k < end && !Settled(w.phase[k]) {
        act := if w.phase[k].Spawned? then WorkerStart(k) else WorkerDone(k, Outcome(Completed, ""));
      } else {
        act := GroupDone;
      }
    case Returned(_) =>
  }
}
