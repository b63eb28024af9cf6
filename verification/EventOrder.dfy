// Numbering of a run's events (modules/agent/internal/runtime/runtime.go,
// emitAgentEvent, nextRootSeq, nextAgentSeq, unregisterRun). Emitters take
// turns under the event lock; the two counters are bumped in separate critical
// sections of another lock, which is all that forgetting a run takes.
module EventOrder {
  import opened Strings

  datatype Envelope = Envelope(eventId: Text, run: Text, agent: Text, rootSeq: nat, agentSeq: nat)

  datatype Counters = Counters(nextSeq: map<Text, nat>, agentSeq: map<Text, map<Text, nat>>)

  function RootOf(c: Counters, run: Text): nat { if run in c.nextSeq then c.nextSeq[run] else 0 }

  function AgentsOf(c: Counters, run: Text): map<Text, nat> { if run in c.agentSeq then c.agentSeq[run] else map[] }

  function AgentOf(c: Counters, run: Text, agent: Text): nat {
    if agent in AgentsOf(c, run) then AgentsOf(c, run)[agent] else 0
  }

  function BumpRoot(c: Counters, run: Text): Counters {
    c.(nextSeq := c.nextSeq[run := RootOf(c, run) + 1])
  }

  function BumpAgent(c: Counters, run: Text, agent: Text): Counters {
    c.(agentSeq := c.agentSeq[run := AgentsOf(c, run)[agent := AgentOf(c, run, agent) + 1]])
  }

  function Forget(c: Counters, run: Text): Counters { Counters(c.nextSeq - {run}, c.agentSeq - {run}) }

  function EventId(run: Text, seqNo: nat): Text { "evt_" + run + "_" + Decimal(seqNo) }

  class Emitter {
    var nextSeq: map<Text, nat>
    var agentSeq: map<Text, map<Text, nat>>
    var wire: seq<Envelope>

    ghost function State(): Counters
      reads this
    {
      Counters(nextSeq, agentSeq)
    }

    constructor ()
      ensures State() == Counters(map[], map[]) && wire == []
    {
      nextSeq, agentSeq, wire := map[], map[], [];
    }

    method NextRootSeq(run: Text) returns (n: nat)
      modifies this`nextSeq
      ensures State() == BumpRoot(old(State()), run) && n == RootOf(State(), run)
    {
      n := 1;
      if run in nextSeq {
        n := nextSeq[run] + 1;
      }
      nextSeq := nextSeq[run := n];
    }

    method NextAgentSeq(run: Text, agent: Text) returns (n: nat)
      modifies this`agentSeq
      ensures State() == BumpAgent(old(State()), run, agent) && n == AgentOf(State(), run, agent)
    {
      if run !in agentSeq {
        agentSeq := agentSeq[run := map[]];
      }
      var agents: map<Text, nat> := agentSeq[run];
      n := 1;
      if agent in agents {
        n := agents[agent] + 1;
      }
      agents := agents[agent := n];
      agentSeq := agentSeq[run := agents];
    }

    // `cancelled` is the context, `writes` whether encoding and writing succeed.
    method EmitAgentEvent(run: Text, agent: Text, cancelled: bool, writes: bool) returns (ok: bool)
      modifies this
      ensures ok <==> !cancelled && writes
      ensures State() == if cancelled then old(State()) else BumpAgent(BumpRoot(old(State()), run), run, agent)
      ensures wire == old(wire) + if !ok then [] else
        [Envelope(EventId(run, RootOf(State(), run)), run, agent, RootOf(State(), run), AgentOf(State(), run, agent))]
    {
      if cancelled {
        return false;
      }
      var r := NextRootSeq(run);
      var a := NextAgentSeq(run, agent);
      if !writes {
        return false;
      }
      wire := wire + [Envelope(EventId(run, r), run, agent, r, a)];
      return true;
    }

    method UnregisterRun(run: Text)
      modifies this`nextSeq, this`agentSeq
      ensures State() == Forget(old(State()), run)
    {
      nextSeq := nextSeq - {run};
      agentSeq := agentSeq - {run};
    }
  }

  // ---- the protocol ------------------------------------------------------------------------

  // The emitter that holds the event lock, and how far it is.
  datatype Holder =
    | Free
    | Entered(run: Text, agent: Text)
    | Rooted(run: Text, agent: Text, rootSeq: nat)
    | Ready(env: Envelope)

  // A numbered event and whether it reached the wire.
  datatype Entry = Entry(env: Envelope, written: bool)

  datatype World = World(counters: Counters, holder: Holder, log: seq<Entry>)

  datatype Action =
    | Enter(run: Text, agent: Text)
    | TakeRoot
    | TakeAgent
    | Write(ok: bool)
    | Unregister(run: Text)

  function Init(): World { World(Counters(map[], map[]), Free, []) }

  predicate Enabled(w: World, act: Action) {
    match act
    case Enter(_, _) => w.holder.Free?
    case TakeRoot => w.holder.Entered?
    case TakeAgent => w.holder.Rooted?
    case Write(_) => w.holder.Ready?
    case Unregister(_) => true
  }

  function Apply(w: World, act: Action): World
    requires Enabled(w, act)
  {
    match act
    case Enter(run, agent) => w.(holder := Entered(run, agent))
    case TakeRoot =>
      var h := w.holder;
      var c := BumpRoot(w.counters, h.run);
      w.(counters := c, holder := Rooted(h.run, h.agent, RootOf(c, h.run)))
    case TakeAgent =>
      var h := w.holder;
      var c := BumpAgent(w.counters, h.run, h.agent);
      w.(counters := c, holder := Ready(Envelope(EventId(h.run, h.rootSeq), h.run, h.agent, h.rootSeq,
                                                 AgentOf(c, h.run, h.agent))))
    case Write(ok) => w.(holder := Free, log := w.log + [Entry(w.holder.env, ok)])
    case Unregister(run) => w.(counters := Forget(w.counters, run))
  }

  ghost predicate IsRun(states: seq<World>, acts: seq<Action>) {
    && |states| == |acts| + 1
    && states[0] == Init()
    && forall i :: 0 <= i < |acts| ==> Enabled(states[i], acts[i]) && states[i + 1] == Apply(states[i], acts[i])
  }

  // ---- the numbers of one run -------------------------------------------------------------------

  function OfRun(log: seq<Entry>, run: Text): seq<Entry> {
    if log == [] then []
    else OfRun(log[..|log| - 1], run) + if log[|log| - 1].env.run == run then [log[|log| - 1]] else []
  }

  function OfAgent(log: seq<Entry>, run: Text, agent: Text): seq<Entry> {
    if log == [] then []
    else
      var last := log[|log| - 1];
      OfAgent(log[..|log| - 1], run, agent) + if last.env.run == run && last.env.agent == agent then [last] else []
  }

  function HolderRoot(h: Holder, run: Text): nat {
    if (h.Rooted? && h.run == run) || (h.Ready? && h.env.run == run) then 1 else 0
  }

  function HolderAgent(h: Holder, run: Text, agent: Text): nat {
    if h.Ready? && h.env.run == run && h.env.agent == agent then 1 else 0
  }

  ghost predicate RootNumbered(w: World, run: Text) {
    var mine := OfRun(w.log, run);
    && (forall k :: 0 <= k < |mine| ==> mine[k].env.rootSeq == k + 1 && mine[k].env.eventId == EventId(run, k + 1))
    && RootOf(w.counters, run) == |mine| + HolderRoot(w.holder, run)
    && (w.holder.Rooted? && w.holder.run == run ==> w.holder.rootSeq == |mine| + 1)
    && (w.holder.Ready? && w.holder.env.run == run ==>
          w.holder.env.rootSeq == |mine| + 1 && w.holder.env.eventId == EventId(run, |mine| + 1))
  }

  ghost predicate AgentNumbered(w: World, run: Text, agent: Text) {
    var mine := OfAgent(w.log, run, agent);
    && (forall k :: 0 <= k < |mine| ==> mine[k].env.agentSeq == k + 1)
    && AgentOf(w.counters, run, agent) == |mine| + HolderAgent(w.holder, run, agent)
    && (w.holder.Ready? && w.holder.env.run == run && w.holder.env.agent == agent ==>
          w.holder.env.agentSeq == |mine| + 1)
  }

  lemma StepKeepsRoot(w: World, act: Action, run: Text)
    requires RootNumbered(w, run) && Enabled(w, act) && act != Unregister(run)
    ensures RootNumbered(Apply(w, act), run)
  {
    hide EventId;
    if act.Write? {
      assert Apply(w, act).log[..|w.log|] == w.log;
    }
  }

  lemma StepKeepsAgent(w: World, act: Action, run: Text, agent: Text)
    requires AgentNumbered(w, run, agent) && Enabled(w, act) && act != Unregister(run)
    ensures AgentNumbered(Apply(w, act), run, agent)
  {
    hide EventId;
    if act.Write? {
      assert Apply(w, act).log[..|w.log|] == w.log;
    }
  }

  // While a run stays registered, its events are numbered 1, 2, 3, ... and each
  // of its agents' events 1, 2, 3, ..., for any interleaving of emitters, in the
  // order in which they reach the wire.
  lemma {:induction false} EventsAreNumbered(states: seq<World>, acts: seq<Action>, i: nat, run: Text, agent: Text)
    requires IsRun(states, acts) && i < |states|
    requires forall k :: 0 <= k < i ==> acts[k] != Unregister(run)
    ensures RootNumbered(states[i], run) && AgentNumbered(states[i], run, agent)
  {
    assert RootNumbered(Init(), run) && AgentNumbered(Init(), run, agent);
    hide RootNumbered, AgentNumbered;
    if i > 0 {
      EventsAreNumbered(states, acts, i - 1, run, agent);
      StepKeepsRoot(states[i - 1], acts[i - 1], run);
      StepKeepsAgent(states[i - 1], acts[i - 1], run, agent);
    }
  }

  // ---- gaps on the wire -----------------------------------------------------------------------------

  function Wire(entries: seq<Entry>): seq<Envelope> {
    if entries == [] then []
    else Wire(entries[..|entries| - 1]) + if entries[|entries| - 1].written then [entries[|entries| - 1].env] else []
  }

  // No event is written after one whose write failed.
  predicate FailuresLast(entries: seq<Entry>) {
    forall j, k :: 0 <= j < k < |entries| && entries[k].written ==> entries[j].written
  }

  function Number(env: Envelope, byAgent: bool): nat { if byAgent then env.agentSeq else env.rootSeq }

  predicate InOrder(entries: seq<Envelope>, byAgent: bool) {
    forall j, k :: 0 <= j < k < |entries| ==> Number(entries[j], byAgent) < Number(entries[k], byAgent)
  }

  predicate GapFree(entries: seq<Envelope>, byAgent: bool) {
    forall k :: 0 <= k < |entries| ==> Number(entries[k], byAgent) == k + 1
  }

  predicate Consecutive(entries: seq<Entry>, byAgent: bool) {
    forall k :: 0 <= k < |entries| ==> Number(entries[k].env, byAgent) == k + 1
  }

  predicate AllWritten(entries: seq<Entry>) { forall k :: 0 <= k < |entries| ==> entries[k].written }

  lemma {:induction false} WireOrder(entries: seq<Entry>, byAgent: bool)
    requires Consecutive(entries, byAgent)
    ensures |Wire(entries)| <= |entries|
    ensures |Wire(entries)| == |entries| <==> AllWritten(entries)
    ensures forall k :: 0 <= k < |Wire(entries)| ==> k + 1 <= Number(Wire(entries)[k], byAgent) <= |entries|
    ensures InOrder(Wire(entries), byAgent)
  {
    if entries != [] {
      var n := |entries| - 1;
      WireOrder(entries[..n], byAgent);
      assert AllWritten(entries) <==> AllWritten(entries[..n]) && entries[n].written;
    }
  }

  lemma {:induction false} WireGaps(entries: seq<Entry>, byAgent: bool)
    requires Consecutive(entries, byAgent)
    ensures GapFree(Wire(entries), byAgent) <==> FailuresLast(entries)
  {
    if entries != [] {
      var n := |entries| - 1;
      var front := entries[..n];
      WireGaps(front, byAgent);
      WireOrder(front, byAgent);
      assert FailuresLast(entries) <==> FailuresLast(front) && (entries[n].written ==> AllWritten(front));
      var last := if entries[n].written then [entries[n].env] else [];
      GapFreePush(Wire(front), last, byAgent);
    }
  }

  lemma GapFreePush(front: seq<Envelope>, last: seq<Envelope>, byAgent: bool)
    requires |last| <= 1
    ensures GapFree(front + last, byAgent) <==>
      GapFree(front, byAgent) && (last != [] ==> Number(last[0], byAgent) == |front| + 1)
  {
    assert forall k :: 0 <= k < |front| ==> (front + last)[k] == front[k];
    assert last != [] ==> (front + last)[|front|] == last[0];
  }

  // What a run puts on the wire is strictly increasing in any case, and is
  // 1, 2, 3, ... without a gap exactly when no write succeeds after a failed one.
  lemma WireIsGapFreeExactly(states: seq<World>, acts: seq<Action>, i: nat, run: Text)
    requires IsRun(states, acts) && i < |states|
    requires forall k :: 0 <= k < i ==> acts[k] != Unregister(run)
    ensures var entries := OfRun(states[i].log, run);
      && InOrder(Wire(entries), false)
      && (GapFree(Wire(entries), false) <==> FailuresLast(entries))
  {
    hide AgentNumbered;
    EventsAreNumbered(states, acts, i, run, "");
    WireOrder(OfRun(states[i].log, run), false);
    WireGaps(OfRun(states[i].log, run), false);
  }

  // The same for the agent numbers of each agent of the run, where only failed
  // writes of that agent's own events leave a gap.
  lemma AgentWireIsGapFreeExactly(states: seq<World>, acts: seq<Action>, i: nat, run: Text, agent: Text)
    requires IsRun(states, acts) && i < |states|
    requires forall k :: 0 <= k < i ==> acts[k] != Unregister(run)
    ensures var entries := OfAgent(states[i].log, run, agent);
      && InOrder(Wire(entries), true)
      && (GapFree(Wire(entries), true) <==> FailuresLast(entries))
  {
    hide RootNumbered;
    EventsAreNumbered(states, acts, i, run, agent);
    WireOrder(OfAgent(states[i].log, run, agent), true);
    WireGaps(OfAgent(states[i].log, run, agent), true);
  }

  // Two events have the same id only if they have the same run and number,
  // however the run ids are chosen.
  lemma EventIdsAreUnique(run1: Text, seq1: nat, run2: Text, seq2: nat)
    ensures EventId(run1, seq1) == EventId(run2, seq2) <==> run1 == run2 && seq1 == seq2
  {
    if EventId(run1, seq1) == EventId(run2, seq2) {
      DecimalValue(seq1);
      DecimalValue(seq2);
      DigitsHaveNoUnderscore(Decimal(seq1));
      DigitsHaveNoUnderscore(Decimal(seq2));
      LastPartUnique("evt_" + run1, Decimal(seq1), "evt_" + run2, Decimal(seq2));
      assert run1 == ("evt_" + run1)[4..] && run2 == ("evt_" + run2)[4..];
    }
  }

  // ---- forgetting a run ------------------------------------------------------------------------------

  // The world as if its log began at `from`.
  function Cut(w: World, from: nat): World
    requires from <= |w.log|
  {
    w.(log := w.log[from..])
  }

  lemma CutStep(w: World, act: Action, from: nat)
    requires Enabled(w, act) && from <= |w.log|
    ensures from <= |Apply(w, act).log| && Enabled(Cut(w, from), act)
    ensures Cut(Apply(w, act), from) == Apply(Cut(w, from), act)
  {
    if act.Write? {
      var last := [Entry(w.holder.env, act.ok)];
      assert (w.log + last)[from..] == w.log[from..] + last;
    }
  }

  // Whether the holder's event is the one `h` had begun, at the same stage or a later one.
  predicate SameEvent(now: Holder, h: Holder) {
    match h
    case Rooted(run, agent, _) => now == h || (now.Ready? && now.env.run == run && now.env.agent == agent)
    case _ => now == h
  }

  // The root numbers of `run` in `w`, since it was forgotten in `was`: the event
  // that was under way then keeps the number it had taken, others count from 1.
  ghost predicate RootRestarted(was: World, w: World, run: Text) {
    var from := |was.log| + HolderRoot(was.holder, run);
    && |was.log| <= |w.log|
    && if from <= |w.log| then RootNumbered(Cut(w, from), run)
       else SameEvent(w.holder, was.holder) && RootOf(w.counters, run) == 0
  }

  // Likewise the numbers of one of its agents.
  ghost predicate AgentRestarted(was: World, w: World, run: Text, agent: Text) {
    var from := |was.log| + HolderAgent(was.holder, run, agent);
    && |was.log| <= |w.log|
    && if from <= |w.log| then AgentNumbered(Cut(w, from), run, agent)
       else w.holder == was.holder && AgentOf(w.counters, run, agent) == 0
  }

  // The event that was under way in `was` is the next to be logged.
  predicate Finishes(was: World, w: World) {
    var h, n := was.holder, |was.log|;
    h.Rooted? || h.Ready? ==>
      if |w.log| <= n then |w.log| == n && SameEvent(w.holder, h)
      else var e := w.log[n].env;
        if h.Rooted? then e.run == h.run && e.agent == h.agent else e == h.env
  }

  lemma ForgettingRestarts(was: World, run: Text, agent: Text)
    ensures var w := Apply(was, Unregister(run));
      RootRestarted(was, w, run) && AgentRestarted(was, w, run, agent) && Finishes(was, w)
  {
    hide EventId;
    assert was.log[|was.log|..] == [];
  }

  lemma StepKeepsRootRestarted(was: World, w: World, act: Action, run: Text)
    requires RootRestarted(was, w, run) && Enabled(w, act) && act != Unregister(run)
    ensures RootRestarted(was, Apply(w, act), run)
  {
    var from := |was.log| + HolderRoot(was.holder, run);
    if from <= |w.log| {
      hide RootNumbered, Apply, Enabled;
      CutStep(w, act, from);
      StepKeepsRoot(Cut(w, from), act, run);
    } else {
      hide EventId;
      if act.Write? {
        assert Apply(w, act).log[from..] == [];
      }
    }
  }

  lemma StepKeepsAgentRestarted(was: World, w: World, act: Action, run: Text, agent: Text)
    requires AgentRestarted(was, w, run, agent) && Enabled(w, act) && act != Unregister(run)
    ensures AgentRestarted(was, Apply(w, act), run, agent)
  {
    var from := |was.log| + HolderAgent(was.holder, run, agent);
    if from <= |w.log| {
      hide AgentNumbered, Apply, Enabled;
      CutStep(w, act, from);
      StepKeepsAgent(Cut(w, from), act, run, agent);
    } else {
      hide EventId;
      if act.Write? {
        assert Apply(w, act).log[from..] == [];
      }
    }
  }

  lemma StepKeepsFinishes(was: World, w: World, act: Action)
    requires Finishes(was, w) && Enabled(w, act)
    ensures Finishes(was, Apply(w, act))
  {
    hide EventId;
  }

  lemma {:induction false} RunRestarts(states: seq<World>, acts: seq<Action>, u: nat, i: nat, run: Text, agent: Text)
    requires IsRun(states, acts) && u < i < |states| && acts[u] == Unregister(run)
    requires forall k :: u < k < i ==> acts[k] != Unregister(run)
    ensures RootRestarted(states[u], states[i], run) && AgentRestarted(states[u], states[i], run, agent)
    ensures Finishes(states[u], states[i])
  {
    hide RootRestarted, AgentRestarted, Finishes;
    if i == u + 1 {
      ForgettingRestarts(states[u], run, agent);
    } else {
      RunRestarts(states, acts, u, i - 1, run, agent);
      StepKeepsRootRestarted(states[u], states[i - 1], acts[i - 1], run);
      StepKeepsAgentRestarted(states[u], states[i - 1], acts[i - 1], run, agent);
      StepKeepsFinishes(states[u], states[i - 1], acts[i - 1]);
    }
  }

  lemma {:induction false} OfAgentAfterFirst(log: seq<Entry>, run: Text, agent: Text)
    requires log != []
    ensures OfAgent(log, run, agent) ==
      (if log[0].env.run == run && log[0].env.agent == agent then [log[0]] else []) + OfAgent(log[1..], run, agent)
  {
    var n := |log| - 1;
    if n > 0 {
      OfAgentAfterFirst(log[..n], run, agent);
      assert log[..n][1..] == log[1..][..n - 1];
    } else {
      assert log[..n] == [];
    }
  }

  // The events logged in `w` that were begun after the run was forgotten in
  // `was`: all but the one that had taken its first number before.
  function BegunSince(was: World, w: World, run: Text): seq<Entry> {
    var from := |was.log| + HolderRoot(was.holder, run);
    if from <= |w.log| then w.log[from..] else []
  }

  // Between the two counters of an event of this agent.
  predicate MidEvent(h: Holder, run: Text, agent: Text) { h.Rooted? && h.run == run && h.agent == agent }

  // Over whole runs: the events begun after the last time a run was forgotten
  // are numbered 1, 2, 3, ... again, and those of each agent 1, 2, 3, ... or,
  // when an event of that agent was between its two counters, 2, 3, 4, ...
  lemma ForgottenRunStartsOver(states: seq<World>, acts: seq<Action>, u: nat, i: nat, run: Text, agent: Text)
    requires IsRun(states, acts) && u < i < |states| && acts[u] == Unregister(run)
    requires forall k :: u < k < i ==> acts[k] != Unregister(run)
    ensures var begun := BegunSince(states[u], states[i], run);
      && (forall k :: 0 <= k < |OfRun(begun, run)| ==> OfRun(begun, run)[k].env.rootSeq == k + 1)
      && (forall k :: 0 <= k < |OfAgent(begun, run, agent)| ==>
            OfAgent(begun, run, agent)[k].env.agentSeq == k + if MidEvent(states[u].holder, run, agent) then 2 else 1)
  {
    hide IsRun;
    RunRestarts(states, acts, u, i, run, agent);
    AgentNumbersBegun(states[u], states[i], run, agent);
  }

  lemma AgentNumbersBegun(was: World, w: World, run: Text, agent: Text)
    requires AgentRestarted(was, w, run, agent) && Finishes(was, w)
    ensures var mine := OfAgent(BegunSince(was, w, run), run, agent);
      forall k :: 0 <= k < |mine| ==> mine[k].env.agentSeq == k + if MidEvent(was.holder, run, agent) then 2 else 1
  {
    var h, n, log := was.holder, |was.log|, w.log;
    var mine := OfAgent(BegunSince(was, w, run), run, agent);
    if HolderRoot(h, run) == 1 && n < |log| {
      var tail := log[n..];
      assert tail[1..] == log[n + 1..] == BegunSince(was, w, run);
      OfAgentAfterFirst(tail, run, agent);
      assert tail[0] == log[n];
      var all := OfAgent(tail, run, agent);
      if MidEvent(h, run, agent) {
        assert AgentNumbered(Cut(w, n), run, agent);
        hide OfAgent;
        assert all == [log[n]] + mine;
        assert forall k :: 0 <= k < |mine| ==> mine[k] == all[k + 1];
      } else if HolderAgent(h, run, agent) == 0 {
        assert AgentNumbered(Cut(w, n), run, agent);
        hide OfAgent;
        assert all == [] + mine == mine;
      } else {
        assert AgentNumbered(Cut(w, n + 1), run, agent);
      }
    } else if HolderRoot(h, run) == 0 {
      assert AgentNumbered(Cut(w, n), run, agent);
    }
  }

  // The exact condition: once an agent has logged an event begun after its run
  // was forgotten, its numbers started over at 1 if and only if no event of that
  // agent was between its two counters. The run's own numbers always do.
  lemma StartsOverExactly(states: seq<World>, acts: seq<Action>, u: nat, i: nat, run: Text, agent: Text)
    requires IsRun(states, acts) && u < i < |states| && acts[u] == Unregister(run)
    requires forall k :: u < k < i ==> acts[k] != Unregister(run)
    requires OfAgent(BegunSince(states[u], states[i], run), run, agent) != []
    ensures var begun := BegunSince(states[u], states[i], run);
      && OfRun(begun, run) != [] && OfRun(begun, run)[0].env.rootSeq == 1
      && (OfAgent(begun, run, agent)[0].env.agentSeq == 1 <==> !MidEvent(states[u].holder, run, agent))
  {
    ForgottenRunStartsOver(states, acts, u, i, run, agent);
    AgentIsOfRun(BegunSince(states[u], states[i], run), run, agent);
  }

  lemma {:induction false} AgentIsOfRun(log: seq<Entry>, run: Text, agent: Text)
    ensures |OfAgent(log, run, agent)| <= |OfRun(log, run)|
  {
    if log != [] {
      AgentIsOfRun(log[..|log| - 1], run, agent);
    }
  }

  // The failing case happens: for every run and agent there is a run of the
  // protocol that forgets the run between the two counters of an event, and
  // whose next event has number 1 for the run but 2 for the agent.
  lemma ForgottenMidEvent(run: Text, agent: Text) returns (states: seq<World>, acts: seq<Action>)
    ensures IsRun(states, acts) && |acts| == 8 && acts[2] == Unregister(run) && MidEvent(states[2].holder, run, agent)
    ensures states[8].holder == Ready(Envelope(EventId(run, 1), run, agent, 1, 2))
    ensures run !in states[5].counters.nextSeq && run in states[5].counters.agentSeq
  {
    hide EventId;
    acts := [Enter(run, agent), TakeRoot, Unregister(run), TakeAgent, Write(true), Enter(run, agent), TakeRoot, TakeAgent];
    var w1 := Apply(Init(), acts[0]);
    var w2 := Apply(w1, acts[1]);
    var w3 := Apply(w2, acts[2]);
    var w4 := Apply(w3, acts[3]);
    var w5 := Apply(w4, acts[4]);
    var w6 := Apply(w5, acts[5]);
    var w7 := Apply(w6, acts[6]);
    states := [Init(), w1, w2, w3, w4, w5, w6, w7, Apply(w7, acts[7])];
  }
}
