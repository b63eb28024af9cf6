// Termination, overshoot and accounting of the goal loop.
module GoalProperties {
  import opened ProviderSegment
  import opened GoalLoop
  import opened Wrappers

  // ---- the loop never stops early ------------------------------------------------------

  predicate RoomLeft(l: Loop) { l.exit == Running ==> l.seg < l.maxSeg }

  lemma StepNeverStopsEarly(e: Env, l: Loop)
    requires l.exit == Running && RoomLeft(l)
    ensures var r := Step(e, l);
      && RoomLeft(r) && r.exit != LoopDone && r.exit != HardReason
      && (r.exit == SegmentLimit ==> r.state.Some? && r.state.value.goal.maxTotal <= 0)
  {
    hide Run, ApplyTools, SegmentReport;
    if CtxBefore(e, l) == Live {
      var m := RunSegment(e, l);
      if IsBound(m.state) && m.state.value.goal.maxTotal > 0 && m.state.value.goal.used < m.state.value.goal.maxTotal {
        LimitCoversBudget(m.state.value.goal, m.seg + 1);
      }
    }
  }

  // For every environment and every starting state: a goal with a positive
  // total budget is never stopped by the segment limit.
  lemma {:induction false} NeverStopsEarly(e: Env, l: Loop, rounds: nat)
    requires l.exit == Running && RoomLeft(l)
    ensures var r := Rounds(e, l, rounds);
      && r.exit != LoopDone && r.exit != HardReason
      && (r.exit == SegmentLimit ==> r.state.Some? && r.state.value.goal.maxTotal <= 0)
    decreases rounds
  {
    hide Step;
    if rounds > 0 {
      StepNeverStopsEarly(e, l);
      if Step(e, l).exit == Running {
        NeverStopsEarly(e, Step(e, l), rounds - 1);
      }
    }
  }

  lemma RunNeverStopsEarly(e: Env, state: Option<RunGoal>, requested: int, history: bool, rounds: nat)
    ensures var r := Rounds(e, Start(e, state, requested, history), rounds);
      && r.exit != LoopDone && r.exit != HardReason
      && (r.exit == SegmentLimit ==> r.state.Some? && r.state.value.goal.maxTotal <= 0)
  {
    if Start(e, state, requested, history).exit == Running {
      NeverStopsEarly(e, Start(e, state, requested, history), rounds);
    }
  }

  // ---- an accounting environment ----------------------------------------------------------

  predicate SameBudget(g: Goal, h: Goal) { g.id != "" && g.maxTotal == h.maxTotal }

  // How many segments of this run the gateway has recorded, when the goal had
  // `base` segments before.
  function Recorded(g: Goal, base: int): int { g.usedSegments - base }

  // The gateway knows a segment by its index. It adds the turns of a report with
  // the next index, once, and changes nothing for an index it has seen; what it
  // does with an index beyond the next is left open. It leaves the total budget
  // alone; goal tools leave budget and counters alone.
  ghost predicate Accounts(e: Env, base: int) {
    && (forall rep: Report :: AccountsReport(rep, e.gateway(rep), base))
    && (forall n: nat, s: RunGoal :: forall r: ToolResult :: r in e.tools(n, Some(s)) ==> KeepsBudget(r, s.goal))
  }

  predicate AccountsReport(rep: Report, reply: Reply, base: int) {
    rep.held.Some? && reply.Answer? ==>
      && reply.goal.Some?
      && SameBudget(reply.goal.value, rep.held.value)
      && var g, h := rep.held.value, reply.goal.value;
         && (rep.seg < Recorded(g, base) ==> SameUse(g, h))
         && (rep.seg == Recorded(g, base) ==>
               && g.used <= h.used <= g.used + rep.delta
               && (rep.site.Regular? && rep.delta > 0 ==>
                     h.used == g.used + rep.delta && h.usedSegments == g.usedSegments + 1))
  }

  predicate SameUse(g: Goal, h: Goal) { g.used == h.used && g.usedSegments == h.usedSegments }

  predicate KeepsBudget(r: ToolResult, g: Goal) {
    r.goal.Some? ==> SameBudget(r.goal.value, g) && SameUse(r.goal.value, g)
  }

  // The run's snapshot is of a goal with this budget, use and number of segments.
  predicate Tracked(s: Option<RunGoal>, total: int, used: int, segments: int) {
    && s.Some? && s.value.wasBound && s.value.goal.id != ""
    && s.value.goal.maxTotal == total && s.value.goal.used == used && s.value.goal.usedSegments == segments
  }

  lemma {:induction false} ToolsKeepTrack(s: Option<RunGoal>, results: seq<ToolResult>, total: int, used: int, segments: int)
    requires Tracked(s, total, used, segments)
    requires forall r :: r in results ==> r.goal.Some? ==>
      && r.goal.value.id != "" && r.goal.value.maxTotal == total
      && r.goal.value.used == used && r.goal.value.usedSegments == segments
    ensures Tracked(ApplyTools(s, results), total, used, segments)
    decreases |results|
  {
    if results != [] {
      var first := results[0];
      assert first in results;
      var s' := if first.goal.Some? then Some(ApplyToolResult(s, first.tool, first.goal.value)) else s;
      ToolsKeepTrack(s', results[1..], total, used, segments);
    }
  }

  // How many segments are recorded when a segment and its report are over: one
  // without turns is not reported.
  function Reported(m: Loop): int { m.seg + if m.last.toolTurns > 0 then 1 else 0 }

  // A segment's turns are counted, once, because it is reported under its own index.
  lemma SegmentAccounts(e: Env, l: Loop, total: int, used: int, base: int)
    requires Accounts(e, base) && Tracked(l.state, total, used, base + l.seg)
    ensures var m := RunSegment(e, l);
      && Tracked(m.state, total, used + m.last.toolTurns, base + Reported(m)) && m.seg == l.seg
      && m.turns == l.turns + m.last.toolTurns && m.segments == l.segments + 1
      && m.deadline == l.deadline
      && m.last.toolTurns <= EffectiveToolTurns(m.requested, e.fromEnv)
      && m.last.providerCalls <= EffectiveToolTurns(m.requested, e.fromEnv) + 1
      && (IsSoft(m.last.reason) ==> m.last.toolTurns >= 1)
  {
    hide Run;
    var results := e.tools(l.seg, Some(l.state.value));
    assert l.state == Some(l.state.value);
    forall r | r in results ensures KeepsBudget(r, l.state.value.goal) {}
    ToolsKeepTrack(l.state, results, total, used, base + l.seg);
    var m := RunSegment(e, l);
    SegmentBounds(m.requested, e.fromEnv, e.provider(l.seg), l.history);
    var s := ApplyTools(l.state, results).value;
    var rep := Report(l.seg, s.goal.id, Some(s.goal), m.last.toolTurns, Regular);
    assert AccountsReport(rep, e.gateway(rep), base);
  }

  // Where the loop stands between rounds: it has used less than the total, and
  // at least one turn per finished segment.
  ghost predicate Ongoing(l: Loop, fromEnv: int, total: int, used0: int, base: int) {
    && l.exit == Running
    && Tracked(l.state, total, used0 + l.turns, base + l.seg) && used0 + l.turns < total
    && l.segments == l.seg <= l.turns
    && l.last.toolTurns <= EffectiveToolTurns(l.requested, fromEnv)
  }

  // Where it may stop: the last segment can carry it past the total.
  predicate Settled(e: Env, l: Loop, total: int, used0: int) {
    && l.exit != Running && l.state.Some?
    && l.state.value.goal.used <= total - 1 + l.last.toolTurns
    && l.last.toolTurns <= EffectiveToolTurns(l.requested, e.fromEnv)
    && l.segments <= total - used0
    && (l.exit != DeadlineBefore ==> l.state.value.goal.used == used0 + l.turns)
  }

  // A budget report about the segment just recorded counts nothing.
  lemma LateReportAccounts(e: Env, m: Loop, delta: nat, total: int, used: int, base: int)
    requires Accounts(e, base) && Tracked(m.state, total, used, base + Reported(m))
    requires delta == m.last.toolTurns || delta == 0
    ensures var s := BudgetReport(e, m.state, m.seg, delta, ExhaustedAfter); s.Some? && s.value.goal.used == used
  {
    var s := m.state.value;
    var rep := Report(m.seg, s.goal.id, Some(s.goal), delta, ExhaustedAfter);
    assert AccountsReport(rep, e.gateway(rep), base);
  }

  lemma ContinueAccounts(e: Env, m: Loop, total: int, used0: int, base: int)
    requires Accounts(e, base) && m.exit == Running && Tracked(m.state, total, used0 + m.turns, base + Reported(m))
    requires used0 + m.turns <= total - 1 + m.last.toolTurns
    requires m.last.toolTurns <= EffectiveToolTurns(m.requested, e.fromEnv)
    requires m.segments == m.seg + 1 && m.seg <= m.turns - m.last.toolTurns
    requires IsSoft(m.last.reason) ==> m.last.toolTurns >= 1
    requires total > 0
    ensures var r := Continue(e, m); Ongoing(r, e.fromEnv, total, used0, base) || Settled(e, r, total, used0)
  {
    LateReportAccounts(e, m, m.last.toolTurns, total, used0 + m.turns, base);
    LateReportAccounts(e, m, 0, total, used0 + m.turns, base);
    hide Accounts, Continue, BudgetReport;
    ContinueFrame(e, m);
    ContinueState(e, m);
  }

  lemma ContinueState(e: Env, m: Loop)
    requires m.exit == Running
    ensures var r := Continue(e, m);
      && (r.exit == Running ==>
            r.state == m.state && IsBound(m.state)
            && (m.state.value.goal.maxTotal > 0 ==> m.state.value.goal.used < m.state.value.goal.maxTotal))
      && (r.state == m.state
          || r.state == BudgetReport(e, m.state, m.seg, m.last.toolTurns, ExhaustedAfter)
          || r.state == BudgetReport(e, m.state, m.seg, 0, ExhaustedAfter))
  {
    hide BudgetReport, GoalRunSegmentLimit, WallEnd, Passed;
  }

  lemma StepAccounts(e: Env, l: Loop, total: int, used0: int, base: int)
    requires Accounts(e, base) && total > 0 && Ongoing(l, e.fromEnv, total, used0, base)
    ensures var r := Step(e, l);
      && (Ongoing(r, e.fromEnv, total, used0, base) || Settled(e, r, total, used0))
      && (r.exit == Running ==> r.seg == l.seg + 1)
  {
    hide RunSegment, Continue;
    if l.seg < l.maxSeg && CtxBefore(e, l) == Live {
      SegmentAccounts(e, l, total, used0 + l.turns, base);
      var m := RunSegment(e, l);
      RunSegmentFrame(e, l);
      ContinueAccounts(e, m, total, used0, base);
      ContinueFrame(e, m);
    } else {
      var g := l.state.value.goal;
      var rep := Report(l.seg, g.id, Some(g), l.last.toolTurns, ExhaustedBefore);
      assert AccountsReport(rep, e.gateway(rep), base);
    }
  }

  lemma RunSegmentFrame(e: Env, l: Loop)
    ensures RunSegment(e, l).seg == l.seg && RunSegment(e, l).exit == l.exit
    ensures RunSegment(e, l).deadline == l.deadline && RunSegment(e, l).maxSeg == l.maxSeg
  {
  }

  lemma ContinueFrame(e: Env, m: Loop)
    requires m.exit == Running
    ensures var r := Continue(e, m);
      r.last == m.last && r.turns == m.turns && r.segments == m.segments && r.requested == m.requested
      && r.exit != DeadlineBefore
      && (r.exit == Running ==> r.seg == m.seg + 1 && IsSoft(m.last.reason))
      && (r.exit != Running ==> r.seg == m.seg)
  {
  }

  lemma {:induction false} RoundsAccount(e: Env, l: Loop, total: int, used0: int, base: int, rounds: nat)
    requires Accounts(e, base) && total > 0 && Ongoing(l, e.fromEnv, total, used0, base)
    ensures var r := Rounds(e, l, rounds);
      && (Ongoing(r, e.fromEnv, total, used0, base) || Settled(e, r, total, used0))
      && (r.exit == Running ==> r.seg == l.seg + rounds)
    decreases rounds
  {
    hide Step;
    if rounds > 0 {
      StepAccounts(e, l, total, used0, base);
      if Step(e, l).exit == Running {
        RoundsAccount(e, Step(e, l), total, used0, base, rounds - 1);
      }
    }
  }

  // The state in which the theorems below start: a bound goal with budget left.
  predicate Fresh(s: RunGoal) {
    && s.bound && s.wasBound && !s.terminal && s.goal.id != ""
    && s.goal.maxTotal > 0 && s.goal.used < s.goal.maxTotal
  }

  lemma StartAccounts(e: Env, s: RunGoal, requested: int, history: bool)
    requires Accounts(e, s.goal.usedSegments) && Fresh(s)
    ensures var l := Start(e, Some(s), requested, history);
      && l.turns == l.segments == l.seg == l.last.toolTurns == 0 && l.requested == requested
      && (l.exit == Running ==>
            && Ongoing(l, e.fromEnv, s.goal.maxTotal, s.goal.used, s.goal.usedSegments)
            && RoomLeft(l) && l.state == Some(s))
      && (l.exit != Running ==> l.exit == WallTimeSpent && Settled(e, l, s.goal.maxTotal, s.goal.used))
  {
    LimitCoversBudget(s.goal, 0);
    var rep := Report(0, s.goal.id, Some(s.goal), 0, ExhaustedBefore);
    assert AccountsReport(rep, e.gateway(rep), s.goal.usedSegments);
  }

  // A bound goal with a positive budget and use below it: the loop ends within
  // `maxTotal - used` rounds and segments, and the final use is below the total
  // plus the effective turn limit of the last segment, so below the total plus 48.
  lemma TerminatesWithBoundedOvershoot(e: Env, s: RunGoal, requested: int, history: bool, rounds: nat)
    requires Accounts(e, s.goal.usedSegments) && Fresh(s)
    ensures var r := Rounds(e, Start(e, Some(s), requested, history), rounds);
      && r.segments <= s.goal.maxTotal - s.goal.used
      && (rounds >= s.goal.maxTotal - s.goal.used ==> r.exit != Running)
      && r.state.Some?
      && r.state.value.goal.used <= s.goal.maxTotal - 1 + r.last.toolTurns
      && r.last.toolTurns <= EffectiveToolTurns(r.requested, e.fromEnv) <= MAX_PROVIDER_TOOL_TURNS
      && (r.exit != DeadlineBefore ==> r.state.value.goal.used == s.goal.used + r.turns)
  {
    hide Accounts, Start;
    var l := Start(e, Some(s), requested, history);
    StartAccounts(e, s, requested, history);
    if l.exit == Running {
      RoundsAccount(e, l, s.goal.maxTotal, s.goal.used, s.goal.usedSegments, rounds);
    }
  }

  // ---- goals whose limits stay put -----------------------------------------------------------

  // What tools and gateway may leave alone.
  datatype Feature = NoWallTime | SegmentSize(turns: int) | Unbudgeted(segments: int)

  predicate Has(g: Goal, f: Feature) {
    match f
    case NoWallTime => g.maxWallTime <= 0
    case SegmentSize(n) => g.maxTurnsPerSegment == n
    case Unbudgeted(n) => g.maxTotal <= 0 && n == if g.maxSegmentsPerRun > 0 then g.maxSegmentsPerRun else 4
  }

  ghost predicate Keeps(e: Env, f: Feature) {
    && (forall rep: Report ::
          var reply := e.gateway(rep);
          rep.held.Some? && Has(rep.held.value, f) && reply.Answer? && reply.goal.Some? ==> Has(reply.goal.value, f))
    && (forall n: nat, s: RunGoal :: forall r: ToolResult :: r in e.tools(n, Some(s)) ==>
          r.goal.Some? && Has(s.goal, f) ==> Has(r.goal.value, f))
  }

  predicate Retains(l: Loop, f: Feature, requested0: int) {
    && l.state.Some? && Has(l.state.value.goal, f)
    && (l.segments == 0 ==> l.last.toolTurns == 0)
    && match f
       case NoWallTime => l.deadline.None? && l.exit != DeadlineBefore
       case Unbudgeted(_) => true
       case SegmentSize(n) => l.requested == if l.segments > 0 && n > 0 then n else requested0
  }

  lemma {:induction false} ToolsRetain(s: Option<RunGoal>, results: seq<ToolResult>, f: Feature)
    requires s.Some? && Has(s.value.goal, f)
    requires forall r :: r in results ==> r.goal.Some? ==> Has(r.goal.value, f)
    ensures ApplyTools(s, results).Some? && Has(ApplyTools(s, results).value.goal, f)
    decreases |results|
  {
    if results != [] {
      var first := results[0];
      assert first in results;
      ToolsRetain(if first.goal.Some? then Some(ApplyToolResult(s, first.tool, first.goal.value)) else s, results[1..], f);
    }
  }

  lemma ReportsRetain(e: Env, s: RunGoal, f: Feature, seg: nat, delta: nat, site: Site)
    requires Keeps(e, f) && Has(s.goal, f)
    ensures BudgetReport(e, Some(s), seg, delta, site).Some?
    ensures Has(BudgetReport(e, Some(s), seg, delta, site).value.goal, f)
    ensures SegmentReport(e, Some(s), s.goal.id, seg, delta).Some?
    ensures Has(SegmentReport(e, Some(s), s.goal.id, seg, delta).value.goal, f)
  {
    var rep, regular := Report(seg, s.goal.id, Some(s.goal), delta, site), Report(seg, s.goal.id, Some(s.goal), delta, Regular);
    assert e.gateway(rep).RpcError? || e.gateway(rep).Answer?;
    assert e.gateway(regular).RpcError? || e.gateway(regular).Answer?;
  }

  lemma SegmentRetains(e: Env, l: Loop, f: Feature, requested0: int)
    requires Keeps(e, f) && Retains(l, f, requested0)
    ensures Retains(RunSegment(e, l), f, requested0)
  {
    hide Run, SegmentReport, Keeps;
    var results := e.tools(l.seg, Some(l.state.value));
    assert l.state == Some(l.state.value);
    forall r | r in results && r.goal.Some? ensures Has(r.goal.value, f) { ToolKeeps(e, l.seg, l.state.value, r, f); }
    ToolsRetain(l.state, results, f);
    var s := ApplyTools(l.state, results).value;
    ReportsRetain(e, s, f, l.seg, RunSegment(e, l).last.toolTurns, Regular);
  }

  lemma ToolKeeps(e: Env, n: nat, s: RunGoal, r: ToolResult, f: Feature)
    requires Keeps(e, f) && Has(s.goal, f) && r in e.tools(n, Some(s)) && r.goal.Some?
    ensures Has(r.goal.value, f)
  {
  }

  lemma ContinueRetains(e: Env, m: Loop, f: Feature, requested0: int)
    requires Keeps(e, f) && Retains(m, f, requested0) && m.exit == Running
    ensures Retains(Continue(e, m), f, requested0)
  {
    hide Keeps, BudgetReport, SegmentReport, GoalRunSegmentLimit, Passed, WallEnd;
    assert m.state == Some(m.state.value);
    ReportsRetain(e, m.state.value, f, m.seg, m.last.toolTurns, ExhaustedAfter);
    ReportsRetain(e, m.state.value, f, m.seg, 0, ExhaustedAfter);
  }

  lemma StepRetains(e: Env, l: Loop, f: Feature, requested0: int)
    requires Keeps(e, f) && Retains(l, f, requested0) && l.exit == Running
    ensures Retains(Step(e, l), f, requested0)
  {
    hide Keeps, RunSegment, Continue, Has;
    SegmentRetains(e, l, f, requested0);
    RunSegmentFrame(e, l);
    ContinueRetains(e, RunSegment(e, l), f, requested0);
    ReportsRetain(e, l.state.value, f, l.seg, l.last.toolTurns, ExhaustedBefore);
  }

  lemma {:induction false} RoundsRetain(e: Env, l: Loop, f: Feature, requested0: int, rounds: nat)
    requires Keeps(e, f) && Retains(l, f, requested0)
    ensures Retains(Rounds(e, l, rounds), f, requested0)
    decreases rounds
  {
    hide Keeps, Step, Retains;
    if rounds > 0 && l.exit == Running {
      StepRetains(e, l, f, requested0);
      RoundsRetain(e, Step(e, l), f, requested0, rounds - 1);
    }
  }

  lemma StartRetains(e: Env, s: RunGoal, requested: int, history: bool, f: Feature)
    requires Keeps(e, f) && Has(s.goal, f)
    ensures Retains(Start(e, Some(s), requested, history), f, requested)
  {
    hide Keeps;
    ReportsRetain(e, s, f, 0, 0, ExhaustedBefore);
  }

  // The overshoot in terms of what the caller knows: while tools and gateway
  // leave the goal's segment size alone, the final use stays below the total
  // plus the turn limit of one segment.
  lemma OvershootWithinSegmentLimit(e: Env, s: RunGoal, requested: int, history: bool, rounds: nat)
    requires Accounts(e, s.goal.usedSegments) && Fresh(s) && Keeps(e, SegmentSize(s.goal.maxTurnsPerSegment))
    ensures var r := Rounds(e, Start(e, Some(s), requested, history), rounds);
      var size := if s.goal.maxTurnsPerSegment > 0 then s.goal.maxTurnsPerSegment else requested;
      r.state.Some? && r.state.value.goal.used <= s.goal.maxTotal - 1 + EffectiveToolTurns(size, e.fromEnv)
  {
    hide Accounts, Keeps, Rounds, Start;
    var f := SegmentSize(s.goal.maxTurnsPerSegment);
    StartRetains(e, s, requested, history, f);
    RoundsRetain(e, Start(e, Some(s), requested, history), f, requested, rounds);
    TerminatesWithBoundedOvershoot(e, s, requested, history, rounds);
  }

  // ---- conservation, exactly ---------------------------------------------------------------

  // The gateway also counts a report made before a segment, under the next index.
  ghost predicate CountsLateReports(e: Env, base: int) {
    forall rep: Report :: rep.site == ExhaustedBefore && rep.held.Some? && rep.held.value.id != ""
                          && rep.seg == Recorded(rep.held.value, base) ==>
      && e.gateway(rep).Answer? && e.gateway(rep).goal.Some?
      && e.gateway(rep).goal.value.used == rep.held.value.used + rep.delta
  }

  ghost predicate OngoingExactly(l: Loop, fromEnv: int, total: int, used0: int, base: int) {
    && Ongoing(l, fromEnv, total, used0, base) && RoomLeft(l)
    && if l.segments == 0 then l.last.toolTurns == 0 else l.last.toolTurns >= 1
  }

  // The loop stopped at the top of a round, on its own deadline.
  predicate EndedOnDeadline(e: Env, r: Loop) {
    r.exit != Running && r.segments == r.seg && r.segments > 0 && CtxBefore(e, r) == PastDeadline
  }

  predicate SettledExactly(e: Env, l: Loop, used0: int) {
    && l.exit != Running && l.state.Some?
    && l.state.value.goal.used == used0 + l.turns + (if EndedOnDeadline(e, l) then l.last.toolTurns else 0)
    && (EndedOnDeadline(e, l) ==> l.exit == DeadlineBefore && l.last.toolTurns >= 1 && l.turns >= 1)
  }

  lemma StepIsExact(e: Env, l: Loop, total: int, used0: int, base: int)
    requires Accounts(e, base) && CountsLateReports(e, base) && total > 0
    requires OngoingExactly(l, e.fromEnv, total, used0, base)
    ensures var r := Step(e, l);
      && (if r.exit == Running then OngoingExactly(r, e.fromEnv, total, used0, base) else SettledExactly(e, r, used0))
      && (EndedOnDeadline(e, r) ==> used0 + r.turns < total)
  {
    hide RunSegment, Continue, Accounts;
    StepAccounts(e, l, total, used0, base);
    StepNeverStopsEarly(e, l);
    if CtxBefore(e, l) == Live {
      SegmentAccounts(e, l, total, used0 + l.turns, base);
      var m := RunSegment(e, l);
      RunSegmentFrame(e, l);
      ContinueFrame(e, m);
    } else {
      var g := l.state.value.goal;
      var rep := Report(l.seg, g.id, Some(g), l.last.toolTurns, ExhaustedBefore);
      assert e.gateway(rep).RpcError? || e.gateway(rep).goal.Some?;
    }
  }

  lemma {:induction false} RoundsAreExact(e: Env, l: Loop, total: int, used0: int, base: int, rounds: nat)
    requires Accounts(e, base) && CountsLateReports(e, base) && total > 0
    requires OngoingExactly(l, e.fromEnv, total, used0, base)
    ensures var r := Rounds(e, l, rounds);
      && (if r.exit == Running then OngoingExactly(r, e.fromEnv, total, used0, base) else SettledExactly(e, r, used0))
      && (EndedOnDeadline(e, r) ==> used0 + r.turns < total)
    decreases rounds
  {
    hide Step, Accounts;
    if rounds > 0 {
      StepIsExact(e, l, total, used0, base);
      if Step(e, l).exit == Running {
        RoundsAreExact(e, Step(e, l), total, used0, base, rounds - 1);
      }
    }
  }

  predicate Conserved(r: Loop, used0: int) { r.state.Some? && r.state.value.goal.used == used0 + r.turns }

  // The final use is the initial use plus the turns of all segments, except
  // when the loop stops on a deadline that passed between two segments: then,
  // and only then, the turns of the last segment are counted twice.
  lemma ConservationExactly(e: Env, s: RunGoal, requested: int, history: bool, rounds: nat)
    requires Accounts(e, s.goal.usedSegments) && CountsLateReports(e, s.goal.usedSegments) && Fresh(s)
    ensures var r := Rounds(e, Start(e, Some(s), requested, history), rounds);
      && (Conserved(r, s.goal.used) <==> !EndedOnDeadline(e, r))
      && (EndedOnDeadline(e, r) ==>
            && r.state.Some? && r.state.value.goal.used == s.goal.used + r.turns + r.last.toolTurns
            && s.goal.used + 1 < s.goal.maxTotal)
  {
    hide Accounts, Start;
    var l := Start(e, Some(s), requested, history);
    StartAccounts(e, s, requested, history);
    if l.exit == Running {
      RoundsAreExact(e, l, s.goal.maxTotal, s.goal.used, s.goal.usedSegments, rounds);
    }
  }

  // ---- when a caller can rely on it -----------------------------------------------------------

  // Without a wall-time limit every turn is counted once, whatever the clock
  // and the cancellations.
  lemma WithoutWallTimeConserves(e: Env, s: RunGoal, requested: int, history: bool, rounds: nat)
    requires Accounts(e, s.goal.usedSegments) && Keeps(e, NoWallTime) && Fresh(s) && s.goal.maxWallTime <= 0
    ensures Conserved(Rounds(e, Start(e, Some(s), requested, history), rounds), s.goal.used)
  {
    hide Accounts, Keeps, Rounds, Start;
    StartRetains(e, s, requested, history, NoWallTime);
    RoundsRetain(e, Start(e, Some(s), requested, history), NoWallTime, requested, rounds);
    TerminatesWithBoundedOvershoot(e, s, requested, history, rounds);
  }

  // A model that answers at once, without tools.
  const QUICK := Provider(_ => NoCalls(true, false), false)

  // A gateway that records each index of the run once.
  function CountingReply(rep: Report, base: int): Reply {
    if rep.held.None? || rep.held.value.id == "" then RpcError
    else
      var g := rep.held.value.(status := Active);
      Answer(Some(if rep.seg == Recorded(g, base) && rep.delta > 0
                  then g.(used := g.used + rep.delta, usedSegments := g.usedSegments + 1) else g))
  }

  // The wall time of `s` runs out right after the first segment was reported.
  function DeadlineEnv(s: RunGoal): Env
    requires s.goal.usedWallTime < s.goal.maxWallTime
  {
    var end: nat := WallEnd(s.goal);
    var clock: nat -> nat := n => if n == 0 then 0 else end;
    Env(_ => QUICK, 0, (_, _) => [], rep => CountingReply(rep, s.goal.usedSegments), 0, clock, clock, _ => false, _ => false)
  }

  ghost predicate WellTimed(e: Env) {
    e.started <= e.before(0) && forall n: nat :: e.before(n) <= e.after(n) <= e.before(n + 1)
  }

  lemma DeadlineEnvAccounts(s: RunGoal)
    requires s.goal.usedWallTime < s.goal.maxWallTime
    ensures var e := DeadlineEnv(s);
      Ordinary(e, s.goal.usedSegments)
  {
  }

  // A clock and a gateway that count the last turns twice: the deadline passes
  // between the first segment and the second, which never runs, and the turn of
  // the first is reported once more under the second's index.
  lemma DeadlineBeforeReportsTwice(s: RunGoal, requested: int, history: bool)
    requires Fresh(s) && 0 < s.goal.maxWallTime && s.goal.usedWallTime < s.goal.maxWallTime
    requires s.goal.used + 1 < s.goal.maxTotal
    ensures var e := DeadlineEnv(s);
      var r := Rounds(e, Start(e, Some(s), requested, history), 2);
      r.exit == DeadlineBefore && r.turns == 1 && r.segments == 1
      && r.state.Some? && r.state.value.goal.used == s.goal.used + 2
  {
    var e := DeadlineEnv(s);
    var l := Start(e, Some(s), requested, history);
    LimitCoversBudget(s.goal, 0);
    assert ApplyTools(l.state, []) == l.state;
    var m := RunSegment(e, l);
    assert m.last == SegmentResult(NoTools, 1, 1, history);
    assert m.state.value.goal.used == s.goal.used + 1 && IsBound(m.state) && !m.state.value.terminal;
    LimitCoversBudget(m.state.value.goal, 1);
    var l1 := Step(e, l);
    assert l1 == Continue(e, m) && l1.exit == Running && l1.seg == 1;
    assert CtxBefore(e, l1) == PastDeadline;
    var l2 := Step(e, l1);
    assert Rounds(e, l, 2) == Rounds(e, l1, 1) == Rounds(e, l2, 0);
  }

  // A gateway that counts each index once and late reports too, no wall time for
  // goals without it, and a clock that does not go back.
  ghost predicate Ordinary(e: Env, base: int) {
    Accounts(e, base) && CountsLateReports(e, base) && Keeps(e, NoWallTime) && WellTimed(e)
  }

  // Which goals are accounted for exactly by every clock and every accounting
  // environment that imposes no wall time: those without wall time, those whose
  // wall time is spent already, and those with a single turn left.
  lemma AlwaysConservedExactly(s: RunGoal, requested: int, history: bool)
    requires Fresh(s)
    ensures (forall e: Env, rounds: nat ::
        Ordinary(e, s.goal.usedSegments) ==>
          Conserved(Rounds(e, Start(e, Some(s), requested, history), rounds), s.goal.used))
      <==> s.goal.maxWallTime <= 0 || s.goal.usedWallTime >= s.goal.maxWallTime || s.goal.used + 1 == s.goal.maxTotal
  {
    hide Accounts, CountsLateReports, Keeps, WellTimed, Rounds, Start;
    var spent := s.goal.usedWallTime >= s.goal.maxWallTime;
    if s.goal.maxWallTime <= 0 || spent || s.goal.used + 1 == s.goal.maxTotal {
      forall e: Env, rounds: nat | Ordinary(e, s.goal.usedSegments)
        ensures Conserved(Rounds(e, Start(e, Some(s), requested, history), rounds), s.goal.used)
      {
        if s.goal.maxWallTime <= 0 {
          WithoutWallTimeConserves(e, s, requested, history, rounds);
        } else if spent {
          SpentWallTimeConserves(e, s, requested, history, rounds);
        } else {
          ConservationExactly(e, s, requested, history, rounds);
        }
      }
    } else {
      DeadlineEnvAccounts(s);
      DeadlineBeforeReportsTwice(s, requested, history);
      var e := DeadlineEnv(s);
      assert !Conserved(Rounds(e, Start(e, Some(s), requested, history), 2), s.goal.used);
    }
  }

  lemma SpentWallTimeConserves(e: Env, s: RunGoal, requested: int, history: bool, rounds: nat)
    requires Accounts(e, s.goal.usedSegments) && Fresh(s) && 0 < s.goal.maxWallTime <= s.goal.usedWallTime
    ensures Conserved(Rounds(e, Start(e, Some(s), requested, history), rounds), s.goal.used)
  {
    hide Accounts;
    assert WallEnd(s.goal) <= 0;
    assert Start(e, Some(s), requested, history).exit == WallTimeSpent;
    TerminatesWithBoundedOvershoot(e, s, requested, history, rounds);
  }

  // ---- the bound is reached --------------------------------------------------------------

  // A model that asks for tools on every turn.
  const BUSY := Provider(_ => Calls(1, false), false)

  lemma {:induction false} BusySegment(maxTurns: nat, turn: nat, rounds: bool, calls: nat)
    requires turn <= maxTurns && (turn > 0 ==> rounds)
    ensures maxTurns > 0 ==>
      RunFrom(maxTurns, BUSY, turn, rounds, calls) == SegmentResult(MaxTurns, maxTurns, calls + (maxTurns - turn), true)
    decreases maxTurns - turn
  {
    if turn < maxTurns {
      BusySegment(maxTurns, turn + 1, true, calls + 1);
    }
  }

  // For every segment size there is a run that overshoots by exactly that
  // size minus one: the bound above cannot be improved.
  lemma OvershootIsReached(size: int)
    requires 1 <= size <= MAX_PROVIDER_TOOL_TURNS
    ensures var s := RunGoal(Goal("g", Active, 0, 1, 0, 4, size, 0, 0), true, true, false);
      var e := OfflineEnv();
      var r := Rounds(e, Start(e, Some(s), 0, false), 1);
      Accounts(e, 0) && Fresh(s) && r.exit == GoalTerminal && r.state.value.goal.used == s.goal.maxTotal - 1 + size
  {
    var s := RunGoal(Goal("g", Active, 0, 1, 0, 4, size, 0, 0), true, true, false);
    var e := OfflineEnv();
    var l := Start(e, Some(s), 0, false);
    BusySegment(size, 0, false, 0);
    assert EffectiveToolTurns(size, 0) == size;
    assert ApplyTools(l.state, []) == l.state;
    var m := RunSegment(e, l);
    assert m.last == SegmentResult(MaxTurns, size, size, true);
    assert m.state.value.goal.used == size && m.state.value.terminal;
    assert Rounds(e, l, 1) == Rounds(e, Step(e, l), 0);
  }

  // The busy model, and a gateway that does not answer.
  function OfflineEnv(): Env {
    Env(_ => BUSY, 0, (_, _) => [], _ => RpcError, 0, _ => 0, _ => 0, _ => false, _ => false)
  }

  // ---- when the loop goes on, and when it ends ------------------------------------------------

  // After a segment of a budgeted goal the loop goes on exactly when the segment
  // ended softly, the goal is still bound and not over, has turns left, and its
  // wall time has not run out. The next segment then has the next index and the
  // history of this one, and the deadline is the end of the goal's wall time.
  lemma GoesOnExactly(e: Env, l: Loop)
    requires l.exit == Running && RunSegment(e, l).state.Some? && RunSegment(e, l).state.value.goal.maxTotal > 0
    ensures var m, r := RunSegment(e, l), Continue(e, RunSegment(e, l));
      var s, g, now := m.state.value, m.state.value.goal, e.after(l.seg);
      var asks := l.deadline.None? && g.maxWallTime > 0;
      && (r.exit == Running <==>
            && IsSoft(m.last.reason) && s.bound && !s.terminal && g.used < g.maxTotal
            && (l.deadline.Some? && now >= l.deadline.value ==> e.cancelledAfter(l.seg))
            && (asks ==> now < (g.maxWallTime - g.usedWallTime) * SECOND))
      && (r.exit == Running ==>
            && r.seg == l.seg + 1 && r.history == m.last.hasHistory && r.state == m.state
            && r.deadline == if asks then Some((g.maxWallTime - g.usedWallTime) * SECOND) else l.deadline)
  {
    hide RunSegment, GoalRunSegmentLimit;
    var m := RunSegment(e, l);
    RunSegmentFrame(e, l);
    if m.state.value.goal.used < m.state.value.goal.maxTotal {
      LimitCoversBudget(m.state.value.goal, m.seg + 1);
    }
  }

  predicate IsOver(g: Goal) { g.status in {Succeeded, FailedGoal, CancelledGoal} }

  lemma {:induction false} LastToolDecides(s: Option<RunGoal>, results: seq<ToolResult>)
    requires results != [] && results[|results| - 1].goal.Some?
    ensures var last := results[|results| - 1];
      && ApplyTools(s, results).Some? && ApplyTools(s, results).value.goal == last.goal.value
      && (IsOver(last.goal.value) ==> ApplyTools(s, results).value.terminal && !ApplyTools(s, results).value.bound)
    decreases |results|
  {
    var first := results[0];
    var s' := if first.goal.Some? then Some(ApplyToolResult(s, first.tool, first.goal.value)) else s;
    if |results| > 1 {
      LastToolDecides(s', results[1..]);
    } else {
      assert results[1..] == [] && ApplyTools(s', []) == s';
    }
  }

  // A goal that the model ended during a segment ends the loop after it, for
  // every gateway that does not revive goals.
  lemma EndedGoalEndsLoop(e: Env, l: Loop)
    requires l.exit == Running
    requires var results := e.tools(l.seg, l.state);
      results != [] && results[|results| - 1].goal.Some? && IsOver(results[|results| - 1].goal.value)
    requires forall rep: Report :: rep.held.Some? && IsOver(rep.held.value) ==>
      e.gateway(rep).Answer? && e.gateway(rep).goal.Some? ==> IsOver(e.gateway(rep).goal.value)
    ensures Step(e, l).exit != Running
  {
    hide Run, GoalRunSegmentLimit;
    if l.seg < l.maxSeg && CtxBefore(e, l) == Live {
      LastToolDecides(l.state, e.tools(l.seg, l.state));
      var s := ApplyTools(l.state, e.tools(l.seg, l.state)).value;
      var m := RunSegment(e, l);
      var rep := Report(l.seg, s.goal.id, Some(s.goal), m.last.toolTurns, Regular);
      assert e.gateway(rep).RpcError? || e.gateway(rep).goal.None? || IsOver(e.gateway(rep).goal.value);
      assert m.state.Some? && m.state.value.terminal;
    }
  }

  // Segments run so far are the rounds taken; none is run at an index at which
  // the context is already dead.
  predicate Counted(l: Loop) {
    l.segments == if l.exit in {Running, LoopDone, CancelledBefore, DeadlineBefore} then l.seg else l.seg + 1
  }

  lemma StepCounts(e: Env, l: Loop)
    requires l.exit == Running && Counted(l)
    ensures var r := Step(e, l);
      && Counted(r) && r.segments <= l.segments + 1
      && (r.segments > l.segments ==> CtxBefore(e, l) == Live && l.seg < l.maxSeg)
      && (l.deadline.Some? ==> r.deadline == l.deadline)
      && (r.exit == Running ==> r.segments == l.segments + 1)
  {
    hide RunSegment, Continue;
    if l.seg < l.maxSeg && CtxBefore(e, l) == Live {
      var m := RunSegment(e, l);
      RunSegmentFrame(e, l);
      SegmentCount(e, l);
      ContinueFrame(e, m);
      ContinueKind(e, m);
    }
  }

  // The segment limit of a run is only ever raised, also when the goal's own
  // limit is lowered meanwhile.
  lemma {:induction false} LimitNeverFalls(e: Env, l: Loop, rounds: nat)
    ensures Rounds(e, l, rounds).maxSeg >= l.maxSeg
    decreases rounds
  {
    if rounds > 0 && l.exit == Running {
      var r := Step(e, l);
      assert r.maxSeg >= l.maxSeg by {
        hide GoalRunSegmentLimit, Run, ApplyTools, SegmentReport, BudgetReport;
        RunSegmentFrame(e, l);
      }
      LimitNeverFalls(e, r, rounds - 1);
    }
  }

  lemma SegmentCount(e: Env, l: Loop)
    ensures RunSegment(e, l).segments == l.segments + 1
  {
  }

  lemma ContinueKind(e: Env, m: Loop)
    requires m.exit == Running
    ensures Continue(e, m).exit !in {LoopDone, CancelledBefore}
    ensures m.deadline.Some? ==> Continue(e, m).deadline == m.deadline
  {
  }

  lemma {:induction false} DeadStops(e: Env, l: Loop, n: nat, rounds: nat)
    requires l.exit == Running && Counted(l) && l.segments <= n
    requires e.cancelledBefore(n) || (l.deadline.Some? && e.before(n) >= l.deadline.value)
    ensures Rounds(e, l, rounds).segments <= n
    decreases rounds
  {
    hide Step;
    if rounds > 0 {
      StepCounts(e, l);
      var r := Step(e, l);
      if r.exit == Running {
        DeadStops(e, r, n, rounds - 1);
      }
    }
  }

  // No segment is run from an index on at which the run is cancelled, or at which
  // the wall time of a goal that was bound at the start is over.
  lemma NothingAfterTheEnd(e: Env, state: Option<RunGoal>, requested: int, history: bool, n: nat, rounds: nat)
    requires e.cancelledBefore(n)
      || (IsBound(state) && state.value.goal.maxWallTime > 0
          && e.before(n) >= (state.value.goal.maxWallTime - state.value.goal.usedWallTime) * SECOND)
    ensures Rounds(e, Start(e, state, requested, history), rounds).segments <= n
  {
    var l := Start(e, state, requested, history);
    assert l.segments == 0 && (l.exit == Running ==> Counted(l));
    hide Start;
    if l.exit == Running {
      DeadStops(e, l, n, rounds);
    }
  }

  // ---- the gateway is told ---------------------------------------------------------------------

  predicate OutOfTime(x: Exit) { x in {DeadlineBefore, DeadlineAfter, WallTimeSpent} }

  // The goal's last state is a failure.
  predicate IsFailed(s: Option<RunGoal>) {
    s.Some? ==> s.value.terminal && !s.value.bound && s.value.goal.status == FailedGoal
  }

  // A loop that ends on the goal's wall time reports it: with a gateway that
  // answers a budget report by failing the goal, the run's goal is failed then.
  lemma {:induction false} WallTimeFailsGoal(e: Env, l: Loop, rounds: nat)
    requires forall rep: Report :: rep.site != Regular ==>
      e.gateway(rep).Answer? && e.gateway(rep).goal.Some? && e.gateway(rep).goal.value.status == FailedGoal
    requires OutOfTime(l.exit) ==> IsFailed(l.state)
    ensures var r := Rounds(e, l, rounds); OutOfTime(r.exit) ==> IsFailed(r.state)
    decreases rounds
  {
    hide RunSegment, GoalRunSegmentLimit;
    if rounds > 0 && l.exit == Running {
      RunSegmentFrame(e, l);
      WallTimeFailsGoal(e, Step(e, l), rounds - 1);
    }
  }

  lemma RunOutOfTimeFails(e: Env, state: Option<RunGoal>, requested: int, history: bool, rounds: nat)
    requires forall rep: Report :: rep.site != Regular ==>
      e.gateway(rep).Answer? && e.gateway(rep).goal.Some? && e.gateway(rep).goal.value.status == FailedGoal
    ensures var r := Rounds(e, Start(e, state, requested, history), rounds); OutOfTime(r.exit) ==> IsFailed(r.state)
  {
    WallTimeFailsGoal(e, Start(e, state, requested, history), rounds);
  }

  // ---- goals without a total budget -----------------------------------------------------------

  lemma StepLimit(e: Env, l: Loop, n: int)
    requires Keeps(e, Unbudgeted(n)) && Retains(l, Unbudgeted(n), l.requested) && l.exit == Running && Counted(l)
    requires l.seg < l.maxSeg <= n
    ensures var r := Step(e, l);
      && Counted(r) && r.seg < r.maxSeg <= n && r.segments <= n
      && (r.exit == SegmentLimit ==> r.segments == n)
      && (r.exit == Running ==> r.segments == l.segments + 1)
  {
    StepCounts(e, l);
    if CtxBefore(e, l) == Live {
      SegmentRetains(e, l, Unbudgeted(n), l.requested);
      RunSegmentFrame(e, l);
      LimitOfUnbudgeted(e, RunSegment(e, l), n);
    }
  }

  lemma LimitOfUnbudgeted(e: Env, m: Loop, n: int)
    requires m.exit == Running && m.state.Some? && Has(m.state.value.goal, Unbudgeted(n)) && m.seg < m.maxSeg <= n
    ensures var r := Continue(e, m);
      r.seg < r.maxSeg <= n && (r.exit == SegmentLimit ==> m.seg + 1 == n)
  {
  }

  lemma {:induction false} RoundsLimit(e: Env, l: Loop, n: int, rounds: nat)
    requires Keeps(e, Unbudgeted(n)) && Retains(l, Unbudgeted(n), l.requested) && l.exit == Running && Counted(l)
    requires l.seg < l.maxSeg <= n
    ensures var r := Rounds(e, l, rounds);
      && r.segments <= n && (r.exit == SegmentLimit ==> r.segments == n)
      && (r.exit == Running ==> r.segments == l.segments + rounds < n)
    decreases rounds
  {
    hide Step, Keeps, Retains;
    if rounds > 0 {
      StepLimit(e, l, n);
      StepRetains(e, l, Unbudgeted(n), l.requested);
      var r := Step(e, l);
      if r.exit == Running {
        RetainsUnbudgeted(r, n, l.requested);
        RoundsLimit(e, r, n, rounds - 1);
      }
    }
  }

  lemma RetainsUnbudgeted(l: Loop, n: int, requested0: int)
    requires Retains(l, Unbudgeted(n), requested0)
    ensures Retains(l, Unbudgeted(n), l.requested)
  {
  }

  // A goal without a total budget gets its configured number of segments, 4 if
  // there is none: the loop ends within that many, and the segment limit ends it
  // exactly there.
  lemma UnbudgetedGoalStops(e: Env, s: RunGoal, requested: int, history: bool, rounds: nat)
    requires s.bound && !s.terminal && s.goal.maxTotal <= 0
    requires Keeps(e, Unbudgeted(if s.goal.maxSegmentsPerRun > 0 then s.goal.maxSegmentsPerRun else 4))
    ensures var r := Rounds(e, Start(e, Some(s), requested, history), rounds);
      var n := if s.goal.maxSegmentsPerRun > 0 then s.goal.maxSegmentsPerRun else 4;
      && r.segments <= n && (rounds >= n ==> r.exit != Running)
      && (r.exit == SegmentLimit ==> r.segments == n)
  {
    var n := if s.goal.maxSegmentsPerRun > 0 then s.goal.maxSegmentsPerRun else 4;
    var l := Start(e, Some(s), requested, history);
    StartRetains(e, s, requested, history, Unbudgeted(n));
    if l.exit == Running {
      assert l.state == Some(s) && l.maxSeg == n && Counted(l);
      RoundsLimit(e, l, n, rounds);
    }
  }

  // ---- without an id nothing is accounted ---------------------------------------------------

  // A bound goal whose id is empty is never reported, so its use never grows:
  // with a model that always answers without tools, and as long as its wall
  // time is not over, no number of rounds ends the loop.
  lemma {:induction false} WithoutIdNeverStops(e: Env, l: Loop, rounds: nat)
    requires l.exit == Running && l.seg < l.maxSeg && IsBound(l.state) && !l.state.value.terminal
    requires l.state.value.goal.id == "" && l.state.value.goal.used < l.state.value.goal.maxTotal
    requires 0 < l.state.value.goal.maxTotal
    requires l.deadline.None? || l.deadline == Some(WallEnd(l.state.value.goal))
    requires l.deadline.Some? || l.state.value.goal.maxWallTime > 0 ==>
      forall n: nat :: e.before(n) < WallEnd(l.state.value.goal) && e.after(n) < WallEnd(l.state.value.goal)
    requires forall n: nat :: !e.cancelledBefore(n)
    requires forall n: nat, s: Option<RunGoal> :: e.tools(n, s) == []
    requires forall n: nat :: e.provider(n).turn(0) == NoCalls(true, false)
    ensures Rounds(e, l, rounds).exit == Running
    decreases rounds
  {
    if rounds > 0 {
      var m := RunSegment(e, l);
      assert e.tools(l.seg, l.state) == [] && ApplyTools(l.state, []) == l.state;
      assert e.provider(l.seg).turn(0) == NoCalls(true, false);
      assert m.last.reason == NoTools && m.state == l.state;
      LimitCoversBudget(m.state.value.goal, m.seg + 1);
      assert CtxBefore(e, l) == Live && !Passed(m.deadline, e.after(l.seg));
      var next := Step(e, l);
      assert next.exit == Running && next.seg < next.maxSeg && next.state == l.state;
      WithoutIdNeverStops(e, next, rounds - 1);
    }
  }
}
