// The multi-segment controller of a root run
// (modules/agent/internal/runtime/goal_loop.go). Provider, gateway and clock
// are an arbitrary environment.
module GoalLoop {
  import opened ProviderSegment
  import opened Wrappers

  datatype Status = Active | Succeeded | FailedGoal | CancelledGoal | OtherStatus(name: string)

  datatype Goal = Goal(
    id: string,
    status: Status,
    used: int,               // UsedToolTurns
    maxTotal: int,           // MaxTotalToolTurns
    usedSegments: int,
    maxSegmentsPerRun: int,
    maxTurnsPerSegment: int, // MaxToolTurnsSeg
    maxWallTime: int,        // MaxWallTimeSec
    usedWallTime: int)       // UsedWallTimeSec

  // The snapshot a run keeps of its goal.
  datatype RunGoal = RunGoal(goal: Goal, bound: bool, wasBound: bool, terminal: bool)

  datatype Tool = GoalWrite | GoalUpdate | GoalComplete | SegmentEnd | OtherTool(name: string)

  const DEFAULT_MAX_SEGMENTS_PER_RUN := 4

  function FirstPositive(a: int, b: int): int {
    if a > 0 then a else if b > 0 then b else 0
  }

  function GoalRunSegmentLimit(goal: Goal, completed: int): int {
    var limit := FirstPositive(goal.maxSegmentsPerRun, DEFAULT_MAX_SEGMENTS_PER_RUN);
    var remaining := goal.maxTotal - goal.used;
    if goal.maxTotal <= 0 || remaining <= 0 then limit
    else
      var perSegment := FirstPositive(goal.maxTurnsPerSegment, 1);
      var needed := (remaining + perSegment - 1) / perSegment;
      var want := completed + needed;
      if want > limit then want else limit
  }

  // The limit always leaves room for the whole remaining budget, at the
  // goal's own segment size, and asks for no segment more than that.
  lemma LimitCoversBudget(goal: Goal, completed: nat)
    requires goal.maxTotal > 0 && goal.used < goal.maxTotal
    ensures var r, per := GoalRunSegmentLimit(goal, completed), FirstPositive(goal.maxTurnsPerSegment, 1);
      && r > completed
      && r >= FirstPositive(goal.maxSegmentsPerRun, DEFAULT_MAX_SEGMENTS_PER_RUN)
      && (r - completed) * per >= goal.maxTotal - goal.used
      && (r > FirstPositive(goal.maxSegmentsPerRun, DEFAULT_MAX_SEGMENTS_PER_RUN) ==>
            (r - completed - 1) * per < goal.maxTotal - goal.used)
  {
    var per := FirstPositive(goal.maxTurnsPerSegment, 1);
    var remaining := goal.maxTotal - goal.used;
    var needed := (remaining + per - 1) / per;
    CeilingDivision(remaining, per, needed);
    var r := GoalRunSegmentLimit(goal, completed);
    assert r - completed >= needed;
    Monotone(needed, r - completed, per);
  }

  lemma CeilingDivision(n: int, per: int, q: int)
    requires n > 0 && per > 0 && q == (n + per - 1) / per
    ensures q > 0 && q * per >= n && (q - 1) * per < n
  {
    var m := n + per - 1;
    assert m == per * (m / per) + m % per;
    assert (q - 1) * per == q * per - per;
    if q <= 0 {
      Monotone(q, 0, per);
    }
  }

  lemma Monotone(a: int, b: int, per: int)
    requires a <= b && per > 0
    ensures a * per <= b * per
  {
    assert (b - a) * per >= 0;
    assert (b - a) * per == b * per - a * per;
  }

  // ---- the run's goal snapshot -------------------------------------------------------

  // applyGoalToolResult, for a result that carries a goal.
  function ApplyToolResult(prev: Option<RunGoal>, tool: Tool, g: Goal): RunGoal {
    var active := g.status == Active;
    var ends := tool == GoalComplete || g.status == CancelledGoal;
    RunGoal(
      g,
      active && !ends,
      active || (prev.Some? && prev.value.wasBound),
      ends || g.status == Succeeded || g.status == FailedGoal)
  }

  // The gateway's answer to segment_end, or a failed call.
  datatype Reply = RpcError | Answer(goal: Option<Goal>)

  function AfterAnswer(prev: Option<RunGoal>, reply: Reply): Option<RunGoal> {
    if reply.Answer? && reply.goal.Some? then Some(ApplyToolResult(prev, SegmentEnd, reply.goal.value)) else prev
  }

  // A segment report that got no answer: the local counters advance.
  function CountedLocally(s: RunGoal, delta: int): RunGoal {
    var g := s.goal.(used := s.goal.used + delta, usedSegments := s.goal.usedSegments + 1);
    if g.maxTotal > 0 && g.used >= g.maxTotal then
      s.(goal := g.(status := FailedGoal), terminal := true, bound := false)
    else s.(goal := g)
  }

  // ---- the environment ---------------------------------------------------------------

  datatype ToolResult = ToolResult(tool: Tool, goal: Option<Goal>)

  // The call sites of segment_end: the regular report after a segment, and the
  // budget-exhausted reports before and after one.
  datatype Site = Regular | ExhaustedBefore | ExhaustedAfter

  // A report, with the snapshot `held` by the run that makes it.
  datatype Report = Report(seg: nat, goalId: string, held: Option<Goal>, delta: nat, site: Site)

  // Times are nanoseconds since the loop started.
  datatype Env = Env(
    provider: nat -> Provider,   // the provider during segment n
    fromEnv: int,                // RED_PANDA_MAX_TOOL_TURNS
    tools: (nat, Option<RunGoal>) -> seq<ToolResult>,  // goal tool results during segment n
    gateway: Report -> Reply,
    started: nat,                // the time when the loop sets up its deadline
    before: nat -> nat,          // the time before segment n
    after: nat -> nat,           // the time after segment n and its report
    cancelledBefore: nat -> bool,  // the run's context is dead before segment n
    cancelledAfter: nat -> bool)   // ... and after it

  function ApplyTools(s: Option<RunGoal>, results: seq<ToolResult>): Option<RunGoal>
    decreases |results|
  {
    if results == [] then s
    else
      var first := results[0];
      ApplyTools(if first.goal.Some? then Some(ApplyToolResult(s, first.tool, first.goal.value)) else s, results[1..])
  }

  // ---- the loop ------------------------------------------------------------------------

  // Which return of runWithGoalLoop was taken.
  datatype Exit =
    | Running
    | LoopDone
    | CancelledBefore
    | DeadlineBefore
    | DeadlineAfter
    | WallTimeSpent
    | SegmentStopped
    | GoalTerminal
    | NotBound
    | BudgetSpent
    | HardReason
    | SegmentLimit

  datatype Loop = Loop(
    seg: nat,
    maxSeg: int,
    state: Option<RunGoal>,
    requested: int,         // options.MaxToolTurns
    deadline: Option<int>,  // of the loop's own context; none while that is the run's context
    history: bool,
    last: SegmentResult,
    turns: nat,           // tool turns of all segments run so far
    segments: nat,        // segments run so far
    exit: Exit)

  predicate IsBound(s: Option<RunGoal>) { s.Some? && s.value.bound }

  const SECOND: nat := 1_000_000_000

  // When a goal's wall time is over.
  function WallEnd(g: Goal): int { (g.maxWallTime - g.usedWallTime) * SECOND }

  predicate AsksDeadline(l: Loop) {
    l.deadline.None? && IsBound(l.state) && l.state.value.goal.maxWallTime > 0
  }

  // configureDeadline, called at time `now`.
  function ConfigureDeadline(e: Env, l: Loop, now: nat, site: Site): Loop {
    if !AsksDeadline(l) then l
    else if WallEnd(l.state.value.goal) - now <= 0 then
      l.(state := BudgetReport(e, l.state, l.seg, 0, site), exit := WallTimeSpent)
    else l.(deadline := Some(WallEnd(l.state.value.goal)))
  }

  function Start(e: Env, state: Option<RunGoal>, requested: int, history: bool): Loop {
    var none := SegmentResult(NoTools, 0, 0, false);
    var l := ConfigureDeadline(e, Loop(0, 1, state, requested, None, history, none, 0, 0, Running),
                               e.started, ExhaustedBefore);
    if l.exit == Running && IsBound(state) && !state.value.terminal
    then l.(maxSeg := GoalRunSegmentLimit(state.value.goal, 0)) else l
  }

  function BudgetReport(e: Env, s: Option<RunGoal>, seg: nat, delta: nat, site: Site): Option<RunGoal> {
    if s.None? then s
    else AfterAnswer(s, e.gateway(Report(seg, s.value.goal.id, Some(s.value.goal), delta, site)))
  }

  // The goal of the run's snapshot, if it has one.
  function Held(s: Option<RunGoal>): Option<Goal> { if s.Some? then Some(s.value.goal) else None }

  // reportSegmentEnd
  function SegmentReport(e: Env, s: Option<RunGoal>, goalId: string, seg: nat, delta: int): Option<RunGoal> {
    if delta <= 0 || goalId == "" then s
    else
      match e.gateway(Report(seg, goalId, Held(s), delta, Regular))
      case RpcError => if s.Some? then Some(CountedLocally(s.value, delta)) else s
      case Answer(g) => AfterAnswer(s, Answer(g))
  }

  // The segment itself and its accounting.
  function RunSegment(e: Env, l: Loop): Loop {
    var requested := if l.state.Some? && l.state.value.goal.maxTurnsPerSegment > 0
                     then l.state.value.goal.maxTurnsPerSegment else l.requested;
    var last := Run(EffectiveToolTurns(requested, e.fromEnv), e.provider(l.seg), l.history);
    var s := ApplyTools(l.state, e.tools(l.seg, l.state));
    var s' := if s.Some? && s.value.wasBound && s.value.goal.id != "" && last.toolTurns > 0
              then SegmentReport(e, s, s.value.goal.id, l.seg, last.toolTurns) else s;
    l.(state := s', requested := requested, last := last, turns := l.turns + last.toolTurns,
       segments := l.segments + 1)
  }

  predicate Passed(deadline: Option<int>, now: nat) { deadline.Some? && now >= deadline.value }

  // What follows the accounting.
  function Continue(e: Env, l: Loop): Loop {
    if Passed(l.deadline, e.after(l.seg)) && !e.cancelledAfter(l.seg) then
      l.(state := BudgetReport(e, l.state, l.seg, l.last.toolTurns, ExhaustedAfter), exit := DeadlineAfter)
    else
      var m := ConfigureDeadline(e, l, e.after(l.seg), ExhaustedAfter);
      var s := m.state;
      if m.exit != Running then m
      else if !IsSoft(l.last.reason) then m.(exit := SegmentStopped)
      else if s.Some? && s.value.terminal then m.(exit := GoalTerminal)
      else if !IsBound(s) then m.(exit := NotBound)
      else
        var want := GoalRunSegmentLimit(s.value.goal, l.seg + 1);
        var n := m.(maxSeg := if want > l.maxSeg then want else l.maxSeg);
        if s.value.goal.maxTotal > 0 && s.value.goal.used >= s.value.goal.maxTotal then n.(exit := BudgetSpent)
        else if l.seg + 1 >= n.maxSeg then n.(exit := SegmentLimit)
        else n.(seg := l.seg + 1, history := l.last.hasHistory)
  }

  datatype Ctx = Live | Done | PastDeadline

  // The state of the loop's context at the top of a round. A deadline passes
  // only if one was set.
  function CtxBefore(e: Env, l: Loop): Ctx {
    if e.cancelledBefore(l.seg) then Done
    else if Passed(l.deadline, e.before(l.seg)) then PastDeadline
    else Live
  }

  // One round of the loop.
  function Step(e: Env, l: Loop): Loop {
    if l.seg >= l.maxSeg then l.(exit := LoopDone)
    else
      match CtxBefore(e, l)
      case Done => l.(exit := CancelledBefore)
      case PastDeadline =>
        l.(state := BudgetReport(e, l.state, l.seg, l.last.toolTurns, ExhaustedBefore), exit := DeadlineBefore)
      case Live => Continue(e, RunSegment(e, l))
  }

  // At most `rounds` rounds.
  function Rounds(e: Env, l: Loop, rounds: nat): Loop
    decreases rounds
  {
    if rounds == 0 || l.exit != Running then l else Rounds(e, Step(e, l), rounds - 1)
  }

  // ---- the loop on a mutable snapshot --------------------------------------------------------------

  class Runner {
    var runGoals: map<string, RunGoal>

    constructor ()
      ensures runGoals == map[]
    {
      runGoals := map[];
    }

    function Get(runId: string): Option<RunGoal>
      reads this
    {
      if runId in runGoals then Some(runGoals[runId]) else None
    }

    method ApplyGoalToolResult(runId: string, tool: Tool, result: Option<Goal>)
      modifies this
      ensures Get(runId) ==
        if result.Some? then Some(ApplyToolResult(old(Get(runId)), tool, result.value)) else old(Get(runId))
      ensures result.Some? ==>
        var prev, s := old(Get(runId)), runGoals[runId];
        var ended := tool == GoalComplete || result.value.status in {Succeeded, FailedGoal, CancelledGoal};
        && s.goal == result.value
        && (s.terminal <==> ended)
        && (s.bound <==> result.value.status == Active && tool != GoalComplete)
        && (s.wasBound <==> result.value.status == Active || (prev.Some? && prev.value.wasBound))
      ensures runGoals - {runId} == old(runGoals) - {runId}
    {
      if result.None? {
        return;
      }
      var g := result.value;
      var terminal := g.status == Succeeded || g.status == FailedGoal || g.status == CancelledGoal;
      var bound := g.status == Active;
      var prev := Get(runId);
      var state := RunGoal(g, bound, bound, terminal);
      if prev.Some? && prev.value.wasBound {
        state := state.(wasBound := true);
      }
      if prev.Some? && prev.value.bound && g.status == Active {
        state := state.(bound := true);
      }
      if (tool == GoalWrite || tool == GoalUpdate) && g.status == Active {
        state := state.(bound := true, wasBound := true);
      }
      if tool == GoalComplete || g.status == CancelledGoal {
        state := state.(bound := false, terminal := true);
      }
      runGoals := runGoals[runId := state];
    }

    method ReportSegmentEnd(e: Env, runId: string, goalId: string, seg: nat, delta: int)
      modifies this
      ensures Get(runId) == SegmentReport(e, old(Get(runId)), goalId, seg, delta)
      ensures runGoals - {runId} == old(runGoals) - {runId}
    {
      if delta <= 0 || goalId == "" {
        return;
      }
      var current := Get(runId);
      var reply := e.gateway(Report(seg, goalId, Held(current), delta, Regular));
      if reply.RpcError? {
        if current.Some? {
          var state := current.value;
          state := state.(goal := state.goal.(used := state.goal.used + delta));
          state := state.(goal := state.goal.(usedSegments := state.goal.usedSegments + 1));
          if state.goal.maxTotal > 0 && state.goal.used >= state.goal.maxTotal {
            state := state.(goal := state.goal.(status := FailedGoal), terminal := true, bound := false);
          }
          runGoals := runGoals[runId := state];
        }
        return;
      }
      ApplyGoalToolResult(runId, SegmentEnd, reply.goal);
    }

    method ReportGoalBudgetExhausted(e: Env, runId: string, seg: nat, delta: nat, site: Site)
      modifies this
      ensures Get(runId) == BudgetReport(e, old(Get(runId)), seg, delta, site)
      ensures runGoals - {runId} == old(runGoals) - {runId}
    {
      var current := Get(runId);
      if current.Some? {
        var reply := e.gateway(Report(seg, current.value.goal.id, Held(current), delta, site));
        if reply.Answer? {
          ApplyGoalToolResult(runId, SegmentEnd, reply.goal);
        }
      }
    }

    // The goal tool calls the model makes during one segment.
    method HandleTools(runId: string, results: seq<ToolResult>)
      modifies this
      ensures Get(runId) == ApplyTools(old(Get(runId)), results)
      ensures runGoals - {runId} == old(runGoals) - {runId}
    {
      for i := 0 to |results|
        invariant ApplyTools(Get(runId), results[i..]) == ApplyTools(old(Get(runId)), results)
        invariant runGoals - {runId} == old(runGoals) - {runId}
      {
        assert results[i..][0] == results[i] && results[i..][1..] == results[i + 1..];
        ApplyGoalToolResult(runId, results[i].tool, results[i].goal);
      }
    }

    // False when the goal's wall time is spent.
    method Configure(e: Env, runId: string, l: Loop, now: nat, site: Site) returns (r: Loop, ok: bool)
      requires Get(runId) == l.state && l.exit == Running
      modifies this
      ensures r == ConfigureDeadline(e, l, now, site) && ok == (r.exit == Running)
      ensures Get(runId) == r.state && runGoals - {runId} == old(runGoals) - {runId}
    {
      r, ok := l, true;
      var current := l.state;
      if r.deadline.Some? || current.None? || !current.value.bound || current.value.goal.maxWallTime <= 0 {
        return;
      }
      var remaining := (current.value.goal.maxWallTime - current.value.goal.usedWallTime) * SECOND - now;
      if remaining <= 0 {
        ReportGoalBudgetExhausted(e, runId, r.seg, 0, site);
        return r.(state := Get(runId), exit := WallTimeSpent), false;
      }
      r := r.(deadline := Some(now + remaining));
    }

    // runWithGoalLoop, cut after `fuel` rounds; the outcome is Running only
    // when the cut was reached.
    method RunWithGoalLoop(e: Env, runId: string, requested: int, history: bool, fuel: nat) returns (r: Loop)
      modifies this
      ensures r == Rounds(e, Start(e, old(Get(runId)), requested, history), fuel)
      ensures Get(runId) == r.state && runGoals - {runId} == old(runGoals) - {runId}
    {
      hide Step, ConfigureDeadline, GoalRunSegmentLimit;
      var state := Get(runId);
      r := Loop(0, 1, state, requested, None, history, SegmentResult(NoTools, 0, 0, false), 0, 0, Running);
      var ok;
      r, ok := Configure(e, runId, r, e.started, ExhaustedBefore);
      if !ok {
        return;
      }
      if state.Some? && state.value.bound && !state.value.terminal {
        r := r.(maxSeg := GoalRunSegmentLimit(state.value.goal, 0));
      }
      for round := 0 to fuel
        invariant Rounds(e, r, fuel - round) == Rounds(e, Start(e, old(Get(runId)), requested, history), fuel)
        invariant r.exit == Running
        invariant Get(runId) == r.state && runGoals - {runId} == old(runGoals) - {runId}
      {
        r := RunRound(e, runId, r);
        if r.exit != Running {
          return;
        }
      }
    }

    method RunRound(e: Env, runId: string, l: Loop) returns (r: Loop)
      requires Get(runId) == l.state && l.exit == Running
      modifies this
      ensures r == Step(e, l)
      ensures Get(runId) == r.state && runGoals - {runId} == old(runGoals) - {runId}
    {
      r := l;
      if r.seg >= r.maxSeg {
        return r.(exit := LoopDone);
      }
      var ctx := CtxBefore(e, r);
      if ctx != Live {
        if ctx == PastDeadline {
          ReportGoalBudgetExhausted(e, runId, r.seg, r.last.toolTurns, ExhaustedBefore);
          return r.(state := Get(runId), exit := DeadlineBefore);
        }
        return r.(exit := CancelledBefore);
      }
      var state := Get(runId);
      if state.Some? && state.value.goal.maxTurnsPerSegment > 0 {
        r := r.(requested := state.value.goal.maxTurnsPerSegment);
      }
      var last := RunProviderLoopSegment(EffectiveToolTurns(r.requested, e.fromEnv), e.provider(r.seg), r.history);
      HandleTools(runId, e.tools(r.seg, state));
      state := Get(runId);
      if state.Some? && state.value.wasBound && state.value.goal.id != "" && last.toolTurns > 0 {
        ReportSegmentEnd(e, runId, state.value.goal.id, r.seg, last.toolTurns);
        state := Get(runId);
      }
      r := r.(state := state, last := last, turns := r.turns + last.toolTurns, segments := r.segments + 1);
      assert r == RunSegment(e, l);
      r := Decide(e, runId, r);
    }

    // The tests after a segment, in the order of runWithGoalLoop.
    method Decide(e: Env, runId: string, l: Loop) returns (r: Loop)
      requires Get(runId) == l.state && l.exit == Running
      modifies this
      ensures r == Continue(e, l)
      ensures Get(runId) == r.state && runGoals - {runId} == old(runGoals) - {runId}
    {
      r := l;
      var state := l.state;
      if Passed(r.deadline, e.after(r.seg)) && !e.cancelledAfter(r.seg) {
        ReportGoalBudgetExhausted(e, runId, r.seg, r.last.toolTurns, ExhaustedAfter);
        return r.(state := Get(runId), exit := DeadlineAfter);
      }
      var ok;
      r, ok := Configure(e, runId, r, e.after(r.seg), ExhaustedAfter);
      if !ok {
        return;
      }
      if r.last.reason == Cancelled || r.last.reason == Failed || r.last.reason == Budget {
        return r.(exit := SegmentStopped);
      }
      if state.Some? && state.value.terminal {
        return r.(exit := GoalTerminal);
      }
      if state.Some? && state.value.bound {
        var want := GoalRunSegmentLimit(state.value.goal, r.seg + 1);
        if want > r.maxSeg {
          r := r.(maxSeg := want);
        }
      } else {
        return r.(exit := NotBound);
      }
      if state.value.goal.maxTotal > 0 && state.value.goal.used >= state.value.goal.maxTotal {
        return r.(exit := BudgetSpent);
      }
      if r.last.reason != NoTools && r.last.reason != MaxTurns {
        return r.(exit := HardReason);
      }
      if r.seg + 1 >= r.maxSeg {
        return r.(exit := SegmentLimit);
      }
      return r.(seg := r.seg + 1, history := r.last.hasHistory);
    }
  }
}
