// One provider/tool segment (runProviderLoopSegment in
// modules/agent/internal/runtime/runtime.go). The provider and the tools are
// an arbitrary environment, answering one question per turn.
module ProviderSegment {

  const DEFAULT_PROVIDER_TOOL_TURNS := 12
  const MAX_PROVIDER_TOOL_TURNS := 48

  // The turn budget of a reply: the request's own value, else the value of
  // RED_PANDA_MAX_TOOL_TURNS if it is a positive number, else the default.
  function EffectiveToolTurns(requested: int, fromEnv: int): (r: int)
    ensures 1 <= r <= MAX_PROVIDER_TOOL_TURNS
    ensures 1 <= requested <= MAX_PROVIDER_TOOL_TURNS ==> r == requested
    ensures requested <= 0 && 1 <= fromEnv <= MAX_PROVIDER_TOOL_TURNS ==> r == fromEnv
    ensures requested <= 0 && fromEnv <= 0 ==> r == 12
    ensures requested > MAX_PROVIDER_TOOL_TURNS || (requested <= 0 && fromEnv > MAX_PROVIDER_TOOL_TURNS) ==> r == 48
  {
    if requested > 0 then Cap(requested)
    else if fromEnv > 0 then Cap(fromEnv)
    else DEFAULT_PROVIDER_TOOL_TURNS
  }

  function Cap(n: int): int {
    if n > MAX_PROVIDER_TOOL_TURNS then MAX_PROVIDER_TOOL_TURNS else n
  }

  datatype Reason = NoTools | MaxTurns | Cancelled | Failed | Budget

  // A segment boundary at which a goal may go on with another segment.
  predicate IsSoft(r: Reason) { r == NoTools || r == MaxTurns }

  datatype Turn =
    | PermitDenied
    | ProviderError(ctxDone: bool)
    | ContextDone                                 // the provider answered, too late
    | NoCalls(emittedText: bool, retried: bool)   // `retried`: the retry reached the provider
    | Calls(exchanges: nat, cancelled: bool)

  datatype SegmentResult = SegmentResult(reason: Reason, toolTurns: nat, providerCalls: nat, hasHistory: bool)

  // The environment of one segment.
  datatype Provider = Provider(turn: nat -> Turn, finalRetry: bool)

  // The rest of a segment from `turn` on; `rounds` says whether any tool round
  // is in the history, `calls` counts the requests to the provider so far.
  function RunFrom(maxTurns: int, p: Provider, turn: nat, rounds: bool, calls: nat): SegmentResult
    decreases maxTurns - turn
  {
    if turn >= maxTurns then
      if rounds then SegmentResult(MaxTurns, turn, calls + (if p.finalRetry then 1 else 0), rounds)
      else SegmentResult(Failed, turn, calls, rounds)
    else
      match p.turn(turn)
      case PermitDenied => SegmentResult(Failed, turn, calls, rounds)
      case ProviderError(ctxDone) =>
        SegmentResult(if ctxDone then Cancelled else Failed, turn + 1, calls + 1, rounds)
      case ContextDone => SegmentResult(Cancelled, turn + 1, calls + 1, rounds)
      case NoCalls(emittedText, retried) =>
        SegmentResult(NoTools, turn + 1, calls + 1 + (if !emittedText && rounds && retried then 1 else 0), rounds)
      case Calls(exchanges, cancelled) =>
        var rounds' := rounds || exchanges > 0;
        if cancelled then SegmentResult(Cancelled, turn + 1, calls + 1, rounds')
        else RunFrom(maxTurns, p, turn + 1, rounds', calls + 1)
  }

  function Run(maxTurns: int, p: Provider, history: bool): SegmentResult {
    RunFrom(maxTurns, p, 0, history, 0)
  }

  method RunProviderLoopSegment(maxTurns: int, p: Provider, history: bool) returns (r: SegmentResult)
    ensures r == Run(maxTurns, p, history)
  {
    var rounds, turnsUsed, calls := history, 0, 0;
    var turn: nat := 0;
    while turn < maxTurns
      invariant turnsUsed == turn
      invariant RunFrom(maxTurns, p, turn, rounds, calls) == Run(maxTurns, p, history)
    {
      var step := p.turn(turn);
      if step.PermitDenied? {
        return SegmentResult(Failed, turnsUsed, calls, rounds);
      }
      calls := calls + 1;
      turnsUsed := turnsUsed + 1;
      if step.ProviderError? {
        return SegmentResult(if step.ctxDone then Cancelled else Failed, turnsUsed, calls, rounds);
      }
      if step.ContextDone? {
        return SegmentResult(Cancelled, turnsUsed, calls, rounds);
      }
      if step.NoCalls? {
        if !step.emittedText && rounds && step.retried {
          calls := calls + 1;
        }
        return SegmentResult(NoTools, turnsUsed, calls, rounds);
      }
      if step.exchanges > 0 {
        rounds := true;
      }
      if step.cancelled {
        return SegmentResult(Cancelled, turnsUsed, calls, rounds);
      }
      turn := turn + 1;
    }
    if rounds {
      if p.finalRetry {
        calls := calls + 1;
      }
      return SegmentResult(MaxTurns, turnsUsed, calls, rounds);
    }
    r := SegmentResult(Failed, turnsUsed, calls, rounds);
  }

  // Whatever the provider does, a segment stays within its turn budget, asks
  // the provider at most once more than it counts, and a soft boundary has
  // used at least one turn.
  lemma {:induction false} RunFromBounds(maxTurns: int, p: Provider, turn: nat, rounds: bool, calls: nat)
    requires turn <= maxTurns && calls == turn
    ensures var r := RunFrom(maxTurns, p, turn, rounds, calls);
      && turn <= r.toolTurns <= maxTurns
      && r.toolTurns <= r.providerCalls <= r.toolTurns + 1
      && (IsSoft(r.reason) && maxTurns > 0 ==> r.toolTurns >= 1)
      && (r.reason == NoTools ==> r.toolTurns > turn)
      && (r.reason == MaxTurns ==> r.toolTurns == maxTurns && r.hasHistory)
      && r.reason != Budget
    decreases maxTurns - turn
  {
    if turn < maxTurns && p.turn(turn).Calls? && !p.turn(turn).cancelled {
      RunFromBounds(maxTurns, p, turn + 1, rounds || p.turn(turn).exchanges > 0, calls + 1);
    }
  }

  lemma SegmentBounds(requested: int, fromEnv: int, p: Provider, history: bool)
    ensures var r := Run(EffectiveToolTurns(requested, fromEnv), p, history);
      && r.toolTurns <= EffectiveToolTurns(requested, fromEnv) <= MAX_PROVIDER_TOOL_TURNS
      && r.providerCalls <= EffectiveToolTurns(requested, fromEnv) + 1
      && (IsSoft(r.reason) ==> r.toolTurns >= 1)
      && r.reason != Budget
  {
    RunFromBounds(EffectiveToolTurns(requested, fromEnv), p, 0, history, 0);
  }

  // ---- which turn ends a segment ---------------------------------------------------------

  // A turn after which the segment goes on.
  predicate GoesOn(t: Turn) { t.Calls? && !t.cancelled }

  // The first turn that ends the segment, or the turn limit.
  ghost predicate EndsAt(maxTurns: nat, p: Provider, n: nat) {
    && n <= maxTurns && (n < maxTurns ==> !GoesOn(p.turn(n)))
    && forall k: nat :: k < n ==> GoesOn(p.turn(k))
  }

  // Whether the history has a tool round after turn `n`.
  ghost predicate HasRound(maxTurns: nat, p: Provider, history: bool, n: nat) {
    history || exists k: nat :: k <= n && k < maxTurns && p.turn(k).Calls? && p.turn(k).exchanges > 0
  }

  // What a segment comes to that ends at turn `n`.
  function Ending(maxTurns: nat, p: Provider, n: nat, rounds: bool): SegmentResult
    requires n <= maxTurns
  {
    if n == maxTurns then
      if rounds then SegmentResult(MaxTurns, n, n + (if p.finalRetry then 1 else 0), true)
      else SegmentResult(Failed, n, n, false)
    else
      match p.turn(n)
      case PermitDenied => SegmentResult(Failed, n, n, rounds)
      case ProviderError(ctxDone) => SegmentResult(if ctxDone then Cancelled else Failed, n + 1, n + 1, rounds)
      case ContextDone => SegmentResult(Cancelled, n + 1, n + 1, rounds)
      case NoCalls(emitted, retried) =>
        SegmentResult(NoTools, n + 1, n + (if !emitted && rounds && retried then 2 else 1), rounds)
      case Calls(_, _) => SegmentResult(Cancelled, n + 1, n + 1, rounds)
  }

  lemma {:induction false} RunFromEnds(maxTurns: nat, p: Provider, turn: nat, history: bool, rounds: bool, n: nat)
    requires EndsAt(maxTurns, p, n) && turn <= n
    requires rounds <==> history || exists k: nat :: k < turn && p.turn(k).exchanges > 0
    ensures RunFrom(maxTurns, p, turn, rounds, turn) == Ending(maxTurns, p, n, HasRound(maxTurns, p, history, n))
    decreases n - turn
  {
    assert forall k: nat :: k < turn ==> p.turn(k).Calls?;
    if turn < n {
      RunFromEnds(maxTurns, p, turn + 1, history, rounds || p.turn(turn).exchanges > 0, n);
    } else if n < maxTurns {
      assert HasRound(maxTurns, p, history, n) <==> rounds || (p.turn(n).Calls? && p.turn(n).exchanges > 0);
    } else {
      assert HasRound(maxTurns, p, history, n) <==> rounds;
    }
  }

  // A segment is decided by its first turn that ends it: turns, requests and
  // reason follow from that turn, and the history from the rounds before it.
  lemma SegmentClosedForm(maxTurns: nat, p: Provider, history: bool, n: nat)
    requires EndsAt(maxTurns, p, n)
    ensures Run(maxTurns, p, history) == Ending(maxTurns, p, n, HasRound(maxTurns, p, history, n))
  {
    RunFromEnds(maxTurns, p, 0, history, history, n);
  }
}
