// What the pool promises over whole runs: every statement below is about an
// arbitrary interleaving of arbitrarily many acquirers, resizes, resets and
// a close.
module PoolProperties {
  import opened SubAgentPool
  import opened PoolProtocol
  import opened PoolInvariant
  import opened Wrappers

  ghost predicate IsRun(limit: int, states: seq<World>, acts: seq<Action>) {
    && |states| == |acts| + 1
    && states[0] == Init(limit)
    && forall i :: 0 <= i < |acts| ==> Enabled(states[i], acts[i]) && states[i + 1] == Apply(states[i], acts[i])
  }

  lemma {:induction false} RunInvariant(limit: int, states: seq<World>, acts: seq<Action>, i: nat)
    requires IsRun(limit, states, acts) && i < |states|
    ensures Inv(states[i])
  {
    if i == 0 {
      InitInv(limit);
    } else {
      RunInvariant(limit, states, acts, i - 1);
      StepKeepsInv(states[i - 1], acts[i - 1]);
    }
  }

  // ---- conservation and single ownership -------------------------------------

  lemma RunConserves(limit: int, states: seq<World>, acts: seq<Action>, i: nat)
    requires IsRun(limit, states, acts) && i < |states|
    ensures states[i].pool.active == |states[i].pool.idle| + |Slots(states[i])|
    ensures 0 <= states[i].pool.active <= MAX_SUBAGENT_POOL_SIZE
    ensures states[i].pool.idle != [] ==> states[i].pool.active <= states[i].pool.limit
  {
    RunInvariant(limit, states, acts, i);
  }

  lemma ClosedIsGone(w: World)
    requires Inv(w)
    ensures NoDup(w.closes)
    ensures forall c :: c in w.closes ==> c !in w.pool.idle && !HeldSomewhere(w, c)
  {
    forall c | c in w.closes ensures c !in w.pool.idle && !HeldSomewhere(w, c) {
      forall a | a in w.phase ensures ChildAt(w, a) != Some(c) {
        assert ChildAt(w, a).Some? ==> LiveElsewhere(w, ChildAt(w, a).value);
      }
    }
  }

  // A child handed to Close is never handed to it again, and is from then on
  // neither idle nor with any acquirer.
  lemma {:induction false} ClosedOnceForGood(limit: int, states: seq<World>, acts: seq<Action>, i: nat, j: nat)
    requires IsRun(limit, states, acts) && i <= j < |states|
    ensures states[i].closes <= states[j].closes && NoDup(states[j].closes)
    ensures forall c :: c in states[i].closes ==> c !in states[j].pool.idle && !HeldSomewhere(states[j], c)
    decreases j
  {
    assert i < j ==> states[j - 1].closes <= Apply(states[j - 1], acts[j - 1]).closes;
    hide Inv;
    RunInvariant(limit, states, acts, j);
    ClosedIsGone(states[j]);
    if i < j {
      ClosedOnceForGood(limit, states, acts, i, j - 1);
      assert states[j] == Apply(states[j - 1], acts[j - 1]);
    }
  }

  // ---- order of service --------------------------------------------------------

  lemma {:induction false} SurvivorsOrder(s: seq<Waiter>, gone: set<Waiter>, i: nat, j: nat) returns (m: nat, n: nat)
    requires i < j < |s| && s[i] !in gone && s[j] !in gone
    ensures m < n < |Survivors(s, gone)|
    ensures Survivors(s, gone)[m] == s[i] && Survivors(s, gone)[n] == s[j]
  {
    var front := s[..|s| - 1];
    if j < |front| {
      m, n := SurvivorsOrder(front, gone, i, j);
    } else {
      m := SurvivorAt(front, gone, i);
      n := |Survivors(front, gone)|;
    }
  }

  lemma {:induction false} SurvivorAt(s: seq<Waiter>, gone: set<Waiter>, i: nat) returns (m: nat)
    requires i < |s| && s[i] !in gone
    ensures m < |Survivors(s, gone)| && Survivors(s, gone)[m] == s[i]
  {
    var front := s[..|s| - 1];
    if i < |front| {
      m := SurvivorAt(front, gone, i);
    } else {
      m := |Survivors(front, gone)|;
    }
  }

  // Of two waiters that were not cancelled out of the queue, the later arrival
  // is never served unless the earlier one was served before it.
  lemma ServedInArrivalOrder(limit: int, states: seq<World>, acts: seq<Action>, k: nat, i: nat, j: nat)
    returns (m: nat, n: nat)
    requires IsRun(limit, states, acts) && k < |states|
    requires i < j < |states[k].arrivals|
    requires states[k].arrivals[i] !in states[k].removed && states[k].arrivals[j] !in states[k].removed
    requires states[k].arrivals[j] in states[k].pool.sent
    ensures m < n < |states[k].pool.sent|
    ensures states[k].pool.sent[m] == states[k].arrivals[i]
    ensures states[k].pool.sent[n] == states[k].arrivals[j]
  {
    var w := states[k];
    RunInvariant(limit, states, acts, k);
    m, n := SurvivorsOrder(w.arrivals, w.removed, i, j);
    SurvivorsIn(w.arrivals, w.removed);
    var both := w.pool.sent + w.pool.waiters;
    var x :| 0 <= x < |w.pool.sent| && w.pool.sent[x] == w.arrivals[j];
    assert both[x] == both[n];
    assert x == n;
  }

  // Every waiter is in exactly one of three situations: cancelled out of the
  // queue and never granted anything, still queued with an empty channel, or
  // granted exactly once.
  lemma OneGrantOrCancelled(limit: int, states: seq<World>, acts: seq<Action>, k: nat, a: Waiter)
    requires IsRun(limit, states, acts) && k < |states| && a in states[k].arrivals
    ensures var w := states[k];
      && NoDup(w.pool.sent)
      && (a in w.removed ==> a !in w.pool.sent && a !in w.pool.waiters)
      && (a in w.pool.waiters ==> a !in w.pool.sent && Buffered(w.pool, a) == [])
      && (a !in w.removed && a !in w.pool.waiters ==> a in w.pool.sent)
  {
    var w := states[k];
    RunInvariant(limit, states, acts, k);
    SurvivorsIn(w.arrivals, w.removed);
    var both := w.pool.sent + w.pool.waiters;
    assert a in both <==> a !in w.removed;
    assert forall x :: 0 <= x < |w.pool.sent| ==> both[x] == w.pool.sent[x];
    assert forall x :: 0 <= x < |w.pool.waiters| ==> both[|w.pool.sent| + x] == w.pool.waiters[x];
    if a in w.pool.waiters {
      assert ChannelFits(w, a);
    }
  }

  // A cancelled acquirer that was granted at the same moment finds its grant
  // in its channel (the receive cannot block) ...
  lemma LateCancelFindsGrant(limit: int, states: seq<World>, acts: seq<Action>, k: nat, a: Waiter)
    requires IsRun(limit, states, acts) && k < |states| && InPhase(states[k], a, Draining)
    ensures Enabled(states[k], Drain(a))
    ensures var w := Apply(states[k], Drain(a));
      a in w.phase && HasSlot(w, a) == HasSlot(states[k], a) == w.phase[a].Discarding?
  {
    RunInvariant(limit, states, acts, k);
    assert ChannelFits(states[k], a);
  }

  // ... and discardGrant leaves it with nothing, its slot given back or handed on.
  lemma DiscardLeavesNothing(w: World, a: Waiter)
    requires Inv(w) && a in w.phase && w.phase[a].Discarding?
    ensures var w' := Apply(w, Discard(a));
      && Inv(w') && a in w'.phase && !HasSlot(w', a) && ChildAt(w', a) == None
  {
    StepKeepsInv(w, Discard(a));
    assert Apply(w, Discard(a)).phase == w.phase[a := Finished];
  }

  // ---- releasing, resizing and resetting ------------------------------------------

  lemma InvIsReady(w: World)
    requires Inv(w)
    ensures Ready(w.pool)
  {
    forall a | a in w.pool.waiters ensures Buffered(w.pool, a) == [] { assert ChannelFits(w, a); }
  }

  // A healthy child that comes back to an open pool within its limit is not
  // closed: it is idle, or with the first waiter. Every other child that comes
  // back is closed.
  ghost predicate ComesBack(w: World, w': World, c: Child, reusable: bool) {
    if reusable && HasRoomFor(w.pool) then
      && w'.closes == w.closes && c !in w'.closes
      && (w.pool.waiters == [] ==> w'.pool == w.pool.(idle := w.pool.idle + [c]))
      && (w.pool.waiters != [] ==> w.pool.waiters[0] in w'.phase && ChildAt(w', w.pool.waiters[0]) == Some(c))
    else
      && w'.closes == w.closes + [c]
      && (w.pool.waiters == [] ==> w'.pool == w.pool.(active := w.pool.active - 1))
  }

  lemma ReleaseComesBack(w: World, a: Waiter, c: Child, ph: Phase, reusable: bool)
    requires Inv(w) && GivesChild(w, a, c, ph)
    ensures ComesBack(w, Dropping(Move(w, a, ph, w.pool), Release(w.pool, c, reusable)), c, reusable)
  {
    assert ChildAt(w, a) == Some(c) && LiveElsewhere(w, c);
    InvIsReady(w);
    ReleaseExactly(w.pool, c, reusable);
    assert w.closes + [] == w.closes;
    if w.pool.waiters != [] {
      var head := w.pool.waiters[0];
      assert head in w.phase && ChannelFits(w, head) && ChannelFits(w, a);
    }
  }

  lemma ReleasedChild(limit: int, states: seq<World>, acts: seq<Action>, k: nat, a: Waiter, reusable: bool)
    requires IsRun(limit, states, acts) && k < |acts| && acts[k] == ReleaseChild(a, reusable)
    ensures a in states[k].phase && states[k].phase[a].Holding? && InPhase(states[k + 1], a, Released)
    ensures ComesBack(states[k], states[k + 1], states[k].phase[a].child, reusable)
  {
    assert Enabled(states[k], acts[k]);
    RunInvariant(limit, states, acts, k);
    ReleaseComesBack(states[k], a, states[k].phase[a].child, Released, reusable);
  }

  // A child granted to a waiter that had given up comes back as a healthy one.
  lemma DiscardedChild(limit: int, states: seq<World>, acts: seq<Action>, k: nat, a: Waiter, c: Child)
    requires IsRun(limit, states, acts) && k < |acts| && acts[k] == Discard(a)
    requires InPhase(states[k], a, Discarding(GrantChild(c)))
    ensures InPhase(states[k + 1], a, Finished) && ComesBack(states[k], states[k + 1], c, true)
  {
    RunInvariant(limit, states, acts, k);
    ReleaseComesBack(states[k], a, c, Finished, true);
  }

  // Who holds a child got it from the factory, or pinged it with success.
  lemma {:induction false} HeldAfterCheck(limit: int, states: seq<World>, acts: seq<Action>, i: nat, a: Waiter, c: Child)
    returns (t: nat)
    requires IsRun(limit, states, acts) && i < |states| && InPhase(states[i], a, Holding(c))
    ensures t < i && (acts[t] == FactoryOk(a, c) || (acts[t] == PingOk(a) && InPhase(states[t], a, Pinging(c))))
  {
    assert states[0] == Init(limit);
    hide Cancel, Enqueue, Release, SetLimit, Reset, Close, ReplaceUnhealthy, GiveBack, TakeGrant;
    assert Enabled(states[i - 1], acts[i - 1]) && states[i] == Apply(states[i - 1], acts[i - 1]);
    t := i - 1;
    if InPhase(states[i - 1], a, Holding(c)) {
      t := HeldAfterCheck(limit, states, acts, i - 1, a, c);
    }
  }

  // The slot of an unhealthy child is kept for a new one exactly when the pool is
  // open and below its limit without it.
  lemma ReplacedExactly(limit: int, states: seq<World>, acts: seq<Action>, k: nat, a: Waiter)
    requires IsRun(limit, states, acts) && k < |acts| && acts[k] == Replace(a)
    ensures var w, w', p := states[k], states[k + 1], states[k].pool;
      if !p.closed && p.active - 1 < p.limit then w' == w.(phase := w.phase[a := Starting])
      else
        && InPhase(w', a, Finished) && w'.closes == w.closes
        && (p.waiters == [] ==> w'.pool == p.(active := p.active - 1))
  {
    RunInvariant(limit, states, acts, k);
    DispatchIsNoop(states[k].pool);
  }

  // A cancelled acquirer leaves at once if nothing was granted to it, and
  // otherwise stays to receive its grant.
  lemma CancelledExactly(limit: int, states: seq<World>, acts: seq<Action>, k: nat, a: Waiter)
    requires IsRun(limit, states, acts) && k < |acts| && acts[k] == CtxDone(a)
    ensures InPhase(states[k + 1], a, if Buffered(states[k].pool, a) == [] then Finished else Draining)
  {
    RunInvariant(limit, states, acts, k);
    assert ChannelFits(states[k], a);
  }

  // How many idle children a new limit costs.
  function Excess(p: Pool, limit: int): int {
    if p.active > limit then Min(|p.idle|, p.active - limit) else 0
  }

  // How many waiters a new limit serves at once.
  function Admitted(p: Pool, limit: int): int {
    if p.active < limit then Min(|p.waiters|, limit - p.active) else 0
  }

  lemma {:induction false} TrimCount(p: Pool)
    requires |p.idle| <= p.active
    ensures |Trim(p).dropped| == Excess(p, p.limit)
    decreases |p.idle|
  {
    if p.idle != [] && p.active > p.limit {
      TrimCount(p.(idle := p.idle[..|p.idle| - 1], active := p.active - 1));
    }
  }

  // The last `x` idle children, the most recently released first.
  function Newest(idle: seq<Child>, x: int): seq<Child>
    requires 0 <= x <= |idle|
  {
    seq(x, j requires 0 <= j < x => idle[|idle| - 1 - j])
  }

  lemma TrimExactly(p: Pool)
    requires |p.idle| <= p.active
    ensures var x := Excess(p, p.limit);
      Trim(p) == Outcome(p.(idle := p.idle[..|p.idle| - x], active := p.active - x), Newest(p.idle, x))
  {
    hide Trim;
    TrimCount(p);
    TrimClosedForm(p);
    assert Trim(p).dropped == Newest(p.idle, Excess(p, p.limit));
  }

  lemma AdmitExactly(p: Pool)
    requires Ready(p) && !p.closed && (p.waiters != [] ==> p.idle == [])
    ensures var y, q := Admitted(p, p.limit), Dispatch(p);
      && q.waiters == p.waiters[y..] && q.sent == p.sent + p.waiters[..y]
      && q.active == p.active + y && q.idle == p.idle && q.limit == p.limit && !q.closed
  {
    DispatchOpenClosedForm(p);
    assert p.idle[..|p.idle|] == p.idle;
  }

  // A resize sets the clamped limit, closes as many idle children as the pool is
  // over it, most recently released first, and admits as many waiters as it is
  // under it.
  lemma ResizeExactly(limit: int, states: seq<World>, acts: seq<Action>, k: nat, size: int)
    requires IsRun(limit, states, acts) && k < |acts| && acts[k] == Resize(size)
    ensures var p, q, n := states[k].pool, states[k + 1].pool, ClampLimit(size);
      var x, y := Excess(p, n), Admitted(p, n);
      && q.limit == n && q.closed == p.closed
      && q.idle == p.idle[..|p.idle| - x]
      && q.waiters == p.waiters[y..] && q.sent == p.sent + p.waiters[..y]
      && q.active == p.active - x + y
      && states[k + 1].closes == states[k].closes + Newest(p.idle, x)
  {
    var w, p := states[k], states[k].pool.(limit := ClampLimit(size));
    RunInvariant(limit, states, acts, k);
    InvIsReady(w);
    assert states[k + 1] == Dropping(w, SetLimit(w.pool, size));
    assert |p.idle| <= p.active && Ready(p);
    assert p.waiters != [] ==> p.idle == [] && !p.closed;
    hide Inv, IsRun, Trim, Ready, Dispatch, Newest;
    TrimExactly(p);
    var t := Trim(p).pool;
    if p.waiters == [] {
      NobodyWaits(t);
    } else {
      assert t.idle == p.idle && t == p.(idle := t.idle, active := p.active) == p;
      AdmitExactly(p);
    }
  }

  lemma NobodyWaits(p: Pool)
    requires p.waiters == []
    ensures Dispatch(p) == p
  {
  }

  // A reset closes every idle child and gives back their slots, and has no other effect.
  lemma ResetExactly(limit: int, states: seq<World>, acts: seq<Action>, k: nat)
    requires IsRun(limit, states, acts) && k < |acts| && acts[k] == ResetPool
    ensures var w := states[k];
      states[k + 1] == w.(pool := w.pool.(idle := [], active := w.pool.active - |w.pool.idle|),
                          closes := w.closes + w.pool.idle)
  {
    RunInvariant(limit, states, acts, k);
    DispatchIsNoop(EmptyIdle(states[k].pool));
  }

  // ---- work conservation --------------------------------------------------------

  // When the lock is free, waiters wait only for a slot someone else accounts for.
  lemma WaitersHaveSomeoneToWaitFor(limit: int, states: seq<World>, acts: seq<Action>, k: nat)
    requires IsRun(limit, states, acts) && k < |states| && states[k].pool.waiters != []
    ensures var w := states[k];
      !w.pool.closed && w.pool.idle == [] && |Slots(w)| == w.pool.active >= w.pool.limit >= 1
  {
    RunInvariant(limit, states, acts, k);
  }

  // The dispatch after a cancellation never grants anything.
  lemma CancelOnlyRemoves(w: World, a: Waiter)
    requires Inv(w) && a in w.pool.waiters
    ensures Cancel(w.pool, a) == w.pool.(waiters := Without(w.pool.waiters, a))
  {
    DispatchIsNoop(w.pool.(waiters := Without(w.pool.waiters, a)));
  }

  // SetLimit's loop without the test on the number of idle children.
  function TrimByActive(p: Pool): Outcome
    decreases |p.idle|
  {
    if p.idle != [] && p.active > p.limit then
      var last := |p.idle| - 1;
      var rest := TrimByActive(p.(idle := p.idle[..last], active := p.active - 1));
      Outcome(rest.pool, [p.idle[last]] + rest.dropped)
    else
      Outcome(p, [])
  }

  lemma {:induction false} IdleTestIsDead(p: Pool)
    requires |p.idle| <= p.active
    ensures TrimByActive(p) == Trim(p)
    decreases |p.idle|
  {
    if p.idle != [] && p.active > p.limit {
      IdleTestIsDead(p.(idle := p.idle[..|p.idle| - 1], active := p.active - 1));
    }
  }

  lemma RunIdleTestIsDead(limit: int, states: seq<World>, acts: seq<Action>, k: nat, size: int)
    requires IsRun(limit, states, acts) && k < |states|
    ensures var p := states[k].pool.(limit := ClampLimit(size)); TrimByActive(p) == Trim(p)
  {
    RunInvariant(limit, states, acts, k);
    IdleTestIsDead(states[k].pool.(limit := ClampLimit(size)));
  }

  // ---- capacity -------------------------------------------------------------------

  lemma {:induction false} DispatchActive(p: Pool)
    ensures var q := Dispatch(p);
      && q.limit == p.limit && q.closed == p.closed
      && p.active <= q.active
      && (q.active > p.active ==> q.active <= p.limit)
      && (p.closed ==> q.active == p.active && q.idle == p.idle)
    decreases |p.waiters|
  {
    if Grantable(p) {
      DispatchActive(GrantNext(p));
    }
  }

  // Being over the limit only ever comes from a shrink, and while it lasts the
  // count does not grow.
  lemma OverLimitOnlyByShrinking(w: World, act: Action)
    requires Inv(w) && Enabled(w, act)
    ensures var p, q := w.pool, Apply(w, act).pool;
      && (q.active > q.limit ==> q.active <= p.active)
      && (p.active <= p.limit && q.active > q.limit ==> act.Resize? && q.limit < p.limit)
      && (!act.Resize? ==> q.limit == p.limit)
      && (p.closed ==> q.closed && q.active <= p.active)
  {
    hide Dispatch, Trim, Core;
    var p := w.pool;
    match act
    case Arrive(a) => DispatchActive(p.(waiters := p.waiters + [a], chan := p.chan[a := []]));
    case CtxDone(a) => if a in p.waiters { CancelOnlyRemoves(w, a); }
    case Discard(a) => ReleaseActive(p, if w.phase[a].grant.GrantChild? then w.phase[a].grant.child else 0, true);
    case Replace(a) =>
      DispatchActive(p);
      DispatchActive(p.(active := p.active - 1));
    case ReturnSlot(a) => DispatchActive(p.(active := p.active - 1));
    case ReleaseChild(a, reusable) => ReleaseActive(p, w.phase[a].child, reusable);
    case Resize(size) =>
      TrimClosedForm(p.(limit := ClampLimit(size)));
      DispatchActive(Trim(p.(limit := ClampLimit(size))).pool);
    case ResetPool => DispatchActive(EmptyIdle(p));
    case ClosePool => DispatchActive(EmptyIdle(p).(closed := true));
    case _ =>
  }

  lemma ReleaseActive(p: Pool, c: Child, reusable: bool)
    ensures var q := Release(p, c, reusable).pool;
      && q.limit == p.limit && q.closed == p.closed
      && (q.active > p.active ==> q.active <= q.limit)
      && (p.closed ==> q.active == p.active - 1)
    ensures var q := GiveBack(p);
      && q.limit == p.limit && q.closed == p.closed
      && (q.active > p.active ==> q.active <= q.limit)
      && (q.active > q.limit ==> q.active == p.active - 1)
      && (p.closed ==> q.active == p.active - 1)
  {
    DispatchActive(p.(idle := p.idle + [c]));
    DispatchActive(p.(active := p.active - 1));
  }

  // ---- replacement of unhealthy children --------------------------------------------

  predicate NoChildGrant(p: Pool, a: Waiter) {
    forall g :: g in Buffered(p, a) ==> !g.GrantChild?
  }

  lemma {:induction false} ChildGrantsAreWithinLimit(p: Pool, a: Waiter)
    requires NoChildGrant(p, a) && !NoChildGrant(Dispatch(p), a)
    ensures Dispatch(p).active <= p.limit
    decreases |p.waiters|
  {
    if Grantable(p) {
      var p' := GrantNext(p);
      if NoChildGrant(p', a) {
        ChildGrantsAreWithinLimit(p', a);
      } else {
        DispatchActive(p');
      }
    }
  }

  // In the state right after a child was granted, the pool is within its limit.
  lemma GrantStepWithinLimit(w: World, act: Action, a: Waiter)
    requires Inv(w) && Enabled(w, act)
    requires NoChildGrant(w.pool, a) && !NoChildGrant(Apply(w, act).pool, a)
    ensures Apply(w, act).pool.active <= Apply(w, act).pool.limit
  {
    hide Trim, Core;
    var p := w.pool;
    OverLimitOnlyByShrinking(w, act);
    match act
    case Arrive(b) => ChildGrantsAreWithinLimit(p.(waiters := p.waiters + [b], chan := p.chan[b := []]), a);
    case CtxDone(b) => if b in p.waiters { CancelOnlyRemoves(w, b); }
    case Discard(b) =>
      var c := if w.phase[b].grant.GrantChild? then w.phase[b].grant.child else 0;
      ReleaseGrantWithinLimit(p, c, true, a);
    case Replace(b) => DispatchIsNoop(p); ReleaseGrantWithinLimit(p, 0, false, a);
    case ReturnSlot(b) => ReleaseGrantWithinLimit(p, 0, false, a);
    case ReleaseChild(b, reusable) => ReleaseGrantWithinLimit(p, w.phase[b].child, reusable, a);
    case Resize(size) =>
      TrimClosedForm(p.(limit := ClampLimit(size)));
      DispatchActive(Trim(p.(limit := ClampLimit(size))).pool);
      ChildGrantsAreWithinLimit(Trim(p.(limit := ClampLimit(size))).pool, a);
    case ResetPool => ChildGrantsAreWithinLimit(EmptyIdle(p), a);
    case ClosePool => if !p.closed { ChildGrantsAreWithinLimit(EmptyIdle(p).(closed := true), a); }
    case Receive(b) =>
    case Drain(b) =>
    case _ =>
  }

  lemma ReleaseGrantWithinLimit(p: Pool, c: Child, reusable: bool, a: Waiter)
    requires NoChildGrant(p, a)
    ensures !NoChildGrant(Release(p, c, reusable).pool, a) ==> Release(p, c, reusable).pool.active <= p.limit
    ensures !NoChildGrant(GiveBack(p), a) ==> GiveBack(p).active <= p.limit
    ensures Release(p, c, reusable).pool.limit == p.limit == GiveBack(p).limit
  {
    var q, r := p.(idle := p.idle + [c]), p.(active := p.active - 1);
    DispatchActive(q);
    DispatchActive(r);
    if !NoChildGrant(Dispatch(q), a) { ChildGrantsAreWithinLimit(q, a); }
    if !NoChildGrant(Dispatch(r), a) { ChildGrantsAreWithinLimit(r, a); }
  }

  lemma {:induction false} StaysWithinLimit(limit: int, states: seq<World>, acts: seq<Action>, i: nat, j: nat)
    requires IsRun(limit, states, acts) && i <= j < |states|
    requires states[i].pool.active <= states[i].pool.limit
    requires forall k :: i <= k < j ==> states[k].pool.limit <= states[k + 1].pool.limit
    ensures states[j].pool.active <= states[j].pool.limit
    decreases j
  {
    if i < j {
      StaysWithinLimit(limit, states, acts, i, j - 1);
      RunInvariant(limit, states, acts, j - 1);
      OverLimitOnlyByShrinking(states[j - 1], acts[j - 1]);
      assert states[j] == Apply(states[j - 1], acts[j - 1]);
      assert states[j - 1].pool.limit <= states[(j - 1) + 1].pool.limit;
    }
  }

  // A child granted by step i whose ping failed is replaced in its slot at
  // state j, unless the pool was closed or shrunk in between.
  lemma UnhealthyIsReplaced(limit: int, states: seq<World>, acts: seq<Action>, i: nat, j: nat, a: Waiter)
    requires IsRun(limit, states, acts) && i < j < |states|
    requires NoChildGrant(states[i].pool, a) && !NoChildGrant(states[i + 1].pool, a)
    requires Enabled(states[j], Replace(a))
    requires forall k :: i + 1 <= k < j ==> states[k].pool.limit <= states[k + 1].pool.limit
    requires !states[j].pool.closed
    ensures CanReplace(states[j].pool)
    ensures Apply(states[j], Replace(a)) == Move(states[j], a, Starting, states[j].pool)
  {
    RunInvariant(limit, states, acts, i);
    GrantStepWithinLimit(states[i], acts[i], a);
    assert states[i + 1] == Apply(states[i], acts[i]);
    StaysWithinLimit(limit, states, acts, i + 1, j);
    RunInvariant(limit, states, acts, j);
    DispatchIsNoop(states[j].pool);
  }

  // ---- after Close --------------------------------------------------------------------

  lemma ClosedStep(limit: int, states: seq<World>, acts: seq<Action>, k: nat)
    requires IsRun(limit, states, acts) && k < |acts| && states[k].pool.closed
    ensures states[k + 1].pool.closed && states[k + 1].pool.active <= states[k].pool.active
  {
    RunInvariant(limit, states, acts, k);
    OverLimitOnlyByShrinking(states[k], acts[k]);
  }

  lemma {:induction false} ClosedPersists(limit: int, states: seq<World>, acts: seq<Action>, i: nat, j: nat)
    requires IsRun(limit, states, acts) && i <= j < |states| && states[i].pool.closed
    ensures states[j].pool.closed && states[j].pool.active <= states[i].pool.active
    decreases j
  {
    if i < j {
      ClosedPersists(limit, states, acts, i, j - 1);
      ClosedStep(limit, states, acts, j - 1);
    }
  }

  // From a closed state on: no child is idle, nobody is queued, and the count
  // of slots outside the lock only falls.
  lemma AfterClose(limit: int, states: seq<World>, acts: seq<Action>, i: nat, j: nat)
    requires IsRun(limit, states, acts) && i <= j < |states| && states[i].pool.closed
    ensures var w := states[j];
      && w.pool.closed && w.pool.idle == [] && w.pool.waiters == []
      && w.pool.active == |Slots(w)| <= states[i].pool.active
  {
    ClosedPersists(limit, states, acts, i, j);
    RunInvariant(limit, states, acts, j);
  }

  // Once every acquirer of a closed pool has finished or released its child,
  // the pool counts no child and every child ever created was closed.
  lemma ClosedPoolDrains(limit: int, states: seq<World>, acts: seq<Action>, j: nat)
    requires IsRun(limit, states, acts) && j < |states| && states[j].pool.closed
    requires forall a :: a in states[j].phase ==> states[j].phase[a] in {Released, Finished}
    ensures states[j].pool.active == 0
    ensures forall c :: c in states[j].born <==> c in states[j].closes
  {
    AfterClose(limit, states, acts, j, j);
    RunInvariant(limit, states, acts, j);
    assert Slots(states[j]) == {};
    assert forall c :: !HeldSomewhere(states[j], c);
  }
}
