// Every step of the pool protocol keeps the invariant of PoolProtocol.
module PoolInvariant {
  import opened SubAgentPool
  import opened PoolProtocol
  import opened Wrappers

  // `w'` differs from `w` only in what acquirer `a` does and has.
  ghost predicate OnlyAt(w: World, w': World, a: Waiter) {
    && a in w'.phase
    && (forall b :: b != a ==> (b in w'.phase <==> b in w.phase))
    && (forall b :: b != a && b in w.phase ==>
          HasSlot(w', b) == HasSlot(w, b) && ChildAt(w', b) == ChildAt(w, b))
  }

  function Had(w: World, a: Waiter): int {
    if a in w.phase && HasSlot(w, a) then 1 else 0
  }

  function Child0(w: World, a: Waiter): Option<Child> {
    if a in w.phase then ChildAt(w, a) else None
  }

  lemma SlotsMove(w: World, w': World, a: Waiter)
    requires OnlyAt(w, w', a)
    ensures |Slots(w')| == |Slots(w)| - Had(w, a) + Had(w', a)
  {
    hide HasSlot, ChildAt;
    forall b | b != a ensures b in Slots(w') <==> b in Slots(w) {}
    OneMemberMoves(Slots(w), Slots(w'), a);
  }

  lemma OneMemberMoves<T>(s: set<T>, s': set<T>, a: T)
    requires forall b :: b != a ==> (b in s' <==> b in s)
    ensures |s'| == |s| - (if a in s then 1 else 0) + (if a in s' then 1 else 0)
  {
    var rest := s - {a};
    assert s == if a in s then rest + {a} else rest;
    assert s' == if a in s' then rest + {a} else rest;
  }

  // The children outside acquirer `a`, as one set of places.
  ghost predicate Placed(w: World, c: Child) {
    c in w.pool.idle || c in w.closes || HeldSomewhere(w, c)
  }

  // A move changes the place of at most the children `a` has before and after.
  lemma PlacesMove(w: World, w': World, a: Waiter)
    requires OnePlace(w) && OnlyAt(w, w', a)
    requires NoDup(w'.pool.idle) && NoDup(w'.closes)
    requires forall c :: c in w'.pool.idle ==> c !in w'.closes
    requires forall c :: c in w'.closes ==> c in w'.born
    requires w.born <= w'.born
    requires forall c :: c in w'.pool.idle ==> c in w.pool.idle || Child0(w, a) == Some(c)
    requires forall c :: c in w'.closes ==> c in w.closes || Child0(w, a) == Some(c)
    requires Child0(w', a).Some? ==>
      var c := Child0(w', a).value;
      LiveElsewhere(w', c) && (c !in w.born || c in w.pool.idle || Child0(w, a) == Some(c))
    requires forall c :: c in w'.born ==>
      Child0(w', a) == Some(c) || c in w'.pool.idle || c in w'.closes
      || (c in w.born && c !in w.pool.idle && c !in w.closes && Child0(w, a) != Some(c))
    ensures OnePlace(w')
  {
    forall b | b in w'.phase && ChildAt(w', b).Some? ensures LiveElsewhere(w', ChildAt(w', b).value) {
      if b != a { assert ChildAt(w', b) == ChildAt(w, b); }
    }
    forall b, d | b in w'.phase && d in w'.phase && b != d && ChildAt(w', b).Some?
      ensures ChildAt(w', b) != ChildAt(w', d)
    {
      if b != a { assert ChildAt(w', b) == ChildAt(w, b); }
      if d != a { assert ChildAt(w', d) == ChildAt(w, d); }
    }
    forall c | c in w'.born ensures Placed(w', c) {
      if Child0(w', a) == Some(c) {
        assert HeldSomewhere(w', c);
      } else if c !in w'.pool.idle && c !in w'.closes {
        var b :| b in w.phase && ChildAt(w, b) == Some(c);
        assert b != a && ChildAt(w', b) == Some(c);
      }
    }
  }

  // ---- one grant, and a whole dispatch --------------------------------------

  function Granted(w: World): World
    requires Grantable(w.pool)
  {
    w.(pool := GrantNext(w.pool))
  }

  lemma GrantFrame(w: World)
    requires Queued(w) && Grantable(w.pool)
    ensures Queued(Granted(w)) && OnlyAt(w, Granted(w), w.pool.waiters[0])
    ensures w.pool.waiters[0] in w.phase && w.phase[w.pool.waiters[0]] == Waiting
    ensures Had(w, w.pool.waiters[0]) == 0 && Child0(w, w.pool.waiters[0]) == None
  {
    var p, w', a := w.pool, Granted(w), w.pool.waiters[0];
    var p' := w'.pool;
    assert a in w.phase && ChannelFits(w, a);
    assert p.waiters == [a] + p'.waiters && a !in p'.waiters;
    forall b | b != a && b in w.phase
      ensures HasSlot(w', b) == HasSlot(w, b) && ChildAt(w', b) == ChildAt(w, b) && ChannelFits(w', b)
    {
      assert ChannelFits(w, b);
      assert Buffered(p', b) == Buffered(p, b);
      assert b in p'.waiters <==> b in p.waiters;
    }
    assert |Buffered(p', a)| == 1;
  }

  lemma GrantOnePlace(w: World)
    requires Core(w) && Grantable(w.pool)
    ensures OnePlace(Granted(w))
  {
    var p, w', a := w.pool, Granted(w), w.pool.waiters[0];
    GrantFrame(w);
    if !p.closed && p.idle != [] && p.active <= p.limit {
      var c := p.idle[|p.idle| - 1];
      assert Buffered(w'.pool, a) == [GrantChild(c)];
      assert p.idle == w'.pool.idle + [c];
    } else {
      assert Child0(w', a) == None;
    }
    PlacesMove(w, w', a);
  }

  lemma GrantConserved(w: World)
    requires Conserved(w) && Queued(w) && Grantable(w.pool)
    ensures Conserved(Granted(w))
  {
    var a := w.pool.waiters[0];
    GrantFrame(w);
    SlotsMove(w, Granted(w), a);
    assert ChannelFits(w, a);
    assert Buffered(w.pool, a) == [];
  }

  lemma GrantFifo(w: World)
    requires Fifo(w) && Grantable(w.pool)
    ensures Fifo(Granted(w))
  {
    var p, p' := w.pool, GrantNext(w.pool);
    assert p'.sent + p'.waiters == p.sent + p.waiters;
  }

  lemma GrantBounded(p: Pool)
    requires Bounded(p) && Grantable(p)
    ensures Bounded(GrantNext(p))
  {
  }

  lemma GrantKeepsCore(w: World)
    requires Core(w) && Grantable(w.pool)
    ensures Core(Granted(w))
  {
    GrantConserved(w);
    GrantOnePlace(w);
    GrantFrame(w);
    GrantFifo(w);
    GrantBounded(w.pool);
  }

  function Settle(w: World): World {
    w.(pool := Dispatch(w.pool))
  }

  lemma {:induction false} SettleKeepsCore(w: World)
    requires Core(w)
    ensures Core(Settle(w))
    decreases |w.pool.waiters|
  {
    if Grantable(w.pool) {
      GrantKeepsCore(w);
      SettleKeepsCore(Granted(w));
    }
  }

  lemma {:induction false} DispatchConserves(p: Pool)
    requires Bounded(p)
    ensures WorkConserving(Dispatch(p))
    decreases |p.waiters|
  {
    if Grantable(p) {
      DispatchConserves(GrantNext(p));
    }
  }

  // After a dispatch nothing more can be granted: dispatching again, or
  // dispatching after a waiter has left, changes nothing.
  lemma DispatchIsNoop(p: Pool)
    requires WorkConserving(p)
    ensures Dispatch(p) == p
  {
  }

  lemma SettleInv(w: World)
    requires Core(w)
    ensures Inv(Settle(w))
  {
    SettleKeepsCore(w);
    DispatchConserves(w.pool);
  }

  // ---- steps of one acquirer -------------------------------------------------

  // Only acquirer `a` moved: the queue, the history and every other acquirer
  // stay as they were.
  ghost predicate Local(w: World, w': World, a: Waiter) {
    && a in w.phase && w'.phase.Keys == w.phase.Keys
    && w'.arrivals == w.arrivals && w'.removed == w.removed
    && w'.pool.waiters == w.pool.waiters && w'.pool.sent == w.pool.sent
    && (forall b :: b != a && b in w.phase ==>
          w'.phase[b] == w.phase[b] && Buffered(w'.pool, b) == Buffered(w.pool, b))
  }

  lemma LocalFrame(w: World, w': World, a: Waiter)
    requires Queued(w) && Local(w, w', a) && ChannelFits(w', a)
    ensures OnlyAt(w, w', a) && Queued(w')
  {
    forall b | b in w'.phase ensures ChannelFits(w', b) {
      if b != a { assert ChannelFits(w, b); }
    }
  }

  // A local step that accounts for its slot and its child keeps the invariant.
  lemma LocalKeepsCore(w: World, w': World, a: Waiter)
    requires Core(w) && Local(w, w', a) && ChannelFits(w', a)
    requires OnlyAt(w, w', a) ==> OnePlace(w')
    requires Bounded(w'.pool)
    requires w'.pool.active - |w'.pool.idle| == w.pool.active - |w.pool.idle| - Had(w, a) + Had(w', a)
    ensures Core(w')
  {
    LocalFrame(w, w', a);
    SlotsMove(w, w', a);
  }

  // A step that leaves idle list, closes and births alone and keeps or drops
  // nothing: the acquirer's child stays the same.
  lemma SameChildKeepsPlaces(w: World, w': World, a: Waiter)
    requires OnePlace(w) && OnlyAt(w, w', a) && Child0(w', a) == Child0(w, a)
    requires w'.pool.idle == w.pool.idle && w'.closes == w.closes && w'.born == w.born
    ensures OnePlace(w')
  {
    PlacesMove(w, w', a);
  }

  lemma TakeKeepsCore(w: World, a: Waiter, ph: Phase)
    requires Inv(w) && a in w.phase && Buffered(w.pool, a) != []
    requires w.phase[a] == Waiting || w.phase[a] == Draining
    requires ph == match Buffered(w.pool, a)[0] {
      case GrantClosed => Finished
      case GrantCreate => if w.phase[a] == Waiting then Starting else Discarding(GrantCreate)
      case GrantChild(c) => if w.phase[a] == Waiting then Pinging(c) else Discarding(GrantChild(c))
    }
    ensures Inv(Move(w, a, ph, TakeGrant(w.pool, a)))
  {
    var w' := Move(w, a, ph, TakeGrant(w.pool, a));
    assert ChannelFits(w, a);
    assert Buffered(w'.pool, a) == [];
    if OnlyAt(w, w', a) { SameChildKeepsPlaces(w, w', a); }
    LocalKeepsCore(w, w', a);
  }

  // Phase changes that touch neither the pool nor any child.
  lemma PhaseKeepsCore(w: World, a: Waiter, ph: Phase)
    requires Inv(w) && a in w.phase
    requires match w.phase[a] {
      case Waiting => ph == Draining && a !in w.pool.waiters
      case Pinging(c) => ph == Holding(c)
      case Starting => ph == StartFailed
      case _ => false
    }
    ensures Inv(Move(w, a, ph, w.pool))
  {
    var w' := Move(w, a, ph, w.pool);
    assert ChannelFits(w, a);
    if OnlyAt(w, w', a) { SameChildKeepsPlaces(w, w', a); }
    LocalKeepsCore(w, w', a);
  }

  lemma PingFailKeepsCore(w: World, a: Waiter)
    requires Inv(w) && Enabled(w, PingFail(a))
    ensures Inv(Apply(w, PingFail(a)))
  {
    var w', c := Apply(w, PingFail(a)), w.phase[a].child;
    assert ChannelFits(w, a) && ChildAt(w, a) == Some(c);
    assert LiveElsewhere(w, c);
    if OnlyAt(w, w', a) { PlacesMove(w, w', a); }
    LocalKeepsCore(w, w', a);
  }

  lemma FactoryOkKeepsCore(w: World, a: Waiter, c: Child)
    requires Inv(w) && Enabled(w, FactoryOk(a, c))
    ensures Inv(Apply(w, FactoryOk(a, c)))
  {
    var w' := Apply(w, FactoryOk(a, c));
    assert ChannelFits(w, a) && ChildAt(w, a) == None;
    if OnlyAt(w, w', a) { PlacesMove(w, w', a); }
    LocalKeepsCore(w, w', a);
  }

  // Giving one slot back, together with the phase that accounted for it.
  lemma SlotBackKeepsCore(w: World, a: Waiter)
    requires Core(w) && a in w.phase && HasSlot(w, a) && ChildAt(w, a) == None
    requires w.phase[a] != Waiting && w.phase[a] != Draining
    ensures Core(Move(w, a, Finished, w.pool.(active := w.pool.active - 1)))
  {
    var w' := Move(w, a, Finished, w.pool.(active := w.pool.active - 1));
    assert ChannelFits(w, a);
    if OnlyAt(w, w', a) { SameChildKeepsPlaces(w, w', a); }
    LocalKeepsCore(w, w', a);
  }

  lemma SlotBackKeepsInv(w: World, a: Waiter)
    requires Core(w) && a in w.phase && HasSlot(w, a) && ChildAt(w, a) == None
    requires w.phase[a] != Waiting && w.phase[a] != Draining
    ensures Inv(Move(w, a, Finished, GiveBack(w.pool)))
  {
    hide Core, HasSlot, ChildAt;
    SlotBackKeepsCore(w, a);
    SettleInv(Move(w, a, Finished, w.pool.(active := w.pool.active - 1)));
  }

  lemma KeepSlotKeepsCore(w: World, a: Waiter)
    requires Core(w) && a in w.phase && w.phase[a].Evicting?
    ensures Core(Move(w, a, Starting, w.pool))
  {
    var w' := Move(w, a, Starting, w.pool);
    assert ChannelFits(w, a);
    if OnlyAt(w, w', a) { SameChildKeepsPlaces(w, w', a); }
    LocalKeepsCore(w, w', a);
  }

  // ---- release: the child goes idle, or goes away with its slot -------------

  predicate GivesChild(w: World, a: Waiter, c: Child, ph: Phase) {
    && a in w.phase && (ph == Released || ph == Finished)
    && (w.phase[a] == Holding(c) || w.phase[a] == Discarding(GrantChild(c)))
  }

  lemma GoIdleKeepsCore(w: World, a: Waiter, c: Child, ph: Phase)
    requires Core(w) && GivesChild(w, a, c, ph)
    requires !w.pool.closed && w.pool.active <= w.pool.limit
    ensures Core(Move(w, a, ph, w.pool.(idle := w.pool.idle + [c])))
  {
    var w' := Move(w, a, ph, w.pool.(idle := w.pool.idle + [c]));
    assert ChannelFits(w, a) && ChildAt(w, a) == Some(c);
    assert LiveElsewhere(w, c);
    assert c in w'.pool.idle by { assert w'.pool.idle[|w.pool.idle|] == c; }
    if OnlyAt(w, w', a) { PlacesMove(w, w', a); }
    LocalKeepsCore(w, w', a);
  }

  lemma GoAwayKeepsCore(w: World, a: Waiter, c: Child, ph: Phase)
    requires Core(w) && GivesChild(w, a, c, ph)
    ensures Core(Move(w, a, ph, w.pool.(active := w.pool.active - 1)).(closes := w.closes + [c]))
  {
    var w' := Move(w, a, ph, w.pool.(active := w.pool.active - 1)).(closes := w.closes + [c]);
    assert ChannelFits(w, a) && ChildAt(w, a) == Some(c);
    assert LiveElsewhere(w, c);
    assert c in w'.closes by { assert w'.closes[|w.closes|] == c; }
    if OnlyAt(w, w', a) { PlacesMove(w, w', a); }
    LocalKeepsCore(w, w', a);
  }

  lemma GoIdleKeepsInv(w: World, a: Waiter, c: Child, ph: Phase)
    requires Inv(w) && GivesChild(w, a, c, ph)
    requires !w.pool.closed && w.pool.active <= w.pool.limit
    ensures Inv(Dropping(Move(w, a, ph, w.pool), Release(w.pool, c, true)))
  {
    GoIdleKeepsCore(w, a, c, ph);
    var w1 := Move(w, a, ph, w.pool.(idle := w.pool.idle + [c]));
    SettleInv(w1);
    assert w.closes + [] == w.closes;
    assert Dropping(Move(w, a, ph, w.pool), Release(w.pool, c, true)) == Settle(w1);
  }

  lemma GoAwayKeepsInv(w: World, a: Waiter, c: Child, ph: Phase)
    requires Inv(w) && GivesChild(w, a, c, ph)
    ensures Inv(Dropping(Move(w, a, ph, w.pool), Outcome(GiveBack(w.pool), [c])))
  {
    GoAwayKeepsCore(w, a, c, ph);
    var w1 := Move(w, a, ph, w.pool.(active := w.pool.active - 1)).(closes := w.closes + [c]);
    SettleInv(w1);
    assert Dropping(Move(w, a, ph, w.pool), Outcome(GiveBack(w.pool), [c])) == Settle(w1);
  }

  lemma ReleaseKeepsInv(w: World, a: Waiter, c: Child, ph: Phase, reusable: bool)
    requires Inv(w) && GivesChild(w, a, c, ph)
    ensures Inv(Dropping(Move(w, a, ph, w.pool), Release(w.pool, c, reusable)))
  {
    if reusable && !w.pool.closed && w.pool.active <= w.pool.limit {
      GoIdleKeepsInv(w, a, c, ph);
    } else {
      GoAwayKeepsInv(w, a, c, ph);
    }
  }

  // ---- arrivals and cancellations -------------------------------------------

  function Joined(w: World, a: Waiter): World {
    var p := w.pool;
    Move(w, a, Waiting, p.(waiters := p.waiters + [a], chan := p.chan[a := []])).(arrivals := w.arrivals + [a])
  }

  lemma SurvivorsPush(s: seq<Waiter>, gone: set<Waiter>, a: Waiter)
    requires a !in gone
    ensures Survivors(s + [a], gone) == Survivors(s, gone) + [a]
  {
    assert (s + [a])[..|s|] == s;
  }

  lemma JoinFifo(w: World, a: Waiter)
    requires Fifo(w) && a !in w.phase
    ensures Fifo(Joined(w, a))
  {
    hide Survivors;
    SurvivorsPush(w.arrivals, w.removed, a);
    assert w.pool.sent + (w.pool.waiters + [a]) == (w.pool.sent + w.pool.waiters) + [a];
    var arrivals := w.arrivals + [a];
    assert forall b :: b in arrivals <==> b in w.arrivals || b == a;
  }

  lemma JoinQueued(w: World, a: Waiter)
    requires Queued(w) && a !in w.phase
    ensures Queued(Joined(w, a)) && OnlyAt(w, Joined(w, a), a)
  {
    var w1 := Joined(w, a);
    assert w1.pool.waiters[|w.pool.waiters|] == a;
    forall b | b in w1.phase ensures ChannelFits(w1, b) {
      if b != a { assert ChannelFits(w, b); }
      assert b in w1.pool.waiters <==> b in w.pool.waiters || b == a;
    }
  }

  lemma ArriveKeepsInv(w: World, a: Waiter)
    requires Inv(w) && Enabled(w, Arrive(a))
    ensures Inv(Apply(w, Arrive(a)))
  {
    var w1 := Joined(w, a);
    JoinQueued(w, a);
    SlotsMove(w, w1, a);
    SameChildKeepsPlaces(w, w1, a);
    JoinFifo(w, a);
    SettleInv(w1);
    assert Apply(w, Arrive(a)) == Settle(w1);
  }

  lemma {:induction false} SurvivorsIn(s: seq<Waiter>, gone: set<Waiter>)
    requires NoDup(s)
    ensures NoDup(Survivors(s, gone))
    ensures forall x :: x in Survivors(s, gone) <==> x in s && x !in gone
  {
    if s != [] {
      var front, last := s[..|s| - 1], s[|s| - 1];
      SurvivorsIn(front, gone);
      assert s == front + [last];
      assert last !in front;
      var r := Survivors(front, gone);
      assert (r + [last])[|r|] == last;
    }
  }

  lemma {:induction false} WithoutLast<T>(s: seq<T>, x: T, last: T)
    requires x != last
    ensures Without(s + [last], x) == Without(s, x) + [last]
  {
    if s != [] {
      assert (s + [last])[1..] == s[1..] + [last];
      WithoutLast(s[1..], x, last);
    } else {
      assert [last][1..] == [];
    }
  }

  lemma {:induction false} SurvivorsDrop(s: seq<Waiter>, gone: set<Waiter>, x: Waiter)
    requires NoDup(s) && x in s && x !in gone
    ensures Survivors(s, gone + {x}) == Without(Survivors(s, gone), x)
  {
    var front, last := s[..|s| - 1], s[|s| - 1];
    assert s == front + [last];
    SurvivorsIn(front, gone);
    if last == x {
      SurvivorsSame(front, gone, x);
      WithoutAt(Survivors(front, gone) + [x], |Survivors(front, gone)|, x);
    } else {
      SurvivorsDrop(front, gone, x);
      WithoutLast(Survivors(front, gone), x, last);
    }
  }

  lemma {:induction false} SurvivorsSame(s: seq<Waiter>, gone: set<Waiter>, x: Waiter)
    requires x !in s
    ensures Survivors(s, gone + {x}) == Survivors(s, gone)
  {
    if s != [] {
      SurvivorsSame(s[..|s| - 1], gone, x);
    }
  }

  lemma {:induction false} WithoutSuffix<T>(s: seq<T>, t: seq<T>, x: T)
    requires x !in s
    ensures Without(s + t, x) == s + Without(t, x)
  {
    if s == [] {
      assert s + t == t;
    } else {
      assert (s + t)[1..] == s[1..] + t;
      WithoutSuffix(s[1..], t, x);
    }
  }

  function Left(w: World, a: Waiter): World {
    Move(w, a, Finished, w.pool.(waiters := Without(w.pool.waiters, a))).(removed := w.removed + {a})
  }

  lemma LeaveFifo(w: World, a: Waiter)
    requires Fifo(w) && a in w.pool.waiters
    ensures a in w.phase && Fifo(Left(w, a))
  {
    var p := w.pool;
    SurvivorsIn(w.arrivals, w.removed);
    var i :| 0 <= i < |p.waiters| && p.waiters[i] == a;
    assert (p.sent + p.waiters)[|p.sent| + i] == a;
    SurvivorsDrop(w.arrivals, w.removed, a);
    forall k | 0 <= k < |p.sent| ensures p.sent[k] != a {
      assert (p.sent + p.waiters)[k] == p.sent[k];
    }
    WithoutSuffix(p.sent, p.waiters, a);
  }

  lemma LeaveKeepsCore(w: World, a: Waiter)
    requires Core(w) && a in w.pool.waiters
    ensures Core(Left(w, a))
  {
    var w' := Left(w, a);
    LeaveFifo(w, a);
    WithoutSublist(w.pool.waiters, a);
    assert ChannelFits(w, a);
    forall b | b in w'.phase ensures ChannelFits(w', b) {
      assert ChannelFits(w, b);
    }
    SlotsMove(w, w', a);
    SameChildKeepsPlaces(w, w', a);
  }

  // ---- resizing, resetting and closing ---------------------------------------

  // Idle children handed to Close take their units of `active` with them.
  lemma DropIdleKeepsCore(w: World, w': World, dropped: seq<Child>)
    requires Core(w) && NoDup(dropped)
    requires w' == w.(pool := w'.pool, closes := w.closes + dropped)
    requires w'.pool.chan == w.pool.chan && w'.pool.waiters == w.pool.waiters && w'.pool.sent == w.pool.sent
    requires NoDup(w'.pool.idle)
    requires forall c :: c in w.pool.idle <==> c in w'.pool.idle || c in dropped
    requires forall c :: c in dropped ==> c !in w'.pool.idle
    requires w'.pool.active - |w'.pool.idle| == w.pool.active - |w.pool.idle|
    requires Bounded(w'.pool)
    ensures Core(w')
  {
    assert Slots(w') == Slots(w);
    forall a | a in w'.phase ensures ChannelFits(w', a) && ChildAt(w', a) == ChildAt(w, a) {
      assert ChannelFits(w, a);
    }
    forall c | c in w'.born ensures Placed(w', c) {
      if HeldSomewhere(w, c) {
        var a :| a in w.phase && ChildAt(w, a) == Some(c);
        assert ChildAt(w', a) == Some(c);
      } else if c in w.closes {
        assert c in w'.closes;
      } else {
        assert c in w.pool.idle;
        assert c in dropped ==> c in w'.closes;
      }
    }
    forall i, j | 0 <= i < j < |w'.closes| ensures w'.closes[i] != w'.closes[j] {
      if j >= |w.closes| { assert w'.closes[j] in dropped && w'.closes[j] in w.pool.idle; }
    }
    forall a | a in w'.phase && ChildAt(w', a).Some? ensures LiveElsewhere(w', ChildAt(w', a).value) {
      assert LiveElsewhere(w, ChildAt(w, a).value);
    }
  }

  // The idle list's tail in reverse, as far as `t` dropped it.
  predicate DropsTail(idle: seq<Child>, t: Outcome) {
    && |t.pool.idle| + |t.dropped| == |idle|
    && t.pool.idle == idle[..|t.pool.idle|]
    && forall k :: 0 <= k < |t.dropped| ==> t.dropped[k] == idle[|idle| - 1 - k]
  }

  lemma DropsTailStep(idle: seq<Child>, t: Outcome)
    requires idle != [] && DropsTail(idle[..|idle| - 1], t)
    ensures DropsTail(idle, Outcome(t.pool, [idle[|idle| - 1]] + t.dropped))
  {
    var front, dropped := idle[..|idle| - 1], [idle[|idle| - 1]] + t.dropped;
    assert front[..|t.pool.idle|] == idle[..|t.pool.idle|];
    forall k | 0 <= k < |dropped| ensures dropped[k] == idle[|idle| - 1 - k] {
      if k > 0 { assert dropped[k] == t.dropped[k - 1] == front[|front| - 1 - (k - 1)]; }
    }
  }

  // SetLimit's loop in closed form: it hands out the idle list's tail,
  // most recently released first.
  lemma {:induction false} TrimClosedForm(p: Pool)
    ensures var t := Trim(p);
      && DropsTail(p.idle, t)
      && t.pool == p.(idle := t.pool.idle, active := p.active - |t.dropped|)
      && (t.pool.idle == [] || (t.pool.active <= p.limit && |t.pool.idle| <= p.limit))
    decreases |p.idle|
  {
    assert DropsTail(p.idle, Outcome(p, []));
    hide DropsTail;
    if p.idle != [] && (p.active > p.limit || |p.idle| > p.limit) {
      var last := |p.idle| - 1;
      var p' := p.(idle := p.idle[..last], active := p.active - 1);
      TrimClosedForm(p');
      DropsTailStep(p.idle, Trim(p'));
    }
  }

  lemma TailMembers(idle: seq<Child>, t: Outcome)
    requires DropsTail(idle, t)
    ensures forall c :: c in idle <==> c in t.pool.idle || c in t.dropped
  {
    var n := |t.pool.idle|;
    forall c ensures c in idle <==> c in t.pool.idle || c in t.dropped {
      if c in idle {
        var k :| 0 <= k < |idle| && idle[k] == c;
        if k >= n { assert t.dropped[|idle| - 1 - k] == c; } else { assert t.pool.idle[k] == c; }
      }
    }
  }

  lemma TrimKeepsCore(w: World, limit: int)
    requires Core(w)
    ensures var t := Trim(w.pool.(limit := ClampLimit(limit)));
      Core(w.(pool := t.pool, closes := w.closes + t.dropped))
  {
    hide Trim;
    var p := w.pool.(limit := ClampLimit(limit));
    var t := Trim(p);
    TrimClosedForm(p);
    TailMembers(p.idle, t);
    DropIdleKeepsCore(w, w.(pool := t.pool, closes := w.closes + t.dropped), t.dropped);
  }

  lemma EmptyKeepsCore(w: World, closing: bool)
    requires Core(w)
    ensures Core(w.(pool := EmptyIdle(w.pool).(closed := closing || w.pool.closed), closes := w.closes + w.pool.idle))
  {
    DropIdleKeepsCore(w, w.(pool := EmptyIdle(w.pool).(closed := closing || w.pool.closed),
                            closes := w.closes + w.pool.idle), w.pool.idle);
  }

  // ---- every step -------------------------------------------------------------

  lemma InitInv(limit: int)
    ensures Inv(Init(limit))
  {
    assert Slots(Init(limit)) == {};
  }

  lemma StepKeepsInv(w: World, act: Action)
    requires Inv(w) && Enabled(w, act)
    ensures Inv(Apply(w, act))
  {
    match act
    case Arrive(a) => ArriveKeepsInv(w, a);
    case Receive(a) =>
      TakeKeepsCore(w, a, Apply(w, act).phase[a]);
    case CtxDone(a) =>
      if a in w.pool.waiters {
        LeaveKeepsCore(w, a);
        SettleInv(Left(w, a));
      } else {
        PhaseKeepsCore(w, a, Draining);
      }
    case Drain(a) => TakeKeepsCore(w, a, Apply(w, act).phase[a]);
    case Discard(a) => DiscardKeepsInv(w, a);
    case PingOk(a) => PhaseKeepsCore(w, a, Holding(w.phase[a].child));
    case PingFail(a) => PingFailKeepsCore(w, a);
    case Replace(a) => ReplaceKeepsInv(w, a);
    case FactoryOk(a, c) => FactoryOkKeepsCore(w, a, c);
    case FactoryFail(a) => PhaseKeepsCore(w, a, StartFailed);
    case ReturnSlot(a) =>
      SlotBackKeepsInv(w, a);
    case ReleaseChild(a, reusable) => ReleaseKeepsInv(w, a, w.phase[a].child, Released, reusable);
    case ReleaseAgain(a, reusable) =>
    case Resize(limit) =>
      TrimKeepsCore(w, limit);
      var t := Trim(w.pool.(limit := ClampLimit(limit)));
      SettleInv(w.(pool := t.pool, closes := w.closes + t.dropped));
    case ResetPool =>
      EmptyKeepsCore(w, false);
      SettleInv(w.(pool := EmptyIdle(w.pool), closes := w.closes + w.pool.idle));
    case ClosePool => CloseKeepsInv(w);
  }

  lemma DiscardErrorKeepsInv(w: World, a: Waiter)
    requires Inv(w) && InPhase(w, a, Discarding(GrantClosed))
    ensures Inv(Move(w, a, Finished, w.pool))
  {
    var w' := Move(w, a, Finished, w.pool);
    assert ChannelFits(w, a);
    if OnlyAt(w, w', a) { SameChildKeepsPlaces(w, w', a); }
    LocalKeepsCore(w, w', a);
  }

  lemma DiscardKeepsInv(w: World, a: Waiter)
    requires Inv(w) && Enabled(w, Discard(a))
    ensures Inv(Apply(w, Discard(a)))
  {
    match w.phase[a].grant
    case GrantChild(c) =>
      ReleaseKeepsInv(w, a, c, Finished, true);
    case GrantCreate =>
      SlotBackKeepsInv(w, a);
    case GrantClosed => DiscardErrorKeepsInv(w, a);
  }

  lemma ReplaceKeepsInv(w: World, a: Waiter)
    requires Inv(w) && Enabled(w, Replace(a))
    ensures Inv(Apply(w, Replace(a)))
  {
    if CanReplace(w.pool) {
      KeepSlotKeepsCore(w, a);
      SettleInv(Move(w, a, Starting, w.pool));
    } else {
      SlotBackKeepsInv(w, a);
    }
  }

  lemma CloseKeepsInv(w: World)
    requires Inv(w)
    ensures Inv(Apply(w, ClosePool))
  {
    if w.pool.closed {
      assert w.closes + [] == w.closes;
    } else {
      EmptyKeepsCore(w, true);
      SettleInv(w.(pool := EmptyIdle(w.pool).(closed := true), closes := w.closes + w.pool.idle));
    }
  }
}
