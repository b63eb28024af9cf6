// The lock-protected half of the subagent process pool
// (modules/agent/internal/runtime/subagent_pool.go): one value per state of
// the mutex-guarded fields, one function per critical section, and the class
// whose methods run those sections, with a loop for each of theirs.
module SubAgentPool {

  const DEFAULT_SUBAGENT_POOL_SIZE := 2
  const MAX_SUBAGENT_POOL_SIZE := 8

  // Identities stand for Go pointers.
  type Child = nat
  type Waiter = nat

  datatype Grant = GrantChild(child: Child) | GrantCreate | GrantClosed

  // `chan` is the content of each waiter's one-slot channel; `sent` logs, in
  // order, every waiter a grant was sent to.
  datatype Pool = Pool(
    limit: int,
    active: int,
    idle: seq<Child>,
    waiters: seq<Waiter>,
    closed: bool,
    chan: map<Waiter, seq<Grant>>,
    sent: seq<Waiter>)

  // A critical section's new state together with the children it hands to Close.
  datatype Outcome = Outcome(pool: Pool, dropped: seq<Child>)

  predicate NoDup<T(==)>(s: seq<T>) {
    forall i, j :: 0 <= i < j < |s| ==> s[i] != s[j]
  }

  function Buffered(p: Pool, a: Waiter): seq<Grant> {
    if a in p.chan then p.chan[a] else []
  }

  function ClampLimit(limit: int): (r: int)
    ensures 1 <= r <= MAX_SUBAGENT_POOL_SIZE
    ensures 1 <= limit <= MAX_SUBAGENT_POOL_SIZE ==> r == limit
    ensures limit <= 0 ==> r == DEFAULT_SUBAGENT_POOL_SIZE
    ensures limit > MAX_SUBAGENT_POOL_SIZE ==> r == MAX_SUBAGENT_POOL_SIZE
  {
    if limit <= 0 then DEFAULT_SUBAGENT_POOL_SIZE
    else if limit > MAX_SUBAGENT_POOL_SIZE then MAX_SUBAGENT_POOL_SIZE
    else limit
  }

  // ---- dispatchLocked ----------------------------------------------------

  function SendToHead(p: Pool, g: Grant): Pool
    requires p.waiters != []
  {
    var a := p.waiters[0];
    p.(waiters := p.waiters[1..], chan := p.chan[a := Buffered(p, a) + [g]], sent := p.sent + [a])
  }

  // Queued waiters are distinct and their channels are empty, so every send
  // under the lock finds a free slot.
  ghost predicate Ready(p: Pool) {
    NoDup(p.waiters) && forall a :: a in p.waiters ==> Buffered(p, a) == []
  }

  lemma SendKeepsReady(p: Pool, g: Grant)
    requires Ready(p) && p.waiters != []
    ensures Ready(SendToHead(p, g))
    ensures Buffered(SendToHead(p, g), p.waiters[0]) == [g]
    ensures p.waiters[0] !in p.waiters[1..]
  {
    var q := SendToHead(p, g);
    forall a | a in q.waiters ensures Buffered(q, a) == [] && a in p.waiters && a != p.waiters[0] {
      var i :| 0 <= i < |q.waiters| && q.waiters[i] == a;
      assert p.waiters[i + 1] == a && p.waiters[0] != p.waiters[i + 1];
      assert Buffered(p, a) == [];
    }
  }

  predicate Grantable(p: Pool) {
    p.waiters != [] && (p.closed || (p.idle != [] && p.active <= p.limit) || p.active < p.limit)
  }

  function GrantNext(p: Pool): Pool
    requires Grantable(p)
  {
    if p.closed then SendToHead(p, GrantClosed)
    else if p.idle != [] && p.active <= p.limit then
      var last := |p.idle| - 1;
      SendToHead(p.(idle := p.idle[..last]), GrantChild(p.idle[last]))
    else
      SendToHead(p.(active := p.active + 1), GrantCreate)
  }

  function Dispatch(p: Pool): Pool
    decreases |p.waiters|
  {
    if Grantable(p) then Dispatch(GrantNext(p)) else p
  }

  // ---- the critical sections ---------------------------------------------

  function Enqueue(p: Pool, a: Waiter): Pool {
    Dispatch(p.(waiters := p.waiters + [a], chan := p.chan[a := []]))
  }

  function Without<T(==)>(s: seq<T>, x: T): seq<T> {
    if s == [] then []
    else if s[0] == x then s[1..]
    else [s[0]] + Without(s[1..], x)
  }

  // The cancellation branch of AcquireWithStart: the waiter leaves the queue
  // only if it is still there.
  function Cancel(p: Pool, a: Waiter): Pool {
    if a in p.waiters then Dispatch(p.(waiters := Without(p.waiters, a))) else p
  }

  function GiveBack(p: Pool): Pool {
    Dispatch(p.(active := p.active - 1))
  }

  // Is the slot of an unhealthy child kept for a replacement?
  predicate CanReplace(p: Pool) {
    !p.closed && p.active - 1 < p.limit
  }

  function ReplaceUnhealthy(p: Pool): Pool {
    if CanReplace(p) then Dispatch(p) else GiveBack(p)
  }

  function Release(p: Pool, c: Child, reusable: bool): Outcome {
    if reusable && !p.closed && p.active <= p.limit then
      Outcome(Dispatch(p.(idle := p.idle + [c])), [])
    else
      Outcome(GiveBack(p), [c])
  }

  // The loop of SetLimit, popping idle children from the back.
  function Trim(p: Pool): Outcome
    decreases |p.idle|
  {
    if p.idle != [] && (p.active > p.limit || |p.idle| > p.limit) then
      var last := |p.idle| - 1;
      var rest := Trim(p.(idle := p.idle[..last], active := p.active - 1));
      Outcome(rest.pool, [p.idle[last]] + rest.dropped)
    else
      Outcome(p, [])
  }

  function SetLimit(p: Pool, limit: int): Outcome {
    var t := Trim(p.(limit := ClampLimit(limit)));
    Outcome(Dispatch(t.pool), t.dropped)
  }

  function EmptyIdle(p: Pool): Pool {
    p.(idle := [], active := p.active - |p.idle|)
  }

  function Reset(p: Pool): Outcome {
    Outcome(Dispatch(EmptyIdle(p)), p.idle)
  }

  function Close(p: Pool): Outcome {
    if p.closed then Outcome(p, [])
    else Outcome(Dispatch(EmptyIdle(p).(closed := true)), p.idle)
  }

  // ---- what a dispatch does, without its recursion -------------------------

  function Min(a: int, b: int): int { if a <= b then a else b }

  // How many waiters an open pool serves at once: every idle child plus every
  // slot below the limit, but nothing while it is over the limit.
  function Supply(p: Pool): int {
    if p.active <= p.limit then |p.idle| + p.limit - p.active else 0
  }

  function Served(p: Pool): int { Min(|p.waiters|, Supply(p)) }

  // The grant for the i-th waiter in the queue: idle children, most recently
  // released first, then permissions to create.
  function GrantAt(p: Pool, i: nat): Grant {
    if i < |p.idle| then GrantChild(p.idle[|p.idle| - 1 - i]) else GrantCreate
  }

  lemma GrantNextReady(p: Pool)
    requires Ready(p) && Grantable(p)
    ensures Ready(GrantNext(p))
    ensures p.waiters == [p.waiters[0]] + GrantNext(p).waiters
    ensures p.waiters[0] !in GrantNext(p).waiters
  {
    SendKeepsReady(p, GrantClosed);
    if !p.closed {
      if p.idle != [] && p.active <= p.limit {
        var last := |p.idle| - 1;
        SendKeepsReady(p.(idle := p.idle[..last]), GrantChild(p.idle[last]));
      } else {
        SendKeepsReady(p.(active := p.active + 1), GrantCreate);
      }
    }
  }

  ghost predicate DispatchedFields(p: Pool, q: Pool) {
    var k := Served(p);
    && q.waiters == p.waiters[k..]
    && q.sent == p.sent + p.waiters[..k]
    && q.idle == p.idle[..|p.idle| - Min(k, |p.idle|)]
    && q.active == p.active + (k - Min(k, |p.idle|))
    && q.limit == p.limit && !q.closed
  }

  ghost predicate DispatchedChannels(p: Pool, q: Pool) {
    && (forall i :: 0 <= i < Served(p) ==> Buffered(q, p.waiters[i]) == [GrantAt(p, i)])
    && (forall a :: a !in p.waiters[..Served(p)] ==> Buffered(q, a) == Buffered(p, a))
  }

  lemma {:induction false} DispatchOpenClosedForm(p: Pool)
    requires !p.closed && Ready(p)
    ensures DispatchedFields(p, Dispatch(p)) && DispatchedChannels(p, Dispatch(p))
    decreases |p.waiters|
  {
    if Grantable(p) {
      GrantNextReady(p);
      DispatchOpenClosedForm(GrantNext(p));
      DispatchedFieldsStep(p, Dispatch(p));
      DispatchedChannelsStep(p, Dispatch(p));
    }
  }

  lemma DispatchedFieldsStep(p: Pool, q: Pool)
    requires !p.closed && Grantable(p) && DispatchedFields(GrantNext(p), q)
    ensures DispatchedFields(p, q)
  {
    var p' := GrantNext(p);
    assert Served(p') == Served(p) - 1;
  }

  lemma DispatchedChannelsStep(p: Pool, q: Pool)
    requires !p.closed && Ready(p) && Grantable(p) && DispatchedChannels(GrantNext(p), q)
    ensures DispatchedChannels(p, q)
  {
    GrantNextReady(p);
    var p', k, head := GrantNext(p), Served(p), p.waiters[0];
    assert Served(p') == k - 1;
    assert p.waiters[..k] == [head] + p'.waiters[..k - 1];
    assert Buffered(p', head) == [GrantAt(p, 0)] by {
      assert Buffered(p, head) == [];
    }
    forall i | 0 <= i < k ensures Buffered(q, p.waiters[i]) == [GrantAt(p, i)] {
      if i > 0 {
        assert p.waiters[i] == p'.waiters[i - 1];
        assert GrantAt(p, i) == GrantAt(p', i - 1);
      } else {
        assert head !in p'.waiters[..k - 1];
      }
    }
    forall a | a !in p.waiters[..k] ensures Buffered(q, a) == Buffered(p, a) {
      assert a != head && a !in p'.waiters[..k - 1];
    }
  }

  lemma {:induction false} DispatchClosedClosedForm(p: Pool)
    requires p.closed && Ready(p)
    ensures var q := Dispatch(p);
      && q == p.(waiters := [], chan := q.chan, sent := p.sent + p.waiters)
      && (forall a :: Buffered(q, a) == if a in p.waiters then [GrantClosed] else Buffered(p, a))
    decreases |p.waiters|
  {
    if p.waiters != [] {
      GrantNextReady(p);
      DispatchClosedClosedForm(GrantNext(p));
    }
  }

  // ---- what releasing, resizing and resetting come to ------------------------

  // May a healthy child go back into the pool?
  predicate HasRoomFor(p: Pool) { !p.closed && p.active <= p.limit }

  // A healthy child for which there is room is kept: it goes to the first
  // waiter, or to the end of the idle list when nobody waits. Nothing else of
  // the pool changes.
  ghost predicate Reused(p: Pool, q: Pool, c: Child) {
    if p.waiters == [] then q == p.(idle := p.idle + [c])
    else
      && |q.sent| > |p.sent| && q.sent[..|p.sent| + 1] == p.sent + [p.waiters[0]]
      && Buffered(q, p.waiters[0]) == [GrantChild(c)]
      && p.waiters[0] !in q.waiters
  }

  // A child is closed exactly when it is reported unhealthy or there is no room
  // for it; otherwise it is reused. Closing it frees its slot for the first
  // waiter, if the pool is below its limit then.
  lemma ReleaseExactly(p: Pool, c: Child, reusable: bool)
    requires Ready(p)
    ensures var o := Release(p, c, reusable);
      && (o.dropped == [] <==> reusable && HasRoomFor(p))
      && (o.dropped == [c] <==> !(reusable && HasRoomFor(p)))
      && (reusable && HasRoomFor(p) ==> Reused(p, o.pool, c))
      && (o.dropped == [c] && p.waiters == [] ==> o.pool == p.(active := p.active - 1))
      && (o.dropped == [c] && p.waiters != [] && !p.closed && p.idle == [] && p.active - 1 < p.limit ==>
            Buffered(o.pool, p.waiters[0]) == [GrantCreate])
  {
    hide Dispatch, Reused;
    if reusable && HasRoomFor(p) {
      KeptChild(p, c);
    } else {
      FreedSlot(p);
    }
  }

  lemma KeptChild(p: Pool, c: Child)
    requires Ready(p) && HasRoomFor(p)
    ensures Reused(p, Dispatch(p.(idle := p.idle + [c])), c)
  {
    var kept := p.(idle := p.idle + [c]);
    if p.waiters != [] {
      DispatchOpenClosedForm(kept);
      assert Served(kept) >= 1 && GrantAt(kept, 0) == GrantChild(c);
      hide Dispatch;
      SentFirst(kept, Dispatch(kept));
      assert Buffered(Dispatch(kept), kept.waiters[0]) == [GrantAt(kept, 0)];
    }
  }

  lemma FreedSlot(p: Pool)
    requires Ready(p)
    ensures p.waiters == [] ==> GiveBack(p) == p.(active := p.active - 1)
    ensures p.waiters != [] && !p.closed && p.idle == [] && p.active - 1 < p.limit ==>
      Buffered(GiveBack(p), p.waiters[0]) == [GrantCreate]
  {
    var gone := p.(active := p.active - 1);
    if p.waiters != [] && !p.closed {
      DispatchOpenClosedForm(gone);
      hide Dispatch;
      assert Served(gone) >= 1 ==> Buffered(Dispatch(gone), gone.waiters[0]) == [GrantAt(gone, 0)];
    }
  }

  lemma SentFirst(p: Pool, q: Pool)
    requires Ready(p) && DispatchedFields(p, q) && Served(p) >= 1
    ensures q.sent[..|p.sent| + 1] == p.sent + [p.waiters[0]]
    ensures p.waiters[0] !in q.waiters
  {
    assert p.waiters[..Served(p)][0] == p.waiters[0];
  }

  // ---- the class -----------------------------------------------------------

  class Pooled {
    var limit: int
    var active: int
    var idle: seq<Child>
    var waiters: seq<Waiter>
    var closed: bool
    var chan: map<Waiter, seq<Grant>>
    ghost var sent: seq<Waiter>

    ghost function State(): Pool
      reads this
    {
      Pool(limit, active, idle, waiters, closed, chan, sent)
    }

    ghost predicate Valid()
      reads this
    {
      Ready(State())
    }

    constructor (size: int)
      ensures Valid()
      ensures State() == Pool(ClampLimit(size), 0, [], [], false, map[], [])
    {
      limit := if size <= 0 then DEFAULT_SUBAGENT_POOL_SIZE
               else if size > MAX_SUBAGENT_POOL_SIZE then MAX_SUBAGENT_POOL_SIZE else size;
      active, idle, waiters, closed, chan, sent := 0, [], [], false, map[], [];
    }

    // `waiter.grant <- grant` on a channel of capacity one: the precondition is
    // what keeps the send from blocking while the lock is held.
    method Send(a: Waiter, g: Grant)
      requires Buffered(State(), a) == []
      modifies this`chan, this`sent
      ensures chan == old(chan)[a := [g]] && sent == old(sent) + [a]
    {
      chan := chan[a := [g]];
      sent := sent + [a];
    }

    method DispatchLocked()
      requires Valid()
      modifies this
      ensures Valid() && State() == Dispatch(old(State()))
    {
      if closed {
        while |waiters| > 0
          invariant Valid() && closed
          invariant Dispatch(State()) == Dispatch(old(State()))
          decreases |waiters|
        {
          ghost var before := State();
          GrantNextReady(before);
          var waiter := waiters[0];
          assert Buffered(before, waiter) + [GrantClosed] == [GrantClosed];
          waiters := waiters[1..];
          Send(waiter, GrantClosed);
          assert State() == GrantNext(before);
        }
        return;
      }
      while |waiters| > 0
        invariant Valid() && !closed
        invariant Dispatch(State()) == Dispatch(old(State()))
        decreases |waiters|
      {
        ghost var before := State();
        var waiter := waiters[0];
        assert Buffered(before, waiter) == [];
        var grant;
        if |idle| > 0 && active <= limit {
          var last := |idle| - 1;
          grant := GrantChild(idle[last]);
          idle := idle[..last];
        } else if active < limit {
          active := active + 1;
          grant := GrantCreate;
        } else {
          return;
        }
        GrantNextReady(before);
        waiters := waiters[1..];
        Send(waiter, grant);
        assert Buffered(before, waiter) + [grant] == [grant];
        assert State() == GrantNext(before);
      }
    }

    method RemoveWaiterLocked(target: Waiter) returns (removed: bool)
      modifies this`waiters
      ensures removed == (target in old(waiters))
      ensures waiters == Without(old(waiters), target)
    {
      var index := 0;
      while index < |waiters|
        invariant 0 <= index <= |waiters|
        invariant waiters == old(waiters)
        invariant target !in waiters[..index]
      {
        if waiters[index] != target {
          index := index + 1;
          continue;
        }
        WithoutAt(waiters, index, target);
        waiters := waiters[..index] + waiters[index + 1..];
        return true;
      }
      WithoutAbsent(waiters, target);
      return false;
    }

    // First critical section of AcquireWithStart; false when the pool is closed.
    method EnqueueWaiter(a: Waiter) returns (accepted: bool)
      requires Valid() && a !in waiters
      modifies this
      ensures Valid() && accepted == !old(closed)
      ensures State() == if old(closed) then old(State()) else Enqueue(old(State()), a)
    {
      if closed {
        return false;
      }
      waiters := waiters + [a];
      chan := chan[a := []];
      DispatchLocked();
      return true;
    }

    method CancelWaiter(a: Waiter) returns (removed: bool)
      requires Valid()
      modifies this
      ensures Valid() && removed == (a in old(waiters))
      ensures State() == Cancel(old(State()), a)
    {
      removed := RemoveWaiterLocked(a);
      if removed {
        WithoutSublist(old(waiters), a);
        DispatchLocked();
      } else {
        WithoutAbsent(old(waiters), a);
      }
    }

    // The section of acceptGrant after a failed ping.
    method ReplaceLocked() returns (canReplace: bool)
      requires Valid()
      modifies this
      ensures Valid() && canReplace == CanReplace(old(State()))
      ensures State() == ReplaceUnhealthy(old(State()))
    {
      active := active - 1;
      canReplace := !closed && active < limit;
      if canReplace {
        active := active + 1;
      }
      DispatchLocked();
    }

    // The section after a factory error, and of discardGrant for a create grant.
    method GiveBackLocked()
      requires Valid()
      modifies this
      ensures Valid() && State() == GiveBack(old(State()))
    {
      active := active - 1;
      DispatchLocked();
    }

    method UpdateLimit(size: int) returns (overflow: seq<Child>)
      requires Valid()
      modifies this
      ensures Valid() && Outcome(State(), overflow) == SetLimit(old(State()), size)
    {
      var n := size;
      if n <= 0 { n := DEFAULT_SUBAGENT_POOL_SIZE; }
      if n > MAX_SUBAGENT_POOL_SIZE { n := MAX_SUBAGENT_POOL_SIZE; }
      limit := n;
      overflow := TrimIdle();
      DispatchLocked();
    }

    // The loop of SetLimit, with the new limit in place.
    method TrimIdle() returns (overflow: seq<Child>)
      requires Valid()
      modifies this`idle, this`active
      ensures Valid() && Outcome(State(), overflow) == Trim(old(State()))
    {
      overflow := [];
      while |idle| > 0 && (active > limit || |idle| > limit)
        invariant Valid()
        invariant Trim(old(State())).pool == Trim(State()).pool
        invariant Trim(old(State())).dropped == overflow + Trim(State()).dropped
        decreases |idle|
      {
        var last := |idle| - 1;
        ghost var rest := Trim(State().(idle := idle[..last], active := active - 1));
        assert Trim(State()) == Outcome(rest.pool, [idle[last]] + rest.dropped);
        assert overflow + ([idle[last]] + rest.dropped) == (overflow + [idle[last]]) + rest.dropped;
        overflow := overflow + [idle[last]];
        idle := idle[..last];
        active := active - 1;
      }
    }

    method ResetIdle() returns (dropped: seq<Child>)
      requires Valid()
      modifies this
      ensures Valid() && Outcome(State(), dropped) == Reset(old(State()))
    {
      dropped := idle;
      idle := [];
      active := active - |dropped|;
      DispatchLocked();
    }

    method CloseLocked() returns (dropped: seq<Child>)
      requires Valid()
      modifies this
      ensures Valid() && Outcome(State(), dropped) == Close(old(State()))
    {
      if closed {
        return [];
      }
      closed := true;
      dropped := idle;
      idle := [];
      active := active - |dropped|;
      DispatchLocked();
    }
  }

  // The closure returned by releaseFunc: its sync.Once makes every call after
  // the first change nothing.
  class ReleaseHandle {
    const pool: Pooled
    const child: Child
    var used: bool

    constructor (pool: Pooled, child: Child)
      ensures this.pool == pool && this.child == child && !used
    {
      this.pool, this.child, used := pool, child, false;
    }

    method Call(reusable: bool) returns (dropped: seq<Child>)
      requires pool.Valid()
      modifies this, pool
      ensures pool.Valid() && used
      ensures old(used) ==> dropped == [] && pool.State() == old(pool.State())
      ensures !old(used) ==> Outcome(pool.State(), dropped) == Release(old(pool.State()), child, reusable)
      ensures !old(used) && reusable && HasRoomFor(old(pool.State())) ==>
        dropped == [] && Reused(old(pool.State()), pool.State(), child)
      ensures !old(used) && !(reusable && HasRoomFor(old(pool.State()))) ==> dropped == [child]
    {
      if used {
        return [];
      }
      used := true;
      ReleaseExactly(pool.State(), child, reusable);
      if reusable && !pool.closed && pool.active <= pool.limit {
        pool.idle := pool.idle + [child];
        dropped := [];
      } else {
        pool.active := pool.active - 1;
        dropped := [child];
      }
      pool.DispatchLocked();
    }
  }

  // ---- Without -------------------------------------------------------------

  lemma {:induction false} WithoutAt<T>(s: seq<T>, i: nat, x: T)
    requires i < |s| && s[i] == x && x !in s[..i]
    ensures Without(s, x) == s[..i] + s[i + 1..]
  {
    if i > 0 {
      assert s[0] in s[..i];
      assert s[1..][..i - 1] == s[1..i] <= s[..i][1..];
      forall y | y in s[1..][..i - 1] ensures y in s[..i] {
        var k :| 0 <= k < i - 1 && s[1..][k] == y;
        assert s[..i][k + 1] == y;
      }
      WithoutAt(s[1..], i - 1, x);
      assert s[..i] + s[i + 1..] == [s[0]] + (s[1..][..i - 1] + s[1..][i..]);
    }
  }

  lemma {:induction false} WithoutAbsent<T>(s: seq<T>, x: T)
    requires x !in s
    ensures Without(s, x) == s
  {
    if s != [] {
      WithoutAbsent(s[1..], x);
    }
  }

  // Removing one element keeps the rest distinct and in the same order.
  lemma {:induction false} WithoutSublist<T>(s: seq<T>, x: T)
    requires NoDup(s)
    ensures NoDup(Without(s, x))
    ensures forall y :: y in Without(s, x) <==> y in s && y != x
  {
    if s != [] && s[0] != x {
      WithoutSublist(s[1..], x);
      var rest := Without(s[1..], x);
      forall y ensures y in Without(s, x) <==> y in s && y != x {
        assert s == [s[0]] + s[1..];
      }
      assert s[0] !in rest by {
        assert s[0] !in s[1..];
      }
    } else if s != [] {
      assert s == [x] + s[1..];
    }
  }
}
