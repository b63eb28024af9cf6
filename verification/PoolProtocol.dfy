// The pool as a transition system. One step is one critical section, one
// channel receive, or one return of a ping or of the process factory; any
// interleaving of any number of acquirers is a run.
module PoolProtocol {
  import opened SubAgentPool
  import opened Wrappers

  // Where the goroutine behind one AcquireWithStart call is.
  datatype Phase =
    | Waiting                   // in the select, its channel empty or filled
    | Draining                  // cancelled too late; about to receive its grant
    | Discarding(grant: Grant)  // in discardGrant, lock not yet taken
    | Pinging(child: Child)     // health check of a reused child
    | Evicting(child: Child)    // ping failed, child closed, lock not yet taken
    | Starting                  // inside the process factory
    | StartFailed               // factory error, lock not yet taken
    | Holding(child: Child)     // returned to the caller
    | Released                  // release function called
    | Finished                  // returned without a child

  datatype World = World(
    pool: Pool,
    phase: map<Waiter, Phase>,
    arrivals: seq<Waiter>,  // every waiter ever enqueued, in order
    removed: set<Waiter>,   // waiters taken out of the queue by cancellation
    born: set<Child>,       // every child a factory ever returned
    closes: seq<Child>)     // every child handed to Close, in order

  datatype Action =
    | Arrive(a: Waiter)
    | Receive(a: Waiter)
    | CtxDone(a: Waiter)
    | Drain(a: Waiter)
    | Discard(a: Waiter)
    | PingOk(a: Waiter)
    | PingFail(a: Waiter)
    | Replace(a: Waiter)
    | FactoryOk(a: Waiter, child: Child)
    | FactoryFail(a: Waiter)
    | ReturnSlot(a: Waiter)
    | ReleaseChild(a: Waiter, reusable: bool)
    | ReleaseAgain(a: Waiter, reusable: bool)
    | Resize(limit: int)
    | ResetPool
    | ClosePool

  function Init(limit: int): World {
    World(Pool(ClampLimit(limit), 0, [], [], false, map[], []), map[], [], {}, {}, [])
  }

  predicate InPhase(w: World, a: Waiter, ph: Phase) {
    a in w.phase && w.phase[a] == ph
  }

  predicate Enabled(w: World, act: Action) {
    match act
    case Arrive(a) => a !in w.phase && !w.pool.closed
    case Receive(a) => InPhase(w, a, Waiting) && Buffered(w.pool, a) != []
    case CtxDone(a) => InPhase(w, a, Waiting)
    case Drain(a) => InPhase(w, a, Draining) && Buffered(w.pool, a) != []
    case Discard(a) => a in w.phase && w.phase[a].Discarding?
    case PingOk(a) => a in w.phase && w.phase[a].Pinging?
    case PingFail(a) => a in w.phase && w.phase[a].Pinging?
    case Replace(a) => a in w.phase && w.phase[a].Evicting?
    case FactoryOk(a, c) => InPhase(w, a, Starting) && c !in w.born
    case FactoryFail(a) => InPhase(w, a, Starting)
    case ReturnSlot(a) => InPhase(w, a, StartFailed)
    case ReleaseChild(a, _) => a in w.phase && w.phase[a].Holding?
    case ReleaseAgain(a, _) => InPhase(w, a, Released)
    case Resize(_) => true
    case ResetPool => true
    case ClosePool => true
  }

  function Move(w: World, a: Waiter, ph: Phase, p: Pool): World {
    w.(phase := w.phase[a := ph], pool := p)
  }

  function Dropping(w: World, o: Outcome): World {
    w.(pool := o.pool, closes := w.closes + o.dropped)
  }

  function TakeGrant(p: Pool, a: Waiter): Pool
    requires Buffered(p, a) != []
  {
    p.(chan := p.chan[a := Buffered(p, a)[1..]])
  }

  function Apply(w: World, act: Action): World
    requires Enabled(w, act)
  {
    var p := w.pool;
    match act
    case Arrive(a) =>
      Move(w, a, Waiting, Enqueue(p, a)).(arrivals := w.arrivals + [a])
    case Receive(a) =>
      Move(w, a, match Buffered(p, a)[0] {
        case GrantClosed => Finished
        case GrantCreate => Starting
        case GrantChild(c) => Pinging(c)
      }, TakeGrant(p, a))
    case CtxDone(a) =>
      if a in p.waiters then Move(w, a, Finished, Cancel(p, a)).(removed := w.removed + {a})
      else Move(w, a, Draining, p)
    case Drain(a) =>
      var g := Buffered(p, a)[0];
      Move(w, a, if g == GrantClosed then Finished else Discarding(g), TakeGrant(p, a))
    case Discard(a) =>
      (match w.phase[a].grant
       case GrantChild(c) => Dropping(Move(w, a, Finished, p), Release(p, c, true))
       case GrantCreate => Move(w, a, Finished, GiveBack(p))
       case GrantClosed => Move(w, a, Finished, p))
    case PingOk(a) => Move(w, a, Holding(w.phase[a].child), p)
    case PingFail(a) =>
      Move(w, a, Evicting(w.phase[a].child), p).(closes := w.closes + [w.phase[a].child])
    case Replace(a) =>
      Move(w, a, if CanReplace(p) then Starting else Finished, ReplaceUnhealthy(p))
    case FactoryOk(a, c) => Move(w, a, Holding(c), p).(born := w.born + {c})
    case FactoryFail(a) => Move(w, a, StartFailed, p)
    case ReturnSlot(a) => Move(w, a, Finished, GiveBack(p))
    case ReleaseChild(a, reusable) =>
      Dropping(Move(w, a, Released, p), Release(p, w.phase[a].child, reusable))
    case ReleaseAgain(a, reusable) => w
    case Resize(limit) => Dropping(w, SetLimit(p, limit))
    case ResetPool => Dropping(w, Reset(p))
    case ClosePool => Dropping(w, Close(p))
  }

  // ---- tokens outside the lock ---------------------------------------------

  // Does this acquirer account for one unit of `active`?
  predicate HasSlot(w: World, a: Waiter)
    requires a in w.phase
  {
    match w.phase[a]
    case Waiting => Buffered(w.pool, a) != [] && Buffered(w.pool, a)[0] != GrantClosed
    case Draining => Buffered(w.pool, a) != [] && Buffered(w.pool, a)[0] != GrantClosed
    case Discarding(g) => g != GrantClosed
    case Released => false
    case Finished => false
    case _ => true
  }

  // The live child this acquirer has, in its channel or in its hands.
  function ChildAt(w: World, a: Waiter): Option<Child>
    requires a in w.phase
  {
    match w.phase[a]
    case Waiting => InChannel(w.pool, a)
    case Draining => InChannel(w.pool, a)
    case Discarding(g) => if g.GrantChild? then Some(g.child) else None
    case Pinging(c) => Some(c)
    case Holding(c) => Some(c)
    case _ => None
  }

  function InChannel(p: Pool, a: Waiter): Option<Child> {
    if Buffered(p, a) != [] && Buffered(p, a)[0].GrantChild? then Some(Buffered(p, a)[0].child) else None
  }

  ghost function Slots(w: World): set<Waiter> {
    set a | a in w.phase && HasSlot(w, a)
  }

  ghost predicate HeldSomewhere(w: World, c: Child) {
    exists a :: a in w.phase && ChildAt(w, a) == Some(c)
  }

  // ---- the invariant --------------------------------------------------------

  // Conservation: the counter is idle children plus slots outside the lock.
  ghost predicate Conserved(w: World) {
    w.pool.active == |w.pool.idle| + |Slots(w)|
  }

  // Every child is in exactly one place: idle, with one acquirer, or closed.
  ghost predicate OnePlace(w: World) {
    && NoDup(w.pool.idle) && NoDup(w.closes)
    && (forall c :: c in w.pool.idle ==> c in w.born && c !in w.closes)
    && (forall c :: c in w.closes ==> c in w.born)
    && (forall a :: a in w.phase && ChildAt(w, a).Some? ==> LiveElsewhere(w, ChildAt(w, a).value))
    && (forall a, b :: a in w.phase && b in w.phase && a != b && ChildAt(w, a).Some? ==>
          ChildAt(w, a) != ChildAt(w, b))
    && (forall c :: c in w.born ==> c in w.pool.idle || c in w.closes || HeldSomewhere(w, c))
  }

  predicate LiveElsewhere(w: World, c: Child) {
    c in w.born && c !in w.pool.idle && c !in w.closes
  }

  // What each acquirer's channel holds in each phase.
  predicate ChannelFits(w: World, a: Waiter)
    requires a in w.phase
  {
    var b := Buffered(w.pool, a);
    match w.phase[a]
    case Waiting => if a in w.pool.waiters then b == [] else |b| == 1
    case Draining => a !in w.pool.waiters && |b| == 1
    case _ => a !in w.pool.waiters && b == []
  }

  ghost predicate Queued(w: World) {
    && NoDup(w.pool.waiters)
    && (forall a :: a in w.pool.waiters ==> a in w.phase)
    && (forall a :: a in w.phase ==> ChannelFits(w, a))
  }

  // The arrivals that were not cancelled out of the queue, in order.
  function Survivors(s: seq<Waiter>, gone: set<Waiter>): seq<Waiter> {
    if s == [] then []
    else
      var rest, last := Survivors(s[..|s| - 1], gone), s[|s| - 1];
      if last in gone then rest else rest + [last]
  }

  // First in, first out: what was sent, then what still waits, is the arrival
  // order without the cancelled waiters.
  ghost predicate Fifo(w: World) {
    && NoDup(w.arrivals)
    && (forall a :: a in w.phase <==> a in w.arrivals)
    && (forall a :: a in w.removed ==> a in w.arrivals)
    && Survivors(w.arrivals, w.removed) == w.pool.sent + w.pool.waiters
  }

  predicate Bounded(p: Pool) {
    && 1 <= p.limit <= MAX_SUBAGENT_POOL_SIZE
    && p.active <= MAX_SUBAGENT_POOL_SIZE
    && (p.closed ==> p.idle == [])
    && (p.idle != [] ==> p.active <= p.limit)
  }

  // No waiter is left behind while a child is idle or a slot is free.
  predicate WorkConserving(p: Pool) {
    p.waiters != [] ==> !p.closed && p.idle == [] && p.active >= p.limit
  }

  ghost predicate Core(w: World) {
    Conserved(w) && OnePlace(w) && Queued(w) && Fifo(w) && Bounded(w.pool)
  }

  ghost predicate Inv(w: World) {
    Core(w) && WorkConserving(w.pool)
  }
}
