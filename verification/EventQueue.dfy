// The event queue between the reader of a child process and the consumer of
// its events (modules/agent/internal/runtime/subagent_process.go): a queue
// under a mutex, a one-slot wake channel, and a dispatcher goroutine.
module EventQueue {

  datatype EventType =
    | ReasoningDelta | Usage | ToolOutput  // optional, high-volume
    | MessageDelta | ToolStarted | ToolFinished | ToolFailed | ErrorEvent | Finish
    | OtherType(name: string)

  datatype Event = Event(typ: EventType, payload: nat)

  const QUEUE_LIMIT := 256
  const CHANNEL_SIZE := 256

  // The events that may be lost; all others are essential.
  const OPTIONAL: set<EventType> := {ReasoningDelta, Usage, ToolOutput}

  predicate IsDroppable(typ: EventType) {
    match typ
    case ReasoningDelta => true
    case Usage => true
    case ToolOutput => true
    case _ => false
  }

  // Is an event that finds `queued` events in the queue dropped?
  predicate Drops(e: Event, queued: nat) {
    IsDroppable(e.typ) && queued >= QUEUE_LIMIT
  }

  // ---- the critical sections, as methods ---------------------------------------------

  class Buffer {
    var eventQ: seq<Event>
    var wake: bool  // the token in eventWake

    constructor ()
      ensures eventQ == [] && !wake
    {
      eventQ, wake := [], false;
    }

    // The locked part of enqueueEvent; only an accepted event is signalled.
    method Enqueue(e: Event) returns (accepted: bool)
      modifies this`eventQ
      ensures accepted <==> e.typ !in OPTIONAL || |old(eventQ)| < 256
      ensures eventQ == if accepted then old(eventQ) + [e] else old(eventQ)
    {
      if IsDroppable(e.typ) && |eventQ| >= QUEUE_LIMIT {
        return false;
      }
      eventQ := eventQ + [e];
      return true;
    }

    // The non-blocking send on eventWake.
    method Signal()
      modifies this`wake
      ensures wake
    {
      if !wake {
        wake := true;
      }
    }

    // The locked part of the dispatcher's inner loop, shifting the queue down.
    method Pop() returns (found: bool, e: Event)
      modifies this`eventQ
      ensures found == (old(eventQ) != [])
      ensures found ==> old(eventQ) == [e] + eventQ
      ensures !found ==> eventQ == old(eventQ)
    {
      if |eventQ| == 0 {
        return false, Event(Finish, 0);
      }
      e := eventQ[0];
      var shifted := eventQ[1..] + [eventQ[|eventQ| - 1]];
      eventQ := shifted[..|shifted| - 1];
      return true, e;
    }
  }

  // ---- the protocol --------------------------------------------------------------------

  datatype Dispatcher =
    | Blocked                   // waiting for a wake token or for the exit
    | Popping                   // about to lock the queue
    | Sending(event: Event)     // popped an event, sending it on
    | Stopped(inHand: seq<Event>)  // saw the exit; the event it held, if any

  // An arrival remembers how many events were queued when it came.
  datatype Arrival = Arrival(event: Event, queued: nat)

  datatype World = World(
    queue: seq<Event>,
    wake: bool,
    signallers: nat,        // enqueuers that have unlocked but not yet signalled
    disp: Dispatcher,
    out: seq<Event>,        // the buffered events channel
    delivered: seq<Event>,  // received by the consumer
    done: bool,             // the child exited
    log: seq<Arrival>)

  datatype Action =
    | Arrive(e: Event)
    | SignalWake
    | Awake
    | PopEvent
    | SendOn
    | Consume
    | Exit
    | Stop

  function Init(): World {
    World([], false, 0, Blocked, [], [], false, [])
  }

  predicate Enabled(w: World, act: Action) {
    match act
    case Arrive(_) => true
    case SignalWake => w.signallers > 0
    case Awake => w.disp.Blocked? && w.wake
    case PopEvent => w.disp.Popping?
    case SendOn => w.disp.Sending? && |w.out| < CHANNEL_SIZE
    case Consume => w.out != []
    case Exit => !w.done
    case Stop => w.done && (w.disp.Blocked? || w.disp.Sending?)
  }

  function Apply(w: World, act: Action): World
    requires Enabled(w, act)
  {
    match act
    case Arrive(e) =>
      var seen := w.(log := w.log + [Arrival(e, |w.queue|)]);
      if Drops(e, |w.queue|) then seen
      else seen.(queue := w.queue + [e], signallers := w.signallers + 1)
    case SignalWake => w.(wake := true, signallers := w.signallers - 1)
    case Awake => w.(wake := false, disp := Popping)
    case PopEvent =>
      if w.queue == [] then w.(disp := Blocked)
      else w.(queue := w.queue[1..], disp := Sending(w.queue[0]))
    case SendOn => w.(out := w.out + [w.disp.event], disp := Popping)
    case Consume => w.(out := w.out[1..], delivered := w.delivered + [w.out[0]])
    case Exit => w.(done := true)
    case Stop => w.(disp := Stopped(InHand(w.disp)))
  }

  function InHand(d: Dispatcher): seq<Event> {
    match d
    case Sending(e) => [e]
    case Stopped(held) => held
    case _ => []
  }

  // ---- what was kept -------------------------------------------------------------------

  function Events(log: seq<Arrival>): seq<Event> {
    if log == [] then [] else Events(log[..|log| - 1]) + [log[|log| - 1].event]
  }

  function Kept(log: seq<Arrival>): seq<Event> {
    if log == [] then []
    else
      var rest, last := Kept(log[..|log| - 1]), log[|log| - 1];
      if Drops(last.event, last.queued) then rest else rest + [last.event]
  }

  function Essential(s: seq<Event>): seq<Event> {
    if s == [] then []
    else
      var rest, last := Essential(s[..|s| - 1]), s[|s| - 1];
      if last.typ in OPTIONAL then rest else rest + [last]
  }

  function Optional(s: seq<Event>): nat {
    if s == [] then 0
    else Optional(s[..|s| - 1]) + (if s[|s| - 1].typ in OPTIONAL then 1 else 0)
  }

  predicate IsSubsequence(s: seq<Event>, t: seq<Event>)
    decreases |t|
  {
    if t == [] then s == []
    else if s != [] && s[|s| - 1] == t[|t| - 1] && IsSubsequence(s[..|s| - 1], t[..|t| - 1]) then true
    else IsSubsequence(s, t[..|t| - 1])
  }

  // Where the kept events are, oldest first.
  function Pipeline(w: World): seq<Event> {
    w.delivered + w.out + InHand(w.disp) + w.queue
  }

  ghost predicate Inv(w: World) {
    // nothing kept is lost, duplicated or reordered
    && Pipeline(w) == Kept(w.log)
    // no lost wakeup
    && (w.disp.Blocked? && w.queue != [] ==> w.wake || w.signallers > 0)
    && |w.out| <= CHANNEL_SIZE
    && Optional(w.queue) <= QUEUE_LIMIT
    && (w.disp.Stopped? ==> w.done)
  }

  lemma OptionalTail(s: seq<Event>)
    requires s != []
    ensures Optional(s[1..]) <= Optional(s)
    ensures Optional(s) <= |s|
    decreases |s|
  {
    if |s| > 1 {
      OptionalTail(s[..|s| - 1]);
      assert s[1..][..|s| - 2] == s[..|s| - 1][1..];
    }
  }

  // Only an accepted arrival changes what is on its way, at the end.
  lemma PipelineStep(w: World, act: Action)
    requires Enabled(w, act)
    ensures !act.Arrive? ==> Pipeline(Apply(w, act)) == Pipeline(w)
    ensures act.Arrive? ==>
      Pipeline(Apply(w, act)) == Pipeline(w) + (if Drops(act.e, |w.queue|) then [] else [act.e])
  {
    var front, hand := w.delivered + w.out, InHand(w.disp);
    match act
    case Arrive(e) =>
      assert front + hand + (w.queue + [e]) == front + hand + w.queue + [e];
      assert Pipeline(w) + [] == Pipeline(w);
    case PopEvent =>
      if w.queue != [] {
        assert front + [] + w.queue == front + [w.queue[0]] + w.queue[1..];
      }
    case SendOn =>
      assert w.delivered + (w.out + hand) == front + hand;
      assert front + hand + [] == front + hand;
    case Consume =>
      assert w.delivered + [w.out[0]] + w.out[1..] == front;
    case _ =>
  }

  lemma KeptStep(w: World, act: Action)
    requires Enabled(w, act)
    ensures Kept(Apply(w, act).log) ==
      if act.Arrive? && !Drops(act.e, |w.queue|) then Kept(w.log) + [act.e] else Kept(w.log)
  {
    if act.Arrive? {
      assert Apply(w, act).log[..|w.log|] == w.log;
    }
  }

  lemma OptionalStep(w: World, act: Action)
    requires Enabled(w, act) && Optional(w.queue) <= QUEUE_LIMIT
    ensures Optional(Apply(w, act).queue) <= QUEUE_LIMIT
  {
    var w' := Apply(w, act);
    if w.queue != [] { OptionalTail(w.queue); }
    if w'.queue == w.queue {
    } else if act.Arrive? {
      assert w'.queue[..|w.queue|] == w.queue;
    }
  }

  lemma StepKeepsInv(w: World, act: Action)
    requires Inv(w) && Enabled(w, act)
    ensures Inv(Apply(w, act))
  {
    hide Pipeline, Kept, Optional;
    PipelineStep(w, act);
    KeptStep(w, act);
    OptionalStep(w, act);
  }

  // ---- runs ------------------------------------------------------------------------------

  ghost predicate IsRun(states: seq<World>, acts: seq<Action>) {
    && |states| == |acts| + 1
    && states[0] == Init()
    && forall i :: 0 <= i < |acts| ==> Enabled(states[i], acts[i]) && states[i + 1] == Apply(states[i], acts[i])
  }

  lemma {:induction false} RunInvariant(states: seq<World>, acts: seq<Action>, i: nat)
    requires IsRun(states, acts) && i < |states|
    ensures Inv(states[i])
  {
    if i > 0 {
      RunInvariant(states, acts, i - 1);
      StepKeepsInv(states[i - 1], acts[i - 1]);
    }
  }

  lemma {:induction false} KeptSubsequence(log: seq<Arrival>)
    ensures IsSubsequence(Kept(log), Events(log))
    ensures Essential(Kept(log)) == Essential(Events(log))
  {
    if log != [] {
      var front, last := log[..|log| - 1], log[|log| - 1];
      KeptSubsequence(front);
      assert Events(log)[..|front|] == Events(front) by { EventsLength(front); }
      EventsLength(front);
      if !Drops(last.event, last.queued) {
        var k := Kept(front);
        assert (k + [last.event])[..|k|] == k;
      }
    }
  }

  lemma {:induction false} EventsLength(log: seq<Arrival>)
    ensures |Events(log)| == |log|
  {
    if log != [] {
      EventsLength(log[..|log| - 1]);
    }
  }

  // In every state of every run, what was delivered, buffered, in hand and
  // queued is a subsequence of the arrivals that misses no essential event.
  lemma NoEssentialEventLost(states: seq<World>, acts: seq<Action>, i: nat)
    requires IsRun(states, acts) && i < |states|
    ensures var w := states[i];
      && IsSubsequence(Pipeline(w), Events(w.log))
      && Essential(Pipeline(w)) == Essential(Events(w.log))
  {
    RunInvariant(states, acts, i);
    KeptSubsequence(states[i].log);
  }

  // An arrival is dropped only if it is optional and 256 events are queued, and
  // the queue never holds more than 256 optional events.
  lemma DropsOnlyOptional(states: seq<World>, acts: seq<Action>, i: nat, e: Event)
    requires IsRun(states, acts) && i < |states|
    ensures var w, w' := states[i], Apply(states[i], Arrive(e));
      && (Pipeline(w') == Pipeline(w) || Pipeline(w') == Pipeline(w) + [e])
      && (Pipeline(w') == Pipeline(w) <==> e.typ in OPTIONAL && |w.queue| >= 256)
      && Optional(w.queue) <= 256
  {
    RunInvariant(states, acts, i);
    var w, w' := states[i], Apply(states[i], Arrive(e));
    if !Drops(e, |w.queue|) {
      assert Pipeline(w') == Pipeline(w) + [e];
      assert |Pipeline(w')| == |Pipeline(w)| + 1;
    }
  }

  // ---- progress ----------------------------------------------------------------------------

  // The steps of the enqueuers already under way, the dispatcher and the consumer.
  predicate IsInternal(act: Action) {
    act.SignalWake? || act.Awake? || act.PopEvent? || act.SendOn? || act.Consume?
  }

  function Work(w: World): nat {
    3 * w.signallers + (if w.wake then 2 else 0) + 3 * |w.queue| + |w.out|
    + match w.disp { case Popping => 1 case Sending(_) => 3 case _ => 0 }
  }

  // Without new arrivals only finitely many steps are possible ...
  lemma InternalStepsFinish(w: World, act: Action)
    requires Enabled(w, act) && IsInternal(act)
    ensures Work(Apply(w, act)) < Work(w)
  {
  }

  // ... and when none is left and the child has not exited, every kept event
  // has reached the consumer: no wakeup was lost.
  lemma QuietMeansDelivered(states: seq<World>, acts: seq<Action>, i: nat)
    requires IsRun(states, acts) && i < |states| && !states[i].done
    requires forall act :: IsInternal(act) ==> !Enabled(states[i], act)
    ensures states[i].queue == [] && states[i].out == []
    ensures states[i].delivered == Kept(states[i].log)
    ensures Essential(states[i].delivered) == Essential(Events(states[i].log))
  {
    hide Kept, Essential, Events, Optional, IsSubsequence;
    var w := states[i];
    RunInvariant(states, acts, i);
    KeptSubsequence(w.log);
    assert !Enabled(w, SignalWake) && !Enabled(w, Awake) && !Enabled(w, PopEvent);
    assert !Enabled(w, SendOn) && !Enabled(w, Consume);
    assert w.disp.Blocked? && w.queue == [] && w.out == [];
    assert Pipeline(w) == w.delivered by {
      assert w.delivered + [] == w.delivered;
    }
  }
}
