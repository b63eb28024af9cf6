// Forwarding a run's events to one WebSocket session
// (modules/gateway/internal/gateway/controller/websocket.go, subscribe,
// replay, sendEvent, markEventSent, enqueue).
module EventFilter {
  import opened Strings

  datatype Event = Event(run: Text, rootSeq: nat)

  // Events without run or number pass the filter unseen.
  predicate Counted(e: Event) { e.run != "" && e.rootSeq != 0 }

  function Last(last: map<Text, nat>, run: Text): nat { if run in last then last[run] else 0 }

  predicate Accepts(last: map<Text, nat>, e: Event) { Counted(e) ==> e.rootSeq > Last(last, e.run) }

  function Mark(last: map<Text, nat>, e: Event): map<Text, nat> {
    if Counted(e) && Accepts(last, e) then last[e.run := e.rootSeq] else last
  }

  // A message to the browser: an event, with the goroutine that forwards it, or
  // a reply, which shares the channel.
  datatype Item = Forwarded(sender: nat, event: Event) | Reply(text: Text)

  // Capacity of the session's send channel.
  const SEND_CAPACITY: nat := 128

  // A non-blocking send.
  function Sent(send: seq<Item>, m: Item): seq<Item> { send + if |send| < SEND_CAPACITY then [m] else [] }

  // The channel after the writer has taken `n` messages, or all there are.
  function Taken(send: seq<Item>, n: nat): seq<Item> { if n <= |send| then send[n..] else [] }

  class Session {
    var lastSentSeq: map<Text, nat>
    var subscriptions: set<Text>
    var send: seq<Item>

    constructor ()
      ensures lastSentSeq == map[] && subscriptions == {} && send == []
    {
      lastSentSeq, subscriptions, send := map[], {}, [];
    }

    // Whether a forwarding goroutine is started for the run.
    method Subscribe(run: Text) returns (starts: bool)
      modifies this`subscriptions
      ensures starts <==> run != "" && run !in old(subscriptions)
      ensures subscriptions == if run == "" then old(subscriptions) else old(subscriptions) + {run}
    {
      if run == "" {
        return false;
      }
      if run in subscriptions {
        return false;
      }
      subscriptions := subscriptions + {run};
      return true;
    }

    method MarkEventSent(run: Text, rootSeq: nat) returns (ok: bool)
      modifies this`lastSentSeq
      ensures ok <==> run == "" || rootSeq == 0 || run !in old(lastSentSeq) || rootSeq > old(lastSentSeq)[run]
      ensures lastSentSeq == Mark(old(lastSentSeq), Event(run, rootSeq))
    {
      if run == "" || rootSeq == 0 {
        return true;
      }
      if run in lastSentSeq {
        if rootSeq <= lastSentSeq[run] {
          return false;
        }
      }
      lastSentSeq := lastSentSeq[run := rootSeq];
      return true;
    }

    method Enqueue(m: Item)
      modifies this`send
      ensures send == Sent(old(send), m)
    {
      if |send| < SEND_CAPACITY {
        send := send + [m];
      }
    }

    // What writeLoop takes meanwhile.
    method Write(n: nat)
      modifies this`send
      ensures send == Taken(old(send), n)
    {
      for k := 0 to n
        invariant send == Taken(old(send), k)
      {
        if |send| > 0 {
          send := send[1..];
        }
      }
    }

    method SendEvent(sender: nat, e: Event)
      modifies this`lastSentSeq, this`send
      ensures lastSentSeq == Mark(old(lastSentSeq), e)
      ensures send == if Accepts(old(lastSentSeq), e) then Sent(old(send), Forwarded(sender, e)) else old(send)
    {
      var ok := MarkEventSent(e.run, e.rootSeq);
      if !ok {
        return;
      }
      Enqueue(Forwarded(sender, e));
    }

    // The replay loop; before event k the writer takes `taken(k)` messages.
    method Replay(sender: nat, events: seq<Event>, taken: nat -> nat)
      modifies this`lastSentSeq, this`send
      ensures lastSentSeq == Marks(old(lastSentSeq), events)
      ensures send == Replayed(old(lastSentSeq), old(send), sender, events, taken)
    {
      for k := 0 to |events|
        invariant lastSentSeq == Marks(old(lastSentSeq), events[..k])
        invariant send == Replayed(old(lastSentSeq), old(send), sender, events[..k], taken)
      {
        assert events[..k + 1][..k] == events[..k];
        Write(taken(k));
        SendEvent(sender, events[k]);
      }
      assert events[..|events|] == events;
    }
  }

  function Replayed(last: map<Text, nat>, send: seq<Item>, sender: nat, events: seq<Event>, taken: nat -> nat): seq<Item> {
    if events == [] then send
    else
      var n := |events| - 1;
      var room := Taken(Replayed(last, send, sender, events[..n], taken), taken(n));
      if Accepts(Marks(last, events[..n]), events[n]) then Sent(room, Forwarded(sender, events[n])) else room
  }

  function ByOne(sender: nat, events: seq<Event>): seq<Item> {
    if events == [] then [] else ByOne(sender, events[..|events| - 1]) + [Forwarded(sender, events[|events| - 1])]
  }

  // A writer that takes at least one message per event loses none: what it has
  // taken and what is left are the channel's old content and then the events
  // that passed the filter, in order.
  lemma {:induction false} ReplayLosesNothing(
    last: map<Text, nat>, send: seq<Item>, sender: nat, events: seq<Event>, taken: nat -> nat) returns (written: seq<Item>)
    requires |send| <= SEND_CAPACITY && forall k :: taken(k) >= 1
    ensures |Replayed(last, send, sender, events, taken)| <= SEND_CAPACITY
    ensures written + Replayed(last, send, sender, events, taken) == send + ByOne(sender, Accepted(last, events))
  {
    hide Accepts, Marks, Taken;
    if events == [] {
      written := [];
    } else {
      var n := |events| - 1;
      var front, e := events[..n], events[n];
      written := ReplayLosesNothing(last, send, sender, front, taken);
      var more := TakenFirst(Replayed(last, send, sender, front, taken), taken(n));
      var room := Taken(Replayed(last, send, sender, front, taken), taken(n));
      assert (written + more) + room == send + ByOne(sender, Accepted(last, front));
      written := written + more;
      if Accepts(Marks(last, front), e) {
        assert (Accepted(last, front) + [e])[..|Accepted(last, front)|] == Accepted(last, front);
        assert written + (room + [Forwarded(sender, e)]) == (written + room) + [Forwarded(sender, e)];
      } else {
        assert Accepted(last, front) + [] == Accepted(last, front);
      }
    }
  }

  // What a writer takes that takes something.
  lemma TakenFirst(send: seq<Item>, n: nat) returns (more: seq<Item>)
    requires |send| <= SEND_CAPACITY && n >= 1
    ensures send == more + Taken(send, n) && |Taken(send, n)| < SEND_CAPACITY
  {
    more := if n <= |send| then send[..n] else send;
  }

  // ---- what the filter lets through ------------------------------------------------------------

  // The filter's state after offering it `events`.
  function Marks(last: map<Text, nat>, events: seq<Event>): map<Text, nat> {
    if events == [] then last
    else Mark(Marks(last, events[..|events| - 1]), events[|events| - 1])
  }

  function Accepted(last: map<Text, nat>, events: seq<Event>): seq<Event> {
    if events == [] then []
    else
      var front := events[..|events| - 1];
      Accepted(last, front) + if Accepts(Marks(last, front), events[|events| - 1]) then [events[|events| - 1]] else []
  }

  predicate Passes(events: seq<Event>, k: nat)
    requires k < |events|
  {
    Accepts(Marks(map[], events[..k]), events[k])
  }

  // The filter remembers the greatest number offered for each run.
  lemma {:induction false} LastIsGreatest(events: seq<Event>, run: Text)
    requires run != ""
    ensures forall k :: 0 <= k < |events| && events[k].run == run ==>
      events[k].rootSeq <= Last(Marks(map[], events), run)
    ensures Last(Marks(map[], events), run) != 0 ==>
      exists k :: 0 <= k < |events| && events[k] == Event(run, Last(Marks(map[], events), run))
  {
    if events != [] {
      var n := |events| - 1;
      LastIsGreatest(events[..n], run);
      var before, after := Last(Marks(map[], events[..n]), run), Last(Marks(map[], events), run);
      if after != before {
        assert events[n] == Event(run, after);
      } else if after != 0 {
        var k :| 0 <= k < n && events[..n][k] == Event(run, before);
        assert events[k] == Event(run, after);
      }
      forall k | 0 <= k < |events| && events[k].run == run ensures events[k].rootSeq <= after {
        if k < n { assert events[..n][k] == events[k]; }
      }
    }
  }

  // An event of a run passes exactly when its number exceeds every number
  // offered before it, let through or not.
  lemma PassesExactly(events: seq<Event>, k: nat)
    requires k < |events| && Counted(events[k])
    ensures Passes(events, k) <==> IsRecord(events, k)
  {
    var e, front := events[k], events[..k];
    LastIsGreatest(front, e.run);
    assert forall j :: 0 <= j < k ==> front[j] == events[j];
    var last := Last(Marks(map[], front), e.run);
    if last != 0 {
      var j :| 0 <= j < k && front[j] == Event(e.run, last);
      assert events[j].rootSeq == last;
    }
  }

  // An event without run or number always passes and leaves no trace.
  lemma UnnumberedPass(events: seq<Event>, k: nat)
    requires k < |events| && (events[k].run == "" || events[k].rootSeq == 0)
    ensures Passes(events, k) && Marks(map[], events[..k + 1]) == Marks(map[], events[..k])
  {
    assert events[..k + 1][..k] == events[..k];
  }

  // So each numbered event passes at most once.
  lemma PassesOnce(events: seq<Event>, j: nat, k: nat)
    requires j < k < |events| && Counted(events[k]) && Passes(events, k) && events[j].run == events[k].run
    ensures events[j].rootSeq < events[k].rootSeq
  {
    PassesExactly(events, k);
  }

  ghost predicate Delivered(events: seq<Event>, e: Event) {
    exists k: nat :: k < |events| && events[k] == e && Passes(events, k)
  }

  // Event `k` is greater than everything its run offered before.
  predicate IsRecord(events: seq<Event>, k: nat)
    requires k < |events|
  {
    forall j :: 0 <= j < k && events[j].run == events[k].run ==> events[j].rootSeq < events[k].rootSeq
  }

  // `e` was offered before anything greater of its run.
  ghost predicate NeverOvertaken(events: seq<Event>, e: Event) {
    exists k: nat :: k < |events| && events[k] == e && IsRecord(events, k)
  }

  // The filter loses exactly the events that a later one of their run overtook,
  // say a live event ahead of the replay.
  lemma LosesExactlyTheOvertaken(events: seq<Event>, e: Event)
    requires Counted(e)
    ensures Delivered(events, e) <==> NeverOvertaken(events, e)
  {
    hide Passes, IsRecord;
    if k: nat :| k < |events| && events[k] == e && Passes(events, k) {
      PassesExactly(events, k);
    }
    if k: nat :| k < |events| && events[k] == e && IsRecord(events, k) {
      PassesExactly(events, k);
    }
  }

  // ---- live events and replays side by side -----------------------------------------------------

  // Several goroutines forward to one session, each an event at a time; marking
  // an event and queueing it are two steps. Replies go to the same channel.
  datatype World = World(
    last: map<Text, nat>,
    marked: seq<Item>,      // marked and on the way to the send channel
    send: seq<Item>,
    written: seq<Item>,     // taken from the channel sender the writer, in order
    dropped: seq<Item>,     // found the channel full
    offered: seq<Event>)

  datatype Action = Offer(sender: nat, e: Event) | Queue(which: nat) | Respond(text: Text) | WriteNext

  function Init(): World { World(map[], [], [], [], [], []) }

  predicate Busy(w: World, sender: nat) { exists k :: 0 <= k < |w.marked| && w.marked[k].Forwarded? && w.marked[k].sender == sender }

  predicate Enabled(w: World, act: Action) {
    match act
    case Offer(sender, _) => !Busy(w, sender)
    case Queue(k) => k < |w.marked|
    case Respond(_) => true
    case WriteNext => w.send != []
  }

  function Without(items: seq<Item>, k: nat): seq<Item>
    requires k < |items|
  {
    items[..k] + items[k + 1..]
  }

  function Apply(w: World, act: Action): World
    requires Enabled(w, act)
  {
    match act
    case Offer(sender, e) =>
      w.(last := Mark(w.last, e), offered := w.offered + [e],
         marked := w.marked + if Accepts(w.last, e) then [Forwarded(sender, e)] else [])
    case Queue(k) =>
      var rest := w.(marked := Without(w.marked, k));
      if |w.send| < SEND_CAPACITY then rest.(send := w.send + [w.marked[k]])
      else rest.(dropped := w.dropped + [w.marked[k]])
    case Respond(text) => w.(send := Sent(w.send, Reply(text)))
    case WriteNext => w.(written := w.written + [w.send[0]], send := w.send[1..])
  }

  ghost predicate IsRun(states: seq<World>, acts: seq<Action>) {
    && |states| == |acts| + 1
    && states[0] == Init()
    && forall i :: 0 <= i < |acts| ==> Enabled(states[i], acts[i]) && states[i + 1] == Apply(states[i], acts[i])
  }

  // How often an event occurs among messages.
  function Count(items: seq<Item>, e: Event): nat {
    if items == [] then 0
    else
      var m := items[|items| - 1];
      Count(items[..|items| - 1], e) + if m.Forwarded? && m.event == e then 1 else 0
  }

  lemma {:induction false} CountConcat(a: seq<Item>, b: seq<Item>, e: Event)
    ensures Count(a + b, e) == Count(a, e) + Count(b, e)
  {
    if b == [] {
      assert a + b == a;
    } else {
      assert (a + b)[..|a + b| - 1] == a + b[..|b| - 1] && (a + b)[|a + b| - 1] == b[|b| - 1];
      CountConcat(a, b[..|b| - 1], e);
    }
  }

  lemma TakeOut(items: seq<Item>, k: nat, e: Event)
    requires k < |items|
    ensures Count(items, e) == Count(Without(items, k), e) + Count([items[k]], e)
    ensures k == 0 ==> Without(items, k) == items[1..]
  {
    assert items == (items[..k] + [items[k]]) + items[k + 1..];
    CountConcat(items[..k] + [items[k]], items[k + 1..], e);
    CountConcat(items[..k], [items[k]], e);
    CountConcat(items[..k], items[k + 1..], e);
  }

  lemma CountOne(m: Item, e: Event)
    ensures Count([m], e) == if m.Forwarded? && m.event == e then 1 else 0
  {
    assert [m][..0] == [];
  }

  // Copies of an event that passed the filter, wherever they are now.
  function Copies(w: World, e: Event): nat {
    Count(w.marked, e) + Count(w.send, e) + Count(w.written, e) + Count(w.dropped, e)
  }

  ghost predicate Inv(w: World, e: Event) {
    && w.last == Marks(map[], w.offered)
    && Copies(w, e) == (if Delivered(w.offered, e) then 1 else 0)
    && |w.send| <= SEND_CAPACITY
  }

  lemma OfferKeepsInv(w: World, sender: nat, x: Event, e: Event)
    requires Inv(w, e) && Enabled(w, Offer(sender, x)) && Counted(e)
    ensures Inv(Apply(w, Offer(sender, x)), e)
  {
    hide Mark, Accepts, Count, Delivered;
    assert (w.offered + [x])[..|w.offered|] == w.offered;
    assert w.marked + [] == w.marked;
    CountConcat(w.marked, [Forwarded(sender, x)], e);
    CountOne(Forwarded(sender, x), e);
    DeliveredPush(w.offered, x, e);
  }

  lemma MovingKeepsInv(w: World, act: Action, e: Event)
    requires Inv(w, e) && Enabled(w, act) && !act.Offer?
    ensures Inv(Apply(w, act), e)
  {
    hide Count, Marks, Delivered;
    match act
    case Queue(k) =>
      TakeOut(w.marked, k, e);
      CountConcat(w.send, [w.marked[k]], e);
      CountConcat(w.dropped, [w.marked[k]], e);
    case Respond(text) =>
      assert w.send + [] == w.send;
      CountConcat(w.send, [Reply(text)], e);
      CountOne(Reply(text), e);
    case WriteNext =>
      TakeOut(w.send, 0, e);
      CountConcat(w.written, [w.send[0]], e);
  }

  lemma {:induction false} RunInvariant(states: seq<World>, acts: seq<Action>, i: nat, e: Event)
    requires IsRun(states, acts) && i < |states| && Counted(e)
    ensures Inv(states[i], e)
  {
    assert Inv(Init(), e);
    hide Inv;
    if i > 0 {
      RunInvariant(states, acts, i - 1, e);
      if acts[i - 1].Offer? {
        OfferKeepsInv(states[i - 1], acts[i - 1].sender, acts[i - 1].e, e);
      } else {
        MovingKeepsInv(states[i - 1], acts[i - 1], e);
      }
    }
  }

  lemma DeliveredPush(front: seq<Event>, x: Event, e: Event)
    requires Counted(e)
    ensures Delivered(front + [x], e) <==> Delivered(front, e) || (x == e && Accepts(Marks(map[], front), x))
    ensures x == e && Accepts(Marks(map[], front), x) ==> !Delivered(front, e)
  {
    hide Accepts, Marks;
    var events := front + [x];
    assert events[..|front|] == front;
    assert forall k: nat :: k < |front| ==> events[..k] == front[..k] && events[k] == front[k];
    if k: nat :| k < |front| && front[k] == e && Passes(front, k) {
      assert Passes(events, k);
      if x == e && Passes(events, |front|) {
        PassesOnce(events, k, |front|);
      }
    }
    if k: nat :| k < |events| && events[k] == e && Passes(events, k) {
      assert k < |front| ==> Passes(front, k);
    }
    assert Passes(events, |front|) == Accepts(Marks(map[], front), x);
  }

  // No numbered event reaches the browser twice, whatever the interleaving of
  // live forwarding, replays, replies and the writer; an event is lost exactly
  // when it was overtaken at the filter or found the channel full.
  lemma WrittenAtMostOnce(states: seq<World>, acts: seq<Action>, i: nat, e: Event)
    requires IsRun(states, acts) && i < |states| && Counted(e)
    ensures var w := states[i];
      && Count(w.written, e) <= 1
      && (w.marked == [] && w.send == [] ==>
            (Count(w.written, e) == 1 <==> NeverOvertaken(w.offered, e) && Count(w.dropped, e) == 0))
      && (Count(w.dropped, e) > 0 ==> Count(w.written, e) == Count(w.send, e) == Count(w.marked, e) == 0)
  {
    hide NeverOvertaken, Delivered;
    RunInvariant(states, acts, i, e);
    LosesExactlyTheOvertaken(states[i].offered, e);
  }

  // A dropped event is never offered with success again.
  lemma DroppedForGood(states: seq<World>, acts: seq<Action>, i: nat, e: Event)
    requires IsRun(states, acts) && i < |states| && Counted(e) && Count(states[i].dropped, e) > 0
    ensures !Accepts(states[i].last, e)
  {
    hide Accepts, Count;
    RunInvariant(states, acts, i, e);
    DeliveredPush(states[i].offered, e, e);
  }

  // ---- the order on the wire -------------------------------------------------------------------

  predicate IsOf(m: Item, run: Text) { m.Forwarded? && m.event.run == run && m.event.rootSeq != 0 }

  // The numbers of a run's events among messages, in order.
  function Numbers(items: seq<Item>, run: Text): seq<nat> {
    if items == [] then []
    else
      var m := items[|items| - 1];
      Numbers(items[..|items| - 1], run) + if IsOf(m, run) then [m.event.rootSeq] else []
  }

  predicate Rising(ns: seq<nat>) { forall i, j :: 0 <= i < j < |ns| ==> ns[i] < ns[j] }

  predicate AtMost(ns: seq<nat>, n: nat) { forall i :: 0 <= i < |ns| ==> ns[i] <= n }

  lemma {:induction false} NumbersConcat(a: seq<Item>, b: seq<Item>, run: Text)
    ensures Numbers(a + b, run) == Numbers(a, run) + Numbers(b, run)
  {
    if b == [] {
      assert a + b == a;
    } else {
      assert (a + b)[..|a + b| - 1] == a + b[..|b| - 1] && (a + b)[|a + b| - 1] == b[|b| - 1];
      NumbersConcat(a, b[..|b| - 1], run);
    }
  }

  function NumberOf(m: Item, run: Text): seq<nat> { if IsOf(m, run) then [m.event.rootSeq] else [] }

  lemma NumbersSplit(items: seq<Item>, k: nat, run: Text)
    requires k < |items|
    ensures Numbers(items, run) == Numbers(items[..k], run) + NumberOf(items[k], run) + Numbers(items[k + 1..], run)
    ensures Numbers(Without(items, k), run) == Numbers(items[..k], run) + Numbers(items[k + 1..], run)
    ensures Numbers([items[k]], run) == NumberOf(items[k], run)
  {
    assert [items[k]][..0] == [];
    assert items == (items[..k] + [items[k]]) + items[k + 1..];
    NumbersConcat(items[..k] + [items[k]], items[k + 1..], run);
    NumbersConcat(items[..k], [items[k]], run);
    NumbersConcat(items[..k], items[k + 1..], run);
  }

  // The run's events in the order in which the browser will see them, if those
  // still on the way are queued in the order in which they were marked.
  function Line(w: World, run: Text): seq<nat> {
    Numbers(w.written, run) + Numbers(w.send, run) + Numbers(w.marked, run)
  }

  ghost predicate InOrder(w: World, run: Text) { Rising(Line(w, run)) && AtMost(Line(w, run), Last(w.last, run)) }

  // An event of the run is queued only when none marked before it still waits.
  predicate OldestFirst(w: World, act: Action, run: Text) {
    act.Queue? && act.which < |w.marked| && IsOf(w.marked[act.which], run) ==>
      Numbers(w.marked[..act.which], run) == []
  }

  lemma DropOne(a: seq<nat>, n: seq<nat>, b: seq<nat>, bound: nat)
    requires Rising(a + n + b) && AtMost(a + n + b, bound)
    ensures Rising(a + b) && AtMost(a + b, bound)
  {
    var long, short, m := a + n + b, a + b, |n|;
    assert forall i :: 0 <= i < |short| ==> short[i] == long[if i < |a| then i else i + m];
  }

  lemma QueueKeepsOrder(w: World, k: nat, run: Text)
    requires InOrder(w, run) && k < |w.marked| && OldestFirst(w, Queue(k), run)
    ensures InOrder(Apply(w, Queue(k)), run)
  {
    hide Rising, AtMost, Numbers;
    var w', m := Apply(w, Queue(k)), w.marked[k];
    NumbersSplit(w.marked, k, run);
    NumbersConcat(w.send, [m], run);
    var head, n, tail := Numbers(w.written, run) + Numbers(w.send, run), NumberOf(m, run), Numbers(w.marked[k + 1..], run);
    if n == [] {
      assert Line(w', run) == Line(w, run);
    } else {
      assert Line(w, run) == head + n + tail;
      if |w.send| < SEND_CAPACITY {
        assert Line(w', run) == head + n + tail;
      } else {
        assert Line(w', run) == head + tail;
        DropOne(head, n, tail, Last(w.last, run));
      }
    }
  }

  lemma PushRising(ns: seq<nat>, last: nat, n: nat)
    requires Rising(ns) && AtMost(ns, last) && n > last
    ensures Rising(ns + [n]) && AtMost(ns + [n], n)
  {
  }

  // A mark adds the number to the marked ones, above all that went before.
  lemma MarkedPush(w: World, sender: nat, x: Event, run: Text)
    requires Enabled(w, Offer(sender, x)) && run != ""
    ensures var w' := Apply(w, Offer(sender, x));
      || (Numbers(w'.marked, run) == Numbers(w.marked, run) && Last(w'.last, run) >= Last(w.last, run))
      || (Numbers(w'.marked, run) == Numbers(w.marked, run) + [x.rootSeq] &&
          Last(w'.last, run) == x.rootSeq > Last(w.last, run))
  {
    assert w.marked + [] == w.marked;
    assert (w.marked + [Forwarded(sender, x)])[..|w.marked|] == w.marked;
  }

  lemma OfferKeepsOrder(w: World, sender: nat, x: Event, run: Text)
    requires InOrder(w, run) && Enabled(w, Offer(sender, x)) && run != ""
    ensures InOrder(Apply(w, Offer(sender, x)), run)
  {
    MarkedPush(w, sender, x, run);
    hide Numbers, Rising;
    var w' := Apply(w, Offer(sender, x));
    if Numbers(w'.marked, run) != Numbers(w.marked, run) {
      PushRising(Line(w, run), Last(w.last, run), x.rootSeq);
      assert Line(w', run) == Line(w, run) + [x.rootSeq];
    }
  }

  lemma StepKeepsOrder(w: World, act: Action, run: Text)
    requires InOrder(w, run) && Enabled(w, act) && OldestFirst(w, act, run) && run != ""
    ensures InOrder(Apply(w, act), run)
  {
    hide Rising, AtMost, Line, OldestFirst, Mark, Accepts;
    match act
    case Offer(sender, x) => OfferKeepsOrder(w, sender, x, run);
    case Queue(k) => QueueKeepsOrder(w, k, run);
    case _ => LineStays(w, act, run);
  }

  lemma LineStays(w: World, act: Action, run: Text)
    requires Enabled(w, act) && (act.Respond? || act.WriteNext?)
    ensures Line(Apply(w, act), run) == Line(w, run)
  {
    hide Numbers, Sent;
    if act.Respond? {
      NumbersReply(w.send, act.text, run);
    } else {
      NumbersMove(w.written, w.send, run);
    }
  }

  lemma NumbersReply(send: seq<Item>, text: Text, run: Text)
    ensures Numbers(Sent(send, Reply(text)), run) == Numbers(send, run)
  {
    assert send + [] == send && (send + [Reply(text)])[..|send|] == send;
  }

  lemma NumbersMove(written: seq<Item>, send: seq<Item>, run: Text)
    requires send != []
    ensures Numbers(written + [send[0]], run) + Numbers(send[1..], run) == Numbers(written, run) + Numbers(send, run)
  {
    assert send == [send[0]] + send[1..];
    hide Numbers;
    NumbersConcat(written, [send[0]], run);
    NumbersConcat([send[0]], send[1..], run);
  }

  // In every run in which no event overtakes an earlier marked one of its own
  // run on the way to the channel, the run's events are written in strictly
  // increasing order.
  lemma {:induction false} OldestFirstKeepsOrder(states: seq<World>, acts: seq<Action>, i: nat, run: Text)
    requires IsRun(states, acts) && i < |states| && run != ""
    requires forall t :: 0 <= t < i ==> OldestFirst(states[t], acts[t], run)
    ensures InOrder(states[i], run)
    ensures Rising(Numbers(states[i].written + states[i].send, run))
  {
    assert InOrder(Init(), run);
    hide OldestFirst, InOrder, Numbers, Rising;
    if i > 0 {
      OldestFirstKeepsOrder(states, acts, i - 1, run);
      StepKeepsOrder(states[i - 1], acts[i - 1], run);
    }
    SentInOrder(states[i], run);
  }

  lemma SentInOrder(w: World, run: Text)
    requires InOrder(w, run)
    ensures Rising(Numbers(w.written + w.send, run))
  {
    hide Numbers;
    NumbersConcat(w.written, w.send, run);
    var sent := Numbers(w.written + w.send, run);
    assert forall k :: 0 <= k < |sent| ==> sent[k] == Line(w, run)[k];
  }

  // ---- who may forward a run ---------------------------------------------------------------------

  // Every marked event is a goroutine's only one.
  predicate OneEach(w: World) {
    && (forall k :: 0 <= k < |w.marked| ==> w.marked[k].Forwarded?)
    && forall j, k :: 0 <= j < k < |w.marked| ==> w.marked[j].sender != w.marked[k].sender
  }

  // The run's marked events all come from goroutines in `senders`.
  predicate SentBy(w: World, run: Text, senders: set<nat>) {
    forall k :: 0 <= k < |w.marked| && w.marked[k].Forwarded? && w.marked[k].event.run == run ==>
      w.marked[k].sender in senders
  }

  // Only goroutines in `senders` forward the run.
  predicate ForwardedBy(acts: seq<Action>, run: Text, senders: set<nat>) {
    forall t :: 0 <= t < |acts| && acts[t].Offer? && acts[t].e.run == run ==> acts[t].sender in senders
  }

  lemma StepKeepsSenders(w: World, act: Action, run: Text, senders: set<nat>)
    requires OneEach(w) && SentBy(w, run, senders) && Enabled(w, act)
    requires act.Offer? && act.e.run == run ==> act.sender in senders
    ensures OneEach(Apply(w, act)) && SentBy(Apply(w, act), run, senders)
  {
    if act.Queue? {
      var k, rest := act.which, Without(w.marked, act.which);
      assert forall j :: 0 <= j < |rest| ==> rest[j] == w.marked[if j < k then j else j + 1];
    }
  }

  lemma {:induction false} RunKeepsSenders(states: seq<World>, acts: seq<Action>, i: nat, run: Text, senders: set<nat>)
    requires IsRun(states, acts) && i < |states| && ForwardedBy(acts, run, senders)
    ensures OneEach(states[i]) && SentBy(states[i], run, senders)
  {
    if i > 0 {
      RunKeepsSenders(states, acts, i - 1, run, senders);
      StepKeepsSenders(states[i - 1], acts[i - 1], run, senders);
    }
  }

  lemma {:induction false} NoNumbers(items: seq<Item>, run: Text)
    requires forall k :: 0 <= k < |items| ==> !IsOf(items[k], run)
    ensures Numbers(items, run) == []
  {
    if items != [] { NoNumbers(items[..|items| - 1], run); }
  }

  // With one forwarder, at most one event of the run is marked at a time.
  lemma OneForwarderIsOldestFirst(w: World, act: Action, run: Text, senders: set<nat>)
    requires OneEach(w) && SentBy(w, run, senders) && |senders| <= 1
    ensures OldestFirst(w, act, run)
  {
    if act.Queue? && act.which < |w.marked| && IsOf(w.marked[act.which], run) {
      var k := act.which;
      forall j | 0 <= j < k ensures !IsOf(w.marked[..k][j], run) {
        assert w.marked[..k][j] == w.marked[j];
        if IsOf(w.marked[j], run) {
          TwoMembers(senders, w.marked[j].sender, w.marked[k].sender);
        }
      }
      NoNumbers(w.marked[..k], run);
    }
  }

  lemma TwoMembers(senders: set<nat>, g: nat, h: nat)
    requires g in senders && h in senders && |senders| <= 1
    ensures g == h
  {
    assert |senders - {g}| == |senders| - 1;
    assert h !in senders - {g};
  }

  // Two goroutines that forward one run can queue their events the other way
  // round.
  function SwapActs(g: nat, h: nat, run: Text): seq<Action> {
    [Offer(g, Event(run, 1)), Offer(h, Event(run, 2)), Queue(1), Queue(0)]
  }

  function SwapStates(g: nat, h: nat, run: Text): seq<World>
    requires g != h && run != ""
  {
    var a, b := Event(run, 1), Event(run, 2);
    var fa, fb := Forwarded(g, a), Forwarded(h, b);
    [Init(),
     World(map[run := 1], [fa], [], [], [], [a]),
     World(map[run := 2], [fa, fb], [], [], [], [a, b]),
     World(map[run := 2], [fa], [fb], [], [], [a, b]),
     World(map[run := 2], [], [fb, fa], [], [], [a, b])]
  }

  lemma WireCanSwap(g: nat, h: nat, run: Text)
    requires g != h && run != ""
    ensures IsRun(SwapStates(g, h, run), SwapActs(g, h, run))
    ensures ForwardedBy(SwapActs(g, h, run), run, {g, h})
    ensures Numbers(SwapStates(g, h, run)[4].written + SwapStates(g, h, run)[4].send, run) == [2, 1]
  {
    SwapNumbers(g, h, run);
    hide Numbers;
    var states := SwapStates(g, h, run);
    var a, b := Forwarded(g, Event(run, 1)), Forwarded(h, Event(run, 2));
    assert Apply(states[0], Offer(g, Event(run, 1))) == states[1];
    assert map[run := 1][run := 2] == map[run := 2];
    assert Apply(states[1], Offer(h, Event(run, 2))) == states[2];
    assert Without([a, b], 1) == [a] && Without([a], 0) == [];
    assert Apply(states[2], Queue(1)) == states[3];
    assert Apply(states[3], Queue(0)) == states[4];
  }

  lemma SwapNumbers(g: nat, h: nat, run: Text)
    ensures Numbers([] + [Forwarded(h, Event(run, 2)), Forwarded(g, Event(run, 1))], run) == [2, 1]
  {
    var a, b := Forwarded(g, Event(run, 1)), Forwarded(h, Event(run, 2));
    assert [] + [b, a] == [b, a] && [b, a][..1] == [b] && [b][..0] == [];
    assert Numbers([b], run) == [2];
  }

  // A run's events reach the browser in order, in every interleaving, exactly
  // when at most one goroutine forwards the run: no replay of a run that is
  // subscribed, and no two replays of it.
  lemma WireOrderExactly(senders: set<nat>, run: Text)
    requires run != ""
    ensures |senders| <= 1 <==>
      (forall states: seq<World>, acts: seq<Action>, i: nat ::
        IsRun(states, acts) && ForwardedBy(acts, run, senders) && i < |states| ==>
          Rising(Numbers(states[i].written + states[i].send, run)))
  {
    hide IsRun, Rising, Numbers, OldestFirst;
    if |senders| <= 1 {
      forall states: seq<World>, acts: seq<Action>, i: nat
        | IsRun(states, acts) && ForwardedBy(acts, run, senders) && i < |states|
        ensures Rising(Numbers(states[i].written + states[i].send, run))
      {
        OneForwarderKeepsOrder(states, acts, i, run, senders);
      }
    } else {
      var g :| g in senders;
      assert |senders - {g}| > 0;
      var h :| h in senders - {g};
      WireCanSwap(g, h, run);
      NotRising();
    }
  }

  lemma NotRising()
    ensures !Rising([2, 1])
  {
    assert [2, 1][0] == 2 && [2, 1][1] == 1;
  }

  lemma OneForwarderKeepsOrder(states: seq<World>, acts: seq<Action>, i: nat, run: Text, senders: set<nat>)
    requires IsRun(states, acts) && ForwardedBy(acts, run, senders) && i < |states| && run != "" && |senders| <= 1
    ensures Rising(Numbers(states[i].written + states[i].send, run))
  {
    hide OldestFirst, Rising, Numbers;
    forall t | 0 <= t < i ensures OldestFirst(states[t], acts[t], run) {
      RunKeepsSenders(states, acts, t, run, senders);
      OneForwarderIsOldestFirst(states[t], acts[t], run, senders);
    }
    OldestFirstKeepsOrder(states, acts, i, run);
  }

  // ---- overtaking always shows ----------------------------------------------------------------------

  ghost predicate MarkedRising(w: World, run: Text) {
    Rising(Numbers(w.marked, run)) && AtMost(Numbers(w.marked, run), Last(w.last, run))
  }

  lemma {:induction false} MarkedInOrder(states: seq<World>, acts: seq<Action>, i: nat, run: Text)
    requires IsRun(states, acts) && i < |states| && run != ""
    ensures MarkedRising(states[i], run)
  {
    if i > 0 {
      MarkedInOrder(states, acts, i - 1, run);
      StepKeepsMarked(states[i - 1], acts[i - 1], run);
    }
  }

  lemma StepKeepsMarked(w: World, act: Action, run: Text)
    requires MarkedRising(w, run) && Enabled(w, act) && run != ""
    ensures MarkedRising(Apply(w, act), run)
  {
    hide Numbers, Rising, Mark, Accepts;
    match act
    case Offer(sender, x) =>
      MarkedPush(w, sender, x, run);
      if Numbers(Apply(w, act).marked, run) != Numbers(w.marked, run) {
        PushRising(Numbers(w.marked, run), Last(w.last, run), x.rootSeq);
      }
    case Queue(k) =>
      NumbersSplit(w.marked, k, run);
      DropOne(Numbers(w.marked[..k], run), NumberOf(w.marked[k], run), Numbers(w.marked[k + 1..], run), Last(w.last, run));
    case _ =>
  }

  // From any reachable state: an event that overtakes an earlier marked one of
  // its run, both finding room, is queued before it, and the order is lost.
  lemma OvertakingLosesOrder(states: seq<World>, acts: seq<Action>, i: nat, run: Text, j: nat, k: nat)
    requires IsRun(states, acts) && i < |states| && run != ""
    requires j < k < |states[i].marked| && |states[i].send| + 2 <= SEND_CAPACITY
    requires IsOf(states[i].marked[j], run) && IsOf(states[i].marked[k], run)
    ensures var w := Apply(Apply(states[i], Queue(k)), Queue(j));
      !Rising(Numbers(w.written + w.send, run))
  {
    hide Numbers;
    var w := states[i];
    var a, b := w.marked[j], w.marked[k];
    MarkedInOrder(states, acts, i, run);
    NumbersSplit(w.marked, k, run);
    assert w.marked[..k][j] == a;
    NumbersSplit(w.marked[..k], j, run);
    var ns, m := Numbers(w.marked, run), |Numbers(w.marked[..k][..j], run)|;
    assert ns[m] == a.event.rootSeq && ns[|Numbers(w.marked[..k], run)|] == b.event.rootSeq;
    assert a.event.rootSeq < b.event.rootSeq;
    assert Without(w.marked, k)[j] == a;
    var sent := w.send + [b] + [a];
    NumbersConcat(w.written, sent, run);
    NumbersConcat(w.send + [b], [a], run);
    NumbersConcat(w.send, [b], run);
    NumbersSplit([a], 0, run);
    NumbersSplit([b], 0, run);
    var all, n := Numbers(w.written + sent, run), |Numbers(w.written, run)| + |Numbers(w.send, run)|;
    assert all[n] == b.event.rootSeq && all[n + 1] == a.event.rootSeq;
  }
}
