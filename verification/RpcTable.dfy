// The table of pending requests to a child process
// (modules/agent/internal/runtime/subagent_process.go), shared by the calling
// goroutines, the reader of the child's output and the watcher of its exit.
module RpcTable {

  type Id = nat

  datatype Response = Response(id: Id, result: nat)

  // A reply channel of capacity one. `panicked` records a send on a closed
  // channel or a second close.
  datatype Chan = Chan(buffer: seq<Response>, closed: bool, panicked: bool)

  const FRESH := Chan([], false, false)

  function Send(c: Chan, r: Response): Chan {
    if c.closed then c.(panicked := true) else c.(buffer := c.buffer + [r])
  }

  function CloseChan(c: Chan): Chan {
    if c.closed then c.(panicked := true) else c.(closed := true)
  }

  // The fields guarded by the mutex, and the channels the table refers to.
  datatype Table = Table(
    running: bool,
    stdinOpen: bool,
    exited: bool,  // the watcher has run
    nextId: nat,
    pending: set<Id>,
    chans: map<Id, Chan>)

  // ---- the critical sections -------------------------------------------------------

  predicate Accepts(t: Table) { t.running && t.stdinOpen }

  function Register(t: Table, id: Id): Table {
    if Accepts(t) then t.(pending := t.pending + {id}, chans := t.chans[id := FRESH]) else t
  }

  function Remove(t: Table, id: Id): Table {
    t.(pending := t.pending - {id})
  }

  function Kill(t: Table): Table {
    t.(running := false, stdinOpen := false)
  }

  // Every pending channel closed and the table emptied.
  function Drain(t: Table): Table {
    if t.exited then t
    else
      Kill(t).(
        exited := true,
        pending := {},
        chans := map id | id in t.chans :: if id in t.pending then CloseChan(t.chans[id]) else t.chans[id])
  }

  class ChildCalls {
    var running: bool
    var stdinOpen: bool
    var exited: bool
    var nextId: nat
    var pending: set<Id>
    var chans: map<Id, Chan>

    ghost function State(): Table
      reads this
    {
      Table(running, stdinOpen, exited, nextId, pending, chans)
    }

    ghost predicate Valid()
      reads this
    {
      pending <= chans.Keys
    }

    // The child has just been started.
    constructor ()
      ensures Valid() && State() == Table(true, true, false, 0, {}, map[])
    {
      running, stdinOpen, exited, nextId, pending, chans := true, true, false, 0, {}, map[];
    }

    method NextRequestId() returns (id: Id)
      requires Valid()
      modifies this`nextId
      ensures Valid() && id == nextId == old(nextId) + 1
    {
      nextId := nextId + 1;
      id := nextId;
    }

    // The locked part of call.
    method RegisterCall(id: Id) returns (ok: bool)
      requires Valid()
      modifies this
      ensures Valid() && ok == Accepts(old(State()))
      ensures State() == Register(old(State()), id)
    {
      if !running || !stdinOpen {
        return false;
      }
      chans := chans[id := FRESH];
      pending := pending + {id};
      return true;
    }

    method RemovePending(id: Id)
      requires Valid()
      modifies this`pending
      ensures Valid() && State() == Remove(old(State()), id)
    {
      pending := pending - {id};
    }

    // The locked part of the reader: take the entry out, whoever it belongs to.
    method TakePending(r: Response) returns (found: bool)
      requires Valid()
      modifies this`pending
      ensures Valid() && found == (r.id in old(pending))
      ensures State() == Remove(old(State()), r.id)
    {
      found := r.id in pending;
      pending := pending - {r.id};
    }

    method ForceKill()
      requires Valid()
      modifies this`running, this`stdinOpen
      ensures Valid() && State() == Kill(old(State()))
    {
      stdinOpen := false;
      running := false;
    }

    // The exit watcher, closing the pending channels one by one in any order.
    method OnExit()
      requires Valid()
      modifies this
      ensures Valid() && State() == Drain(old(State()))
    {
      if exited {
        return;
      }
      running, stdinOpen := false, false;
      while pending != {}
        invariant pending <= old(pending) && Valid()
        invariant !running && !stdinOpen && !exited && nextId == old(nextId)
        invariant chans.Keys == old(chans.Keys)
        invariant forall id :: id in chans ==>
          chans[id] == if id in old(pending) - pending then CloseChan(old(chans)[id]) else old(chans)[id]
        decreases |pending|
      {
        var id :| id in pending;
        chans := chans[id := CloseChan(chans[id])];
        pending := pending - {id};
      }
      exited := true;
    }
  }

  // ---- the protocol --------------------------------------------------------------------

  datatype Outcome = NotRunning | WriteError | GaveUp | ProcessStopped | Answered(response: Response)

  datatype Caller =
    | Preparing             // has an id, not yet in the table
    | Waiting               // in the select of call
    | WriteFailed           // about to remove its entry
    | Leaving               // context done or timed out, about to remove its entry
    | Returned(outcome: Outcome)

  datatype Reader = Reading | Matched(response: Response)

  datatype World = World(
    table: Table,
    callers: map<Id, Caller>,
    reader: Reader,
    registered: set<Id>,  // ids that entered the table
    left: seq<Id>)        // ids that left it, in order

  datatype Action =
    | NewCall
    | Enter(id: Id, written: bool)
    | GiveUp(id: Id)
    | Leave(id: Id)
    | Receive(id: Id)
    | Line(response: Response)  // the child writes any response, expected or not
    | Deliver
    | ForceStop
    | ProcessExit

  function Init(): World {
    World(Table(true, true, false, 0, {}, map[]), map[], Reading, {}, [])
  }

  predicate CallerIs(w: World, id: Id, c: Caller) {
    id in w.callers && w.callers[id] == c
  }

  function ChanOf(t: Table, id: Id): Chan {
    if id in t.chans then t.chans[id] else FRESH
  }

  predicate Enabled(w: World, act: Action) {
    match act
    case NewCall => true
    case Enter(id, _) => CallerIs(w, id, Preparing)
    case GiveUp(id) => CallerIs(w, id, Waiting)
    case Leave(id) => CallerIs(w, id, WriteFailed) || CallerIs(w, id, Leaving)
    case Receive(id) =>
      CallerIs(w, id, Waiting) && (ChanOf(w.table, id).buffer != [] || ChanOf(w.table, id).closed)
    case Line(_) => w.reader == Reading
    case Deliver => w.reader.Matched? && SendReady(w.table, w.reader.response.id)
    case ForceStop => true
    case ProcessExit => true
  }

  // A send on a channel of capacity one goes through at once: there is room,
  // or it is closed and the send panics.
  predicate SendReady(t: Table, id: Id) {
    ChanOf(t, id).buffer == [] || ChanOf(t, id).closed
  }

  function Logged(w: World, ids: seq<Id>): World {
    w.(left := w.left + ids)
  }

  // The ids of a set, in increasing order of a bound.
  function Sorted(s: set<Id>, bound: nat): seq<Id> {
    if bound == 0 then [] else Sorted(s, bound - 1) + (if bound - 1 in s then [bound - 1] else [])
  }

  function Apply(w: World, act: Action): World
    requires Enabled(w, act)
  {
    var t := w.table;
    match act
    case NewCall =>
      w.(table := t.(nextId := t.nextId + 1), callers := w.callers[t.nextId + 1 := Preparing])
    case Enter(id, written) =>
      if Accepts(t) then
        w.(table := Register(t, id), registered := w.registered + {id},
           callers := w.callers[id := if written then Waiting else WriteFailed])
      else w.(callers := w.callers[id := Returned(NotRunning)])
    case GiveUp(id) => w.(callers := w.callers[id := Leaving])
    case Leave(id) =>
      Logged(w.(table := Remove(t, id), callers := w.callers[id := Returned(
                  if w.callers[id] == WriteFailed then WriteError else GaveUp)]),
             if id in t.pending then [id] else [])
    case Receive(id) =>
      var c := ChanOf(t, id);
      if c.buffer != [] then
        w.(table := t.(chans := t.chans[id := c.(buffer := c.buffer[1..])]),
           callers := w.callers[id := Returned(Answered(c.buffer[0]))])
      else w.(callers := w.callers[id := Returned(ProcessStopped)])
    case Line(r) =>
      if r.id in t.pending then Logged(w.(table := Remove(t, r.id), reader := Matched(r)), [r.id]) else w
    case Deliver =>
      var id := w.reader.response.id;
      w.(table := t.(chans := t.chans[id := Send(ChanOf(t, id), w.reader.response)]), reader := Reading)
    case ForceStop => w.(table := Kill(t))
    case ProcessExit =>
      if t.exited then w else Logged(w.(table := Drain(t)), Sorted(t.pending, t.nextId + 1))
  }

  predicate NoDup(s: seq<Id>) {
    forall i, j :: 0 <= i < j < |s| ==> s[i] != s[j]
  }

  // ---- the invariant ----------------------------------------------------------------------

  // Each registered id is pending, or has left the table exactly once.
  ghost predicate LeavesOnce(w: World) {
    && NoDup(w.left)
    && w.table.pending <= w.registered
    && (forall id :: id in w.left ==> id in w.registered && id !in w.table.pending)
    && (forall id :: id in w.registered ==> id in w.table.pending || id in w.left)
  }

  // What the channel of a registered id can look like.
  predicate ChanFits(w: World, id: Id) {
    var c := ChanOf(w.table, id);
    && !c.panicked
    && |c.buffer| <= 1
    && (c.buffer != [] ==> c.buffer[0].id == id && !c.closed && id !in w.table.pending)
    && (c.closed ==> w.table.exited && id !in w.table.pending)
    && (w.reader.Matched? && w.reader.response.id == id ==> c == FRESH && id !in w.table.pending)
    && (id in w.table.pending ==> c == FRESH)
  }

  // A waiting caller is still in the table, or what it waits for is there or
  // in the reader's hands.
  predicate CallerFits(w: World, id: Id)
    requires id in w.callers
  {
    match w.callers[id]
    case Preparing => id !in w.registered
    case Waiting =>
      && id in w.registered
      && (id in w.table.pending || ChanOf(w.table, id).buffer != [] || ChanOf(w.table, id).closed
          || (w.reader.Matched? && w.reader.response.id == id))
    case WriteFailed => id in w.registered
    case Leaving => id in w.registered
    case Returned(o) => id !in w.table.pending && (o.Answered? ==> o.response.id == id)
  }

  ghost predicate Inv(w: World) {
    && LeavesOnce(w)
    && w.table.chans.Keys == w.registered
    && (forall id :: id in w.callers <==> 1 <= id <= w.table.nextId)
    && w.registered <= w.callers.Keys
    && (w.reader.Matched? ==> w.reader.response.id in w.registered)
    && (forall id :: id in w.registered ==> ChanFits(w, id))
    && (forall id :: id in w.callers ==> CallerFits(w, id))
    && (w.table.exited ==> w.table.pending == {} && !w.table.running)
  }

  lemma {:induction false} SortedIn(s: set<Id>, bound: nat)
    ensures NoDup(Sorted(s, bound))
    ensures forall id :: id in Sorted(s, bound) <==> id in s && id < bound
  {
    if bound > 0 {
      SortedIn(s, bound - 1);
      var r := Sorted(s, bound - 1);
      assert bound - 1 in s ==> Sorted(s, bound)[|r|] == bound - 1;
    }
  }

  lemma NoDupPush(s: seq<Id>, t: seq<Id>)
    requires NoDup(s) && NoDup(t) && forall id :: id in t ==> id !in s
    ensures NoDup(s + t)
  {
    var u := s + t;
    forall i, j | 0 <= i < j < |u| ensures u[i] != u[j] {
      if i < |s| <= j { assert u[j] in t; }
    }
  }

  lemma LeavesOnceStep(w: World, act: Action)
    requires Inv(w) && Enabled(w, act)
    ensures LeavesOnce(Apply(w, act))
  {
    var w' := Apply(w, act);
    match act
    case Enter(id, _) => assert CallerFits(w, id);
    case Leave(id) =>
      if id in w.table.pending { NoDupPush(w.left, [id]); } else { assert w.left + [] == w.left; }
    case Line(r) => if r.id in w.table.pending { NoDupPush(w.left, [r.id]); }
    case ProcessExit =>
      if !w.table.exited {
        var ids := Sorted(w.table.pending, w.table.nextId + 1);
        SortedIn(w.table.pending, w.table.nextId + 1);
        assert forall id :: id in w.table.pending ==> id in ids;
        NoDupPush(w.left, ids);
      }
    case _ =>
  }

  lemma ChanStep(w: World, act: Action, id: Id)
    requires Inv(w) && Enabled(w, act) && id in Apply(w, act).registered
    ensures ChanFits(Apply(w, act), id)
  {
    if id in w.registered {
      assert ChanFits(w, id);
    }
    if act.Enter? {
      assert CallerFits(w, act.id);
    }
    if act.Line? && act.response.id in w.registered {
      assert ChanFits(w, act.response.id);
    }
    if act.Deliver? {
      assert FRESH.buffer + [w.reader.response] == [w.reader.response];
    }
  }

  lemma CallerStep(w: World, act: Action, id: Id)
    requires Inv(w) && Enabled(w, act) && id in Apply(w, act).callers
    ensures CallerFits(Apply(w, act), id)
  {
    if id in w.callers {
      assert CallerFits(w, id);
    } else {
      assert id !in w.registered;
    }
    if id in w.registered {
      assert ChanFits(w, id);
    }
  }

  lemma StepKeepsInv(w: World, act: Action)
    requires Inv(w) && Enabled(w, act)
    ensures Inv(Apply(w, act))
  {
    hide LeavesOnce, ChanFits, CallerFits;
    var w' := Apply(w, act);
    LeavesOnceStep(w, act);
    forall id | id in w'.registered ensures ChanFits(w', id) { ChanStep(w, act, id); }
    forall id | id in w'.callers ensures CallerFits(w', id) { CallerStep(w, act, id); }
  }

  // ---- runs ------------------------------------------------------------------------------

  ghost predicate IsRun(states: seq<World>, acts: seq<Action>) {
    && |states| == |acts| + 1
    && states[0] == Init()
    && forall i :: 0 <= i < |acts| ==> Enabled(states[i], acts[i]) && states[i + 1] == Apply(states[i], acts[i])
  }

  lemma {:induction false} RunInvariant(states: seq<World>, acts: seq<Action>, i: nat)
    requires IsRun(states, acts) && i < |states|
    ensures Inv(states[i])
  {
    if i > 0 {
      RunInvariant(states, acts, i - 1);
      StepKeepsInv(states[i - 1], acts[i - 1]);
    }
  }

  // Every id that entered the table has left it exactly once or is pending.
  lemma EachIdLeavesOnce(states: seq<World>, acts: seq<Action>, i: nat, id: Id)
    requires IsRun(states, acts) && i < |states| && id in states[i].registered
    ensures NoDup(states[i].left)
    ensures id in states[i].table.pending <==> id !in states[i].left
  {
    RunInvariant(states, acts, i);
  }

  // No channel is closed twice or sent to after its close, and the reader's
  // send always finds room: it can never block the reading of the child.
  lemma ReaderNeverBlocks(states: seq<World>, acts: seq<Action>, i: nat)
    requires IsRun(states, acts) && i < |states|
    ensures var w := states[i];
      && (forall id :: id in w.table.chans ==> !w.table.chans[id].panicked)
      && (w.reader.Matched? ==> Enabled(w, Deliver) && !ChanOf(w.table, w.reader.response.id).closed)
  {
    var w := states[i];
    RunInvariant(states, acts, i);
    forall id | id in w.table.chans ensures !w.table.chans[id].panicked {
      assert ChanFits(w, id);
    }
    if w.reader.Matched? {
      assert ChanFits(w, w.reader.response.id);
    }
  }

  // A caller that gets an answer gets the one with its own id.
  lemma AnswersMatchRequests(states: seq<World>, acts: seq<Action>, i: nat, id: Id)
    requires IsRun(states, acts) && i < |states| && id in states[i].callers
    requires states[i].callers[id].Returned? && states[i].callers[id].outcome.Answered?
    ensures states[i].callers[id].outcome.response.id == id
  {
    RunInvariant(states, acts, i);
    assert CallerFits(states[i], id);
  }

  // ---- what an outcome means --------------------------------------------------------------

  // This step is what makes call `id` come to outcome `o`.
  predicate CauseAt(w: World, act: Action, id: Id, o: Outcome) {
    match o
    case NotRunning => act.Enter? && act.id == id && !(w.table.running && w.table.stdinOpen)
    case WriteError => act == Enter(id, false) && w.table.running && w.table.stdinOpen
    case GaveUp => act == GiveUp(id)
    case ProcessStopped => act == ProcessExit && id in w.table.pending
    case Answered(r) => r.id == id && act == Line(r) && id in w.table.pending
  }

  ghost predicate Caused(states: seq<World>, acts: seq<Action>, i: nat, id: Id, o: Outcome)
    requires i <= |acts| < |states|
  {
    exists t :: 0 <= t < i && CauseAt(states[t], acts[t], id, o)
  }

  lemma CausedPush(states: seq<World>, acts: seq<Action>, i: nat, id: Id, o: Outcome)
    requires i < |acts| < |states|
    ensures Caused(states, acts, i, id, o) ==> Caused(states, acts, i + 1, id, o)
    ensures CauseAt(states[i], acts[i], id, o) ==> Caused(states, acts, i + 1, id, o)
  {
    if Caused(states, acts, i, id, o) {
      var t :| 0 <= t < i && CauseAt(states[t], acts[t], id, o);
    }
  }

  // What can already be seen of the outcome of call `id`.
  predicate Foretold(w: World, id: Id, o: Outcome) {
    || (id in w.callers && match w.callers[id] {
          case WriteFailed => o == WriteError
          case Leaving => o == GaveUp
          case Returned(done) => o == done
          case _ => false
        })
    || (id in w.table.chans && w.table.chans[id].closed && o == ProcessStopped)
    || (id in w.table.chans && |w.table.chans[id].buffer| > 0 && o == Answered(w.table.chans[id].buffer[0]))
    || (w.reader.Matched? && w.reader.response.id == id && o == Answered(w.reader.response))
  }

  // A step foretells nothing of which it is not the cause.
  lemma ForetoldStep(w: World, act: Action, id: Id, o: Outcome)
    requires Inv(w) && Enabled(w, act) && Foretold(Apply(w, act), id, o)
    ensures Foretold(w, id, o) || CauseAt(w, act, id, o)
  {
    hide LeavesOnce, CallerFits;
    if id in w.registered {
      assert ChanFits(w, id);
    }
    if act.Receive? && act.id in w.registered {
      assert ChanFits(w, act.id);
    }
    if act.Deliver? {
      assert ChanFits(w, w.reader.response.id);
      assert FRESH.buffer + [w.reader.response] == [w.reader.response];
    }
  }

  lemma {:induction false} ForetoldIsCaused(states: seq<World>, acts: seq<Action>, i: nat, id: Id, o: Outcome)
    requires IsRun(states, acts) && i < |states| && Foretold(states[i], id, o)
    ensures Caused(states, acts, i, id, o)
  {
    assert !Foretold(Init(), id, o);
    hide Foretold, Inv, Caused, CauseAt;
    if i > 0 {
      RunInvariant(states, acts, i - 1);
      assert Enabled(states[i - 1], acts[i - 1]) && states[i] == Apply(states[i - 1], acts[i - 1]);
      hide IsRun, Enabled, Apply;
      ForetoldStep(states[i - 1], acts[i - 1], id, o);
      CausedPush(states, acts, i - 1, id, o);
      if Foretold(states[i - 1], id, o) {
        ForetoldIsCaused(states, acts, i - 1, id, o);
      }
    }
  }

  // Every outcome has its cause: a caller that returns an answer returns exactly
  // what the child wrote, whole, while the call was pending; one that was told
  // that the process stopped was pending at the exit; and so on.
  lemma OutcomesHaveCauses(states: seq<World>, acts: seq<Action>, i: nat, id: Id, o: Outcome)
    requires IsRun(states, acts) && i < |states| && CallerIs(states[i], id, Returned(o))
    ensures exists t :: 0 <= t < i && CauseAt(states[t], acts[t], id, o)
  {
    ForetoldIsCaused(states, acts, i, id, o);
  }

  // The answer `r` is taken, and not lost on its way.
  predicate OnItsWay(w: World, r: Response) {
    && r.id in w.registered && r.id !in w.table.pending && r.id in w.table.chans && !w.table.chans[r.id].closed
    && r.id in w.left
    && (w.table.chans[r.id].buffer == [] || w.table.chans[r.id].buffer == [r])
    && (w.reader.Matched? && w.reader.response.id == r.id ==> w.reader.response == r)
    && r.id in w.callers
    && match w.callers[r.id]
       case Waiting => w.reader == Matched(r) || w.table.chans[r.id].buffer == [r]
       case Returned(o) => o in {Answered(r), GaveUp, WriteError}
       case Preparing => false
       case _ => true
  }

  lemma WayStep(w: World, act: Action, r: Response)
    requires Inv(w) && Enabled(w, act)
    requires OnItsWay(w, r) || (act == Line(r) && r.id in w.table.pending)
    ensures OnItsWay(Apply(w, act), r)
  {
    assert ChanFits(w, r.id) && CallerFits(w, r.id);
    if act.Enter? {
      assert CallerFits(w, act.id);
    }
    if act.Deliver? {
      assert FRESH.buffer + [w.reader.response] == [w.reader.response];
    }
    if act.ProcessExit? && !w.table.exited {
      SortedIn(w.table.pending, w.table.nextId + 1);
    }
  }

  // The other way round: once the child's answer to a pending call was read, the
  // caller gets it unless it gave up or could not write; it is never told that
  // the process stopped, and while it waits the answer is in its channel or
  // about to be put there.
  lemma {:induction false} AnswersArrive(states: seq<World>, acts: seq<Action>, t: nat, j: nat, r: Response)
    requires IsRun(states, acts) && t < j < |states| && acts[t] == Line(r) && r.id in states[t].table.pending
    ensures OnItsWay(states[j], r)
    decreases j
  {
    hide Inv, OnItsWay;
    RunInvariant(states, acts, j - 1);
    if t < j - 1 {
      AnswersArrive(states, acts, t, j - 1, r);
    }
    WayStep(states[j - 1], acts[j - 1], r);
  }

  // A call that enters after the child was stopped by force is refused.
  lemma {:induction false} StoppedForGood(states: seq<World>, acts: seq<Action>, t: nat, j: nat)
    requires IsRun(states, acts) && t < j < |states| && acts[t] == ForceStop
    ensures !states[j].table.running && states[j].registered == states[t].registered
    ensures j < |acts| && acts[j].Enter? ==> CallerIs(states[j + 1], acts[j].id, Returned(NotRunning))
    decreases j
  {
    if t < j - 1 {
      StoppedForGood(states, acts, t, j - 1);
    }
    assert states[(j - 1) + 1] == Apply(states[j - 1], acts[j - 1]);
  }

  lemma ExitStep(w: World, act: Action)
    requires Inv(w) && Enabled(w, act) && w.table.exited
    ensures Apply(w, act).table.exited && Apply(w, act).registered == w.registered
  {
    hide LeavesOnce, ChanFits, CallerFits;
  }

  lemma {:induction false} ExitPersists(states: seq<World>, acts: seq<Action>, i: nat, j: nat)
    requires IsRun(states, acts) && i <= j < |states| && states[i].table.exited
    ensures states[j].table.exited && states[j].registered == states[i].registered
    decreases j
  {
    hide Inv, Enabled, Apply;
    if i < j {
      ExitPersists(states, acts, i, j - 1);
      RunInvariant(states, acts, j - 1);
      ExitStep(states[j - 1], acts[j - 1]);
      assert states[(j - 1) + 1] == Apply(states[j - 1], acts[j - 1]);
    }
  }

  // After the exit watcher has run, the table stays empty, no entry is added,
  // and no waiting caller is stranded: its channel is ready, or the reader
  // holds its answer and can hand it over.
  lemma AfterExit(states: seq<World>, acts: seq<Action>, i: nat, j: nat)
    requires IsRun(states, acts) && i <= j < |states| && states[i].table.exited
    ensures var w := states[j];
      && w.table.pending == {} && !w.table.running
      && w.registered == states[i].registered
      && (forall id :: CallerIs(w, id, Waiting) ==>
            Enabled(w, Receive(id)) || (w.reader.Matched? && w.reader.response.id == id && Enabled(w, Deliver)))
  {
    ExitPersists(states, acts, i, j);
    RunInvariant(states, acts, j);
    ReaderNeverBlocks(states, acts, j);
    var w := states[j];
    forall id | CallerIs(w, id, Waiting)
      ensures Enabled(w, Receive(id)) || (w.reader.Matched? && w.reader.response.id == id && Enabled(w, Deliver))
    {
      assert CallerFits(w, id);
    }
  }
}
