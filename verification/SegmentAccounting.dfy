// Segment accounting in the gateway's store
// (modules/gateway/internal/gateway/repository/goal.go): one row per recorded
// segment, inserted together with an increment of the goal's counters.
module SegmentAccounting {
  import opened Strings
  import opened Wrappers

  datatype GoalRow = GoalRow(sessionId: Text, status: Text, activeRunId: Text, usedToolTurns: int, usedSegments: int,
                             other: map<Text, Text>)

  // The columns a status transition writes; the counters are none of them.
  datatype Updates = Updates(status: Option<Text>, activeRunId: Option<Text>, other: map<Text, Text>)

  datatype SegmentRow = SegmentRow(id: Text, goalId: Text, runId: Text, segmentIndex: nat, toolTurns: nat)

  // Both tables; segment rows in insertion order.
  datatype Store = Store(goals: map<Text, GoalRow>, segments: seq<SegmentRow>)

  datatype Call =
    | Record(goalId: Text, runId: Text, segmentIndex: int, delta: int)
    | Transition(id: Text, sessionId: Text, from: set<Text>, activeRunId: Text, updates: Updates)

  // The primary key of a segment row.
  function SegmentKey(goalId: Text, runId: Text, index: nat): Text {
    "goal_segment_" + goalId + "_" + runId + "_" + Decimal(index)
  }

  predicate IsValid(c: Call) {
    c.Record? && TrimSpace(c.goalId) != "" && TrimSpace(c.runId) != "" && c.segmentIndex >= 0 && c.delta >= 0
  }

  function RowOf(c: Call): SegmentRow
    requires IsValid(c)
  {
    SegmentRow(SegmentKey(c.goalId, c.runId, c.segmentIndex), c.goalId, c.runId, c.segmentIndex, c.delta)
  }

  // Inserting conflicts on the primary key or on (goal, run, index).
  predicate Conflicts(r: SegmentRow, s: SegmentRow) {
    r.id == s.id || (r.goalId == s.goalId && r.runId == s.runId && r.segmentIndex == s.segmentIndex)
  }

  predicate Recorded(rows: seq<SegmentRow>, r: SegmentRow) {
    exists k :: 0 <= k < |rows| && Conflicts(rows[k], r)
  }

  function AddTurns(goals: map<Text, GoalRow>, id: Text, delta: nat): map<Text, GoalRow> {
    if id in goals then
      goals[id := goals[id].(usedToolTurns := goals[id].usedToolTurns + delta,
                             usedSegments := goals[id].usedSegments + 1)]
    else goals
  }

  function Insert(s: Store, r: SegmentRow): Store {
    if Recorded(s.segments, r) then s
    else Store(AddTurns(s.goals, r.goalId, r.toolTurns), s.segments + [r])
  }

  predicate Matches(g: GoalRow, c: Call)
    requires c.Transition?
  {
    g.sessionId == c.sessionId && g.status in c.from && (c.activeRunId != "" ==> g.activeRunId == c.activeRunId)
  }

  function Updated(g: GoalRow, u: Updates): GoalRow {
    g.(status := if u.status.Some? then u.status.value else g.status,
       activeRunId := if u.activeRunId.Some? then u.activeRunId.value else g.activeRunId,
       other := g.other + u.other)
  }

  function Apply(s: Store, c: Call): Store {
    if c.Transition? then
      if c.id in s.goals && Matches(s.goals[c.id], c) then
        s.(goals := s.goals[c.id := Updated(s.goals[c.id], c.updates)])
      else s
    else if IsValid(c) then Insert(s, RowOf(c))
    else s
  }

  function ApplyAll(s: Store, calls: seq<Call>): Store {
    if calls == [] then s else Apply(ApplyAll(s, calls[..|calls| - 1]), calls[|calls| - 1])
  }

  datatype Outcome = Rejected | NotRecorded | NowRecorded

  class GoalRepository {
    var goals: map<Text, GoalRow>
    var segments: seq<SegmentRow>

    ghost function State(): Store
      reads this
    {
      Store(goals, segments)
    }

    constructor ()
      ensures State() == Store(map[], [])
    {
      goals, segments := map[], [];
    }

    // The store's unique indexes.
    method HasConflict(row: SegmentRow) returns (found: bool)
      ensures found == Recorded(segments, row)
    {
      for k := 0 to |segments|
        invariant forall j :: 0 <= j < k ==> !Conflicts(segments[j], row)
      {
        if Conflicts(segments[k], row) {
          return true;
        }
      }
      return false;
    }

    method RecordSegment(goalId: Text, runId: Text, segmentIndex: int, delta: int) returns (r: Outcome)
      modifies this
      ensures State() == Apply(old(State()), Record(goalId, runId, segmentIndex, delta))
      ensures r == Rejected <==> TrimSpace(goalId) == "" || TrimSpace(runId) == "" || segmentIndex < 0 || delta < 0
      ensures r == NowRecorded <==> |segments| == |old(segments)| + 1
    {
      hide TrimSpace, SegmentKey, Recorded;
      if TrimSpace(goalId) == "" || TrimSpace(runId) == "" || segmentIndex < 0 || delta < 0 {
        return Rejected;
      }
      var row := SegmentRow(SegmentKey(goalId, runId, segmentIndex), goalId, runId, segmentIndex, delta);
      var conflict := HasConflict(row);
      if conflict {
        return NotRecorded;
      }
      segments := segments + [row];
      if goalId in goals {
        var g := goals[goalId];
        goals := goals[goalId := g.(usedToolTurns := g.usedToolTurns + delta, usedSegments := g.usedSegments + 1)];
      }
      return NowRecorded;
    }

    method TransitionStatus(id: Text, sessionId: Text, from: set<Text>, activeRunId: Text, updates: Updates)
      returns (changed: bool)
      modifies this`goals
      ensures var c := Transition(id, sessionId, from, activeRunId, updates);
        && State() == Apply(old(State()), c)
        && (changed <==> id in old(goals) && Matches(old(goals)[id], c))
    {
      if id !in goals || goals[id].sessionId != sessionId || goals[id].status !in from {
        return false;
      }
      if activeRunId != "" && goals[id].activeRunId != activeRunId {
        return false;
      }
      var g := goals[id];
      if updates.status.Some? {
        g := g.(status := updates.status.value);
      }
      if updates.activeRunId.Some? {
        g := g.(activeRunId := updates.activeRunId.value);
      }
      goals := goals[id := g.(other := g.other + updates.other)];
      return true;
    }
  }

  // Which transitions happen, and what they write: the goal exists, has an
  // expected status, belongs to the session and, when a run is given, is owned by
  // it. A column that is not given keeps its value, and so do the counters, the
  // session, all other goals and all rows.
  lemma TransitionExactly(s: Store, id: Text, sessionId: Text, from: set<Text>, activeRunId: Text, u: Updates)
    ensures var t := Apply(s, Transition(id, sessionId, from, activeRunId, u));
      && t.segments == s.segments && t.goals.Keys == s.goals.Keys
      && (forall other :: other in s.goals && other != id ==> t.goals[other] == s.goals[other])
      && (id in s.goals ==>
            var g, h := s.goals[id], t.goals[id];
            var allowed := g.sessionId == sessionId && g.status in from && (activeRunId == "" || g.activeRunId == activeRunId);
            && h.sessionId == g.sessionId && h.usedToolTurns == g.usedToolTurns && h.usedSegments == g.usedSegments
            && (!allowed ==> h == g)
            && (allowed ==>
                  && (u.status.Some? ==> h.status == u.status.value)
                  && (u.status.None? ==> h.status == g.status)
                  && (u.activeRunId.Some? ==> h.activeRunId == u.activeRunId.value)
                  && (u.activeRunId.None? ==> h.activeRunId == g.activeRunId)
                  && (forall c :: c in u.other ==> c in h.other && h.other[c] == u.other[c])
                  && (forall c :: c !in u.other ==> (c in h.other <==> c in g.other)
                                                    && (c in g.other ==> h.other[c] == g.other[c]))))
  {
  }

  // ---- conservation ---------------------------------------------------------------------

  // What a goal's rows amount to: their turns, or their number.
  datatype Measure = Turns | Rows

  function Weight(r: SegmentRow, m: Measure): nat { if m == Turns then r.toolTurns else 1 }

  function Total(rows: seq<SegmentRow>, goalId: Text, m: Measure): nat {
    if rows == [] then 0
    else
      var last := rows[|rows| - 1];
      Total(rows[..|rows| - 1], goalId, m) + (if last.goalId == goalId then Weight(last, m) else 0)
  }

  lemma {:induction false} RowsGrow(s: Store, calls: seq<Call>)
    ensures |s.segments| <= |ApplyAll(s, calls).segments|
    ensures ApplyAll(s, calls).segments[..|s.segments|] == s.segments
    ensures ApplyAll(s, calls).goals.Keys == s.goals.Keys
  {
    if calls != [] {
      RowsGrow(s, calls[..|calls| - 1]);
    }
  }

  // One more call: the new row, if there is one, is paid for.
  lemma CountersStep(s: Store, c: Call, goalId: Text, from: nat)
    requires from <= |s.segments| && goalId in s.goals
    ensures from <= |Apply(s, c).segments| && goalId in Apply(s, c).goals
    ensures var t := Apply(s, c);
      && t.goals[goalId].usedToolTurns - Total(t.segments[from..], goalId, Turns)
         == s.goals[goalId].usedToolTurns - Total(s.segments[from..], goalId, Turns)
      && t.goals[goalId].usedSegments - Total(t.segments[from..], goalId, Rows)
         == s.goals[goalId].usedSegments - Total(s.segments[from..], goalId, Rows)
  {
    hide TrimSpace, SegmentKey, Recorded;
    var t := Apply(s, c);
    if t.segments != s.segments {
      var added := s.segments[from..];
      assert t.segments[from..] == added + [RowOf(c)];
      assert (added + [RowOf(c)])[..|added|] == added;
    }
  }

  // Whatever calls are made, in whatever order and however often, a goal's
  // counters have grown by exactly the turns and the number of its new rows.
  lemma {:induction false} CountersMatchRows(s: Store, calls: seq<Call>, goalId: Text)
    requires goalId in s.goals
    ensures |ApplyAll(s, calls).segments| >= |s.segments| && goalId in ApplyAll(s, calls).goals
    ensures var t := ApplyAll(s, calls);
      var added := t.segments[|s.segments|..];
      && t.goals[goalId].usedToolTurns == s.goals[goalId].usedToolTurns + Total(added, goalId, Turns)
      && t.goals[goalId].usedSegments == s.goals[goalId].usedSegments + Total(added, goalId, Rows)
  {
    hide Apply;
    if calls == [] {
      assert s.segments[|s.segments|..] == [];
    } else {
      CountersMatchRows(s, calls[..|calls| - 1], goalId);
      CountersStep(ApplyAll(s, calls[..|calls| - 1]), calls[|calls| - 1], goalId, |s.segments|);
    }
  }

  // ---- which calls leave a row -------------------------------------------------------------

  // Every row carries the key of its goal, run and index; no key occurs twice.
  ghost predicate Keyed(rows: seq<SegmentRow>) {
    && (forall k :: 0 <= k < |rows| ==>
          rows[k].id == SegmentKey(rows[k].goalId, rows[k].runId, rows[k].segmentIndex))
    && (forall i, j :: 0 <= i < j < |rows| ==> rows[i].id != rows[j].id)
  }

  ghost predicate HasKey(rows: seq<SegmentRow>, key: Text) {
    exists k :: 0 <= k < |rows| && rows[k].id == key
  }

  lemma RecordedIsHasKey(rows: seq<SegmentRow>, r: SegmentRow)
    requires Keyed(rows) && r.id == SegmentKey(r.goalId, r.runId, r.segmentIndex)
    ensures Recorded(rows, r) <==> HasKey(rows, r.id)
  {
    if HasKey(rows, r.id) {
      var k :| 0 <= k < |rows| && rows[k].id == r.id;
      assert Conflicts(rows[k], r);
    }
  }

  lemma InsertKeyed(s: Store, r: SegmentRow)
    requires Keyed(s.segments) && r.id == SegmentKey(r.goalId, r.runId, r.segmentIndex)
    ensures Keyed(Insert(s, r).segments)
    ensures Insert(s, r).segments == s.segments + if HasKey(s.segments, r.id) then [] else [r]
    ensures forall key :: HasKey(Insert(s, r).segments, key) <==> HasKey(s.segments, key) || key == r.id
  {
    RecordedIsHasKey(s.segments, r);
    var rows := Insert(s, r).segments;
    assert s.segments + [] == s.segments;
    forall key ensures HasKey(rows, key) <==> HasKey(s.segments, key) || key == r.id {
      if HasKey(s.segments, key) {
        var k :| 0 <= k < |s.segments| && s.segments[k].id == key;
        assert rows[k].id == key;
      }
      if !HasKey(s.segments, r.id) {
        assert rows[|s.segments|].id == r.id;
      }
    }
  }

  predicate CallFor(c: Call, key: Text) { IsValid(c) && RowOf(c).id == key }

  // Row `r` is what the first of the calls for its key asked for.
  ghost predicate FirstFor(calls: seq<Call>, i: nat, r: SegmentRow) {
    && i < |calls| && CallFor(calls[i], r.id) && RowOf(calls[i]) == r
    && forall j :: 0 <= j < i ==> !CallFor(calls[j], r.id)
  }

  ghost predicate Asked(calls: seq<Call>, key: Text) {
    exists i :: 0 <= i < |calls| && CallFor(calls[i], key)
  }

  lemma AskedPush(front: seq<Call>, last: Call, key: Text)
    ensures Asked(front + [last], key) <==> Asked(front, key) || CallFor(last, key)
  {
    var calls := front + [last];
    if Asked(front, key) {
      var i :| 0 <= i < |front| && CallFor(front[i], key);
      assert CallFor(calls[i], key);
    }
    if CallFor(last, key) {
      assert CallFor(calls[|front|], key);
    }
    if Asked(calls, key) {
      var i :| 0 <= i < |calls| && CallFor(calls[i], key);
      assert i < |front| ==> CallFor(front[i], key);
    }
  }

  lemma {:induction false} KeysRecorded(s: Store, calls: seq<Call>)
    requires Keyed(s.segments)
    ensures Keyed(ApplyAll(s, calls).segments)
    ensures forall key ::
      HasKey(ApplyAll(s, calls).segments, key) <==> HasKey(s.segments, key) || Asked(calls, key)
  {
    if calls != [] {
      var front, last := calls[..|calls| - 1], calls[|calls| - 1];
      assert calls == front + [last];
      KeysRecorded(s, front);
      if IsValid(last) {
        InsertKeyed(ApplyAll(s, front), RowOf(last));
      }
      forall key ensures HasKey(ApplyAll(s, calls).segments, key) <==> HasKey(s.segments, key) || Asked(calls, key) {
        AskedPush(front, last, key);
      }
    }
  }

  ghost predicate IsFirst(calls: seq<Call>, r: SegmentRow) {
    exists i: nat :: FirstFor(calls, i, r)
  }

  // The rows from position `from` on are what the first calls for their keys asked for.
  ghost predicate FirstCallRows(calls: seq<Call>, rows: seq<SegmentRow>, from: nat) {
    forall k :: from <= k < |rows| ==> IsFirst(calls, rows[k])
  }

  lemma FirstForPush(front: seq<Call>, last: Call, r: SegmentRow)
    ensures IsFirst(front, r) ==> IsFirst(front + [last], r)
    ensures CallFor(last, r.id) && RowOf(last) == r && !Asked(front, r.id) ==> IsFirst(front + [last], r)
  {
    var calls := front + [last];
    if i: nat :| FirstFor(front, i, r) {
      assert calls[i] == front[i] && forall j :: 0 <= j < i ==> calls[j] == front[j];
      assert FirstFor(calls, i, r);
    }
    if CallFor(last, r.id) && RowOf(last) == r && !Asked(front, r.id) {
      forall j | 0 <= j < |front| ensures !CallFor(calls[j], r.id) {
        assert calls[j] == front[j];
      }
      assert FirstFor(calls, |front|, r);
    }
  }

  // Every key asked for ends up in exactly one row, and every new row holds
  // the data of the first call for its key: retries, duplicates and late
  // repeats change nothing.
  lemma {:induction false} FirstCallsAreRecorded(s: Store, calls: seq<Call>)
    requires Keyed(s.segments)
    ensures Keyed(ApplyAll(s, calls).segments)
    ensures forall key :: HasKey(ApplyAll(s, calls).segments, key) <==> HasKey(s.segments, key) || Asked(calls, key)
    ensures FirstCallRows(calls, ApplyAll(s, calls).segments, |s.segments|)
  {
    assert calls != [] && IsValid(calls[|calls| - 1]) ==> CallFor(calls[|calls| - 1], RowOf(calls[|calls| - 1]).id);
    hide Keyed, IsValid, HasKey, CallFor, IsFirst, Asked;
    KeysRecorded(s, calls);
    if calls == [] {
      assert ApplyAll(s, calls) == s;
    } else {
      var front, last := calls[..|calls| - 1], calls[|calls| - 1];
      assert calls == front + [last];
      FirstCallsAreRecorded(s, front);
      KeysRecorded(s, front);
      var t0, t := ApplyAll(s, front), ApplyAll(s, calls);
      RowsGrow(s, front);
      assert t.segments == t0.segments ||
             (IsValid(last) && !HasKey(t0.segments, RowOf(last).id) && t.segments == t0.segments + [RowOf(last)]) by {
        if IsValid(last) { InsertStep(t0, last); }
      }
      forall k | |s.segments| <= k < |t.segments| ensures IsFirst(calls, t.segments[k]) {
        FirstForPush(front, last, t.segments[k]);
      }
    }
  }

  lemma InsertStep(s: Store, c: Call)
    requires Keyed(s.segments) && IsValid(c)
    ensures Apply(s, c).segments == s.segments + if HasKey(s.segments, RowOf(c).id) then [] else [RowOf(c)]
  {
    hide Keyed, HasKey, Insert;
    assert RowOf(c).id == SegmentKey(c.goalId, c.runId, c.segmentIndex);
    InsertKeyed(s, RowOf(c));
  }

  // Replaying a segment is a no-op on both tables.
  lemma ReplayChangesNothing(s: Store, calls: seq<Call>, c: Call)
    requires Keyed(s.segments) && c in calls && c.Record?
    ensures Apply(ApplyAll(s, calls), c) == ApplyAll(s, calls)
  {
    if IsValid(c) {
      var i :| 0 <= i < |calls| && calls[i] == c;
      assert CallFor(calls[i], RowOf(c).id);
      KeysRecorded(s, calls);
      RecordedIsHasKey(ApplyAll(s, calls).segments, RowOf(c));
    }
  }

  // ---- order and repetition do not matter ------------------------------------------------------

  // Calls that agree on what a key stands for.
  ghost predicate Agree(calls: seq<Call>) {
    forall i, j :: 0 <= i < |calls| && 0 <= j < |calls| && IsValid(calls[i]) && CallFor(calls[j], RowOf(calls[i]).id) ==>
      RowOf(calls[i]) == RowOf(calls[j])
  }

  ghost predicate SameRecords(a: seq<Call>, b: seq<Call>) {
    forall c: Call :: IsValid(c) ==> (c in a <==> c in b)
  }

  lemma {:induction false} TotalConcat(a: seq<SegmentRow>, b: seq<SegmentRow>, goalId: Text, m: Measure)
    ensures Total(a + b, goalId, m) == Total(a, goalId, m) + Total(b, goalId, m)
  {
    if b == [] {
      assert a + b == a;
    } else {
      var n := |b| - 1;
      assert (a + b)[..|a + b| - 1] == a + b[..n] && (a + b)[|a + b| - 1] == b[n];
      TotalConcat(a, b[..n], goalId, m);
    }
  }

  lemma RemoveRow(rows: seq<SegmentRow>, k: nat, goalId: Text, m: Measure)
    requires k < |rows|
    ensures Total(rows, goalId, m) == Total(rows[..k] + rows[k + 1..], goalId, m) + Total([rows[k]], goalId, m)
  {
    assert rows == (rows[..k] + [rows[k]]) + rows[k + 1..];
    TotalConcat(rows[..k] + [rows[k]], rows[k + 1..], goalId, m);
    TotalConcat(rows[..k], [rows[k]], goalId, m);
    TotalConcat(rows[..k], rows[k + 1..], goalId, m);
  }

  predicate NoRowTwice(rows: seq<SegmentRow>) {
    forall i, j :: 0 <= i < j < |rows| ==> rows[i] != rows[j]
  }

  // Taking a row out of a sequence without repetitions.
  lemma WithoutRow(rows: seq<SegmentRow>, k: nat)
    requires NoRowTwice(rows) && k < |rows|
    ensures NoRowTwice(rows[..k] + rows[k + 1..])
    ensures forall r :: r in rows[..k] + rows[k + 1..] <==> r in rows && r != rows[k]
  {
    var rest := rows[..k] + rows[k + 1..];
    forall j | 0 <= j < |rest| ensures rest[j] == rows[if j < k then j else j + 1] {}
    forall r ensures r in rest <==> r in rows && r != rows[k] {
      if r in rest {
        var j :| 0 <= j < |rest| && rest[j] == r;
        assert r == rows[if j < k then j else j + 1];
      }
      if r in rows && r != rows[k] {
        var j :| 0 <= j < |rows| && rows[j] == r;
        assert rest[if j < k then j else j - 1] == r;
      }
    }
  }

  lemma {:induction false} SameRowsSameTotal(a: seq<SegmentRow>, b: seq<SegmentRow>, goalId: Text, m: Measure)
    requires NoRowTwice(a) && NoRowTwice(b) && forall r :: r in a <==> r in b
    ensures Total(a, goalId, m) == Total(b, goalId, m)
  {
    hide NoRowTwice;
    assert b == [] || b[0] in b;
    if a == [] {
      assert b == [];
    } else {
      var n := |a| - 1;
      assert a[n] in a && a[n] in b;
      var k :| 0 <= k < |b| && b[k] == a[n];
      WithoutRow(a, n);
      WithoutRow(b, k);
      RemoveRow(a, n, goalId, m);
      var fa, fb := a[..n] + a[n + 1..], b[..k] + b[k + 1..];
      forall r ensures r in fa <==> r in fb {
        assert r in fa <==> r in a && r != a[n];
        assert r in fb <==> r in b && r != b[k];
      }
      SameRowsSameTotal(fa, fb, goalId, m);
      RemoveRow(b, k, goalId, m);
    }
  }

  // Some valid call asks for row `r`.
  ghost predicate AskedFor(calls: seq<Call>, r: SegmentRow) {
    exists i :: 0 <= i < |calls| && IsValid(calls[i]) && RowOf(calls[i]) == r
  }

  lemma NewRowIsACall(s: Store, calls: seq<Call>, k: nat)
    requires Keyed(s.segments)
    requires |s.segments| <= k < |ApplyAll(s, calls).segments|
    ensures var r := ApplyAll(s, calls).segments[k];
      !HasKey(s.segments, r.id) && AskedFor(calls, r)
  {
    hide ApplyAll, SegmentKey, IsValid;
    RowsGrow(s, calls);
    FirstCallsAreRecorded(s, calls);
    var rows := ApplyAll(s, calls).segments;
    var i: nat :| FirstFor(calls, i, rows[k]);
    forall m | 0 <= m < |s.segments| ensures s.segments[m].id != rows[k].id {
      assert rows[m] == rows[..|s.segments|][m];
    }
  }

  lemma CallIsANewRow(s: Store, calls: seq<Call>, r: SegmentRow)
    requires Keyed(s.segments) && Agree(calls) && !HasKey(s.segments, r.id) && AskedFor(calls, r)
    ensures exists k :: |s.segments| <= k < |ApplyAll(s, calls).segments| && ApplyAll(s, calls).segments[k] == r
  {
    hide ApplyAll, SegmentKey, IsValid;
    RowsGrow(s, calls);
    FirstCallsAreRecorded(s, calls);
    var rows := ApplyAll(s, calls).segments;
    var i :| 0 <= i < |calls| && IsValid(calls[i]) && RowOf(calls[i]) == r;
    assert CallFor(calls[i], r.id) && Asked(calls, r.id);
    var k :| 0 <= k < |rows| && rows[k].id == r.id;
    assert k >= |s.segments| by {
      assert forall m :: 0 <= m < |s.segments| ==> rows[m] == rows[..|s.segments|][m];
    }
    var j: nat :| FirstFor(calls, j, rows[k]);
    assert CallFor(calls[j], RowOf(calls[i]).id);
    assert rows[k] == r;
  }

  lemma NewRowsAreCalls(s: Store, calls: seq<Call>, r: SegmentRow)
    requires Keyed(s.segments) && Agree(calls)
    ensures |ApplyAll(s, calls).segments| >= |s.segments|
    ensures r in ApplyAll(s, calls).segments[|s.segments|..] <==> !HasKey(s.segments, r.id) && AskedFor(calls, r)
  {
    hide ApplyAll, Keyed, HasKey, AskedFor, Agree;
    RowsGrow(s, calls);
    var rows, n := ApplyAll(s, calls).segments, |s.segments|;
    if r in rows[n..] {
      var k :| 0 <= k < |rows[n..]| && rows[n..][k] == r;
      assert rows[n + k] == r;
      NewRowIsACall(s, calls, n + k);
    }
    if !HasKey(s.segments, r.id) && AskedFor(calls, r) {
      CallIsANewRow(s, calls, r);
      var k :| n <= k < |rows| && rows[k] == r;
      assert rows[n..][k - n] == r;
    }
  }

  // Two call sequences with the same valid calls, in any order and with any
  // repetitions, leave every goal with the same numbers of used turns and segments.
  lemma OrderAndRepetitionDoNotMatter(s: Store, a: seq<Call>, b: seq<Call>, goalId: Text)
    requires Keyed(s.segments) && Agree(a) && Agree(b) && SameRecords(a, b) && goalId in s.goals
    ensures goalId in ApplyAll(s, a).goals && goalId in ApplyAll(s, b).goals
    ensures ApplyAll(s, a).goals[goalId].usedToolTurns == ApplyAll(s, b).goals[goalId].usedToolTurns
    ensures ApplyAll(s, a).goals[goalId].usedSegments == ApplyAll(s, b).goals[goalId].usedSegments
  {
    CountersMatchRows(s, a, goalId);
    CountersMatchRows(s, b, goalId);
    KeysRecorded(s, a);
    KeysRecorded(s, b);
    var ra, rb := ApplyAll(s, a).segments[|s.segments|..], ApplyAll(s, b).segments[|s.segments|..];
    forall r ensures r in ra <==> r in rb {
      NewRowsAreCalls(s, a, r);
      NewRowsAreCalls(s, b, r);
      SameRowsAsked(a, b, r);
    }
    SameRowsSameTotal(ra, rb, goalId, Turns);
    SameRowsSameTotal(ra, rb, goalId, Rows);
  }

  lemma SameRowsAsked(a: seq<Call>, b: seq<Call>, r: SegmentRow)
    requires SameRecords(a, b)
    ensures AskedFor(a, r) <==> AskedFor(b, r)
  {
    hide IsValid;
    if i :| 0 <= i < |a| && IsValid(a[i]) && RowOf(a[i]) == r {
      assert a[i] in b;
    }
    if i :| 0 <= i < |b| && IsValid(b[i]) && RowOf(b[i]) == r {
      assert b[i] in a;
    }
  }

  // ---- when two segments share a key -------------------------------------------------------------

  // Two different segments are both recorded exactly when their keys differ.
  lemma BothRecordedIffKeysDiffer(s: Store, a: Call, b: Call)
    requires Keyed(s.segments) && IsValid(a) && IsValid(b)
    requires !HasKey(s.segments, RowOf(a).id) && !HasKey(s.segments, RowOf(b).id)
    ensures |ApplyAll(s, [a, b]).segments| == |s.segments| + 2 <==> RowOf(a).id != RowOf(b).id
  {
    assert [a, b][..1] == [a] && [a][..0] == [];
    var s1 := Insert(s, RowOf(a));
    assert ApplyAll(s, [a]) == s1;
    InsertKeyed(s, RowOf(a));
    InsertKeyed(s1, RowOf(b));
  }

  // The key joins its three parts with underscores, so that two segments share
  // a key exactly when they agree on the index and on the joined ids.
  lemma KeysCollideExactly(goal1: Text, run1: Text, index1: nat, goal2: Text, run2: Text, index2: nat)
    ensures SegmentKey(goal1, run1, index1) == SegmentKey(goal2, run2, index2) <==>
      index1 == index2 && goal1 + "_" + run1 == goal2 + "_" + run2
  {
    var p := "goal_segment_";
    var x, y := goal1 + "_" + run1, goal2 + "_" + run2;
    var m, n := Decimal(index1), Decimal(index2);
    assert SegmentKey(goal1, run1, index1) == p + x + "_" + m;
    assert SegmentKey(goal2, run2, index2) == p + y + "_" + n;
    if SegmentKey(goal1, run1, index1) == SegmentKey(goal2, run2, index2) {
      DecimalValue(index1);
      DecimalValue(index2);
      DigitsHaveNoUnderscore(m);
      DigitsHaveNoUnderscore(n);
      LastPartUnique(p + x, m, p + y, n);
      assert x == (p + x)[|p|..] && y == (p + y)[|p|..];
    }
  }

  // Moving an underscore-separated part from the run id to the goal id keeps
  // the key: of the two segments only the first is counted. Its goal's counters
  // grow, those of the second goal stay as they were.
  lemma SecondSegmentIsLost(s: Store, goal: Text, x: Text, y: Text, index: nat, delta1: nat, delta2: nat)
    requires TrimSpace(goal) != "" && TrimSpace(y) != ""
    requires TrimSpace(goal + "_" + x) != "" && TrimSpace(x + "_" + y) != ""
    requires Keyed(s.segments) && !HasKey(s.segments, SegmentKey(goal + "_" + x, y, index))
    requires goal in s.goals && goal + "_" + x in s.goals
    ensures var first, second := Record(goal + "_" + x, y, index, delta1), Record(goal, x + "_" + y, index, delta2);
      var t := ApplyAll(s, [first, second]);
      && t.segments == s.segments + [RowOf(first)]
      && goal + "_" + x in t.goals
      && t.goals == s.goals[goal + "_" + x := t.goals[goal + "_" + x]]
      && t.goals[goal + "_" + x].usedToolTurns == s.goals[goal + "_" + x].usedToolTurns + delta1
      && t.goals[goal + "_" + x].usedSegments == s.goals[goal + "_" + x].usedSegments + 1
      && t.goals[goal] == s.goals[goal]
  {
    var a, b := Record(goal + "_" + x, y, index, delta1), Record(goal, x + "_" + y, index, delta2);
    assert IsValid(a) && IsValid(b);
    hide TrimSpace, SegmentKey, Keyed, HasKey, Recorded;
    KeysCollideExactly(goal + "_" + x, y, index, goal, x + "_" + y, index);
    assert (goal + "_" + x) + "_" + y == goal + "_" + (x + "_" + y);
    assert RowOf(a).id == RowOf(b).id;
    assert [a, b][..1] == [a] && [a][..0] == [];
    assert ApplyAll(s, []) == s && ApplyAll(s, [a]) == Apply(s, a);
    assert goal + "_" + x != goal by {
      assert |goal + "_" + x| > |goal|;
    }
    InsertStep(s, a);
    InsertKeyed(s, RowOf(a));
    RecordedIsHasKey(s.segments, RowOf(a));
    RecordedIsHasKey(Apply(s, a).segments, RowOf(b));
  }

  // Run ids with equally many underscores (the gateway's "run_<number>" ids
  // have one each) make the key unambiguous, whatever the goal ids are.
  lemma KeysAreUnique(goal1: Text, run1: Text, index1: nat, goal2: Text, run2: Text, index2: nat)
    requires Underscores(run1) == Underscores(run2)
    requires SegmentKey(goal1, run1, index1) == SegmentKey(goal2, run2, index2)
    ensures goal1 == goal2 && run1 == run2 && index1 == index2
  {
    DecimalValue(index1);
    DecimalValue(index2);
    DigitsHaveNoUnderscore(Decimal(index1));
    DigitsHaveNoUnderscore(Decimal(index2));
    var p := "goal_segment_";
    LastPartUnique(p + goal1 + "_" + run1, Decimal(index1), p + goal2 + "_" + run2, Decimal(index2));
    LastPartUnique(p + goal1, run1, p + goal2, run2);
    assert goal1 == (p + goal1)[|p|..] && goal2 == (p + goal2)[|p|..];
  }
}
