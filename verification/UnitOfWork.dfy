/** How recorded events reach the outbox: aggregates record, the tracker drains them in touch order,
    the unit of work stages them with the state change and commits both.

    `rollback` discards the session but not the tracker, so a unit of work that is used again after a
    failed attempt commits that attempt's events with the next one.  `CommitsExactly` says when the
    outbox nevertheless holds exactly the events of the committed attempts. */
module UnitOfWork {

  type Event = nat

  class Aggregate {
    var events: seq<Event>

    constructor ()
      ensures events == []
    {
      events := [];
    }

    method Record(e: Event)
      modifies this
      ensures events == old(events) + [e]
    {
      events := events + [e];
    }

    /** Return the pending events in order and forget them. */
    method CollectEvents() returns (pending: seq<Event>)
      modifies this
      ensures pending == old(events) && events == []
    {
      pending := events;
      events := [];
    }
  }

  /** No aggregate twice. */
  ghost predicate Distinct(aggregates: seq<Aggregate>) {
    aggregates == []
    || (Distinct(aggregates[..|aggregates| - 1]) && aggregates[|aggregates| - 1] !in aggregates[..|aggregates| - 1])
  }

  lemma DistinctOneMore(aggregates: seq<Aggregate>, a: Aggregate)
    requires Distinct(aggregates) && a !in aggregates
    ensures Distinct(aggregates + [a])
  {
    assert (aggregates + [a])[..|aggregates|] == aggregates;
  }

  lemma {:induction false} DistinctAt(aggregates: seq<Aggregate>, i: nat, j: nat)
    requires Distinct(aggregates) && i < j < |aggregates|
    ensures aggregates[i] != aggregates[j]
  {
    var n := |aggregates| - 1;
    if j < n {
      DistinctAt(aggregates[..n], i, j);
    } else {
      assert aggregates[i] in aggregates[..n];
    }
  }

  lemma DistinctPairs(aggregates: seq<Aggregate>)
    requires Distinct(aggregates)
    ensures forall i, j :: 0 <= i < j < |aggregates| ==> aggregates[i] != aggregates[j]
  {
    forall i, j | 0 <= i < j < |aggregates| ensures aggregates[i] != aggregates[j] {
      DistinctAt(aggregates, i, j);
    }
  }

  /** The events of the aggregates, in touch order and then in the order they were recorded. */
  ghost function Flatten(aggregates: seq<Aggregate>): seq<Event>
    reads aggregates
  {
    if aggregates == [] then []
    else Flatten(aggregates[..|aggregates| - 1]) + aggregates[|aggregates| - 1].events
  }

  class AggregateTracker {
    var aggregates: seq<Aggregate>

    ghost predicate Valid()
      reads this
    {
      Distinct(aggregates)
    }

    ghost function Pending(): seq<Event>
      reads this, aggregates
    {
      Flatten(aggregates)
    }

    constructor ()
      ensures Valid() && aggregates == []
    {
      aggregates := [];
    }

    /** Register an aggregate, ignoring a repeated registration. */
    method Track(a: Aggregate)
      requires Valid()
      modifies this
      ensures Valid()
      ensures aggregates == if a in old(aggregates) then old(aggregates) else old(aggregates) + [a]
    {
      if a !in aggregates {
        DistinctOneMore(aggregates, a);
        aggregates := aggregates + [a];
      }
    }

    /** Drain every tracked aggregate, in the order it was touched. */
    method CollectEvents() returns (events: seq<Event>)
      requires Valid()
      modifies this, aggregates
      ensures events == old(Pending())
      ensures aggregates == [] && Valid()
      ensures forall a :: a in old(aggregates) ==> a.events == []
    {
      events := [];
      DistinctPairs(aggregates);
      var k := 0;
      while k < |aggregates|
        invariant 0 <= k <= |aggregates| && aggregates == old(aggregates)
        invariant events == old(Flatten(aggregates[..k]))
        invariant forall j :: 0 <= j < k ==> aggregates[j].events == []
        invariant forall j :: k <= j < |aggregates| ==> aggregates[j].events == old(aggregates[j].events)
      {
        var drained := aggregates[k].CollectEvents();
        assert old(aggregates[..k + 1][..k]) == old(aggregates[..k]);
        events := events + drained;
        k := k + 1;
      }
      assert old(aggregates[..k]) == old(aggregates);
      aggregates := [];
    }
  }

  datatype Outcome = Committed | Raised | Conflicted

  /** What a body does with the aggregates it loaded or created, by number: save one, or have one record. */
  datatype Action = Touch(aggregate: nat) | Record(aggregate: nat, event: Event)

  /** One use of a unit of work: how many aggregates it works on, what it does with them in order, and how
      it ended. */
  datatype Attempt = Attempt(aggregates: nat, actions: seq<Action>, outcome: Outcome) {
    predicate Valid() {
      forall k :: 0 <= k < |actions| ==> actions[k].aggregate < aggregates
    }
  }

  // ---------------------------------------------------------------- the events of one attempt

  /** The aggregates an attempt saved, in the order of their first save. */
  function Touched(actions: seq<Action>): (r: seq<nat>)
    ensures forall i, j :: 0 <= i < j < |r| ==> r[i] != r[j]
    ensures forall a :: a in r <==> Touch(a) in actions
  {
    if actions == [] then []
    else
      var front, last := Touched(actions[..|actions| - 1]), actions[|actions| - 1];
      assert forall x :: x in actions <==> x in actions[..|actions| - 1] || x == last;
      if last.Touch? && last.aggregate !in front then front + [last.aggregate] else front
  }

  /** What one aggregate recorded, in order. */
  function Recorded(actions: seq<Action>, aggregate: nat): seq<Event> {
    if actions == [] then []
    else
      var front, last := Recorded(actions[..|actions| - 1], aggregate), actions[|actions| - 1];
      if last.Record? && last.aggregate == aggregate then front + [last.event] else front
  }

  function EventsAlong(order: seq<nat>, actions: seq<Action>): seq<Event> {
    if order == [] then []
    else EventsAlong(order[..|order| - 1], actions) + Recorded(actions, order[|order| - 1])
  }

  /** The events an attempt has for the outbox: aggregate by aggregate in touch order, and for each in the
      order it recorded them.  What an aggregate records that is never saved is not among them. */
  function EventsOf(attempt: Attempt): seq<Event> {
    EventsAlong(Touched(attempt.actions), attempt.actions)
  }

  lemma {:induction false} EventsAlongAre(order: seq<nat>, actions: seq<Action>, e: Event)
    ensures e in EventsAlong(order, actions) <==> exists a :: a in order && Record(a, e) in actions
  {
    if order != [] {
      var front, last := order[..|order| - 1], order[|order| - 1];
      EventsAlongAre(front, actions, e);
      RecordedAre(actions, last, e);
      assert forall a :: a in order <==> a in front || a == last;
    }
  }

  lemma {:induction false} RecordedAre(actions: seq<Action>, aggregate: nat, e: Event)
    ensures e in Recorded(actions, aggregate) <==> Record(aggregate, e) in actions
  {
    if actions != [] {
      var front, last := actions[..|actions| - 1], actions[|actions| - 1];
      RecordedAre(front, aggregate, e);
      assert forall x :: x in actions <==> x in front || x == last;
    }
  }

  /** An event reaches the outbox of a committed attempt exactly when an aggregate recorded it that was
      saved at some moment, before or after recording it. */
  lemma EventsOfSavedAggregates(attempt: Attempt, e: Event)
    ensures e in EventsOf(attempt) <==> exists a :: Touch(a) in attempt.actions && Record(a, e) in attempt.actions
  {
    EventsAlongAre(Touched(attempt.actions), attempt.actions, e);
  }

  /** The objects the numbers stand for. */
  ghost function Objects(objects: seq<Aggregate>, order: seq<nat>): seq<Aggregate>
    requires Within(order, |objects|)
  {
    if order == [] then []
    else
      WithinFront(order, |objects|);
      Objects(objects, order[..|order| - 1]) + [objects[order[|order| - 1]]]
  }

  predicate Within(order: seq<nat>, n: nat) {
    forall k :: 0 <= k < |order| ==> order[k] < n
  }

  lemma WithinFront(order: seq<nat>, n: nat)
    requires order != [] && Within(order, n)
    ensures Within(order[..|order| - 1], n)
  {
  }

  predicate InRange(actions: seq<Action>, n: nat) {
    Within(Touched(actions), n)
  }

  lemma {:induction false} ObjectsAre(objects: seq<Aggregate>, order: seq<nat>, a: nat)
    requires Distinct(objects) && Within(order, |objects|) && a < |objects|
    ensures objects[a] in Objects(objects, order) <==> a in order
  {
    if order != [] {
      var front, last := order[..|order| - 1], order[|order| - 1];
      assert order == front + [last];
      ObjectsAre(objects, front, a);
      if a < last {
        DistinctAt(objects, a, last);
      } else if last < a {
        DistinctAt(objects, last, a);
      }
    }
  }

  lemma ObjectsOneMore(objects: seq<Aggregate>, order: seq<nat>, a: nat)
    requires Within(order, |objects|) && a < |objects|
    ensures Within(order + [a], |objects|)
    ensures Objects(objects, order + [a]) == Objects(objects, order) + [objects[a]]
  {
    assert (order + [a])[..|order|] == order;
  }

  lemma OneMoreBehind(before: seq<Aggregate>, saved: seq<Aggregate>, a: Aggregate)
    ensures before + saved + [a] == before + (saved + [a])
  {
  }

  lemma InConcatenation(before: seq<Aggregate>, saved: seq<Aggregate>, a: Aggregate)
    requires a !in before
    ensures a in before + saved <==> a in saved
  {
  }

  /** Tracking the saved aggregate is what one more touch adds. */
  lemma SavedObjects(objects: seq<Aggregate>, before: seq<Aggregate>, actions: seq<Action>, k: nat)
    requires k < |actions| && actions[k].Touch? && actions[k].aggregate < |objects|
    requires Distinct(objects) && InRange(actions[..k], |objects|) && objects[actions[k].aggregate] !in before
    ensures InRange(actions[..k + 1], |objects|)
    ensures
      var tracked, a := before + Objects(objects, Touched(actions[..k])), objects[actions[k].aggregate];
      before + Objects(objects, Touched(actions[..k + 1])) == if a in tracked then tracked else tracked + [a]
  {
    var a, order := actions[k].aggregate, Touched(actions[..k]);
    ObjectsAre(objects, order, a);
    InConcatenation(before, Objects(objects, order), objects[a]);
    OneMoreTouch(actions, k);
    ObjectsOneMore(objects, order, a);
    OneMoreBehind(before, Objects(objects, order), objects[a]);
  }

  lemma {:induction false} ElementsAre(before: seq<Aggregate>, objects: seq<Aggregate>, order: seq<nat>)
    requires Within(order, |objects|)
    ensures forall k :: 0 <= k < |before + Objects(objects, order)| ==>
      (before + Objects(objects, order))[k] in before || (before + Objects(objects, order))[k] in objects
  {
    if order != [] {
      var front, last := order[..|order| - 1], order[|order| - 1];
      ElementsAre(before, objects, front);
      assert before + Objects(objects, order) == (before + Objects(objects, front)) + [objects[last]];
    }
  }

  lemma TouchRecordsNothing(actions: seq<Action>, k: nat)
    requires k < |actions| && actions[k].Touch?
    ensures forall i :: Recorded(actions[..k + 1], i) == Recorded(actions[..k], i)
  {
    forall i ensures Recorded(actions[..k + 1], i) == Recorded(actions[..k], i) {
      OneMoreRecord(actions, k, i);
    }
  }

  /** How one more action changes the order of touches, and the records of every aggregate. */
  lemma OneMoreTouch(actions: seq<Action>, k: nat)
    requires k < |actions|
    ensures
      var order, a := Touched(actions[..k]), actions[k].aggregate;
      Touched(actions[..k + 1]) == if actions[k].Touch? && a !in order then order + [a] else order
  {
    assert actions[..k + 1][..k] == actions[..k];
  }

  lemma OneMoreRecord(actions: seq<Action>, k: nat, i: nat)
    requires k < |actions|
    ensures Recorded(actions[..k + 1], i) ==
      Recorded(actions[..k], i) + (if actions[k].Record? && actions[k].aggregate == i then [actions[k].event] else [])
  {
    assert actions[..k + 1][..k] == actions[..k];
  }

  twostate lemma FlattenSame(aggregates: seq<Aggregate>)
    requires forall a :: a in aggregates ==> old(a.events) == a.events
    ensures old(Flatten(aggregates)) == Flatten(aggregates)
  {
    if aggregates != [] {
      assert forall a :: a in aggregates[..|aggregates| - 1] ==> a in aggregates;
      FlattenSame(aggregates[..|aggregates| - 1]);
    }
  }

  lemma FlattenOneMore(aggregates: seq<Aggregate>, a: Aggregate)
    ensures Flatten(aggregates + [a]) == Flatten(aggregates) + a.events
  {
    assert (aggregates + [a])[..|aggregates|] == aggregates;
  }

  lemma FlattenMore(before: seq<Aggregate>, aggregates: seq<Aggregate>, a: Aggregate)
    ensures Flatten(before + (aggregates + [a])) == Flatten(before + aggregates) + a.events
  {
    FlattenOneMore(before + aggregates, a);
    assert before + (aggregates + [a]) == before + aggregates + [a];
  }

  lemma EventsBehind(a: seq<Event>, b: seq<Event>, c: seq<Event>)
    ensures (a + b) + c == a + (b + c)
  {
  }

  lemma {:induction false} FlattenObjects(before: seq<Aggregate>, objects: seq<Aggregate>, order: seq<nat>, actions: seq<Action>)
    requires Within(order, |objects|)
    requires forall k :: 0 <= k < |objects| ==> objects[k].events == Recorded(actions, k)
    ensures Flatten(before + Objects(objects, order)) == Flatten(before) + EventsAlong(order, actions)
  {
    if order == [] {
      assert before + Objects(objects, order) == before;
    } else {
      var front, last := order[..|order| - 1], order[|order| - 1];
      FlattenObjects(before, objects, front, actions);
      FlattenMore(before, Objects(objects, front), objects[last]);
      assert objects[last].events == Recorded(actions, last);
      EventsBehind(Flatten(before), EventsAlong(front, actions), Recorded(actions, last));
    }
  }

  class UnitOfWork {
    const tracker: AggregateTracker
    /** Rows staged in the open transaction, and the committed outbox. */
    var staged: seq<Event>
    var outbox: seq<Event>
    var committed: bool

    ghost predicate Valid()
      reads this, tracker
    {
      tracker.Valid()
    }

    constructor ()
      ensures Valid() && fresh(tracker) && tracker.aggregates == [] && staged == [] && outbox == []
    {
      tracker := new AggregateTracker();
      staged, outbox, committed := [], [], false;
    }

    method Enter()
      modifies this`committed
      ensures !committed
    {
      committed := false;
    }

    /** Leaving rolls back unless the body committed and did not raise afterwards. */
    method Exit(raised: bool)
      modifies this
      ensures outbox == old(outbox)
      ensures staged == if raised || !old(committed) then [] else old(staged)
      ensures committed <==> old(committed) && !raised
    {
      if raised || !committed {
        Rollback();
      }
    }

    /** Append every recorded event to the outbox, then commit; `false` is a violated unique key. */
    method Commit(accepted: bool)
      requires Valid()
      modifies this, tracker, tracker.aggregates
      ensures Valid() && staged == [] && tracker.aggregates == []
      ensures committed == (accepted || old(committed))
      ensures outbox == if accepted then old(outbox) + old(staged) + old(tracker.Pending()) else old(outbox)
    {
      var events := tracker.CollectEvents();
      staged := staged + events;
      if accepted {
        outbox := outbox + staged;
        committed := true;
      }
      staged := [];
    }

    /** Discard the transaction.  The tracker is not touched. */
    method Rollback()
      modifies this
      ensures staged == [] && outbox == old(outbox) && !committed
    {
      committed := false;
      staged := [];
    }

    static method NewAggregates(n: nat) returns (objects: seq<Aggregate>)
      ensures |objects| == n
      ensures forall k :: 0 <= k < n ==> fresh(objects[k]) && objects[k].events == []
      ensures Distinct(objects)
    {
      objects := [];
      while |objects| < n
        invariant |objects| <= n
        invariant forall k :: 0 <= k < |objects| ==> fresh(objects[k]) && objects[k].events == []
        invariant Distinct(objects)
      {
        var a := new Aggregate();
        assert a !in objects;
        DistinctOneMore(objects, a);
        objects := objects + [a];
      }
    }

    /** The objects stand for the aggregates of an attempt whose first `k` actions are done: each has its
        records, and the tracker holds those saved behind what it held before. */
    ghost predicate Follows(objects: seq<Aggregate>, before: seq<Aggregate>, actions: seq<Action>, k: nat)
      reads this, tracker, objects
      requires k <= |actions|
    {
      && Valid()
      && Distinct(objects)
      && (forall i :: 0 <= i < |objects| ==> objects[i] !in before && objects[i].events == Recorded(actions[..k], i))
      && InRange(actions[..k], |objects|)
      && tracker.aggregates == before + Objects(objects, Touched(actions[..k]))
    }

    /** Saving tracks the aggregate and leaves its events alone. */
    method Save(objects: seq<Aggregate>, ghost before: seq<Aggregate>, actions: seq<Action>, k: nat)
      requires k < |actions| && actions[k].aggregate < |objects| && actions[k].Touch?
      requires Follows(objects, before, actions, k)
      modifies tracker
      ensures Follows(objects, before, actions, k + 1)
    {
      SavedObjects(objects, before, actions, k);
      TouchRecordsNothing(actions, k);
      tracker.Track(objects[actions[k].aggregate]);
    }

    /** Recording leaves the tracker alone. */
    method RecordEvent(objects: seq<Aggregate>, ghost before: seq<Aggregate>, actions: seq<Action>, k: nat)
      requires k < |actions| && actions[k].aggregate < |objects| && actions[k].Record?
      requires Follows(objects, before, actions, k)
      modifies objects[actions[k].aggregate]
      ensures Follows(objects, before, actions, k + 1)
    {
      OneMoreTouch(actions, k);
      DistinctPairs(objects);
      objects[actions[k].aggregate].Record(actions[k].event);
      forall i | 0 <= i < |objects| ensures objects[i].events == Recorded(actions[..k + 1], i) {
        OneMoreRecord(actions, k, i);
      }
    }

    /** The body of one attempt works on objects of its own and leaves those of earlier attempts alone. */
    method Body(attempt: Attempt) returns (ghost objects: seq<Aggregate>)
      requires Valid() && attempt.Valid()
      modifies tracker
      ensures Follows(objects, old(tracker.aggregates), attempt.actions, |attempt.actions|)
      ensures |objects| == attempt.aggregates && forall k :: 0 <= k < |objects| ==> fresh(objects[k])
    {
      var created := NewAggregates(attempt.aggregates);
      ghost var before := tracker.aggregates;
      objects := created;
      var k := 0;
      assert before + [] == before;
      while k < |attempt.actions|
        invariant 0 <= k <= |attempt.actions|
        invariant Follows(created, before, attempt.actions, k)
        modifies tracker, created
      {
        if attempt.actions[k].Touch? {
          Save(created, before, attempt.actions, k);
        } else {
          RecordEvent(created, before, attempt.actions, k);
        }
        k := k + 1;
      }
    }

    /** What the body adds to the tracker's pending events. */
    lemma Pended(objects: seq<Aggregate>, before: seq<Aggregate>, attempt: Attempt)
      requires Follows(objects, before, attempt.actions, |attempt.actions|)
      ensures tracker.Pending() == Flatten(before) + EventsOf(attempt)
    {
      assert attempt.actions[..|attempt.actions|] == attempt.actions;
      FlattenObjects(before, objects, Touched(attempt.actions), attempt.actions);
    }

    /** One attempt, from entering to leaving: the body commits, or ends without. */
    method Use(attempt: Attempt)
      requires Valid() && attempt.Valid() && staged == []
      modifies this, tracker, tracker.aggregates
      ensures Valid() && staged == []
      ensures forall k :: 0 <= k < |tracker.aggregates| ==>
        tracker.aggregates[k] in old(tracker.aggregates) || fresh(tracker.aggregates[k])
      ensures tracker.Pending() == Left(old(tracker.Pending()), attempt)
      ensures outbox == old(outbox) + Appended(old(tracker.Pending()), attempt)
    {
      Enter();
      ghost var before := tracker.aggregates;
      ghost var objects := Body(attempt);
      Pended(objects, before, attempt);
      FlattenSame(before);
      ElementsAre(before, objects, Touched(attempt.actions[..|attempt.actions|]));
      if attempt.outcome != Raised {
        Commit(attempt.outcome == Committed);
      }
      Exit(attempt.outcome != Committed);
    }
  }

  // ---------------------------------------------------------------- what a sequence of attempts publishes

  /** The events still in the tracker after one attempt that began with `pending`. */
  function Left(pending: seq<Event>, attempt: Attempt): seq<Event> {
    if attempt.outcome == Raised then pending + EventsOf(attempt) else []
  }

  function Appended(pending: seq<Event>, attempt: Attempt): seq<Event> {
    if attempt.outcome == Committed then pending + EventsOf(attempt) else []
  }

  function LeftAfter(pending: seq<Event>, attempts: seq<Attempt>): seq<Event> {
    if attempts == [] then pending
    else Left(LeftAfter(pending, attempts[..|attempts| - 1]), attempts[|attempts| - 1])
  }

  function Outbox(pending: seq<Event>, attempts: seq<Attempt>): seq<Event> {
    if attempts == [] then []
    else
      var k := |attempts| - 1;
      Outbox(pending, attempts[..k]) + Appended(LeftAfter(pending, attempts[..k]), attempts[k])
  }

  /** What the outbox is for: the events of the attempts that committed, in order, each once. */
  function CommittedEvents(attempts: seq<Attempt>): seq<Event> {
    if attempts == [] then []
    else
      var k := |attempts| - 1;
      CommittedEvents(attempts[..k]) + (if attempts[k].outcome == Committed then EventsOf(attempts[k]) else [])
  }

  /** No commit finds events of an earlier attempt in the tracker. */
  ghost predicate CleanCommits(attempts: seq<Attempt>) {
    forall k :: 0 <= k < |attempts| && attempts[k].outcome == Committed ==> LeftAfter([], attempts[..k]) == []
  }

  lemma CleanOneMore(attempts: seq<Attempt>, k: nat)
    requires k + 1 == |attempts|
    ensures CleanCommits(attempts) <==>
      CleanCommits(attempts[..k]) && (attempts[k].outcome == Committed ==> LeftAfter([], attempts[..k]) == [])
  {
    assert forall j :: 0 <= j < k ==> attempts[..k][j] == attempts[j] && attempts[..k][..j] == attempts[..j];
  }

  lemma LongerIsDifferent(a: seq<Event>, b: seq<Event>, c: seq<Event>, d: seq<Event>)
    requires |a| <= |b|
    ensures |a + c| <= |b + (d + c)|
    ensures |a + c| == |b + (d + c)| <==> |a| == |b| && d == []
  {
  }

  lemma {:induction false} CommitsAtLeast(attempts: seq<Attempt>)
    ensures |CommittedEvents(attempts)| <= |Outbox([], attempts)|
    ensures |CommittedEvents(attempts)| == |Outbox([], attempts)| <==> CleanCommits(attempts)
    ensures CleanCommits(attempts) ==> Outbox([], attempts) == CommittedEvents(attempts)
  {
    if attempts != [] {
      var k := |attempts| - 1;
      CommitsAtLeast(attempts[..k]);
      CleanOneMore(attempts, k);
      var left := LeftAfter([], attempts[..k]);
      if attempts[k].outcome == Committed {
        LongerIsDifferent(CommittedEvents(attempts[..k]), Outbox([], attempts[..k]), EventsOf(attempts[k]), left);
        assert left == [] ==> left + EventsOf(attempts[k]) == EventsOf(attempts[k]);
      } else {
        assert Outbox([], attempts) == Outbox([], attempts[..k]) && CommittedEvents(attempts) == CommittedEvents(attempts[..k]);
      }
    }
  }

  /** Conservation.  On one unit of work, the outbox holds exactly the events of the committed attempts
      if and only if every commit found the tracker clean. */
  lemma CommitsExactly(attempts: seq<Attempt>)
    ensures Outbox([], attempts) == CommittedEvents(attempts) <==> CleanCommits(attempts)
  {
    CommitsAtLeast(attempts);
  }

  /** A fresh unit of work per attempt is always clean. */
  lemma FreshUnitOfWorkIsClean(attempt: Attempt)
    ensures Outbox([], [attempt]) == CommittedEvents([attempt])
  {
    assert [attempt][..0] == [];
    CommitsAtLeast([attempt]);
  }

  /** A delivery that failed after saving an aggregate, moved aside on the same unit of work: the
      commit of the claim publishes an event of work that was rolled back. */
  lemma MoveAsidePublishesRolledBackEvent(e: Event)
    ensures
      var failed, aside := Attempt(1, [Record(0, e), Touch(0)], Raised), Attempt(0, [], Committed);
      && failed.Valid() && aside.Valid()
      && Outbox([], [failed, aside]) == [e] && CommittedEvents([failed, aside]) == []
  {
    var failed, aside := Attempt(1, [Record(0, e), Touch(0)], Raised), Attempt(0, [], Committed);
    var attempts := [failed, aside];
    assert failed.actions[..1] == [Record(0, e)] && failed.actions[..1][..0] == [];
    assert Touched(failed.actions[..1]) == [] && Touched(failed.actions) == [0];
    assert Recorded([], 0) == [] && [] + [e] == [e];
    assert Recorded(failed.actions[..1], 0) == [] + [e];
    assert Recorded(failed.actions, 0) == [e];
    assert [0][..0] == [] && EventsAlong([0], failed.actions) == [] + [e];
    assert EventsOf(failed) == [e] && EventsOf(aside) == [];
    assert attempts[..1] == [failed] && attempts[..1][..0] == [];
    assert LeftAfter([], attempts[..1]) == [] + [e];
    assert CommittedEvents(attempts[..1]) == [] && Outbox([], attempts[..1]) == [];
  }
}
