/** The transactional outbox, its relays and the broker, as one state machine.

    A state holds one topic partition: every outbox row whose key is hashed to it, the partition's
    log, the dead-letter log, and what every running relay holds in memory.  A step is one commit or
    one broker call of `OutboxRelay`, one expiry of a lease, one crash, or one commit of a unit of
    work that appends a row.  A step that the code would not take in the current state leaves it
    unchanged, so every sequence of actions is a run: any number of relays, interleaved in any way.

    The row identifier stands for the event identifier: `outbox.event_id` is unique. */
module Outbox {
  import opened Wrappers

  type RowId = nat
  type Key = nat

  datatype Row = Row(key: Key, kind: nat, published: bool, deadLettered: bool, attempts: nat, claimed: bool) {
    /** The row still needs publishing. */
    predicate Pending() { !published && !deadLettered }
  }

  /** A row as one relay took it: `attempts` is the count it read when it claimed the row. */
  datatype Message = Message(relay: nat, row: RowId, attempts: nat)

  /** `acked` are the messages the broker acknowledged to their relay, `copied` those whose
      dead-letter copy it acknowledged; in both cases the outcome is not committed yet. */
  datatype World = World(
    rows: map<RowId, Row>, topic: seq<RowId>, deadTopic: seq<RowId>,
    held: set<Message>, acked: set<Message>, copied: set<Message>)

  datatype Action =
    | Append(id: RowId, key: Key, kind: nat)
    | Claim(relay: nat, id: RowId)
    | ExpireLease(id: RowId)
    | Publish(m: Message, acknowledged: bool)
    | MarkPublished(m: Message)
    | RecordFailure(m: Message)
    | CopyAside(m: Message, acknowledged: bool)
    | DeadLetter(m: Message)
    | Crash(relay: nat)

  const EMPTY := World(map[], [], [], {}, {}, {})

  /** `i` is older than `j` and shares its partition key. */
  predicate Older(rows: map<RowId, Row>, i: RowId, j: RowId) {
    i in rows && j in rows && i < j && rows[i].key == rows[j].key
  }

  /** Nothing older on the row's key still needs publishing: the ordering barrier. */
  predicate Unblocked(rows: map<RowId, Row>, id: RowId) {
    forall i | i in rows :: Older(rows, i, id) ==> !rows[i].Pending()
  }

  predicate Claimable(rows: map<RowId, Row>, id: RowId) {
    id in rows && rows[id].Pending() && !rows[id].claimed && Unblocked(rows, id)
  }

  function Drop(w: World, m: Message): World {
    w.(held := w.held - {m}, acked := w.acked - {m}, copied := w.copied - {m})
  }

  /** One step.  `budget` is `outbox_max_attempts`.  A publish or a copy that is not acknowledged to
      the relay may still have reached the log, which is why at-least-once delivery duplicates.  A
      finished delivery clears the row's lease even when another relay took it over meanwhile. */
  function Step(w: World, budget: nat, a: Action): World {
    match a
    case Append(id, key, kind) =>
      if id in w.rows then w else w.(rows := w.rows[id := Row(key, kind, false, false, 0, false)])
    case Claim(relay, id) =>
      if !Claimable(w.rows, id) then w
      else w.(rows := w.rows[id := w.rows[id].(claimed := true)],
              held := w.held + {Message(relay, id, w.rows[id].attempts)})
    case ExpireLease(id) =>
      if id !in w.rows then w else w.(rows := w.rows[id := w.rows[id].(claimed := false)])
    case Publish(m, acknowledged) =>
      if m !in w.held || m in w.acked then w
      else w.(topic := w.topic + [m.row], acked := if acknowledged then w.acked + {m} else w.acked)
    case MarkPublished(m) =>
      if m !in w.acked || m.row !in w.rows then w
      else Drop(w, m).(rows := w.rows[m.row := w.rows[m.row].(published := true, claimed := false)])
    case RecordFailure(m) =>
      if m !in w.held || m in w.acked || m in w.copied || m.row !in w.rows then w
      else Drop(w, m).(rows := w.rows[m.row := w.rows[m.row].(attempts := w.rows[m.row].attempts + 1, claimed := false)])
    case CopyAside(m, acknowledged) =>
      if m !in w.held || m in w.acked || m in w.copied || m.attempts + 1 < budget then w
      else w.(deadTopic := w.deadTopic + [m.row], copied := if acknowledged then w.copied + {m} else w.copied)
    case DeadLetter(m) =>
      if m !in w.copied || m.row !in w.rows then w
      else Drop(w, m).(rows := w.rows[m.row := w.rows[m.row].(deadLettered := true, claimed := false)])
    case Crash(relay) =>
      w.(held := (set m | m in w.held && m.relay != relay),
         acked := (set m | m in w.acked && m.relay != relay),
         copied := (set m | m in w.copied && m.relay != relay))
  }

  function Run(w: World, budget: nat, actions: seq<Action>): World
    decreases |actions|
  {
    if actions == [] then w else Run(Step(w, budget, actions[0]), budget, actions[1..])
  }

  /** Rows of one key become visible in identifier order. */
  ghost predicate VisibleInOrder(w: World, a: Action) {
    a.Append? ==> forall j :: j in w.rows && w.rows[j].key == a.key ==> j <= a.id
  }

  ghost predicate VisibleInOrderRun(w: World, budget: nat, actions: seq<Action>)
    decreases |actions|
  {
    actions != [] ==>
      VisibleInOrder(w, actions[0]) && VisibleInOrderRun(Step(w, budget, actions[0]), budget, actions[1..])
  }

  // ---------------------------------------------------------------- conservation

  /** A mark is never set before its fact: published rows are on the topic, dead-lettered rows have a copy. */
  ghost predicate MarksAreTrue(w: World) {
    && (forall id :: id in w.rows && w.rows[id].published ==> id in w.topic)
    && (forall id :: id in w.rows && w.rows[id].deadLettered ==> id in w.deadTopic)
    && (forall m :: m in w.acked ==> m in w.held && m.row in w.topic)
    && (forall m :: m in w.copied ==> m in w.held && m.row in w.deadTopic)
    && (forall m :: m in w.held ==> m.row in w.rows)
    && (forall id :: id in w.topic ==> id in w.rows)
    && (forall id :: id in w.deadTopic ==> id in w.rows)
  }

  /** What no step takes back. */
  ghost predicate Keeps(w: World, w': World) {
    && w.topic <= w'.topic && w.deadTopic <= w'.deadTopic
    && (forall id :: id in w.rows ==>
      && id in w'.rows && w'.rows[id].key == w.rows[id].key && w'.rows[id].kind == w.rows[id].kind
      && (w.rows[id].published ==> w'.rows[id].published)
      && (w.rows[id].deadLettered ==> w'.rows[id].deadLettered)
      && w.rows[id].attempts <= w'.rows[id].attempts)
  }

  lemma StepKeepsMarksTrue(w: World, budget: nat, a: Action)
    requires MarksAreTrue(w)
    ensures MarksAreTrue(Step(w, budget, a))
  {
  }

  lemma StepKeeps(w: World, budget: nat, a: Action)
    ensures Keeps(w, Step(w, budget, a))
  {
  }

  /** Whatever relays do and whenever they crash, a row never leaves the outbox, a row is settled only
      with its message on the topic or its copy on the dead-letter topic, and no mark is undone. */
  lemma {:induction false} RunConserves(w: World, budget: nat, actions: seq<Action>)
    requires MarksAreTrue(w)
    ensures MarksAreTrue(Run(w, budget, actions)) && Keeps(w, Run(w, budget, actions))
    ensures forall id :: id in w.rows ==>
      var row := Run(w, budget, actions).rows[id];
      row.Pending() || id in Run(w, budget, actions).topic || id in Run(w, budget, actions).deadTopic
    decreases |actions|
  {
    if actions != [] {
      StepKeepsMarksTrue(w, budget, actions[0]);
      StepKeeps(w, budget, actions[0]);
      RunConserves(Step(w, budget, actions[0]), budget, actions[1..]);
    }
  }

  /** The first message appended under an identifier. */
  function FirstAppended(actions: seq<Action>, id: RowId): Option<(Key, nat)>
    decreases |actions|
  {
    if actions == [] then None
    else if actions[0].Append? && actions[0].id == id then Some((actions[0].key, actions[0].kind))
    else FirstAppended(actions[1..], id)
  }

  /** Rows come from committed units of work only, each with the key and the kind it was appended with. */
  lemma {:induction false} RowsAreAsAppended(w: World, budget: nat, actions: seq<Action>, id: RowId)
    requires id !in w.rows
    ensures
      var rows := Run(w, budget, actions).rows;
      if FirstAppended(actions, id).None? then id !in rows
      else id in rows && (rows[id].key, rows[id].kind) == FirstAppended(actions, id).value
    decreases |actions|
  {
    if actions != [] {
      var next := Step(w, budget, actions[0]);
      if id in next.rows {
        RowKeepsItsMessage(next, budget, actions[1..], id);
      } else {
        RowsAreAsAppended(next, budget, actions[1..], id);
      }
    }
  }

  lemma {:induction false} RowKeepsItsMessage(w: World, budget: nat, actions: seq<Action>, id: RowId)
    requires id in w.rows
    ensures id in Run(w, budget, actions).rows
    ensures
      var row := Run(w, budget, actions).rows[id];
      row.key == w.rows[id].key && row.kind == w.rows[id].kind
    decreases |actions|
  {
    if actions != [] {
      StepKeeps(w, budget, actions[0]);
      RowKeepsItsMessage(Step(w, budget, actions[0]), budget, actions[1..], id);
    }
  }

  predicate NobodyClaims(actions: seq<Action>, id: RowId) {
    forall k :: 0 <= k < |actions| ==> !(actions[k].Claim? && actions[k].id == id)
  }

  /** Until a relay claims it, a row is pending, free and untried. */
  lemma {:induction false} UnclaimedRowIsFresh(w: World, budget: nat, actions: seq<Action>, id: RowId)
    requires MarksAreTrue(w) && NobodyClaims(actions, id)
    requires forall m :: m in w.held ==> m.row != id
    requires id in w.rows ==> w.rows[id].Pending() && !w.rows[id].claimed && w.rows[id].attempts == 0
    ensures
      var rows := Run(w, budget, actions).rows;
      id in rows ==> rows[id].Pending() && !rows[id].claimed && rows[id].attempts == 0
    decreases |actions|
  {
    if actions != [] {
      assert !(actions[0].Claim? && actions[0].id == id);
      assert forall k :: 0 <= k < |actions| - 1 ==> actions[1..][k] == actions[k + 1];
      StepKeepsMarksTrue(w, budget, actions[0]);
      UnclaimedRowIsFresh(Step(w, budget, actions[0]), budget, actions[1..], id);
    }
  }

  // ---------------------------------------------------------------- leases

  /** A row is with one relay at most, and while it is, its lease is taken or it is settled. */
  ghost predicate OneHolder(w: World) {
    && (forall m, n :: m in w.held && n in w.held && m.row == n.row ==> m == n)
    && (forall m :: m in w.held && m.row in w.rows ==> w.rows[m.row].claimed || !w.rows[m.row].Pending())
  }

  predicate NoLeaseExpires(actions: seq<Action>) {
    forall k :: 0 <= k < |actions| ==> !actions[k].ExpireLease?
  }

  lemma StepKeepsOneHolder(w: World, budget: nat, a: Action)
    requires MarksAreTrue(w) && OneHolder(w) && !a.ExpireLease?
    ensures OneHolder(Step(w, budget, a))
  {
  }

  /** What leases are for: unless one expires, no two relays ever hold a row at once, whatever else happens. */
  lemma {:induction false} LeasesAreExclusive(w: World, budget: nat, actions: seq<Action>)
    requires MarksAreTrue(w) && OneHolder(w) && NoLeaseExpires(actions)
    ensures OneHolder(Run(w, budget, actions))
    decreases |actions|
  {
    if actions != [] {
      assert !actions[0].ExpireLease?;
      assert forall k :: 0 <= k < |actions| - 1 ==> actions[1..][k] == actions[k + 1];
      StepKeepsMarksTrue(w, budget, actions[0]);
      StepKeepsOneHolder(w, budget, actions[0]);
      LeasesAreExclusive(Step(w, budget, actions[0]), budget, actions[1..]);
    }
  }

  /** A crashed relay does nothing more with what it held. */
  lemma CrashedRelayIsSilent(w: World, budget: nat, m: Message, acknowledged: bool)
    requires MarksAreTrue(w)
    ensures
      var crashed := Step(w, budget, Crash(m.relay));
      && Step(crashed, budget, Publish(m, acknowledged)) == crashed && Step(crashed, budget, MarkPublished(m)) == crashed
      && Step(crashed, budget, RecordFailure(m)) == crashed && Step(crashed, budget, DeadLetter(m)) == crashed
  {
  }

  // ---------------------------------------------------------------- giving up

  /** Whoever gave a row up had read a count one failure short of the budget, and counts only grow. */
  ghost predicate GivenUpAtTheBudget(w: World, budget: nat) {
    && (forall m :: m in w.held && m.row in w.rows ==> m.attempts <= w.rows[m.row].attempts)
    && (forall m :: m in w.copied ==> m.attempts + 1 >= budget)
    && (forall id :: id in w.rows && w.rows[id].deadLettered ==> w.rows[id].attempts + 1 >= budget)
    && (forall id :: id in w.deadTopic && id in w.rows ==> w.rows[id].attempts + 1 >= budget)
  }

  lemma StepGivesUpAtTheBudget(w: World, budget: nat, a: Action)
    requires MarksAreTrue(w) && GivenUpAtTheBudget(w, budget)
    ensures GivenUpAtTheBudget(Step(w, budget, a), budget)
  {
  }

  /** No row is dead-lettered, and none copied to the dead-letter topic, before its budget of failed polls is
      used up. */
  lemma {:induction false} RowsAreGivenUpAtTheBudget(w: World, budget: nat, actions: seq<Action>)
    requires MarksAreTrue(w) && GivenUpAtTheBudget(w, budget)
    ensures GivenUpAtTheBudget(Run(w, budget, actions), budget)
    decreases |actions|
  {
    if actions != [] {
      StepKeepsMarksTrue(w, budget, actions[0]);
      StepGivesUpAtTheBudget(w, budget, actions[0]);
      RowsAreGivenUpAtTheBudget(Step(w, budget, actions[0]), budget, actions[1..]);
    }
  }

  // ---------------------------------------------------------------- order

  ghost predicate Holds(w: World, id: RowId) {
    exists m :: m in w.held && m.row == id
  }

  /** A row that was ever taken or published has nothing pending before it on its key, and on the
      topic it comes after every older row of its key that was not dead-lettered. */
  ghost predicate InOrder(w: World) {
    BarrierHeld(w) && TopicOrdered(w)
  }

  ghost predicate BarrierHeld(w: World) {
    forall i, j :: Older(w.rows, i, j) && (j in w.topic || Holds(w, j)) ==> !w.rows[i].Pending()
  }

  ghost predicate TopicOrdered(w: World) {
    forall n, i :: 0 <= n < |w.topic| && Older(w.rows, i, w.topic[n]) && !w.rows[i].deadLettered ==> i in w.topic[..n]
  }

  lemma StepHoldsBarrier(w: World, budget: nat, a: Action)
    requires MarksAreTrue(w) && BarrierHeld(w) && VisibleInOrder(w, a)
    ensures BarrierHeld(Step(w, budget, a))
  {
    var w' := Step(w, budget, a);
    forall i, j | Older(w'.rows, i, j) && (j in w'.topic || Holds(w', j)) ensures !w'.rows[i].Pending() {
      if a.Append? && i == a.id && i !in w.rows {
        assert false;
      } else {
        assert Older(w.rows, i, j);
        if a.Publish? && w'.topic != w.topic && j == a.m.row {
          assert Holds(w, j);
        }
      }
    }
  }

  lemma StepOrdersTopic(w: World, budget: nat, a: Action)
    requires MarksAreTrue(w) && BarrierHeld(w) && TopicOrdered(w) && VisibleInOrder(w, a)
    ensures TopicOrdered(Step(w, budget, a))
  {
    var w' := Step(w, budget, a);
    forall n, i | 0 <= n < |w'.topic| && Older(w'.rows, i, w'.topic[n]) && !w'.rows[i].deadLettered
      ensures i in w'.topic[..n]
    {
      if n < |w.topic| {
        assert w'.topic[n] == w.topic[n] && w'.topic[..n] == w.topic[..n];
        assert w.topic[n] in w.topic;
        assert Older(w.rows, i, w.topic[n]);
      } else {
        assert a.Publish? && w'.topic[..n] == w.topic;
        assert Holds(w, a.m.row);
      }
    }
  }

  /** The key lemma of delivery order.  For any number of relays, crashes and lease expiries: whenever
      a row is on the topic, every older row of its key that is not dead-lettered came first. */
  lemma {:induction false} RunKeepsOrder(w: World, budget: nat, actions: seq<Action>)
    requires MarksAreTrue(w) && InOrder(w) && VisibleInOrderRun(w, budget, actions)
    ensures InOrder(Run(w, budget, actions))
    decreases |actions|
  {
    if actions != [] {
      StepKeepsMarksTrue(w, budget, actions[0]);
      StepHoldsBarrier(w, budget, actions[0]);
      StepOrdersTopic(w, budget, actions[0]);
      RunKeepsOrder(Step(w, budget, actions[0]), budget, actions[1..]);
    }
  }

  /** A run of the code that ends in `w`. */
  ghost predicate Reachable(w: World, budget: nat) {
    exists actions :: VisibleInOrderRun(EMPTY, budget, actions) && Run(EMPTY, budget, actions) == w
  }

  lemma ReachableStep(w: World, budget: nat, a: Action)
    requires Reachable(w, budget) && VisibleInOrder(w, a)
    ensures Reachable(Step(w, budget, a), budget)
  {
    var actions :| VisibleInOrderRun(EMPTY, budget, actions) && Run(EMPTY, budget, actions) == w;
    RunAppends(EMPTY, budget, actions, a);
    assert Run(EMPTY, budget, actions + [a]) == Step(w, budget, a);
  }

  lemma {:induction false} RunAppends(w: World, budget: nat, actions: seq<Action>, a: Action)
    requires VisibleInOrderRun(w, budget, actions) && VisibleInOrder(Run(w, budget, actions), a)
    ensures VisibleInOrderRun(w, budget, actions + [a])
    ensures Run(w, budget, actions + [a]) == Step(Run(w, budget, actions), budget, a)
    decreases |actions|
  {
    if actions == [] {
      assert actions + [a] == [a] && [a][1..] == [];
    } else {
      assert (actions + [a])[1..] == actions[1..] + [a];
      RunAppends(Step(w, budget, actions[0]), budget, actions[1..], a);
    }
  }

  /** Two rows of one key, and a relay that claimed the first and stalled past its lease. */
  const STALLED := World(
    map[1 := Row(7, 0, false, false, 0, false), 2 := Row(7, 0, false, false, 0, false)],
    [], [], {Message(1, 1, 0)}, {}, {})

  lemma StalledIsReachable()
    ensures Reachable(STALLED, 1)
  {
    assert Run(EMPTY, 1, []) == EMPTY && Reachable(EMPTY, 1);
    var w1 := Step(EMPTY, 1, Append(1, 7, 0));
    ReachableStep(EMPTY, 1, Append(1, 7, 0));
    var w2 := Step(w1, 1, Append(2, 7, 0));
    ReachableStep(w1, 1, Append(2, 7, 0));
    var w3 := Step(w2, 1, Claim(1, 1));
    ReachableStep(w2, 1, Claim(1, 1));
    ReachableStep(w3, 1, ExpireLease(1));
    assert Step(w3, 1, ExpireLease(1)) == STALLED;
  }

  /** Another relay took the stalled row over and gave it up; its successor is free. */
  const GIVEN_UP := World(
    map[1 := Row(7, 0, false, true, 0, false), 2 := Row(7, 0, false, false, 0, false)],
    [], [1], {Message(1, 1, 0)}, {}, {})

  lemma GivenUpIsReachable()
    ensures Reachable(GIVEN_UP, 1)
  {
    StalledIsReachable();
    var other := Message(2, 1, 0);
    var w1 := Step(STALLED, 1, Claim(2, 1));
    ReachableStep(STALLED, 1, Claim(2, 1));
    assert other in w1.held;
    var w2 := Step(w1, 1, CopyAside(other, true));
    ReachableStep(w1, 1, CopyAside(other, true));
    ReachableStep(w2, 1, DeadLetter(other));
    assert Step(w2, 1, DeadLetter(other)) == GIVEN_UP;
  }

  /** Why the order speaks only of rows that are not dead-lettered.  Another relay takes the stalled
      row over, gives it up and publishes its successor; then the stalled relay publishes its row. */
  lemma StalledRelayPublishesAbandonedRow()
    ensures exists w :: Reachable(w, 1) && w.topic == [2, 1] && 1 in w.rows && w.rows[1].deadLettered
  {
    GivenUpIsReachable();
    var stalled, successor := Message(1, 1, 0), Message(2, 2, 0);
    var w1 := Step(GIVEN_UP, 1, Claim(2, 2));
    ReachableStep(GIVEN_UP, 1, Claim(2, 2));
    assert successor in w1.held && stalled in w1.held;
    var w2 := Step(w1, 1, Publish(successor, true));
    ReachableStep(w1, 1, Publish(successor, true));
    ReachableStep(w2, 1, Publish(stalled, true));
    assert Step(w2, 1, Publish(stalled, true)).topic == [2, 1];
  }

  lemma {:induction false} RunSplits(w: World, budget: nat, first: seq<Action>, second: seq<Action>)
    ensures Run(w, budget, first + second) == Run(Run(w, budget, first), budget, second)
    decreases |first|
  {
    if first == [] {
      assert first + second == second;
    } else {
      assert (first + second)[1..] == first[1..] + second;
      RunSplits(Step(w, budget, first[0]), budget, first[1..], second);
    }
  }

  /** Why rows of a key must become visible in identifier order: a row committed late is overtaken. */
  lemma LateRowIsOvertaken()
    ensures
      var actions := [Append(2, 7, 0), Claim(1, 2), Publish(Message(1, 2, 0), true), Append(1, 7, 0)];
      !InOrder(Run(EMPTY, 1, actions)) && !VisibleInOrderRun(EMPTY, 1, actions)
  {
    var w1 := Step(EMPTY, 1, Append(2, 7, 0));
    var w2 := Step(w1, 1, Claim(1, 2));
    assert Message(1, 2, 0) in w2.held;
    var w3 := Step(w2, 1, Publish(Message(1, 2, 0), true));
    var w4 := Step(w3, 1, Append(1, 7, 0));
    var actions := [Append(2, 7, 0), Claim(1, 2), Publish(Message(1, 2, 0), true), Append(1, 7, 0)];
    assert actions[1..][1..][1..][1..] == [];
    assert actions[1..][0] == Claim(1, 2) && actions[1..][1..][0] == Publish(Message(1, 2, 0), true);
    assert actions[1..][1..][1..][0] == Append(1, 7, 0);
    assert Run(EMPTY, 1, actions) == w4;
    assert w4.topic[0] == 2 && Older(w4.rows, 1, w4.topic[0]) && 1 !in w4.topic[..0];
    assert VisibleInOrderRun(w3, 1, actions[1..][1..][1..]) <==> VisibleInOrder(w3, Append(1, 7, 0));
  }

  // ---------------------------------------------------------------- the barrier never deadlocks

  /** The oldest pending row of a key is never blocked: a pending row always leaves one that can be
      claimed once its lease is gone. */
  lemma {:induction false} PendingKeyHasAnUnblockedRow(rows: map<RowId, Row>, id: RowId) returns (first: RowId)
    requires id in rows && rows[id].Pending()
    ensures first in rows && rows[first].key == rows[id].key && rows[first].Pending() && Unblocked(rows, first)
    ensures first <= id
    decreases id
  {
    if i :| i in rows && Older(rows, i, id) && rows[i].Pending() {
      first := PendingKeyHasAnUnblockedRow(rows, i);
    } else {
      first := id;
    }
  }

  /** Two rows that may be claimed together never share a key, so the order of a batch is immaterial. */
  lemma ClaimableRowsHaveDistinctKeys(rows: map<RowId, Row>, i: RowId, j: RowId)
    requires Claimable(rows, i) && Claimable(rows, j) && i != j
    ensures rows[i].key != rows[j].key
  {
    assert Older(rows, i, j) || Older(rows, j, i) || rows[i].key != rows[j].key;
  }
}
