/** Whole polls of the relay against a broker that refuses every row: the attempt budget runs out. */
module OutboxPolls {
  import opened Outbox
  import opened OutboxRelay
  import opened OutboxBudget

  /** The broker refuses every try of the row and accepts the dead-letter copy. */
  predicate Refusal(s: Script) {
    Accepted !in s.tries && s.copy == Accepted
  }

  predicate InMemory(w: World, m: Message) {
    m in w.held && m !in w.acked && m !in w.copied && m.row in w.rows
  }

  /** The row after one refused delivery. */
  function Failed(row: Row, m: Message, budget: nat): Row {
    if m.attempts + 1 < budget then row.(attempts := row.attempts + 1, claimed := false)
    else row.(deadLettered := true, claimed := false)
  }

  lemma {:induction false} RefusedTriesOnlyReachTheTopic(w: World, budget: nat, m: Message, tries: seq<Answer>)
    requires InMemory(w, m) && Accepted !in tries
    ensures
      var w' := Run(w, budget, TryActions(m, tries));
      w' == w.(topic := w'.topic)
  {
    if tries != [] {
      var front, last := tries[..|tries| - 1], tries[|tries| - 1];
      assert last in tries;
      RefusedTriesOnlyReachTheTopic(w, budget, m, front);
      if last != Refused {
        RunSplits(w, budget, TryActions(m, front), [Publish(m, false)]);
        RunOne(Run(w, budget, TryActions(m, front)), budget, Publish(m, false));
      } else {
        assert TryActions(m, front) + [] == TryActions(m, front);
      }
    }
  }

  lemma RefusedOutcome(w: World, budget: nat, m: Message, s: Script)
    requires InMemory(w, m) && Refusal(s)
    ensures
      var w' := Run(w, budget, OutcomeActions(m, budget, s));
      && w'.rows == w.rows[m.row := Failed(w.rows[m.row], m, budget)]
      && w'.held == w.held - {m} && w'.acked == w.acked && w'.copied == w.copied
  {
    if m.attempts + 1 < budget {
      RunOne(w, budget, RecordFailure(m));
    } else {
      RunSplits(w, budget, [CopyAside(m, true)], [DeadLetter(m)]);
      RunOne(w, budget, CopyAside(m, true));
      RunOne(Step(w, budget, CopyAside(m, true)), budget, DeadLetter(m));
      assert [CopyAside(m, true)] + [DeadLetter(m)] == [CopyAside(m, true), DeadLetter(m)];
    }
  }

  /** One refused delivery of a claimed message, as the relay's loop makes it. */
  lemma RefusedDeliveryFails(w: World, budget: nat, m: Message, s: Script)
    requires InMemory(w, m) && Refusal(s)
    ensures
      var w' := Run(w, budget, DeliverActions(m, budget, s));
      && w'.rows == w.rows[m.row := Failed(w.rows[m.row], m, budget)]
      && w'.held == w.held - {m} && w'.acked == w.acked && w'.copied == w.copied
  {
    RunSplits(w, budget, TryActions(m, s.tries), OutcomeActions(m, budget, s));
    RefusedTriesOnlyReachTheTopic(w, budget, m, s.tries);
    RefusedOutcome(Run(w, budget, TryActions(m, s.tries)), budget, m, s);
  }

  lemma FailedCountsOne(rows: map<RowId, Row>, budget: nat, m: Message)
    requires m.row in rows && rows[m.row].Pending() && rows[m.row].attempts == m.attempts
    ensures Outstanding(rows[m.row := Failed(rows[m.row], m, budget)], budget) + 1 == Outstanding(rows, budget)
  {
    var rows' := rows[m.row := Failed(rows[m.row], m, budget)];
    assert rows'.Keys == rows.Keys;
    TotalPicks(rows, budget, rows.Keys, m.row);
    TotalPicks(rows', budget, rows.Keys, m.row);
    TotalAgrees(rows, rows', budget, rows.Keys - {m.row});
  }

  // ---------------------------------------------------------------- one poll

  /** Only this relay is at work: every lease is for a message it holds, read off a row still pending. */
  ghost predicate Delivering(w: World) {
    && w.acked == {} && w.copied == {}
    && (forall m :: m in w.held ==> m.row in w.rows && w.rows[m.row].Pending() && w.rows[m.row].attempts == m.attempts)
    && (forall m, n :: m in w.held && n in w.held && m.row == n.row ==> m == n)
    && (forall id :: id in w.rows && w.rows[id].claimed ==> Holds(w, id))
  }

  lemma BatchIsHeld(w: World, relay: nat, batch: seq<Message>)
    requires Idle(w) && OldestFirst(batch) && forall m :: m in batch ==> FitsRow(w.rows, relay, m)
    ensures Delivering(AfterClaims(w, batch))
  {
    var w' := AfterClaims(w, batch);
    assert forall m :: m in w'.held <==> m in batch;
    forall m, n | m in w'.held && n in w'.held && m.row == n.row ensures m == n {
    }
    forall id | id in w'.rows && w'.rows[id].claimed ensures Holds(w', id) {
      var m :| m in batch && m.row == id;
      assert m in w'.held;
    }
  }

  lemma ClaimsKeepOutstanding(w: World, budget: nat, batch: seq<Message>)
    ensures Outstanding(AfterClaims(w, batch).rows, budget) == Outstanding(w.rows, budget)
  {
    assert AfterClaims(w, batch).rows.Keys == w.rows.Keys;
    TotalAgrees(w.rows, AfterClaims(w, batch).rows, budget, w.rows.Keys);
  }

  lemma DeliveryLeavesTheRest(w: World, w': World, m: Message, row: Row)
    requires Delivering(w) && m in w.held && !row.claimed
    requires w'.rows == w.rows[m.row := row] && w'.held == w.held - {m} && w'.acked == w.acked && w'.copied == w.copied
    ensures Delivering(w')
  {
    forall id | id in w'.rows && w'.rows[id].claimed ensures Holds(w', id) {
      assert id != m.row && Holds(w, id);
    }
  }

  lemma NextDelivery(w: World, budget: nat, m: Message, s: Script)
    requires Delivering(w) && m in w.held && Refusal(s)
    ensures
      var w' := Run(w, budget, DeliverActions(m, budget, s));
      && Delivering(w') && w'.held == w.held - {m} && w'.rows.Keys == w.rows.Keys
      && Outstanding(w'.rows, budget) + 1 == Outstanding(w.rows, budget)
  {
    RefusedDeliveryFails(w, budget, m, s);
    DeliveryLeavesTheRest(w, Run(w, budget, DeliverActions(m, budget, s)), m, Failed(w.rows[m.row], m, budget));
    FailedCountsOne(w.rows, budget, m);
  }

  /** The first `k` messages of the batch are delivered and refused; the others are still held. */
  lemma {:induction false} BatchIsRefused(w: World, budget: nat, batch: seq<Message>, scripts: seq<Script>, k: nat)
    requires k <= |batch| <= |scripts| && OldestFirst(batch)
    requires Delivering(w) && forall j :: 0 <= j < |batch| ==> batch[j] in w.held
    requires forall s :: s in scripts ==> Refusal(s)
    ensures
      RefusedUpTo(w, Run(w, budget, BatchActions(batch[..k], budget, scripts)), budget, batch, k)
  {
    if k > 0 {
      var now := Run(w, budget, BatchActions(batch[..k - 1], budget, scripts));
      BatchIsRefused(w, budget, batch, scripts, k - 1);
      BatchActionsSnoc(w, budget, batch, scripts, k - 1);
      assert scripts[k - 1] in scripts;
      OneMoreRefused(w, now, budget, batch, k - 1, scripts[k - 1]);
    }
  }

  /** `k` messages of the batch `w` held are given back, each at the cost of one unit. */
  ghost predicate RefusedUpTo(w: World, now: World, budget: nat, batch: seq<Message>, k: nat) {
    && Delivering(now) && now.rows.Keys == w.rows.Keys && now.held <= w.held
    && (forall j :: 0 <= j < |batch| ==> (batch[j] in now.held <==> k <= j))
    && Outstanding(now.rows, budget) + k == Outstanding(w.rows, budget)
  }

  lemma OneMoreRefused(w: World, now: World, budget: nat, batch: seq<Message>, k: nat, s: Script)
    requires k < |batch| && OldestFirst(batch) && RefusedUpTo(w, now, budget, batch, k) && Refusal(s)
    ensures RefusedUpTo(w, Run(now, budget, DeliverActions(batch[k], budget, s)), budget, batch, k + 1)
  {
    NextDelivery(now, budget, batch[k], s);
    assert forall j :: 0 <= j < |batch| && j != k ==> batch[j].row != batch[k].row;
  }

  /** What one poll took, and what the broker answered. */
  datatype Poll = Poll(relay: nat, batch: seq<Message>, scripts: seq<Script>)

  /** The batch is of claimable rows, and empty only when there is none. */
  ghost predicate Taken(rows: map<RowId, Row>, p: Poll) {
    && |p.batch| <= |p.scripts| && OldestFirst(p.batch)
    && (forall m :: m in p.batch ==> FitsRow(rows, p.relay, m))
    && (p.batch == [] ==> forall id :: !Claimable(rows, id))
  }

  /** Every batch that `RunOnce` fetches is one. */
  lemma FetchedIsTaken(rows: map<RowId, Row>, limit: nat, p: Poll)
    requires 0 < limit && |p.batch| <= |p.scripts| && Fetched(rows, p.relay, limit, p.batch)
    ensures Taken(rows, p)
  {
    if p.batch == [] {
      assert RowsOf(p.batch) == {};
    }
  }

  ghost predicate AllRefused(p: Poll) {
    forall s :: s in p.scripts ==> Refusal(s)
  }

  /** The actions of `OutboxRelay.RunOnce`. */
  function PollActions(p: Poll, budget: nat): seq<Action>
    requires |p.batch| <= |p.scripts|
  {
    ClaimActions(p.batch) + BatchActions(p.batch, budget, p.scripts)
  }

  lemma PollRun(w: World, budget: nat, p: Poll)
    requires Taken(w.rows, p)
    ensures Run(w, budget, PollActions(p, budget)) ==
            Run(AfterClaims(w, p.batch), budget, BatchActions(p.batch, budget, p.scripts))
  {
    RunSplits(w, budget, ClaimActions(p.batch), BatchActions(p.batch, budget, p.scripts));
    ClaimsRun(w, budget, p.relay, p.batch);
  }

  /** A refused poll gives back everything it claimed and uses up one unit for every message of its
      batch, and its batch is empty only when nothing is left to publish. */
  lemma RefusedPollCounts(w: World, budget: nat, p: Poll)
    requires Idle(w) && Taken(w.rows, p) && AllRefused(p)
    ensures
      var w' := Run(w, budget, PollActions(p, budget));
      && Idle(w') && w'.rows.Keys == w.rows.Keys
      && Outstanding(w'.rows, budget) + |p.batch| == Outstanding(w.rows, budget)
    ensures p.batch == [] <==> Settled(w.rows)
  {
    var claimed := AfterClaims(w, p.batch);
    PollRun(w, budget, p);
    BatchIsHeld(w, p.relay, p.batch);
    ClaimsKeepOutstanding(w, budget, p.batch);
    BatchIsRefused(claimed, budget, p.batch, p.scripts, |p.batch|);
    assert p.batch[..|p.batch|] == p.batch;
    DoneIsIdle(claimed, Run(claimed, budget, BatchActions(p.batch, budget, p.scripts)), p.batch);
    EmptyBatchMeansSettled(w, p);
  }

  lemma DoneIsIdle(w: World, w': World, batch: seq<Message>)
    requires Delivering(w') && w'.held <= w.held
    requires forall m :: m in w.held ==> m in batch
    requires forall j :: 0 <= j < |batch| ==> batch[j] !in w'.held
    ensures Idle(w')
  {
    assert forall m :: m !in w'.held;
  }

  lemma UnsettledCanBeClaimed(w: World)
    requires Idle(w)
    ensures !Settled(w.rows) ==> exists id :: Claimable(w.rows, id)
  {
    if id :| id in w.rows && w.rows[id].Pending() {
      var first := PendingKeyHasAnUnblockedRow(w.rows, id);
      assert Claimable(w.rows, first);
    }
  }

  lemma EmptyBatchMeansSettled(w: World, p: Poll)
    requires Idle(w) && Taken(w.rows, p)
    ensures p.batch == [] <==> Settled(w.rows)
  {
    UnsettledCanBeClaimed(w);
    if p.batch != [] {
      assert p.batch[0] in p.batch;
    }
  }

  // ---------------------------------------------------------------- poll after poll

  /** Polls of any relays, one after the other, each of the table the one before left. */
  ghost predicate RefusedPolls(w: World, budget: nat, polls: seq<Poll>)
    decreases |polls|
  {
    polls != [] ==>
      && Taken(w.rows, polls[0]) && AllRefused(polls[0])
      && RefusedPolls(Run(w, budget, PollActions(polls[0], budget)), budget, polls[1..])
  }

  ghost function AfterPolls(w: World, budget: nat, polls: seq<Poll>): World
    decreases |polls|
  {
    if polls == [] || |polls[0].batch| > |polls[0].scripts| then w
    else AfterPolls(Run(w, budget, PollActions(polls[0], budget)), budget, polls[1..])
  }

  function Delivered(polls: seq<Poll>): nat
    decreases |polls|
  {
    if polls == [] then 0 else |polls[0].batch| + Delivered(polls[1..])
  }

  /** Termination of the relay's loop.  However many rows a poll takes, and whichever, the failed deliveries
      of a refusing broker add up to what was outstanding, and as many polls as that settle the outbox; until
      then the barrier always leaves a row to deliver, and from then on polls are empty. */
  lemma {:induction false} RefusedPollsSettle(w: World, budget: nat, polls: seq<Poll>)
    requires Idle(w) && RefusedPolls(w, budget, polls)
    ensures
      var w' := AfterPolls(w, budget, polls);
      && Idle(w')
      && Outstanding(w'.rows, budget) + Delivered(polls) == Outstanding(w.rows, budget)
      && (Settled(w'.rows) <==> Delivered(polls) == Outstanding(w.rows, budget))
      && (Outstanding(w.rows, budget) <= |polls| ==> Settled(w'.rows))
      && (!Settled(w'.rows) ==> exists id :: Claimable(w'.rows, id))
    decreases |polls|
  {
    SettledIsZero(w.rows, budget, w.rows.Keys);
    UnsettledCanBeClaimed(w);
    if polls != [] {
      RefusedPollCounts(w, budget, polls[0]);
      var next := Run(w, budget, PollActions(polls[0], budget));
      SettledIsZero(next.rows, budget, next.rows.Keys);
      RefusedPollsSettle(next, budget, polls[1..]);
    }
  }
}
