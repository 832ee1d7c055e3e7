/** `OutboxRelay` as the imperative loop it is, proved to take only steps of the `Outbox` machine. */
module OutboxRelay {
  import opened Outbox
  import opened Sequences

  /** What the broker does with one publish: a lost acknowledgement stores the message and still fails. */
  datatype Answer = Accepted | LostAcknowledgement | Refused

  /** The broker's answers to one delivery: to each try of the poll, and to the dead-letter copy. */
  datatype Script = Script(tries: seq<Answer>, copy: Answer)

  const PUBLISH_ATTEMPTS_PER_CYCLE := 3

  function TryActions(m: Message, tries: seq<Answer>): seq<Action> {
    if tries == [] then []
    else
      var last := tries[|tries| - 1];
      TryActions(m, tries[..|tries| - 1]) + (if last == Refused then [] else [Publish(m, last == Accepted)])
  }

  function OutcomeActions(m: Message, budget: nat, s: Script): seq<Action> {
    if Accepted in s.tries then [MarkPublished(m)]
    else if m.attempts + 1 < budget || s.copy == Refused then [RecordFailure(m)]
    else if s.copy == LostAcknowledgement then [CopyAside(m, false), RecordFailure(m)]
    else [CopyAside(m, true), DeadLetter(m)]
  }

  /** The steps of one `deliver`. */
  function DeliverActions(m: Message, budget: nat, s: Script): seq<Action> {
    TryActions(m, s.tries) + OutcomeActions(m, budget, s)
  }

  function ClaimActions(batch: seq<Message>): seq<Action> {
    if batch == [] then []
    else ClaimActions(batch[..|batch| - 1]) + [Claim(batch[|batch| - 1].relay, batch[|batch| - 1].row)]
  }

  function BatchActions(batch: seq<Message>, budget: nat, scripts: seq<Script>): seq<Action>
    requires |batch| <= |scripts|
  {
    if batch == [] then []
    else
      var k := |batch| - 1;
      BatchActions(batch[..k], budget, scripts) + DeliverActions(batch[k], budget, scripts[k])
  }

  function Failures(scripts: seq<Script>): nat {
    if scripts == [] then 0
    else Failures(scripts[..|scripts| - 1]) + (if Accepted in scripts[|scripts| - 1].tries then 0 else 1)
  }

  /** `m` is what a relay reads off a row it may claim. */
  predicate FitsRow(rows: map<RowId, Row>, relay: nat, m: Message) {
    m.relay == relay && Claimable(rows, m.row) && m.attempts == rows[m.row].attempts
  }

  predicate OldestFirst(batch: seq<Message>) {
    forall j, k :: 0 <= j < k < |batch| ==> batch[j].row < batch[k].row
  }

  /** What `fetch_unpublished` may return: the oldest claimable rows, up to the limit. */
  ghost predicate Fetched(rows: map<RowId, Row>, relay: nat, limit: nat, batch: seq<Message>) {
    && |batch| <= limit && OldestFirst(batch)
    && (forall m :: m in batch ==> FitsRow(rows, relay, m))
    && (forall id :: Claimable(rows, id) && id !in RowsOf(batch) ==> |batch| == limit && forall m :: m in batch ==> m.row < id)
  }

  /** The table with the leases of `ids` taken. */
  function WithClaims(rows: map<RowId, Row>, ids: set<RowId>): map<RowId, Row> {
    map id | id in rows :: if id in ids then rows[id].(claimed := true) else rows[id]
  }

  ghost function RowsOf(batch: seq<Message>): set<RowId> {
    set m | m in batch :: m.row
  }

  ghost function AfterClaims(w: World, batch: seq<Message>): World {
    w.(rows := WithClaims(w.rows, RowsOf(batch)), held := w.held + set m | m in batch)
  }

  lemma ClaimActionsSnoc(w: World, budget: nat, front: seq<Message>, m: Message)
    ensures Run(w, budget, ClaimActions(front + [m])) == Step(Run(w, budget, ClaimActions(front)), budget, Claim(m.relay, m.row))
  {
    assert (front + [m])[..|front|] == front;
    RunSplits(w, budget, ClaimActions(front), [Claim(m.relay, m.row)]);
    RunOne(Run(w, budget, ClaimActions(front)), budget, Claim(m.relay, m.row));
  }

  lemma ClaimOneMore(w: World, budget: nat, front: seq<Message>, m: Message)
    requires FitsRow(w.rows, m.relay, m) && m.row !in RowsOf(front)
    ensures Step(AfterClaims(w, front), budget, Claim(m.relay, m.row)) == AfterClaims(w, front + [m])
  {
    var rows' := WithClaims(w.rows, RowsOf(front));
    assert Claimable(rows', m.row) by {
      assert forall i :: Older(rows', i, m.row) ==> Older(w.rows, i, m.row);
    }
    assert RowsOf(front + [m]) == RowsOf(front) + {m.row};
    assert (set x | x in front + [m]) == (set x | x in front) + {m};
    assert rows'[m.row := rows'[m.row].(claimed := true)] == WithClaims(w.rows, RowsOf(front) + {m.row});
  }

  /** Claiming a batch of publishable rows one by one takes exactly their leases. */
  lemma {:induction false} ClaimsRun(w: World, budget: nat, relay: nat, batch: seq<Message>)
    requires OldestFirst(batch) && forall m :: m in batch ==> FitsRow(w.rows, relay, m)
    ensures Run(w, budget, ClaimActions(batch)) == AfterClaims(w, batch)
  {
    if batch == [] {
      assert WithClaims(w.rows, {}) == w.rows;
    } else {
      var front, m := batch[..|batch| - 1], batch[|batch| - 1];
      assert batch == front + [m] && m in batch;
      ClaimsRun(w, budget, relay, front);
      ClaimActionsSnoc(w, budget, front, m);
      ClaimOneMore(w, budget, front, m);
    }
  }

  /** The rows the relay's query selects from. */
  function Candidates(rows: map<RowId, Row>): (r: set<RowId>)
    ensures forall id :: id in r <==> Claimable(rows, id)
  {
    set id | id in rows && Claimable(rows, id)
  }

  lemma IncreasingSnoc(ids: seq<RowId>, id: RowId)
    requires Increasing(ids) && forall x :: x in ids ==> x < id
    ensures Increasing(ids + [id])
    ensures forall x :: x in ids + [id] <==> x in ids || x == id
  {
    var longer := ids + [id];
    forall j, k | 0 <= j < k < |longer| ensures longer[j] < longer[k] {
      assert longer[j] == ids[j] && ids[j] in ids;
    }
  }

  method Least(s: set<RowId>) returns (least: RowId)
    requires s != {}
    ensures least in s && forall y :: y in s ==> least <= y
  {
    least :| least in s;
    var left := s - {least};
    while left != {}
      invariant least in s && left <= s
      invariant forall y :: y in s ==> least <= y || y in left
      decreases |left|
    {
      var x :| x in left;
      if x < least { least := x; }
      left := left - {x};
    }
  }

  /** The `limit` smallest candidates, smallest first: `ORDER BY id LIMIT n`. */
  method SelectOldest(candidates: set<RowId>, limit: nat) returns (ids: seq<RowId>)
    ensures Increasing(ids) && |ids| <= limit
    ensures forall id :: id in ids ==> id in candidates
    ensures forall id :: id in candidates && id !in ids ==> |ids| == limit && forall x :: x in ids ==> x < id
  {
    ids := [];
    var left := candidates;
    while |ids| < limit && left != {}
      invariant Increasing(ids) && |ids| <= limit
      invariant left <= candidates
      invariant forall x :: x in ids ==> x in candidates && x !in left
      invariant forall x :: x in candidates ==> x in left || x in ids
      invariant forall x, y :: x in ids && y in left ==> x < y
      decreases |left|
    {
      var id := Least(left);
      IncreasingSnoc(ids, id);
      ids := ids + [id];
      left := left - {id};
    }
  }

  /** What `RETURNING` answers for the rows just claimed. */
  function MessagesFor(rows: map<RowId, Row>, relay: nat, ids: seq<RowId>): (batch: seq<Message>)
    requires forall id :: id in ids ==> id in rows
    ensures |batch| == |ids|
    ensures forall k :: 0 <= k < |ids| ==> batch[k] == Message(relay, ids[k], rows[ids[k]].attempts)
  {
    seq(|ids|, k requires 0 <= k < |ids| => assert ids[k] in ids; Message(relay, ids[k], rows[ids[k]].attempts))
  }

  lemma MessagesRows(rows: map<RowId, Row>, relay: nat, ids: seq<RowId>)
    requires forall id :: id in ids ==> id in rows
    ensures RowsOf(MessagesFor(rows, relay, ids)) == set id | id in ids
  {
    var batch := MessagesFor(rows, relay, ids);
    forall id | id in ids ensures id in RowsOf(batch) {
      var k :| 0 <= k < |ids| && ids[k] == id;
      assert batch[k] in batch && batch[k].row == id;
    }
  }

  lemma MessagesFit(rows: map<RowId, Row>, relay: nat, ids: seq<RowId>)
    requires Increasing(ids) && forall id :: id in ids ==> id in rows && Claimable(rows, id)
    ensures
      var batch := MessagesFor(rows, relay, ids);
      OldestFirst(batch) && forall m :: m in batch ==> FitsRow(rows, relay, m) && m.row in ids
  {
    var batch := MessagesFor(rows, relay, ids);
    forall m | m in batch ensures FitsRow(rows, relay, m) && m.row in ids {
      var k :| 0 <= k < |ids| && batch[k] == m;
      assert ids[k] in ids;
    }
  }

  lemma BatchActionsSnoc(w: World, budget: nat, batch: seq<Message>, scripts: seq<Script>, k: nat)
    requires k < |batch| <= |scripts|
    ensures Run(w, budget, BatchActions(batch[..k + 1], budget, scripts)) ==
            Run(Run(w, budget, BatchActions(batch[..k], budget, scripts)), budget, DeliverActions(batch[k], budget, scripts[k]))
  {
    assert batch[..k + 1][..k] == batch[..k];
    RunSplits(w, budget, BatchActions(batch[..k], budget, scripts), DeliverActions(batch[k], budget, scripts[k]));
  }

  lemma FailuresSnoc(scripts: seq<Script>, k: nat)
    requires k < |scripts|
    ensures Failures(scripts[..k + 1]) == Failures(scripts[..k]) + (if Accepted in scripts[k].tries then 0 else 1)
  {
    assert scripts[..k + 1][..k] == scripts[..k];
  }

  lemma RunOne(w: World, budget: nat, a: Action)
    ensures Run(w, budget, [a]) == Step(w, budget, a)
  {
    assert Run(w, budget, [a]) == Run(Step(w, budget, a), budget, [a][1..]);
  }

  class OutboxRelay {
    const budget: nat
    /** The outbox table and the two logs the relay reaches through its session and its publisher. */
    var rows: map<RowId, Row>
    var topic: seq<RowId>
    var deadTopic: seq<RowId>
    /** What the running relays hold in memory. */
    ghost var held: set<Message>
    ghost var acked: set<Message>
    ghost var copied: set<Message>

    ghost function State(): World
      reads this
    {
      World(rows, topic, deadTopic, held, acked, copied)
    }

    constructor (budget: nat)
      ensures State() == EMPTY && this.budget == budget
    {
      this.budget := budget;
      rows, topic, deadTopic := map[], [], [];
      held, acked, copied := {}, {}, {};
    }

    /** Claim up to `limit` publishable rows, oldest first. */
    method FetchUnpublished(relay: nat, limit: nat) returns (batch: seq<Message>)
      modifies this
      ensures Fetched(old(rows), relay, limit, batch)
      ensures State() == Run(old(State()), budget, ClaimActions(batch))
      ensures topic == old(topic) && deadTopic == old(deadTopic) && acked == old(acked) && copied == old(copied)
      ensures rows.Keys == old(rows).Keys
      ensures forall m :: m in held <==> m in old(held) || m in batch
    {
      var ids := SelectOldest(Candidates(rows), limit);
      batch := MessagesFor(rows, relay, ids);
      MessagesRows(rows, relay, ids);
      assert forall id :: id in ids <==> id in RowsOf(batch);
      MessagesFit(rows, relay, ids);
      ClaimsRun(State(), budget, relay, batch);
      var claimed := set id | id in ids;
      rows := WithClaims(rows, claimed);
      held := held + set m | m in batch;
    }

    /** Publish one message, record the outcome and commit; `failed` says it was not published. */
    method Deliver(m: Message, s: Script) returns (failed: bool)
      requires m in held && m !in acked && m !in copied && m.row in rows
      requires |s.tries| == PUBLISH_ATTEMPTS_PER_CYCLE
      modifies this
      ensures failed <==> Accepted !in s.tries
      ensures State() == Run(old(State()), budget, DeliverActions(m, budget, s))
      ensures m.row in rows && rows == old(rows)[m.row := rows[m.row]]
      ensures var was, row := old(rows)[m.row], rows[m.row];
        && !row.claimed && row.key == was.key && row.kind == was.kind
        && (!failed ==> row.published && row.attempts == was.attempts && row.deadLettered == was.deadLettered)
        && (failed && (m.attempts + 1 < budget || s.copy != Accepted) ==>
            row == was.(attempts := was.attempts + 1, claimed := false))
        && (failed && budget <= m.attempts + 1 && s.copy == Accepted ==>
            row == was.(deadLettered := true, claimed := false) && deadTopic == old(deadTopic) + [m.row])
      ensures held == old(held) - {m} && acked == old(acked) && copied == old(copied)
    {
      var sent := PublishWithRetry(m, s);
      ghost var tried := State();
      failed := !sent;
      if sent {
        rows := rows[m.row := rows[m.row].(published := true, claimed := false)];
        RunOne(tried, budget, MarkPublished(m));
      } else {
        RecordFailed(m, s);
      }
      held, acked, copied := held - {m}, acked - {m}, copied - {m};
      RunSplits(old(State()), budget, TryActions(m, s.tries), OutcomeActions(m, budget, s));
    }

    /** `_publish_with_retry`: at most the budgeted tries, stopping at the first acknowledgement. */
    method PublishWithRetry(m: Message, s: Script) returns (sent: bool)
      requires m in held && m !in acked && m !in copied && m.row in rows
      requires |s.tries| == PUBLISH_ATTEMPTS_PER_CYCLE
      modifies this`topic, this`acked
      ensures sent <==> Accepted in s.tries
      ensures acked == if sent then old(acked) + {m} else old(acked)
      ensures State() == Run(old(State()), budget, TryActions(m, s.tries))
      ensures old(topic) <= topic && |topic| <= |old(topic)| + 3
      ensures forall k :: |old(topic)| <= k < |topic| ==> topic[k] == m.row
      ensures sent ==> topic != old(topic)
    {
      var k := 0;
      sent := false;
      while k < PUBLISH_ATTEMPTS_PER_CYCLE && !sent
        invariant 0 <= k <= PUBLISH_ATTEMPTS_PER_CYCLE
        invariant sent <==> Accepted in s.tries[..k]
        invariant acked == if sent then old(acked) + {m} else old(acked)
        invariant State() == Run(old(State()), budget, TryActions(m, s.tries[..k]))
        invariant old(topic) <= topic && |topic| <= |old(topic)| + k
        invariant forall j :: |old(topic)| <= j < |topic| ==> topic[j] == m.row
        invariant sent ==> topic != old(topic)
      {
        ghost var before := State();
        assert s.tries[..k + 1][..k] == s.tries[..k] && s.tries[..k + 1][k] == s.tries[k];
        if s.tries[k] != Refused {
          topic := topic + [m.row];
          sent := s.tries[k] == Accepted;
          if sent { acked := acked + {m}; }
          RunOne(before, budget, Publish(m, sent));
          RunSplits(old(State()), budget, TryActions(m, s.tries[..k]), [Publish(m, sent)]);
        } else {
          assert TryActions(m, s.tries[..k + 1]) == TryActions(m, s.tries[..k]);
        }
        k := k + 1;
      }
      TriesStop(old(State()), budget, m, s.tries, k);
      assert s.tries[..PUBLISH_ATTEMPTS_PER_CYCLE] == s.tries;
    }

    /** `_record_failure`: count the failed poll, or dead-letter the message if this was the last.
        A copy the broker refuses keeps the row for another try. */
    method RecordFailed(m: Message, s: Script)
      requires m in held && m !in acked && m !in copied && m.row in rows && Accepted !in s.tries
      modifies this
      ensures State().(held := held - {m}, copied := copied - {m}) == Run(old(State()), budget, OutcomeActions(m, budget, s))
      ensures topic == old(topic) && held == old(held) && acked == old(acked)
      ensures copied - {m} == old(copied)
      ensures var was := old(rows)[m.row];
        if m.attempts + 1 < budget || s.copy != Accepted
        then rows == old(rows)[m.row := was.(attempts := was.attempts + 1, claimed := false)]
        else rows == old(rows)[m.row := was.(deadLettered := true, claimed := false)] && deadTopic == old(deadTopic) + [m.row]
    {
      ghost var start := State();
      if m.attempts + 1 < budget {
        rows := rows[m.row := rows[m.row].(attempts := rows[m.row].attempts + 1, claimed := false)];
        RunOne(start, budget, RecordFailure(m));
        return;
      }
      if s.copy != Refused {
        deadTopic := deadTopic + [m.row];
        RunOne(start, budget, CopyAside(m, s.copy == Accepted));
      }
      if s.copy == Accepted {
        copied := copied + {m};
        rows := rows[m.row := rows[m.row].(deadLettered := true, claimed := false)];
        RunOne(Step(start, budget, CopyAside(m, true)), budget, DeadLetter(m));
        RunSplits(start, budget, [CopyAside(m, true)], [DeadLetter(m)]);
      } else {
        rows := rows[m.row := rows[m.row].(attempts := rows[m.row].attempts + 1, claimed := false)];
        RunOne(start, budget, RecordFailure(m));
        RunOne(Step(start, budget, CopyAside(m, false)), budget, RecordFailure(m));
        RunSplits(start, budget, [CopyAside(m, false)], [RecordFailure(m)]);
      }
    }

    /** One poll: claim a batch, then deliver and commit each message on its own. */
    method RunOnce(relay: nat, limit: nat, scripts: seq<Script>) returns (failed: nat, ghost batch: seq<Message>)
      requires |scripts| == limit && forall s :: s in scripts ==> |s.tries| == PUBLISH_ATTEMPTS_PER_CYCLE
      requires forall m :: m in held ==> m.relay != relay
      requires acked <= held && copied <= held
      modifies this
      ensures Fetched(old(rows), relay, limit, batch) && failed == Failures(scripts[..|batch|])
      ensures State() == Run(old(State()), budget, ClaimActions(batch) + BatchActions(batch, budget, scripts))
      ensures forall m :: m in held ==> m.relay != relay
    {
      var messages := FetchUnpublished(relay, limit);
      batch := messages;
      RunSplits(old(State()), budget, ClaimActions(batch), BatchActions(batch, budget, scripts));
      failed := DeliverAll(messages, scripts);
    }

    /** Deliver one message and count it when it failed. */
    method DeliverCounted(m: Message, s: Script, failed: nat) returns (total: nat)
      requires m in held && m !in acked && m !in copied && m.row in rows
      requires |s.tries| == PUBLISH_ATTEMPTS_PER_CYCLE
      modifies this
      ensures total == failed + (if Accepted in s.tries then 0 else 1)
      ensures State() == Run(old(State()), budget, DeliverActions(m, budget, s))
      ensures rows.Keys == old(rows).Keys && held == old(held) - {m} && acked == old(acked) && copied == old(copied)
    {
      var unpublished := Deliver(m, s);
      total := failed + (if unpublished then 1 else 0);
    }

    /** Deliver a claimed batch; every claim of it is given back. */
    method DeliverAll(messages: seq<Message>, scripts: seq<Script>) returns (failed: nat)
      requires |messages| <= |scripts| && forall s :: s in scripts ==> |s.tries| == PUBLISH_ATTEMPTS_PER_CYCLE
      requires OldestFirst(messages)
      requires forall m :: m in messages ==> m in held && m !in acked && m !in copied && m.row in rows
      modifies this
      ensures failed == Failures(scripts[..|messages|])
      ensures State() == Run(old(State()), budget, BatchActions(messages, budget, scripts))
      ensures forall m :: m in held ==> m in old(held) && m !in messages
    {
      failed := 0;
      var k := 0;
      while k < |messages|
        invariant 0 <= k <= |messages|
        invariant rows.Keys == old(rows).Keys
        invariant failed == Failures(scripts[..k])
        invariant acked == old(acked) && copied == old(copied)
        invariant held <= old(held)
        invariant forall j :: 0 <= j < |messages| ==> (messages[j] in held <==> k <= j)
        invariant State() == Run(old(State()), budget, BatchActions(messages[..k], budget, scripts))
      {
        assert messages[k] in messages && scripts[k] in scripts;
        failed := DeliverCounted(messages[k], scripts[k], failed);
        FailuresSnoc(scripts, k);
        BatchActionsSnoc(old(State()), budget, messages, scripts, k);
        k := k + 1;
      }
      assert messages[..k] == messages;
    }
  }

  /** After an acknowledged try the poll sends nothing more: the remaining answers change nothing. */
  lemma {:induction false} TriesStop(w: World, budget: nat, m: Message, tries: seq<Answer>, k: nat)
    requires k <= |tries| && m in w.held
    requires Accepted in tries[..k] || k == |tries|
    requires Accepted in tries[..k] ==> m in Run(w, budget, TryActions(m, tries[..k])).acked
    ensures Run(w, budget, TryActions(m, tries)) == Run(w, budget, TryActions(m, tries[..k]))
    decreases |tries| - k
  {
    if k == |tries| {
      assert tries[..k] == tries;
    } else {
      assert tries[..k + 1][..k] == tries[..k] && tries[..k + 1][k] == tries[k];
      var now := Run(w, budget, TryActions(m, tries[..k]));
      RunOne(now, budget, Publish(m, tries[k] == Accepted));
      RunSplits(w, budget, TryActions(m, tries[..k]), [Publish(m, tries[k] == Accepted)]);
      assert TryActions(m, tries[..k]) + [] == TryActions(m, tries[..k]);
      assert Run(w, budget, TryActions(m, tries[..k + 1])) == now;
      assert Accepted in tries[..k + 1] by { assert tries[..k] <= tries[..k + 1]; }
      TriesStop(w, budget, m, tries, k + 1);
    }
  }
}
