/** The dispatcher's own loop over the recorded commands of one saga step, proved to be runs of the
    step's state machine: every commit it makes is a step there, in the order it makes them. */
module CommandDispatch {
  import opened Wrappers
  import opened Numbers
  import opened SagaCommands

  /** How one execution went: the handler raised, it returned and its outcome was marked, or it returned
      and the mark was lost. */
  datatype Answer = Marked | Raised | MarkLost

  function OutcomeActions(c: Claim, answer: Answer): seq<Action> {
    match answer
    case Marked => [Handle(c), SagaCommands.MarkExecuted(c.(ran := true))]
    case Raised => [SagaCommands.MarkFailed(c)]
    case MarkLost => [Handle(c), SagaCommands.MarkFailed(c.(ran := true))]
  }

  function BatchActions(claims: seq<Claim>, answers: Command -> Answer): seq<Action>
  {
    if claims == [] then []
    else
      var last := claims[|claims| - 1];
      BatchActions(claims[..|claims| - 1], answers) + OutcomeActions(last, answers(last.command))
  }

  /** How many of the claimed commands ran. */
  function Ran(claims: seq<Claim>, answers: Command -> Answer): nat
  {
    if claims == [] then 0
    else
      var last := claims[|claims| - 1];
      Ran(claims[..|claims| - 1], answers) + (if answers(last.command).Marked? then 1 else 0)
  }

  lemma BatchGrows(s: Saga, budget: nat, taking: seq<Action>, claims: seq<Claim>, k: nat, answers: Command -> Answer)
    requires k < |claims|
    ensures
      var answer := answers(claims[k].command);
      && Run(s, budget, taking + BatchActions(claims[..k + 1], answers))
         == Run(Run(s, budget, taking + BatchActions(claims[..k], answers)), budget, OutcomeActions(claims[k], answer))
      && Ran(claims[..k + 1], answers) == Ran(claims[..k], answers) + (if answer.Marked? then 1 else 0)
  {
    var answer := answers(claims[k].command);
    var before := BatchActions(claims[..k], answers);
    assert claims[..k + 1][..k] == claims[..k];
    assert taking + (before + OutcomeActions(claims[k], answer)) == (taking + before) + OutcomeActions(claims[k], answer);
    RunSplits(s, budget, taking + before, OutcomeActions(claims[k], answer));
  }

  /** A recorded intent that nobody leased and that has no outcome yet. */
  predicate Waits(i: Option<Intent>) {
    i.Some? && !i.value.leased && (i.value.status == Pending || i.value.status == Failed)
  }

  function Waiting(s: Saga): nat {
    (if Waits(s.create) then 1 else 0) + (if Waits(s.undo) then 1 else 0)
  }

  predicate Claimable(s: Saga, c: Command) {
    Waits(IntentOf(s, c))
  }

  /** The claimable commands, oldest first, as many as the batch allows. */
  function Batch(s: Saga, limit: nat): seq<Command> {
    var all := (if Claimable(s, Create) then [Create] else []) + (if Claimable(s, Undo) then [Undo] else []);
    if |all| <= limit then all else all[..limit]
  }

  function Taking(dispatcher: nat, commands: seq<Command>): seq<Action> {
    seq(|commands|, k requires 0 <= k < |commands| => Take(dispatcher, commands[k]))
  }

  function Claims(dispatcher: nat, commands: seq<Command>): seq<Claim> {
    seq(|commands|, k requires 0 <= k < |commands| => Claim(dispatcher, commands[k], false))
  }

  /** The claims are of waiting commands, as many as the limit allows, the create before the undo. */
  ghost predicate AsManyAsFit(s: Saga, id: nat, limit: nat, claims: seq<Claim>) {
    && |claims| == Min(limit, Waiting(s))
    && (forall c :: c in claims ==> Waits(IntentOf(s, c.command)))
    && (Waiting(s) <= limit ==> forall c: Command :: Waits(IntentOf(s, c)) ==> Claim(id, c, false) in claims)
    && (forall k :: 0 <= k < |claims| && claims[k].command.Undo? ==> k == |claims| - 1)
    && (Waits(s.create) && 0 < limit ==> claims != [] && claims[0].command.Create?)
  }

  predicate Done(s: Saga, c: Command) {
    IntentOf(s, c).Some? && IntentOf(s, c).value.status == Executed
  }

  /** One command is carried out, the other's intent untouched: an undo leaves no effect, a create that was
      never carried out before leaves one. */
  predicate Carries(was: Saga, now: Saga, c: Command) {
    && Done(now, c)
    && (c.Undo? ==> !now.present && now.create == was.create && now.remembered == was.remembered)
    && (c.Create? ==> now.remembered && now.undo == was.undo && (!was.remembered ==> now.present))
  }

  ghost predicate AllMarked(answers: Command -> Answer) {
    forall c :: answers(c).Marked?
  }

  /** The first `k` claimed commands are carried out. */
  predicate CarriedOut(was: Saga, now: Saga, claims: seq<Claim>, k: nat)
    requires k <= |claims|
  {
    && (forall j :: 0 <= j < k ==> Done(now, claims[j].command))
    && (k == 0 ==> OnlyLeases(was, now))
    && (k > 0 && claims[k - 1].command.Undo? ==> !now.present)
    && (k > 0 && claims[k - 1].command.Create? && !was.remembered ==> now.present)
  }

  lemma OneMoreCarriedOut(was: Saga, before: Saga, now: Saga, claims: seq<Claim>, k: nat)
    requires k < |claims| && CarriedOut(was, before, claims, k) && Carries(before, now, claims[k].command)
    requires forall i, j :: 0 <= i < j < |claims| ==> claims[i].command != claims[j].command
    requires forall i :: 0 <= i < |claims| && claims[i].command.Undo? ==> i == |claims| - 1
    ensures CarriedOut(was, now, claims, k + 1)
  {
    assert forall j :: 0 <= j < k ==> claims[j].command != claims[k].command;
    assert claims[k].command.Create? ==> k == 0;
  }

  lemma AllCarriedOut(was: Saga, now: Saga, id: nat, limit: nat, claims: seq<Claim>)
    requires AsManyAsFit(was, id, limit, claims) && Waiting(was) <= limit && CarriedOut(was, now, claims, |claims|)
    ensures forall c: Command :: Waits(IntentOf(was, c)) ==> Done(now, c)
    ensures Waits(was.undo) ==> !now.present
    ensures Waits(was.create) && was.undo.None? && !was.remembered ==> now.present
  {
    if Waits(was.undo) {
      assert Waits(IntentOf(was, Undo)) && Claim(id, Undo, false) in claims;
    }
    if Waits(was.create) {
      assert Waits(IntentOf(was, Create)) && Claim(id, Create, false) in claims;
    }
  }

  predicate OnlyLeases(s: Saga, s': Saga) {
    && s'.present == s.present && s'.remembered == s.remembered && s'.creations == s.creations
    && s'.create.Some? == s.create.Some? && s'.undo.Some? == s.undo.Some?
  }

  lemma {:induction false} TakingOnlyLeases(s: Saga, budget: nat, dispatcher: nat, commands: seq<Command>)
    ensures OnlyLeases(s, Run(s, budget, Taking(dispatcher, commands)))
  {
    if commands != [] {
      var k := |commands| - 1;
      TakingOnlyLeases(s, budget, dispatcher, commands[..k]);
      TakingOneMore(s, budget, dispatcher, commands, k);
      assert commands[..k + 1] == commands;
    }
  }

  lemma TakingOneMore(s: Saga, budget: nat, dispatcher: nat, commands: seq<Command>, k: nat)
    requires k < |commands|
    ensures Run(s, budget, Taking(dispatcher, commands[..k + 1]))
      == Step(Run(s, budget, Taking(dispatcher, commands[..k])), budget, Take(dispatcher, commands[k]))
    ensures Claims(dispatcher, commands[..k + 1]) == Claims(dispatcher, commands[..k]) + [Claim(dispatcher, commands[k], false)]
  {
    RunSplits(s, budget, Taking(dispatcher, commands[..k]), [Take(dispatcher, commands[k])]);
    RunOne(Run(s, budget, Taking(dispatcher, commands[..k])), budget, Take(dispatcher, commands[k]));
    assert Taking(dispatcher, commands[..k + 1]) == Taking(dispatcher, commands[..k]) + [Take(dispatcher, commands[k])];
  }

  /** Taking the first `k` of a batch of waiting commands holds each and leaves the others waiting. */
  lemma {:induction false} BatchIsHeld(s: Saga, budget: nat, dispatcher: nat, batch: seq<Command>, k: nat)
    requires k <= |batch| && forall j :: 0 <= j < |batch| ==> Claimable(s, batch[j])
    requires forall i, j :: 0 <= i < j < |batch| ==> batch[i] != batch[j]
    ensures
      var s' := Run(s, budget, Taking(dispatcher, batch[..k]));
      && (forall j :: 0 <= j < k ==> Claim(dispatcher, batch[j], false) in s'.held)
      && (forall j :: k <= j < |batch| ==> IntentOf(s', batch[j]) == IntentOf(s, batch[j]))
  {
    if k > 0 {
      BatchIsHeld(s, budget, dispatcher, batch, k - 1);
      TakingOneMore(s, budget, dispatcher, batch, k - 1);
    }
  }

  lemma ClaimsOfBatch(s: Saga, id: nat, limit: nat)
    ensures AsManyAsFit(s, id, limit, Claims(id, Batch(s, limit)))
  {
    var batch, claims := Batch(s, limit), Claims(id, Batch(s, limit));
    if Waiting(s) <= limit {
      forall c: Command | Waits(IntentOf(s, c)) ensures Claim(id, c, false) in claims {
        var k := if c.Undo? && Waits(s.create) then 1 else 0;
        assert claims[k] == Claim(id, c, false);
      }
    }
  }

  class CommandDispatcher {
    const id: nat
    const maxAttempts: nat
    var saga: Saga

    constructor (id: nat, maxAttempts: nat, saga: Saga)
      ensures this.id == id && this.maxAttempts == maxAttempts && this.saga == saga
    {
      this.id, this.maxAttempts, this.saga := id, maxAttempts, saga;
    }

    /** Lease the claimable commands and commit the leases before anything runs. */
    method ClaimPending(limit: nat) returns (claims: seq<Claim>)
      modifies this
      ensures claims == Claims(id, Batch(old(saga), limit))
      ensures saga == Run(old(saga), maxAttempts, Taking(id, Batch(old(saga), limit)))
      ensures forall c :: c in claims ==> c in saga.held && !c.ran
      ensures forall i, j :: 0 <= i < j < |claims| ==> claims[i].command != claims[j].command
      ensures AsManyAsFit(old(saga), id, limit, claims)
      ensures OnlyLeases(old(saga), saga)
    {
      var batch := Batch(saga, limit);
      claims := [];
      var k := 0;
      while k < |batch|
        invariant 0 <= k <= |batch| && claims == Claims(id, batch[..k])
        invariant saga == Run(old(saga), maxAttempts, Taking(id, batch[..k]))
      {
        TakingOneMore(old(saga), maxAttempts, id, batch, k);
        saga := Step(saga, maxAttempts, Take(id, batch[k]));
        claims := claims + [Claim(id, batch[k], false)];
        k := k + 1;
      }
      assert batch[..k] == batch;
      ClaimsOfBatch(old(saga), id, limit);
      TakingOnlyLeases(old(saga), maxAttempts, id, batch);
      BatchIsHeld(old(saga), maxAttempts, id, batch, |batch|);
    }

    /** Run one command and record its outcome.  Whatever happened, the claim is given back. */
    method Execute(c: Claim, answer: Answer) returns (executed: bool)
      requires c in saga.held && !c.ran && Consistent(saga)
      modifies this
      ensures executed == answer.Marked?
      ensures saga == Run(old(saga), maxAttempts, OutcomeActions(c, answer))
      ensures Consistent(saga) && c !in saga.held
      ensures answer.Marked? ==> IntentOf(saga, c.command).Some? && IntentOf(saga, c.command).value.status == Executed
      ensures forall other :: other in old(saga.held) && other.command != c.command ==> other in saga.held
      ensures answer.Marked? ==> Carries(old(saga), saga, c.command)
      ensures answer.Raised? ==> saga.present == old(saga).present && saga.remembered == old(saga).remembered
    {
      var actions := OutcomeActions(c, answer);
      EffectOnce(saga, maxAttempts, actions);
      assert Run(saga, maxAttempts, actions) == Played(saga, maxAttempts, c, answer) by {
        if !answer.Raised? {
          RunSplits(saga, maxAttempts, [Handle(c)], actions[1..]);
          RunOne(saga, maxAttempts, Handle(c));
          assert actions == [Handle(c)] + actions[1..];
        }
        RunOne(saga, maxAttempts, actions[0]);
        if !answer.Raised? {
          RunOne(Step(saga, maxAttempts, Handle(c)), maxAttempts, actions[1]);
        }
      }
      if answer.Raised? {
        saga := Step(saga, maxAttempts, SagaCommands.MarkFailed(c));
        return false;
      }
      saga := Step(saga, maxAttempts, Handle(c));
      if answer.Marked? {
        saga := Step(saga, maxAttempts, SagaCommands.MarkExecuted(c.(ran := true)));
      } else {
        saga := Step(saga, maxAttempts, SagaCommands.MarkFailed(c.(ran := true)));
      }
      executed := answer.Marked?;
    }

    /** One tick: claim a batch, execute it, count what ran. */
    method RunOnce(limit: nat, answers: Command -> Answer) returns (executed: nat)
      requires Consistent(saga)
      modifies this
      ensures Consistent(saga)
      ensures
        var batch := Batch(old(saga), limit);
        && saga == Run(old(saga), maxAttempts, Taking(id, batch) + BatchActions(Claims(id, batch), answers))
        && executed == Ran(Claims(id, batch), answers)
      ensures Waiting(old(saga)) <= limit && AllMarked(answers) ==>
        && executed == Waiting(old(saga))
        && (forall c: Command :: Waits(IntentOf(old(saga), c)) ==> Done(saga, c))
        && (Waits(old(saga).undo) ==> !saga.present)
        && (Waits(old(saga).create) && old(saga).undo.None? && !old(saga).remembered ==> saga.present)
    {
      ghost var batch := Batch(saga, limit);
      ghost var taking := Taking(id, batch);
      EffectOnce(saga, maxAttempts, taking);
      var claims := ClaimPending(limit);
      executed := 0;
      var k := 0;
      assert BatchActions(claims[..0], answers) == [] && taking + [] == taking;
      while k < |claims|
        invariant 0 <= k <= |claims| && Consistent(saga)
        invariant saga == Run(old(saga), maxAttempts, taking + BatchActions(claims[..k], answers))
        invariant forall j :: k <= j < |claims| ==> claims[j] in saga.held
        invariant executed == Ran(claims[..k], answers)
        invariant AllMarked(answers) ==> executed == k && CarriedOut(old(saga), saga, claims, k)
      {
        BatchGrows(old(saga), maxAttempts, taking, claims, k, answers);
        ghost var before := saga;
        var ran := Execute(claims[k], answers(claims[k].command));
        if AllMarked(answers) {
          OneMoreCarriedOut(old(saga), before, saga, claims, k);
        }
        if ran {
          executed := executed + 1;
        }
        k := k + 1;
      }
      assert claims[..k] == claims;
      if AllMarked(answers) && Waiting(old(saga)) <= limit {
        AllCarriedOut(old(saga), saga, id, limit, claims);
      }
    }
  }

  /** The recording step of the onboarding saga, with the flag its context keeps. */
  class DelegatingStep {
    var saga: Saga
    var delegated: bool

    constructor (saga: Saga)
      ensures this.saga == saga && !delegated
    {
      this.saga, delegated := saga, false;
    }

    /** Record the command in the step's own transaction; its key is unique, so a second record raises.  The
        context's flag is set before the commit, so it stands either way. */
    method Act() returns (recorded: bool)
      modifies this
      ensures recorded <==> old(saga).create.None?
      ensures saga == Step(old(saga), 1, Record)
      ensures recorded ==> saga == old(saga).(create := Some(Intent(Pending, 0, false)))
      ensures !recorded ==> saga == old(saga)
      ensures delegated
    {
      recorded := saga.create.None?;
      delegated := true;
      if recorded {
        saga := saga.(create := Some(RECORDED));
      }
    }

    /** Withdraw the command once: nothing when nothing was delegated, otherwise cancel it or record its
        undo, never both. */
    method Compensate()
      modifies this
      ensures !delegated
      ensures saga == if old(delegated) then Step(old(saga), 1, Withdraw) else old(saga)
      ensures old(delegated) && Delegated(old(saga)) ==>
        (saga.create.value.status == Cancelled) != saga.undo.Some?
      ensures saga.undo.Some? ==> saga.undo == old(saga).undo || saga.undo.value == Intent(Pending, 0, false)
      ensures old(delegated) && Delegated(old(saga)) ==>
        (saga.create.value.status == Cancelled <==> old(saga).create.value.status == Pending)
    {
      if !delegated {
        return;
      }
      if saga.create.Some? {
        if saga.create.value.status == Pending {
          saga := saga.(create := Some(saga.create.value.(status := Cancelled, leased := false)));
        } else if saga.undo.None? {
          saga := saga.(undo := Some(RECORDED));
        }
      }
      delegated := false;
    }
  }

  function Played(s: Saga, budget: nat, c: Claim, answer: Answer): Saga {
    match answer
    case Marked => Step(Step(s, budget, Handle(c)), budget, SagaCommands.MarkExecuted(c.(ran := true)))
    case Raised => Step(s, budget, SagaCommands.MarkFailed(c))
    case MarkLost => Step(Step(s, budget, Handle(c)), budget, SagaCommands.MarkFailed(c.(ran := true)))
  }
}
