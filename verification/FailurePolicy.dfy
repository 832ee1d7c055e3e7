/** How a consumer runs one delivery: the retry loop, and what the claim on the delivery means whichever
    way the delivery ends and whichever order its copy and its claim are written in. */
module FailurePolicy {
  import opened Numbers

  // ---------------------------------------------------------------- the loop

  /** What one attempt comes to: an answer, a broken domain rule, or any other failure. */
  datatype Outcome = Answer(handled: bool) | DomainFailure | Failure

  datatype Policy = Policy(maxAttempts: nat, initialWait: real, maxWait: real) {
    predicate Valid() { maxAttempts >= 1 }
  }

  function Pow2(n: nat): real {
    if n == 0 then 1.0 else 2.0 * Pow2(n - 1)
  }

  /** The wait after failure number `attempt`, counted from one. */
  function WaitBeforeRetry(p: Policy, attempt: nat): real
    requires attempt >= 1
  {
    var doubled := p.initialWait * Pow2(attempt - 1);
    if doubled <= p.maxWait then doubled else p.maxWait
  }

  /** The waits double from the initial one until they reach the ceiling, and stay there. */
  lemma WaitsDoubleUpToTheCeiling(p: Policy, attempt: nat)
    requires attempt >= 1 && 0.0 <= p.initialWait && 0.0 <= p.maxWait
    ensures WaitBeforeRetry(p, 1) == if p.initialWait <= p.maxWait then p.initialWait else p.maxWait
    ensures
      var twice := 2.0 * WaitBeforeRetry(p, attempt);
      WaitBeforeRetry(p, attempt + 1) == if twice <= p.maxWait then twice else p.maxWait
  {
    assert Pow2(0) == 1.0 && Pow2(attempt) == 2.0 * Pow2(attempt - 1);
    Pow2Grows(attempt - 1, attempt);
    Doubling(p.initialWait, Pow2(attempt - 1));
  }

  lemma Doubling(initial: real, power: real)
    requires initial >= 0.0 && power >= 1.0
    ensures initial * (2.0 * power) == 2.0 * (initial * power) && initial * power >= 0.0
  {
  }

  /** What a run of the loop returned; `Propagated` is a move-aside that could not be recorded. */
  datatype Ending = Returned(handled: bool) | Propagated

  /** `attempt(k)` is the outcome the k-th attempt has if it is made.  The loop makes at most the budgeted
      attempts, stops at the first that is not a plain failure, calls the move-aside once exactly when no
      attempt returned, and waits before every repeated attempt and at no other time. */
  method RunWithFailurePolicy(p: Policy, attempt: nat -> Outcome, asideSucceeds: bool)
      returns (ending: Ending, attempts: nat, asides: nat, waits: seq<real>)
    requires p.Valid()
    ensures 1 <= attempts <= p.maxAttempts
    ensures forall k :: 1 <= k < attempts ==> attempt(k) == Failure
    ensures attempt(attempts) == Failure ==> attempts == p.maxAttempts
    ensures asides == if attempt(attempts).Answer? then 0 else 1
    ensures attempt(attempts).Answer? ==> ending == Returned(attempt(attempts).handled)
    ensures !attempt(attempts).Answer? ==> ending == if asideSucceeds then Returned(true) else Propagated
    ensures |waits| == attempts - 1
    ensures forall k :: 1 <= k < attempts ==> waits[k - 1] == WaitBeforeRetry(p, k)
  {
    attempts, asides, waits := 0, 0, [];
    while true
      invariant 0 <= attempts < p.maxAttempts && asides == 0 && |waits| == attempts
      invariant forall k :: 1 <= k <= attempts ==> attempt(k) == Failure && waits[k - 1] == WaitBeforeRetry(p, k)
      decreases p.maxAttempts - attempts
    {
      attempts := attempts + 1;
      var outcome := attempt(attempts);
      if outcome.Answer? {
        return Returned(outcome.handled), attempts, asides, waits;
      }
      if outcome == DomainFailure || attempts >= p.maxAttempts {
        asides := asides + 1;
        return (if asideSucceeds then Returned(true) else Propagated), attempts, asides, waits;
      }
      waits := waits + [WaitBeforeRetry(p, attempts)];
    }
  }

  function TotalWait(p: Policy, retries: nat): real {
    if retries == 0 then 0.0 else TotalWait(p, retries - 1) + WaitBeforeRetry(p, retries)
  }

  lemma {:induction false} Pow2Grows(m: nat, n: nat)
    requires m <= n
    ensures 1.0 <= Pow2(m) <= Pow2(n)
    decreases n
  {
    if m < n {
      Pow2Grows(m, n - 1);
    } else if m > 0 {
      Pow2Grows(m - 1, m - 1);
    }
  }

  lemma ScaledOrder(a: real, x: real, y: real)
    requires a >= 0.0 && x <= y
    ensures a * x <= a * y
  {
  }

  /** The whole backoff never exceeds the ceiling for each retry. */
  lemma {:induction false} TotalWaitIsBounded(p: Policy, retries: nat)
    ensures TotalWait(p, retries) <= Multiple(p.maxWait, retries) == p.maxWait * retries as real
  {
    MultipleIsProduct(p.maxWait, retries);
    if retries > 0 {
      TotalWaitIsBounded(p, retries - 1);
    }
  }

  /** As long as the ceiling is not reached, the backoff is the geometric sum of the doubled waits. */
  lemma {:induction false} TotalWaitIsGeometric(p: Policy, retries: nat)
    requires p.initialWait >= 0.0
    requires retries == 0 || p.initialWait * Pow2(retries - 1) <= p.maxWait
    ensures TotalWait(p, retries) == p.initialWait * (Pow2(retries) - 1.0)
  {
    if retries > 0 {
      if retries > 1 {
        Pow2Grows(retries - 2, retries - 1);
        ScaledOrder(p.initialWait, Pow2(retries - 2), Pow2(retries - 1));
      }
      TotalWaitIsGeometric(p, retries - 1);
      GeometricStep(p.initialWait, Pow2(retries - 1));
    }
  }

  lemma GeometricStep(initial: real, power: real)
    ensures initial * (power - 1.0) + initial * power == initial * (2.0 * power - 1.0)
  {
  }

  // ---------------------------------------------------------------- the claim

  /** How a consumer group settles deliveries: a choreography consumer claims with its effect, a saga trigger
      claims with the first commit of its saga, a projection copies a failure first and claims afterwards. */
  datatype Kind = Choreography | Trigger | Projection

  /** The saga's row: absent, only created, in a status the recovery lists (running, compensating, failed),
      or completed. */
  datatype SagaRow = NoRow | Created | Listed | Completed

  /** One delivery of one group: its claim, what committed with it, and the copies the dead-letter topic
      acknowledged.  `owed` are copies of a projection whose claim is still to be written; `begun` says that
      a saga run committed the claim, `open` that a saga run is under way. */
  datatype Ledger = Ledger(
    claimed: bool, effects: nat, asides: nat, copies: nat, owed: nat,
    begun: bool, open: bool, saga: SagaRow, sagaFailures: nat)

  const UNSEEN := Ledger(false, 0, 0, 0, 0, false, false, NoRow, 0)

  datatype Step =
    | Consume                                        // the handler returned and its transaction committed
    | Begin                                          // a trigger dispatches its saga
    | Engine                                         // the saga's engine or one of its steps commits
    | Finish                                         // the saga completes
    | FailSaga(recorded: bool)                       // the saga fails; recording that is a commit of its own
    | Recover                                        // the recovery completes a listed saga
    | MoveAside(acknowledged: bool, committed: bool) // write side: claim and copy in one transaction
    | Copy(acknowledged: bool)                       // read side: the copy
    | ClaimCopy                                      // read side: the claim after an acknowledged copy
    | Crash

  function Claimed(l: Ledger): Ledger {
    if l.claimed then l else l.(claimed := true, begun := true)
  }

  function Advanced(row: SagaRow): SagaRow {
    if row == NoRow then Created else if row == Created then Listed else row
  }

  /** A saga nobody started commits `SagaStarted`, and with it the claim, before any of its work; a completed
      one has nothing left to do; one that was started before only stages the claim. */
  function Begun(l: Ledger): Ledger {
    match l.saga
    case NoRow => Claimed(l).(open := true)
    case Completed => Claimed(l)
    case _ => l.(open := true)
  }

  function Take(l: Ledger, k: Kind, s: Step): Ledger {
    match s
    case Consume =>
      if k == Trigger || l.claimed then l else l.(claimed := true, effects := l.effects + 1)
    case Begin => if k != Trigger || l.claimed || l.open then l else Begun(l)
    case Engine => if !l.open then l else Claimed(l).(saga := Advanced(l.saga))
    case Finish =>
      if !l.open || l.saga != Listed then l
      else Claimed(l).(saga := Completed, effects := l.effects + 1, open := false)
    case FailSaga(recorded) =>
      if !l.open then l
      else if recorded then Claimed(l).(sagaFailures := l.sagaFailures + 1, open := false)
      else l.(open := false)
    case Recover =>
      if k != Trigger || l.saga != Listed then l else l.(saga := Completed, effects := l.effects + 1)
    case MoveAside(acknowledged, committed) =>
      if k == Projection || l.claimed || l.open || !acknowledged then l
      else if committed then l.(claimed := true, asides := l.asides + 1, copies := l.copies + 1)
      else l.(copies := l.copies + 1)
    case Copy(acknowledged) =>
      if k != Projection || !acknowledged then l
      else l.(copies := l.copies + 1, owed := l.owed + 1)
    case ClaimCopy =>
      if k != Projection || l.owed == 0 then l
      else if l.claimed then l.(owed := l.owed - 1)
      else l.(claimed := true, asides := l.asides + 1, owed := l.owed - 1)
    case Crash => l.(owed := 0, open := false)
  }

  function Deliveries(l: Ledger, k: Kind, steps: seq<Step>): Ledger
    decreases |steps|
  {
    if steps == [] then l else Deliveries(Take(l, k, steps[0]), k, steps[1..])
  }

  /** A claim has exactly one reason: for a trigger a copy moved aside or a saga run, otherwise an effect or
      a copy; a trigger's effect is its completed saga.  Nothing is owed or moved aside without a copy. */
  ghost predicate OneReason(l: Ledger, k: Kind) {
    && (l.asides > 0 || l.owed > 0 ==> l.copies > 0)
    && (k == Trigger ==>
          && l.asides + (if l.begun then 1 else 0) == (if l.claimed then 1 else 0)
          && l.effects == (if l.saga == Completed then 1 else 0)
          && (l.open && l.saga == NoRow ==> l.begun)
          && (l.open ==> l.asides == 0)
          && l.sagaFailures <= (if l.begun && !l.open then 1 else 0))
    && (k != Trigger ==>
          && l.effects + l.asides == (if l.claimed then 1 else 0)
          && !l.begun && !l.open && l.saga == NoRow && l.sagaFailures == 0)
  }

  /** Nothing will ever come of the delivery: in no continuation has it an effect or a copy. */
  ghost predicate Lost(l: Ledger, k: Kind) {
    forall steps :: Deliveries(l, k, steps).effects == 0 && Deliveries(l, k, steps).copies == 0
  }

  /** A trigger's claim is durable, no run is under way, and the saga has no row, or one that the recovery
      never lists. */
  predicate Stranded(l: Ledger, k: Kind) {
    k == Trigger && l.claimed && !l.open && (l.saga == NoRow || l.saga == Created) && l.copies == 0
  }

  lemma {:induction false} OneReasonStays(l: Ledger, k: Kind, steps: seq<Step>)
    requires OneReason(l, k)
    ensures OneReason(Deliveries(l, k, steps), k) && Deliveries(l, k, steps).effects <= 1
    decreases |steps|
  {
    if steps != [] {
      OneReasonStays(Take(l, k, steps[0]), k, steps[1..]);
    }
  }

  lemma {:induction false} StrandedStays(l: Ledger, k: Kind, steps: seq<Step>)
    requires OneReason(l, k) && Stranded(l, k)
    ensures Deliveries(l, k, steps).effects == 0 && Deliveries(l, k, steps).copies == 0
    decreases |steps|
  {
    if steps != [] {
      StrandedStays(Take(l, k, steps[0]), k, steps[1..]);
    }
  }

  lemma AfterOne(l: Ledger, k: Kind, s: Step)
    ensures Deliveries(l, k, [s]) == Take(l, k, s)
  {
    assert [s][1..] == [];
    assert Deliveries(Take(l, k, s), k, []) == Take(l, k, s);
  }

  lemma AfterFirst(l: Ledger, k: Kind, s: Step, rest: seq<Step>)
    ensures Deliveries(l, k, [s] + rest) == Deliveries(Take(l, k, s), k, rest)
  {
    assert ([s] + rest)[1..] == rest;
  }

  /** A run that is under way can still complete. */
  lemma {:induction false} OpenRunCanFinish(l: Ledger, k: Kind) returns (steps: seq<Step>)
    requires l.open && l.saga != Completed
    ensures Deliveries(l, k, steps).effects > 0
    decreases if l.saga == NoRow then 2 else if l.saga == Created then 1 else 0
  {
    if l.saga == Listed {
      steps := [Finish];
      AfterOne(l, k, Finish);
    } else {
      var rest := OpenRunCanFinish(Take(l, k, Engine), k);
      AfterFirst(l, k, Engine, rest);
      steps := [Engine] + rest;
    }
  }

  /** A delivery that is not stranded has, or can still get, an effect or a copy. */
  lemma SomethingCanComeOfIt(l: Ledger, k: Kind) returns (steps: seq<Step>)
    requires OneReason(l, k) && !Stranded(l, k)
    ensures Deliveries(l, k, steps).effects > 0 || Deliveries(l, k, steps).copies > 0
  {
    steps := [];
    if l.effects == 0 && l.copies == 0 {
      if k != Trigger {
        AfterOne(l, k, Consume);
        steps := [Consume];
      } else if l.open {
        steps := OpenRunCanFinish(l, k);
      } else if l.saga == Listed {
        AfterOne(l, k, Recover);
        steps := [Recover];
      } else {
        var rest := OpenRunCanFinish(Take(l, k, Begin), k);
        AfterFirst(l, k, Begin, rest);
        steps := [Begin] + rest;
      }
    }
  }

  /** The main result of claims.  For every sequence of attempts, crashes, recoveries and redeliveries: a
      delivery has at most one effect and its claim exactly one reason; it is lost for good if and only if it
      is stranded, which takes a saga trigger whose claim was committed before its saga got a row that the
      recovery lists.  A group that is no trigger never loses a delivery. */
  lemma LostExactlyWhenStranded(l: Ledger, k: Kind, steps: seq<Step>)
    requires OneReason(l, k)
    ensures
      var end := Deliveries(l, k, steps);
      && OneReason(end, k) && end.effects <= 1
      && (Lost(end, k) <==> Stranded(end, k))
      && (k != Trigger ==> !Lost(end, k))
  {
    OneReasonStays(l, k, steps);
    var end := Deliveries(l, k, steps);
    if Stranded(end, k) {
      forall more ensures Deliveries(end, k, more).effects == 0 && Deliveries(end, k, more).copies == 0 {
        StrandedStays(end, k, more);
      }
    } else {
      var more := SomethingCanComeOfIt(end, k);
    }
  }

  /** The exception is real three times: a crash after the claim was committed with `SagaStarted`, a failure
      whose own commit fails, and a recorded failure of a saga that never got its row; no later move-aside
      makes a copy. */
  lemma TriggerIsStranded(end: Step, acknowledged: bool, committed: bool)
    requires end == Crash || end.FailSaga?
    ensures Lost(Deliveries(UNSEEN, Trigger, [Begin, end, MoveAside(acknowledged, committed)]), Trigger)
  {
    var steps := [Begin, end, MoveAside(acknowledged, committed)];
    assert steps == [Begin] + ([end] + [MoveAside(acknowledged, committed)]);
    var begun := Take(UNSEEN, Trigger, Begin);
    var ended := Take(begun, Trigger, end);
    AfterFirst(UNSEEN, Trigger, Begin, [end] + [MoveAside(acknowledged, committed)]);
    AfterFirst(begun, Trigger, end, [MoveAside(acknowledged, committed)]);
    AfterOne(ended, Trigger, MoveAside(acknowledged, committed));
    LostExactlyWhenStranded(UNSEEN, Trigger, steps);
  }

  lemma AfterTwo(l: Ledger, k: Kind, a: Step, b: Step)
    ensures Deliveries(l, k, [a, b]) == Take(Take(l, k, a), k, b)
  {
    AfterFirst(l, k, a, [b]);
    AfterOne(Take(l, k, a), k, b);
    assert [a, b] == [a] + [b];
  }

  /** A dispatch that resumes a saga only stages its claim: when it fails before the engine commits and the
      failure cannot be recorded, everything is as before and the delivery is offered again. */
  lemma UnrecordedFailureReleasesTheClaim(l: Ledger)
    requires !l.claimed && !l.open && (l.saga == Created || l.saga == Listed)
    ensures Deliveries(l, Trigger, [Begin, FailSaga(false)]) == l
  {
    AfterTwo(l, Trigger, Begin, FailSaga(false));
  }

  /** Copies are at least once, claims once: a copy whose commit, or whose claim, is lost in a crash is made
      again on redelivery. */
  lemma CopyIsRepeated()
    ensures
      var end := Deliveries(UNSEEN, Choreography, [MoveAside(true, false), MoveAside(true, true)]);
      end.claimed && end.asides == 1 && end.copies == 2
    ensures
      var end := Deliveries(UNSEEN, Projection, [Copy(true), Crash] + [ClaimCopy]);
      !end.claimed && end.copies == 1
  {
    AfterTwo(UNSEEN, Choreography, MoveAside(true, false), MoveAside(true, true));
    DeliveriesSplit(UNSEEN, Projection, [Copy(true), Crash], [ClaimCopy]);
    AfterTwo(UNSEEN, Projection, Copy(true), Crash);
    AfterOne(Deliveries(UNSEEN, Projection, [Copy(true), Crash]), Projection, ClaimCopy);
  }

  // ---------------------------------------------------------------- one delivery under the policy

  /** How one attempt goes.  A trigger's attempt breaks before its first commit, or after some commits of the
      engine, with its failure recorded or not. */
  datatype Attempted = Succeeds | Breaks(terminal: bool, begins: bool, commits: nat, recorded: bool)

  function Commits(n: nat): (r: seq<Step>)
    ensures |r| == n && forall i :: 0 <= i < n ==> r[i] == Engine
  {
    seq(n, _ => Engine)
  }

  /** The commits of one attempt on a delivery that is not claimed. */
  function AttemptSteps(k: Kind, a: Attempted): seq<Step> {
    if k != Trigger then (if a.Succeeds? then [Consume] else [])
    else if a.Succeeds? then [Begin] + Commits(2) + [Finish]
    else if a.begins then [Begin] + Commits(a.commits) + [FailSaga(a.recorded)]
    else []
  }

  lemma {:induction false} DeliveriesSplit(l: Ledger, k: Kind, first: seq<Step>, second: seq<Step>)
    ensures Deliveries(l, k, first + second) == Deliveries(Deliveries(l, k, first), k, second)
    decreases |first|
  {
    if first == [] {
      assert first + second == second;
    } else {
      assert (first + second)[1..] == first[1..] + second;
      DeliveriesSplit(Take(l, k, first[0]), k, first[1..], second);
    }
  }

  lemma DeliveriesOneMore(l: Ledger, k: Kind, steps: seq<Step>, s: Step)
    ensures Deliveries(l, k, steps + [s]) == Take(Deliveries(l, k, steps), k, s)
  {
    DeliveriesSplit(l, k, steps, [s]);
    AfterOne(Deliveries(l, k, steps), k, s);
  }

  /** What an attempt leaves: nothing new when the delivery is claimed already. */
  function AttemptOn(l: Ledger, k: Kind, a: Attempted): Ledger {
    if l.claimed then l else Deliveries(l, k, AttemptSteps(k, a))
  }

  /** What an attempt comes to; a trigger whose saga is completed does not run it again. */
  function OutcomeOn(l: Ledger, k: Kind, a: Attempted): Outcome {
    if l.claimed then Answer(false)
    else if a.Succeeds? || (k == Trigger && a.begins && l.saga == Completed) then Answer(true)
    else if a.terminal then DomainFailure
    else Failure
  }

  /** What the first `n` attempts leave. */
  function AfterAttempts(l: Ledger, k: Kind, scripted: nat -> Attempted, n: nat): Ledger {
    if n == 0 then l else AttemptOn(AfterAttempts(l, k, scripted, n - 1), k, scripted(n))
  }

  /** Each of the first `n` attempts is a plain failure. */
  predicate AllFail(l: Ledger, k: Kind, scripted: nat -> Attempted, n: nat) {
    n == 0 || (AllFail(l, k, scripted, n - 1) && OutcomeOn(AfterAttempts(l, k, scripted, n - 1), k, scripted(n)) == Failure)
  }

  /** Write side: claim and copy together, unless it is claimed.  Read side: the copy, then the claim. */
  function AsideOn(l: Ledger, k: Kind, acknowledged: bool): Ledger {
    if k == Projection then (if acknowledged then Take(Take(l, k, Copy(true)), k, ClaimCopy) else l)
    else if l.claimed then l
    else Take(l, k, MoveAside(acknowledged, true))
  }

  predicate AsideSucceeds(l: Ledger, k: Kind, acknowledged: bool) {
    acknowledged || (k != Projection && l.claimed)
  }

  /** How handling ends after the last attempt: with its answer, or with the delivery set aside. */
  predicate Ends(made: Ledger, k: Kind, last: Outcome, acknowledged: bool, end: Ledger, ending: Ending) {
    if last.Answer? then end == made && ending == Returned(last.handled)
    else
      && end == AsideOn(made, k, acknowledged)
      && ending == if AsideSucceeds(made, k, acknowledged) then Returned(true) else Propagated
  }

  lemma LostIffStranded(l: Ledger, k: Kind)
    requires OneReason(l, k)
    ensures Lost(l, k) <==> Stranded(l, k)
  {
    LostExactlyWhenStranded(l, k, []);
  }

  /** An attempt that is answered `true` leaves exactly one effect, under a claim. */
  lemma AnsweredHasItsEffect(l: Ledger, k: Kind, a: Attempted)
    requires OneReason(l, k) && !l.open && OutcomeOn(l, k, a) == Answer(true)
    ensures AttemptOn(l, k, a).claimed && AttemptOn(l, k, a).effects == 1
  {
    if k != Trigger {
      AfterOne(l, k, Consume);
    } else if l.saga == Completed {
      AlreadyCompleted(l, AttemptSteps(k, a));
    } else {
      Completes(l);
    }
  }

  /** The handler of one message: the loop above, with the attempts and the move-aside acting on the
      ledger. */
  class DeliveryHandler {
    const kind: Kind
    const policy: Policy
    var ledger: Ledger

    constructor (kind: Kind, policy: Policy)
      requires policy.Valid()
      ensures this.kind == kind && this.policy == policy && ledger == UNSEEN
    {
      this.kind, this.policy, ledger := kind, policy, UNSEEN;
    }

    ghost predicate Settling()
      reads this
    {
      OneReason(ledger, kind) && !ledger.open
    }

    /** Dispatch the saga: its first commit, the engine's, and the one that ends it. */
    method Dispatch(a: Attempted)
      requires kind == Trigger && !ledger.open && !ledger.claimed && (a.Breaks? ==> a.begins)
      modifies this
      ensures ledger == Deliveries(old(ledger), kind, AttemptSteps(kind, a))
      ensures !ledger.open
    {
      ledger := Take(ledger, kind, Begin);
      AfterOne(old(ledger), kind, Begin);
      var n := if a.Succeeds? then 2 else a.commits;
      var k := 0;
      assert [Begin] + Commits(0) == [Begin];
      while k < n
        invariant 0 <= k <= n && ledger == Deliveries(old(ledger), kind, [Begin] + Commits(k))
        invariant ledger.open ==> k == 1 ==> ledger.saga != NoRow
        invariant ledger.open ==> k >= 2 ==> ledger.saga == Listed || ledger.saga == Completed
        invariant ledger.open ==> ledger.saga != Completed
      {
        DeliveriesOneMore(old(ledger), kind, [Begin] + Commits(k), Engine);
        assert [Begin] + Commits(k) + [Engine] == [Begin] + Commits(k + 1);
        ledger := Take(ledger, kind, Engine);
        k := k + 1;
      }
      var end := if a.Succeeds? then Finish else FailSaga(a.recorded);
      DeliveriesOneMore(old(ledger), kind, [Begin] + Commits(n), end);
      ledger := Take(ledger, kind, end);
    }

    /** `consume`: a claimed delivery answers `false` without running the handler; otherwise claim and effect
        commit together and a failure leaves neither, except that a trigger's commits stay. */
    method Attempt(a: Attempted) returns (outcome: Outcome)
      requires Settling()
      modifies this
      ensures Settling()
      ensures ledger == AttemptOn(old(ledger), kind, a) && outcome == OutcomeOn(old(ledger), kind, a)
      ensures outcome == Answer(true) ==> ledger.effects == 1
      ensures outcome.Answer? ==> ledger.claimed
      ensures !outcome.Answer? && kind != Trigger ==> !ledger.claimed
    {
      if ledger.claimed {
        return Answer(false);
      }
      OneReasonStays(ledger, kind, AttemptSteps(kind, a));
      if OutcomeOn(ledger, kind, a) == Answer(true) {
        AnsweredHasItsEffect(ledger, kind, a);
      }
      outcome := if a.Succeeds? then Answer(true) else if a.terminal then DomainFailure else Failure;
      if kind == Trigger && (a.Succeeds? || a.begins) {
        if ledger.saga == Completed {
          outcome := Answer(true);
        }
        Dispatch(a);
      } else if kind != Trigger && a.Succeeds? {
        AfterOne(ledger, kind, Consume);
        ledger := ledger.(claimed := true, effects := ledger.effects + 1);
      }
    }

    /** Write side: claim, copy, commit.  Read side: copy, then claim.  A refused copy propagates. */
    method SetAside(acknowledged: bool) returns (ok: bool)
      requires Settling()
      modifies this
      ensures Settling()
      ensures ledger == AsideOn(old(ledger), kind, acknowledged) && ok == AsideSucceeds(old(ledger), kind, acknowledged)
      ensures ok ==> ledger.claimed
      ensures !ok ==> ledger.claimed == old(ledger).claimed && ledger.effects == old(ledger).effects
    {
      if kind == Projection {
        ledger := Take(ledger, kind, Copy(acknowledged));
        if !acknowledged {
          return false;
        }
        ledger := Take(ledger, kind, ClaimCopy);
        return true;
      }
      if ledger.claimed {
        return true;
      }
      ledger := Take(ledger, kind, MoveAside(acknowledged, true));
      ok := acknowledged;
    }

    /** The attempts are made in turn until one is no plain failure or the budget is used up; only then is
        the delivery set aside.  When the handler ends, the delivery is claimed with one reason, or the
        failure to set it aside propagates, the delivery is unclaimed and the broker offers it again.  Only
        a trigger's claim can be one of which nothing comes. */
    method Handle(scripted: nat -> Attempted, acknowledged: bool) returns (ending: Ending, attempts: nat)
      requires policy.Valid() && Settling()
      modifies this
      ensures Settling()
      ensures 1 <= attempts <= policy.maxAttempts
      ensures AllFail(old(ledger), kind, scripted, attempts - 1)
      ensures
        var before := AfterAttempts(old(ledger), kind, scripted, attempts - 1);
        var last := OutcomeOn(before, kind, scripted(attempts));
        && (last == Failure ==> attempts == policy.maxAttempts)
        && (last == Answer(true) ==> ledger.effects == 1)
        && Ends(AttemptOn(before, kind, scripted(attempts)), kind, last, acknowledged, ledger, ending)
      ensures ending.Returned? ==> ledger.claimed
      ensures ending.Propagated? ==> !ledger.claimed && !acknowledged
      ensures old(ledger).claimed ==> ending == Returned(false) && ledger == old(ledger)
      ensures Lost(ledger, kind) <==> Stranded(ledger, kind)
    {
      attempts := 0;
      while true
        invariant 0 <= attempts < policy.maxAttempts && Settling()
        invariant ledger == AfterAttempts(old(ledger), kind, scripted, attempts)
        invariant AllFail(old(ledger), kind, scripted, attempts)
        invariant old(ledger).claimed ==> attempts == 0
        decreases policy.maxAttempts - attempts
      {
        attempts := attempts + 1;
        var outcome := Attempt(scripted(attempts));
        if outcome.Answer? {
          LostIffStranded(ledger, kind);
          return Returned(outcome.handled), attempts;
        }
        if outcome == DomainFailure || attempts >= policy.maxAttempts {
          var ok := SetAside(acknowledged);
          LostIffStranded(ledger, kind);
          return (if ok then Returned(true) else Propagated), attempts;
        }
      }
    }
  }

  lemma {:induction false} CompletedStays(l: Ledger, steps: seq<Step>)
    requires l.claimed && !l.open && l.saga == Completed
    requires forall i :: 0 <= i < |steps| ==> steps[i] == Engine || steps[i] == Finish || steps[i].FailSaga?
    ensures Deliveries(l, Trigger, steps) == l
    decreases |steps|
  {
    if steps != [] {
      assert steps[0] == Engine || steps[0] == Finish || steps[0].FailSaga?;
      CompletedStays(l, steps[1..]);
    }
  }

  /** A saga that is completed already only has its claim written. */
  lemma AlreadyCompleted(l: Ledger, steps: seq<Step>)
    requires OneReason(l, Trigger) && !l.claimed && !l.open && l.saga == Completed
    requires exists a: Attempted :: (a.Succeeds? || a.begins) && steps == AttemptSteps(Trigger, a)
    ensures Deliveries(l, Trigger, steps).claimed && Deliveries(l, Trigger, steps).effects == l.effects
  {
    assert steps[0] == Begin && steps == [Begin] + steps[1..];
    AfterFirst(l, Trigger, Begin, steps[1..]);
    CompletedStays(Take(l, Trigger, Begin), steps[1..]);
  }

  /** A run that succeeds leaves the claim and the effect. */
  lemma Completes(l: Ledger)
    requires OneReason(l, Trigger) && !l.claimed && !l.open && l.saga != Completed
    ensures Deliveries(l, Trigger, AttemptSteps(Trigger, Succeeds)).claimed
    ensures Deliveries(l, Trigger, AttemptSteps(Trigger, Succeeds)).effects == 1
  {
    var l1 := Take(l, Trigger, Begin);
    var l2 := Take(l1, Trigger, Engine);
    var l3 := Take(l2, Trigger, Engine);
    assert AttemptSteps(Trigger, Succeeds) == [Begin] + ([Engine] + ([Engine] + [Finish]));
    AfterFirst(l, Trigger, Begin, [Engine] + ([Engine] + [Finish]));
    AfterFirst(l1, Trigger, Engine, [Engine] + [Finish]);
    AfterFirst(l2, Trigger, Engine, [Finish]);
    AfterOne(l3, Trigger, Finish);
  }
}
