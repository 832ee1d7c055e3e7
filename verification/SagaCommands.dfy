/** One delegated saga step: the recorded create command, the dispatchers that run it, and the
    compensation that cancels it or records its undo.

    A handler commits its effect by itself and the dispatcher's mark is a second commit, so a crash can
    fall between them.  The marks and `cancel_pending` are single `UPDATE` statements: the marks look at
    the row's identifier only, the cancellation at the status only, neither at who holds the lease. */
module SagaCommands {
  import opened Text
  import opened Wrappers

  datatype Status = Pending | Executed | Failed | Parked | Cancelled

  datatype Intent = Intent(status: Status, attempts: nat, leased: bool)

  datatype Command = Create | Undo

  /** A command as one dispatcher took it; `ran` once its handler has returned. */
  datatype Claim = Claim(dispatcher: nat, command: Command, ran: bool)

  /** `remembered` is the stored response under the create command's key, `creations` counts the commits
      that created the effect, `present` is whether it exists now. */
  datatype Saga = Saga(
    create: Option<Intent>, undo: Option<Intent>, remembered: bool, creations: nat, present: bool, held: set<Claim>)

  datatype Action =
    | Record
    | Withdraw
    | Take(dispatcher: nat, command: Command)
    | ExpireLease(command: Command)
    | Handle(claim: Claim)
    | MarkExecuted(claim: Claim)
    | MarkFailed(claim: Claim)
    | Crash(dispatcher: nat)

  const NEW := Saga(None, None, false, 0, false, {})
  const RECORDED := Intent(Pending, 0, false)

  function IntentOf(s: Saga, c: Command): Option<Intent> {
    if c.Create? then s.create else s.undo
  }

  function Update(s: Saga, c: Command, i: Intent): Saga {
    if c.Create? then s.(create := Some(i)) else s.(undo := Some(i))
  }

  /** `withdraw`: cancel a command that is still pending, otherwise record its undo (once: the key of the
      undo is unique too). */
  function Withdrawn(s: Saga): Saga {
    if s.create.None? then s
    else if s.create.value.status == Pending then
      s.(create := Some(s.create.value.(status := Cancelled, leased := false)))
    else if s.undo.None? then s.(undo := Some(RECORDED))
    else s
  }

  /** The handlers: creating replays the stored response when there is one, deleting twice is no error. */
  function Effect(s: Saga, c: Command): Saga {
    if c.Undo? then s.(present := false)
    else if s.remembered then s
    else s.(remembered := true, creations := s.creations + 1, present := true)
  }

  /** `mark_failed`: count, and park at the budget.  The stored status never becomes `failed`. */
  function Counted(i: Intent, budget: nat): Intent {
    Intent(if i.attempts + 1 >= budget then Parked else i.status, i.attempts + 1, false)
  }

  function Step(s: Saga, budget: nat, a: Action): Saga {
    match a
    case Record => if s.create.None? then s.(create := Some(RECORDED)) else s
    case Withdraw => Withdrawn(s)
    case Take(d, c) =>
      var i := IntentOf(s, c);
      if i.None? || i.value.leased || !(i.value.status == Pending || i.value.status == Failed) then s
      else Update(s, c, i.value.(leased := true)).(held := s.held + {Claim(d, c, false)})
    case ExpireLease(c) =>
      var i := IntentOf(s, c);
      if i.None? then s else Update(s, c, i.value.(leased := false))
    case Handle(m) =>
      if m !in s.held || m.ran then s
      else Effect(s, m.command).(held := s.held - {m} + {m.(ran := true)})
    case MarkExecuted(m) =>
      var i := IntentOf(s, m.command);
      if m !in s.held || !m.ran || i.None? then s
      else Update(s, m.command, i.value.(status := Executed, leased := false)).(held := s.held - {m})
    case MarkFailed(m) =>
      var i := IntentOf(s, m.command);
      if m !in s.held || i.None? then s
      else Update(s, m.command, Counted(i.value, budget)).(held := s.held - {m})
    case Crash(d) => s.(held := (set m | m in s.held && m.dispatcher != d))
  }

  function Run(s: Saga, budget: nat, actions: seq<Action>): Saga
    decreases |actions|
  {
    if actions == [] then s else Run(Step(s, budget, actions[0]), budget, actions[1..])
  }

  // ---------------------------------------------------------------- one effect per recorded command

  ghost predicate Consistent(s: Saga) {
    && s.creations == (if s.remembered then 1 else 0)
    && (s.present ==> s.remembered)
    && (s.create.Some? && s.create.value.status == Executed ==> s.remembered)
    && (s.create.None? ==> s.undo.None? && !s.remembered)
    && (forall m :: m in s.held ==> IntentOf(s, m.command).Some?)
    && (forall m :: m in s.held && m.command.Create? && m.ran ==> s.remembered)
    && (forall m :: m in s.held && m.command.Undo? && m.ran && s.remembered ==> s.undo.Some?)
    && (s.create.Some? ==> s.create.value.status != Failed)
    && (s.undo.Some? ==> s.undo.value.status != Failed && s.undo.value.status != Cancelled)
    && (s.remembered && s.undo.None? ==> s.present)
  }

  lemma StepKeepsConsistent(s: Saga, budget: nat, a: Action)
    requires Consistent(s)
    ensures Consistent(Step(s, budget, a))
  {
  }

  /** However many dispatchers run the recorded command, however often, and wherever they crash, its
      effect is committed at most once, and exactly once when the intent ends executed; the status
      `failed` is never stored. */
  lemma {:induction false} EffectOnce(s: Saga, budget: nat, actions: seq<Action>)
    requires Consistent(s)
    ensures
      var end := Run(s, budget, actions);
      && Consistent(end) && end.creations <= 1
      && (end.create.Some? && end.create.value.status == Executed ==> end.creations == 1)
    decreases |actions|
  {
    if actions != [] {
      StepKeepsConsistent(s, budget, actions[0]);
      EffectOnce(Step(s, budget, actions[0]), budget, actions[1..]);
    }
  }

  lemma {:induction false} RunSplits(s: Saga, budget: nat, first: seq<Action>, second: seq<Action>)
    ensures Run(s, budget, first + second) == Run(Run(s, budget, first), budget, second)
    decreases |first|
  {
    if first == [] {
      assert first + second == second;
    } else {
      assert (first + second)[1..] == first[1..] + second;
      RunSplits(Step(s, budget, first[0]), budget, first[1..], second);
    }
  }

  lemma RunOne(s: Saga, budget: nat, a: Action)
    ensures Run(s, budget, [a]) == Step(s, budget, a)
  {
    assert [a][1..] == [];
    assert Run(Step(s, budget, a), budget, []) == Step(s, budget, a);
  }

  // ---------------------------------------------------------------- what becomes of a recorded command

  function FailedTries(dispatcher: nat, c: Command, n: nat): seq<Action> {
    if n == 0 then []
    else [Take(dispatcher, c), MarkFailed(Claim(dispatcher, c, false))] + FailedTries(dispatcher, c, n - 1)
  }

  lemma OneFailedTry(s: Saga, budget: nat, dispatcher: nat, c: Command, rest: seq<Action>)
    ensures
      var claim := Claim(dispatcher, c, false);
      Run(s, budget, [Take(dispatcher, c), MarkFailed(claim)] + rest)
      == Run(Step(Step(s, budget, Take(dispatcher, c)), budget, MarkFailed(claim)), budget, rest)
  {
    var claim := Claim(dispatcher, c, false);
    var actions := [Take(dispatcher, c), MarkFailed(claim)] + rest;
    assert actions[1..] == [MarkFailed(claim)] + rest && actions[1..][1..] == rest;
  }

  /** A command that keeps failing stays pending, one attempt the more each time, and is parked at exactly
      the budget; then no dispatcher takes it any more.  Nothing else of the saga changes. */
  lemma {:induction false} FailuresPark(s: Saga, budget: nat, dispatcher: nat, c: Command, tries: nat, n: nat)
    requires tries < budget && Claim(dispatcher, c, false) !in s.held
    requires IntentOf(s, c) == Some(Intent(Pending, tries, false))
    ensures
      Run(s, budget, FailedTries(dispatcher, c, n))
      == Update(s, c, if tries + n < budget then Intent(Pending, tries + n, false) else Intent(Parked, budget, false))
    decreases n
  {
    if n > 0 {
      var claim := Claim(dispatcher, c, false);
      var failed := Step(Step(s, budget, Take(dispatcher, c)), budget, MarkFailed(claim));
      OneFailedTry(s, budget, dispatcher, c, FailedTries(dispatcher, c, n - 1));
      assert failed.held == s.held;
      if tries + 1 < budget {
        FailuresPark(failed, budget, dispatcher, c, tries + 1, n - 1);
      } else {
        ParkedStays(failed, budget, dispatcher, c, n - 1);
      }
    }
  }

  lemma {:induction false} ParkedStays(s: Saga, budget: nat, dispatcher: nat, c: Command, n: nat)
    requires Claim(dispatcher, c, false) !in s.held
    requires IntentOf(s, c).Some? && IntentOf(s, c).value.status == Parked
    ensures Run(s, budget, FailedTries(dispatcher, c, n)) == s
    decreases n
  {
    if n > 0 {
      OneFailedTry(s, budget, dispatcher, c, FailedTries(dispatcher, c, n - 1));
      ParkedStays(s, budget, dispatcher, c, n - 1);
    }
  }

  lemma RunFour(s: Saga, budget: nat, a: Action, b: Action, c: Action, d: Action)
    ensures Run(s, budget, [a, b, c, d]) == Step(Step(Step(Step(s, budget, a), budget, b), budget, c), budget, d)
  {
    RunSplits(s, budget, [a, b], [c, d]);
    RunSplits(s, budget, [a], [b]);
    RunOne(s, budget, a);
    RunOne(Step(s, budget, a), budget, b);
    var t := Run(s, budget, [a, b]);
    RunSplits(t, budget, [c], [d]);
    RunOne(t, budget, c);
    RunOne(Step(t, budget, c), budget, d);
    assert [a, b, c, d] == [a, b] + [c, d] && [a, b] == [a] + [b] && [c, d] == [c] + [d];
  }

  /** No pending command is stuck: whoever holds it, once that lease expires another dispatcher can carry
      the command out.  A create then has its effect, an undo has removed it. */
  lemma PendingCommandCanBeCarriedOut(s: Saga, budget: nat, dispatcher: nat, c: Command)
    requires Consistent(s) && IntentOf(s, c).Some? && IntentOf(s, c).value.status == Pending
    requires forall m :: m in s.held ==> m.dispatcher != dispatcher
    ensures
      var claim := Claim(dispatcher, c, false);
      var end := Run(s, budget, [ExpireLease(c), Take(dispatcher, c), Handle(claim), MarkExecuted(claim.(ran := true))]);
      && IntentOf(end, c).Some? && IntentOf(end, c).value.status == Executed && !IntentOf(end, c).value.leased
      && end.held == s.held
      && (c.Undo? ==> !end.present) && (c.Create? ==> end.creations == 1 && (!s.remembered ==> end.present))
  {
    var claim := Claim(dispatcher, c, false);
    var done := claim.(ran := true);
    RunFour(s, budget, ExpireLease(c), Take(dispatcher, c), Handle(claim), MarkExecuted(done));
    var free := Step(s, budget, ExpireLease(c));
    var taken := Step(free, budget, Take(dispatcher, c));
    assert claim in taken.held && done !in taken.held;
    var ran := Step(taken, budget, Handle(claim));
    assert ran.held == s.held + {done};
  }

  /** A crashed dispatcher does nothing more with what it held. */
  lemma CrashedDispatcherIsSilent(s: Saga, budget: nat, m: Claim)
    ensures
      var crashed := Step(s, budget, Crash(m.dispatcher));
      && Step(crashed, budget, Handle(m)) == crashed && Step(crashed, budget, MarkExecuted(m)) == crashed
      && Step(crashed, budget, MarkFailed(m)) == crashed
  {
  }

  /** While a claim of a command is held, its intent is leased, or is in a status no dispatcher takes. */
  ghost predicate OneHolder(s: Saga) {
    && (forall m, n :: m in s.held && n in s.held && m.command == n.command ==> m == n)
    && (forall m :: m in s.held ==>
          var i := IntentOf(s, m.command);
          i.Some? && (i.value.leased || (i.value.status != Pending && i.value.status != Failed)))
  }

  predicate NoLeaseExpires(actions: seq<Action>) {
    forall k :: 0 <= k < |actions| ==> !actions[k].ExpireLease?
  }

  lemma StepKeepsOneHolder(s: Saga, budget: nat, a: Action)
    requires OneHolder(s) && !a.ExpireLease?
    ensures OneHolder(Step(s, budget, a))
  {
    match a
    case Handle(m) => HandleKeepsOneHolder(s, budget, m);
    case Take(d, c) => TakeKeepsOneHolder(s, budget, d, c);
    case _ =>
  }

  lemma HandleKeepsOneHolder(s: Saga, budget: nat, claim: Claim)
    requires OneHolder(s)
    ensures OneHolder(Step(s, budget, Handle(claim)))
  {
    var s' := Step(s, budget, Handle(claim));
    assert forall m :: m in s'.held ==> m in s.held || (m == claim.(ran := true) && claim in s.held);
  }

  lemma TakeKeepsOneHolder(s: Saga, budget: nat, dispatcher: nat, c: Command)
    requires OneHolder(s)
    ensures OneHolder(Step(s, budget, Take(dispatcher, c)))
  {
  }

  /** What leases are for: unless one expires, a command is never with two dispatchers at once, whatever
      else happens. */
  lemma {:induction false} LeasesAreExclusive(s: Saga, budget: nat, actions: seq<Action>)
    requires OneHolder(s) && NoLeaseExpires(actions)
    ensures OneHolder(Run(s, budget, actions))
    decreases |actions|
  {
    if actions != [] {
      assert !actions[0].ExpireLease?;
      assert forall k :: 0 <= k < |actions| - 1 ==> actions[1..][k] == actions[k + 1];
      StepKeepsOneHolder(s, budget, actions[0]);
      LeasesAreExclusive(Step(s, budget, actions[0]), budget, actions[1..]);
    }
  }

  /** Every recorded command has an outcome, and none of them is parked. */
  predicate Drained(s: Saga) {
    && (s.create.Some? ==> s.create.value.status == Executed || s.create.value.status == Cancelled)
    && (s.undo.Some? ==> s.undo.value.status == Executed)
  }

  predicate NeverWithdraws(actions: seq<Action>) {
    forall k :: 0 <= k < |actions| ==> !actions[k].Withdraw?
  }

  lemma {:induction false} NotWithdrawnStays(s: Saga, budget: nat, actions: seq<Action>)
    requires NeverWithdraws(actions)
    requires s.undo.None? && (s.create.Some? ==> s.create.value.status != Cancelled)
    ensures
      var end := Run(s, budget, actions);
      end.undo.None? && (end.create.Some? ==> end.create.value.status != Cancelled)
    decreases |actions|
  {
    if actions != [] {
      assert !actions[0].Withdraw?;
      assert forall k :: 0 <= k < |actions| - 1 ==> actions[1..][k] == actions[k + 1];
      NotWithdrawnStays(Step(s, budget, actions[0]), budget, actions[1..]);
    }
  }

  /** A saga that is not compensated leaves exactly one effect once its command is drained. */
  lemma UncompensatedLeavesOne(budget: nat, actions: seq<Action>)
    requires NeverWithdraws(actions)
    ensures
      var end := Run(NEW, budget, actions);
      end.create.Some? && Drained(end) ==> end.present && end.creations == 1
  {
    EffectOnce(NEW, budget, actions);
    NotWithdrawnStays(NEW, budget, actions);
  }

  // ---------------------------------------------------------------- compensation

  /** The step has delegated, and its compensation has not begun. */
  predicate Delegated(s: Saga) {
    s.create.Some? && s.create.value.status != Cancelled && s.undo.None?
  }

  predicate CreateHeld(s: Saga) {
    exists m :: m in s.held && m.command.Create? && !m.ran
  }

  /** When a withdrawal is answered truthfully: a command that is still pending has not created its
      effect, and no dispatcher is about to create an effect that does not exist yet. */
  predicate Safe(s: Saga)
    requires Delegated(s)
  {
    && !(s.create.value.status == Pending && s.remembered)
    && (s.remembered || !CreateHeld(s))
  }

  /** What a safe withdrawal establishes: the effect will never be created again, and if it exists an
      undo is recorded that has not been reported executed without running. */
  ghost predicate Compensating(s: Saga) {
    && Consistent(s)
    && s.create.Some? && s.create.value.status != Pending
    && (s.remembered || !CreateHeld(s))
    && (s.present ==> s.undo.Some? && s.undo.value.status != Executed)
    && (forall m :: m in s.held && m.command.Undo? && m.ran ==> !s.present)
  }

  lemma CompensatingStays(s: Saga, budget: nat, a: Action)
    requires Compensating(s)
    ensures Compensating(Step(s, budget, a))
  {
    StepKeepsConsistent(s, budget, a);
    var s' := Step(s, budget, a);
    assert forall m :: m in s'.held && m.command.Create? && !m.ran ==> m in s.held;
  }

  lemma {:induction false} CompensatingRun(s: Saga, budget: nat, actions: seq<Action>)
    requires Compensating(s)
    ensures Compensating(Run(s, budget, actions))
    decreases |actions|
  {
    if actions != [] {
      CompensatingStays(s, budget, actions[0]);
      CompensatingRun(Step(s, budget, actions[0]), budget, actions[1..]);
    }
  }

  /** After the withdrawal, whatever dispatchers do, a drained saga leaves no effect. */
  ghost predicate Undone(s: Saga, budget: nat) {
    forall actions :: Drained(Run(Withdrawn(s), budget, actions)) ==> !Run(Withdrawn(s), budget, actions).present
  }

  lemma SafeWithdrawalUndoes(s: Saga, budget: nat)
    requires Consistent(s) && Delegated(s) && Safe(s)
    ensures Undone(s, budget)
  {
    assert Step(s, budget, Withdraw) == Withdrawn(s);
    StepKeepsConsistent(s, budget, Withdraw);
    assert forall m :: m in s.held ==> IntentOf(s, m.command).Some?;
    assert Compensating(Withdrawn(s));
    forall actions | Drained(Run(Withdrawn(s), budget, actions)) ensures !Run(Withdrawn(s), budget, actions).present {
      CompensatingRun(Withdrawn(s), budget, actions);
    }
  }

  /** A pending command that a dispatcher has already executed, or is executing, is cancelled and its
      effect stays. */
  lemma CancelledTooEarly(s: Saga, budget: nat)
    requires Consistent(s) && Delegated(s) && s.create.value.status == Pending
    requires s.remembered || CreateHeld(s)
    ensures !Undone(s, budget)
  {
    var w := Withdrawn(s);
    if s.remembered {
      assert Run(w, budget, []) == w;
      assert Drained(w) && w.present;
    } else {
      var m :| m in s.held && m.command.Create? && !m.ran;
      var done := Step(w, budget, Handle(m));
      assert done.present && Drained(done);
      assert Run(done, budget, []) == done;
      assert [Handle(m)][1..] == [] && Run(w, budget, [Handle(m)]) == done;
    }
  }

  /** A parked command that a stalled dispatcher still holds is undone first and executed afterwards. */
  lemma UndoneTooEarly(s: Saga, budget: nat, m: Claim)
    requires Consistent(s) && Delegated(s) && s.create.value.status != Pending
    requires !s.remembered && m in s.held && m.command.Create? && !m.ran
    ensures !Undone(s, budget)
  {
    var undo, ran := Claim(0, Undo, false), Claim(0, Undo, true);
    var created := m.(ran := true);
    var w0 := Withdrawn(s);
    assert forall h :: h in s.held ==> h.command.Create?;
    var w1 := Step(w0, budget, Take(0, Undo));
    assert undo in w1.held && m in w1.held;
    var w2 := Step(w1, budget, Handle(undo));
    assert ran in w2.held && m in w2.held;
    var w3 := Step(w2, budget, MarkExecuted(ran));
    assert w3.undo == Some(Intent(Executed, 0, false)) && m in w3.held && !w3.remembered;
    var w4 := Step(w3, budget, Handle(m));
    assert created in w4.held && w4.present;
    var w5 := Step(w4, budget, MarkExecuted(created));
    assert Drained(w5) && w5.present;
    var a1 := [MarkExecuted(created)];
    var a2 := [Handle(m)] + a1;
    var a3 := [MarkExecuted(ran)] + a2;
    var a4 := [Handle(undo)] + a3;
    var a5 := [Take(0, Undo)] + a4;
    assert a1[1..] == [] && a2[1..] == a1 && a3[1..] == a2 && a4[1..] == a3 && a5[1..] == a4;
    assert Run(w5, budget, []) == w5;
    assert Run(w4, budget, a1) == w5;
    assert Run(w3, budget, a2) == w5;
    assert Run(w2, budget, a3) == w5;
    assert Run(w1, budget, a4) == w5;
    assert Run(w0, budget, a5) == w5;
  }

  /** Compensation, exactly: from any state the protocol can be in, withdrawing the step leaves no effect
      in every drained continuation if and only if the withdrawal is safe when it is made. */
  lemma CompensationIsExact(s: Saga, budget: nat)
    requires Consistent(s) && Delegated(s)
    ensures Undone(s, budget) <==> Safe(s)
  {
    if Safe(s) {
      SafeWithdrawalUndoes(s, budget);
    } else if s.create.value.status == Pending {
      CancelledTooEarly(s, budget);
    } else {
      var m :| m in s.held && m.command.Create? && !m.ran;
      UndoneTooEarly(s, budget, m);
    }
  }

  /** The race on a real run: the handler commits between the claim and the cancellation. */
  lemma CancelRacesTheHandler()
    ensures
      var c := Claim(1, Create, false);
      var actions := [Record, Take(1, Create), Handle(c), Withdraw, MarkExecuted(c.(ran := true))];
      var end := Run(NEW, 5, actions);
      Drained(end) && end.present && end.undo.None? && end.held == {}
  {
    var c := Claim(1, Create, false);
    var actions := [Record, Take(1, Create), Handle(c), Withdraw, MarkExecuted(c.(ran := true))];
    var w1 := Step(NEW, 5, Record);
    var w2 := Step(w1, 5, Take(1, Create));
    assert w2.held == {c};
    var w3 := Step(w2, 5, Handle(c));
    assert w3.held == {c.(ran := true)};
    var w4 := Step(w3, 5, Withdraw);
    var w5 := Step(w4, 5, MarkExecuted(c.(ran := true)));
    var a1 := [MarkExecuted(c.(ran := true))];
    var a2 := [Withdraw] + a1;
    var a3 := [Handle(c)] + a2;
    var a4 := [Take(1, Create)] + a3;
    assert a1[1..] == [] && a2[1..] == a1 && a3[1..] == a2 && a4[1..] == a3 && actions[1..] == a4;
    assert Run(w5, 5, []) == w5 && Run(w4, 5, a1) == w5 && Run(w3, 5, a2) == w5;
    assert Run(w2, 5, a3) == w5 && Run(w1, 5, a4) == w5;
  }

  // ---------------------------------------------------------------- keys

  const COMPENSATION_STEP_OFFSET := 1000

  /** `intent_key`; a saga identifier is printed with its 36 characters. */
  function IntentKey(saga: string, step: nat): string {
    "saga-intent:" + saga + ":" + Decimal(step)
  }

  /** Keys collide only for the same saga and the same step. */
  lemma KeysAreInjective(saga: string, step: nat, saga': string, step': nat)
    requires |saga| == |saga'| == 36
    ensures IntentKey(saga, step) == IntentKey(saga', step') ==> saga == saga' && step == step'
  {
    var a, b := IntentKey(saga, step), IntentKey(saga', step');
    if a == b {
      assert a[12..48] == saga && b[12..48] == saga';
      assert a[49..] == Decimal(step) && b[49..] == Decimal(step');
      DecimalIsInjective(step, step');
    }
  }

  /** The command of one step and the undo of any step never share a key, nor do two steps or two sagas. */
  lemma CreateAndUndoKeysNeverCollide(saga: string, step: nat, saga': string, step': nat)
    requires |saga| == |saga'| == 36 && step < COMPENSATION_STEP_OFFSET
    ensures IntentKey(saga, step) != IntentKey(saga', step' + COMPENSATION_STEP_OFFSET)
  {
    KeysAreInjective(saga, step, saga', step' + COMPENSATION_STEP_OFFSET);
  }
}
