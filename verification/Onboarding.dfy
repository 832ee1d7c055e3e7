/** The two delegated steps of the onboarding saga together: the care schedule and the first reminder.
    Their commands have different keys, so an interleaved run of both is a run of each. */
module Onboarding {
  import opened SagaCommands
  import opened Sequences

  const STEP_CARE_SCHEDULE := 2
  const STEP_NOTIFICATION := 3

  datatype Which = Schedule | Reminder

  datatype Onboarding = Onboarding(schedule: Saga, reminder: Saga) {
    function At(w: Which): Saga {
      if w == Schedule then schedule else reminder
    }
  }

  datatype Tagged = Tagged(which: Which, action: Action)

  function StepBoth(o: Onboarding, budget: nat, t: Tagged): Onboarding {
    match t.which
    case Schedule => o.(schedule := Step(o.schedule, budget, t.action))
    case Reminder => o.(reminder := Step(o.reminder, budget, t.action))
  }

  function RunBoth(o: Onboarding, budget: nat, actions: seq<Tagged>): Onboarding
    decreases |actions|
  {
    if actions == [] then o else RunBoth(StepBoth(o, budget, actions[0]), budget, actions[1..])
  }

  /** The actions of an interleaved run that concern one step. */
  function Of(actions: seq<Tagged>, w: Which): seq<Action> {
    if actions == [] then []
    else (if actions[0].which == w then [actions[0].action] else []) + Of(actions[1..], w)
  }

  lemma {:induction false} StepsAreIndependent(o: Onboarding, budget: nat, actions: seq<Tagged>, w: Which)
    ensures RunBoth(o, budget, actions).At(w) == Run(o.At(w), budget, Of(actions, w))
    decreases |actions|
  {
    if actions != [] {
      StepsAreIndependent(StepBoth(o, budget, actions[0]), budget, actions[1..], w);
      if actions[0].which == w {
        assert Of(actions, w)[1..] == Of(actions[1..], w);
      } else {
        assert Of(actions, w) == Of(actions[1..], w);
      }
    }
  }

  ghost predicate NeverCompensates(actions: seq<Tagged>) {
    forall k :: 0 <= k < |actions| ==> !actions[k].action.Withdraw?
  }

  lemma {:induction false} NeverWithdrawsEither(actions: seq<Tagged>, w: Which)
    requires NeverCompensates(actions)
    ensures NeverWithdraws(Of(actions, w))
    decreases |actions|
  {
    if actions != [] {
      assert !actions[0].action.Withdraw?;
      NeverWithdrawsEither(actions[1..], w);
    }
  }

  /** An onboarding that is not compensated ends with exactly one schedule and exactly one reminder, in
      every interleaving of its steps and dispatchers that records both commands and drains them. */
  lemma UncompensatedLeavesOneOfEach(budget: nat, actions: seq<Tagged>, w: Which)
    requires NeverCompensates(actions)
    ensures
      var end := RunBoth(Onboarding(NEW, NEW), budget, actions).At(w);
      end.create.Some? && Drained(end) ==> end.present && end.creations == 1
  {
    StepsAreIndependent(Onboarding(NEW, NEW), budget, actions, w);
    NeverWithdrawsEither(actions, w);
    UncompensatedLeavesOne(budget, Of(actions, w));
  }

  /** After one step is withdrawn, whatever happens to both, its effect is gone once it is drained. */
  ghost predicate UndoneIn(o: Onboarding, budget: nat, w: Which) {
    forall actions ::
      var end := RunBoth(StepBoth(o, budget, Tagged(w, Withdraw)), budget, actions).At(w);
      Drained(end) ==> !end.present
  }

  function TagAll(actions: seq<Action>, w: Which): (r: seq<Tagged>)
    ensures Of(r, w) == actions
  {
    if actions == [] then [] else [Tagged(w, actions[0])] + TagAll(actions[1..], w)
  }

  /** Compensating the onboarding, exactly: withdrawing a step, whenever the saga gets to it, leaves no
      effect of that step in any drained continuation if and only if that withdrawal is safe; what the
      other step does makes no difference. */
  lemma CompensationIsExactForEach(o: Onboarding, budget: nat, w: Which)
    requires Consistent(o.At(w)) && Delegated(o.At(w))
    ensures UndoneIn(o, budget, w) <==> Safe(o.At(w))
  {
    var withdrawn := StepBoth(o, budget, Tagged(w, Withdraw));
    assert withdrawn.At(w) == Withdrawn(o.At(w));
    CompensationIsExact(o.At(w), budget);
    if Safe(o.At(w)) {
      forall actions ensures
        var end := RunBoth(withdrawn, budget, actions).At(w);
        Drained(end) ==> !end.present
      {
        StepsAreIndependent(withdrawn, budget, actions, w);
      }
    } else {
      var bad :| Drained(Run(Withdrawn(o.At(w)), budget, bad)) && Run(Withdrawn(o.At(w)), budget, bad).present;
      var tagged := TagAll(bad, w);
      StepsAreIndependent(withdrawn, budget, tagged, w);
      assert Drained(RunBoth(withdrawn, budget, tagged).At(w)) && RunBoth(withdrawn, budget, tagged).At(w).present;
    }
  }

  /** The four keys of one onboarding, both commands and both undos, are different. */
  lemma FourKeys(saga: string)
    requires |saga| == 36
    ensures NoDuplicates([IntentKey(saga, STEP_CARE_SCHEDULE), IntentKey(saga, STEP_NOTIFICATION),
                          IntentKey(saga, STEP_CARE_SCHEDULE + COMPENSATION_STEP_OFFSET),
                          IntentKey(saga, STEP_NOTIFICATION + COMPENSATION_STEP_OFFSET)])
  {
    var steps := [STEP_CARE_SCHEDULE, STEP_NOTIFICATION,
                  STEP_CARE_SCHEDULE + COMPENSATION_STEP_OFFSET, STEP_NOTIFICATION + COMPENSATION_STEP_OFFSET];
    var keys := [IntentKey(saga, steps[0]), IntentKey(saga, steps[1]), IntentKey(saga, steps[2]), IntentKey(saga, steps[3])];
    forall i, j | 0 <= i < j < 4 ensures keys[i] != keys[j] {
      assert keys[i] == IntentKey(saga, steps[i]) && keys[j] == IntentKey(saga, steps[j]);
      KeysAreInjective(saga, steps[i], saga, steps[j]);
    }
  }
}
