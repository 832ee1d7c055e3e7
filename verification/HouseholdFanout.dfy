/** The one subscription the open streams of a household share, on one event loop.

    `detach` of the last stream cancels the subscription's task and waits for it to end before it clears
    the handle; other coroutines run meanwhile.  When the task ends, the coroutines waiting for it resume
    one after the other before anything else does. */
module HouseholdFanout {
  import opened Wrappers

  /** A task of the current fan-out: cancelled once a `detach` asked it to end. */
  datatype Task = Task(id: nat, cancelled: bool)

  /** `live` are the subscriptions that are open or being opened; `waiting` counts the detaching coroutines
      that wait for the task to end; `tasks` numbers the tasks ever created. */
  datatype Fanout = Fanout(signals: set<nat>, task: Option<Task>, waiting: nat, live: set<nat>, tasks: nat)

  datatype Action =
    | Attach(signal: nat)
    | Detach(signal: nat)
    | TaskEnds
    | Fails

  const EMPTY := Fanout({}, None, 0, {}, 0)

  function Step(f: Fanout, a: Action): Fanout {
    match a
    case Attach(s) =>
      var attached := f.(signals := f.signals + {s});
      if f.task.Some? then attached
      else attached.(task := Some(Task(f.tasks, false)), live := f.live + {f.tasks}, tasks := f.tasks + 1)
    case Detach(s) =>
      var left := f.signals - {s};
      if s !in f.signals then f
      else if left != {} || f.task.None? then f.(signals := left)
      else f.(signals := left, task := Some(f.task.value.(cancelled := true)), waiting := f.waiting + 1)
    case TaskEnds =>
      if f.task.None? || !f.task.value.cancelled then f
      else f.(live := f.live - {f.task.value.id}, task := None, waiting := 0)
    case Fails =>
      // The channel was lost: the subscription is closed, its streams are told, and the next stream finds
      // a new fan-out.
      if f.task.None? then f else Fanout({}, None, 0, f.live - {f.task.value.id}, f.tasks)
  }

  function Run(f: Fanout, actions: seq<Action>): Fanout
    decreases |actions|
  {
    if actions == [] then f else Run(Step(f, actions[0]), actions[1..])
  }

  /** The only subscription that can be live is the one the handle names. */
  ghost predicate OneSubscription(f: Fanout) {
    && f.live == (if f.task.Some? then {f.task.value.id} else {})
    && (f.task.Some? ==> f.task.value.id < f.tasks)
    && (f.task.Some? && !f.task.value.cancelled ==> f.signals != {} && f.waiting == 0)
    && (f.task.None? ==> f.waiting == 0)
    && (f.task.Some? && f.task.value.cancelled ==> f.waiting > 0)
  }

  /** Over every interleaving of attaching, detaching, ending and failing, a household never has two live
      subscriptions, and one that is kept has a stream to serve. */
  lemma {:induction false} NeverTwoSubscriptions(f: Fanout, actions: seq<Action>)
    requires OneSubscription(f)
    ensures OneSubscription(Run(f, actions)) && |Run(f, actions).live| <= 1
    decreases |actions|
  {
    if actions != [] {
      NeverTwoSubscriptions(Step(f, actions[0]), actions[1..]);
    }
  }

  predicate NeverFails(actions: seq<Action>) {
    forall k :: 0 <= k < |actions| ==> !actions[k].Fails?
  }

  /** What the streams themselves did last: attached, detached, or neither. */
  function LastWish(actions: seq<Action>, signal: nat): Option<bool> {
    if actions == [] then None
    else
      var last := actions[|actions| - 1];
      if last == Attach(signal) then Some(true)
      else if last == Detach(signal) then Some(false)
      else LastWish(actions[..|actions| - 1], signal)
  }

  lemma RunOneMore(f: Fanout, actions: seq<Action>)
    requires actions != []
    ensures Run(f, actions) == Step(Run(f, actions[..|actions| - 1]), actions[|actions| - 1])
    decreases |actions|
  {
    if |actions| > 1 {
      RunOneMore(Step(f, actions[0]), actions[1..]);
      assert actions[1..][..|actions| - 2] == actions[..|actions| - 1][1..];
    } else {
      assert actions[..0] == [] && actions[1..] == [];
    }
  }

  /** Along every run in which the channel holds, the attached streams are exactly those that attached and
      did not detach since, whatever the task does. */
  lemma {:induction false} AttachedStreamsAreThoseOpen(f: Fanout, actions: seq<Action>, signal: nat)
    requires NeverFails(actions)
    ensures signal in Run(f, actions).signals <==>
      if LastWish(actions, signal).Some? then LastWish(actions, signal).value else signal in f.signals
  {
    if actions != [] {
      var front, last := actions[..|actions| - 1], actions[|actions| - 1];
      assert !last.Fails?;
      AttachedStreamsAreThoseOpen(f, front, signal);
      RunOneMore(f, actions);
    }
  }

  /** A stream that is attached while no subscription will ever wake it. */
  predicate Starved(f: Fanout) {
    f.signals != {} && (f.task.None? || f.task.value.cancelled)
  }

  /** Exactly when an attached stream is served: unless it arrives while the task of the streams before it
      is being cancelled.  It then waits on a subscription that is ending. */
  lemma AttachIsServedExactly(f: Fanout, signal: nat)
    requires OneSubscription(f)
    ensures Starved(Step(f, Attach(signal))) <==> Cancelled(f)
  {
  }

  predicate Cancelled(f: Fanout) {
    f.task.Some? && f.task.value.cancelled
  }

  /** Every state the run passes through, the last one included, leaves no stream unserved. */
  ghost predicate AlwaysServed(f: Fanout, actions: seq<Action>)
    decreases |actions|
  {
    !Starved(f) && (actions != [] ==> AlwaysServed(Step(f, actions[0]), actions[1..]))
  }

  /** Along the run no stream arrives while the task of those before it is being cancelled. */
  ghost predicate NoLateStream(f: Fanout, actions: seq<Action>)
    decreases |actions|
  {
    actions != [] ==>
      && (actions[0].Attach? ==> !Cancelled(f))
      && NoLateStream(Step(f, actions[0]), actions[1..])
  }

  /** Exactly when a run serves every stream throughout: when no stream attaches during a cancellation. */
  lemma {:induction false} ServedThroughoutExactly(f: Fanout, actions: seq<Action>)
    requires OneSubscription(f) && !Starved(f)
    ensures AlwaysServed(f, actions) <==> NoLateStream(f, actions)
    decreases |actions|
  {
    if actions != [] {
      var f' := Step(f, actions[0]);
      if actions[0].Attach? {
        AttachIsServedExactly(f, actions[0].signal);
      }
      if !Starved(f') {
        ServedThroughoutExactly(f', actions[1..]);
      }
    }
  }

  /** What rescues an unserved stream: another stream that attaches once the cancellation is over.  The
      stream leaving by itself, or the channel failing, ends its wait unserved. */
  ghost predicate Rescued(f: Fanout, actions: seq<Action>, signal: nat)
    decreases |actions|
  {
    actions != [] && (
      || (actions[0].Attach? && f.task.None?)
      || actions[0] == Detach(signal)
      || (actions[0].Fails? && f.task.Some?)
      || Rescued(Step(f, actions[0]), actions[1..], signal))
  }

  /** In every state the run passes through the stream is attached and unserved. */
  ghost predicate AlwaysUnserved(f: Fanout, actions: seq<Action>, signal: nat)
    decreases |actions|
  {
    && Starved(f) && signal in f.signals
    && (actions != [] ==> AlwaysUnserved(Step(f, actions[0]), actions[1..], signal))
  }

  /** Exactly how long a starved stream stays so: no ending of the task, no other stream leaving, and no
      stream arriving during the cancellation helps it. */
  lemma {:induction false} StarvedUntilRescued(f: Fanout, actions: seq<Action>, signal: nat)
    requires OneSubscription(f) && Starved(f) && signal in f.signals
    ensures AlwaysUnserved(f, actions, signal) <==> !Rescued(f, actions, signal)
    decreases |actions|
  {
    if actions != [] {
      var f' := Step(f, actions[0]);
      if actions[0].Detach? && actions[0].signal != signal {
        assert signal in f.signals - {actions[0].signal};
      }
      if Starved(f') && signal in f'.signals {
        StarvedUntilRescued(f', actions[1..], signal);
      }
    }
  }

  /** A late stream, over every continuation: it attaches during the cancellation and goes unserved through
      exactly the runs that do not rescue it; once the task has ended no subscription is live. */
  lemma LateStreamStarves(f: Fanout, signal: nat, actions: seq<Action>)
    requires OneSubscription(f) && Cancelled(f)
    ensures
      var late := Step(f, Attach(signal));
      && (AlwaysUnserved(late, actions, signal) <==> !Rescued(late, actions, signal))
      && (Run(late, actions).task.None? ==> Run(late, actions).live == {})
  {
    StarvedUntilRescued(Step(f, Attach(signal)), actions, signal);
    NeverTwoSubscriptions(Step(f, Attach(signal)), actions);
  }

  /** The race on a real run. */
  lemma AttachDuringDetachStarves()
    ensures
      var f := Run(EMPTY, [Attach(1), Detach(1), Attach(2), TaskEnds]);
      f.signals == {2} && Starved(f) && f.live == {}
  {
    var actions := [Attach(1), Detach(1), Attach(2), TaskEnds];
    var f1 := Step(EMPTY, Attach(1));
    var f2 := Step(f1, Detach(1));
    assert f1.signals - {1} == {};
    var f3 := Step(f2, Attach(2));
    var f4 := Step(f3, TaskEnds);
    var a1, a2, a3 := [TaskEnds], [Attach(2), TaskEnds], [Detach(1), Attach(2), TaskEnds];
    assert actions[1..] == a3 && a3[1..] == a2 && a2[1..] == a1 && a1[1..] == [];
    assert Run(f4, []) == f4 && Run(f3, a1) == f4 && Run(f2, a2) == f4 && Run(f1, a3) == f4;
  }

  /** The object itself.  `detach` is two atomic stretches of code, before and after its await. */
  class Household {
    var state: Fanout

    constructor ()
      ensures state == EMPTY
    {
      state := EMPTY;
    }

    method Attach(signal: nat)
      modifies this
      ensures state == Step(old(state), Action.Attach(signal))
    {
      state := state.(signals := state.signals + {signal});
      if state.task.None? {
        state := state.(task := Some(Task(state.tasks, false)), live := state.live + {state.tasks}, tasks := state.tasks + 1);
      }
    }

    /** Up to the await; `suspended` is whether the coroutine goes on to wait for the task. */
    method BeginDetach(signal: nat) returns (suspended: bool)
      requires signal in state.signals
      modifies this
      ensures state == Step(old(state), Detach(signal))
      ensures suspended <==> state.signals == {} && state.task.Some?
    {
      state := state.(signals := state.signals - {signal});
      if state.signals != {} || state.task.None? {
        return false;
      }
      state := state.(task := Some(state.task.value.(cancelled := true)), waiting := state.waiting + 1);
      suspended := true;
    }

    /** The task ends, and every coroutine that waited for it clears the handle in turn. */
    method TaskEnded()
      requires state.task.Some? && state.task.value.cancelled && state.waiting > 0
      modifies this
      ensures state == Step(old(state), TaskEnds)
    {
      state := state.(live := state.live - {state.task.value.id});
      while state.waiting > 0
        invariant state == old(state).(live := old(state).live - {old(state).task.value.id},
                                       waiting := state.waiting, task := state.task)
        invariant state.waiting == 0 ==> state.task == None
        decreases state.waiting
      {
        state := state.(task := None, waiting := state.waiting - 1);
      }
    }
  }
}
