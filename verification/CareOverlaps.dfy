/** Transactions that overlap on one plant's schedule or window: the timer reads both rows without a lock
    and saves them by merging, while commands lock the schedule and the consumer of completions saves the
    window by merging too. */
module CareOverlaps {
  import opened Wrappers
  import opened Sequences
  import opened CareSchedules
  import opened MissedCare

  // ---------------------------------------------------------------- the schedule row

  /** What saving `wanted` leaves of the committed row: `merge` writes the columns in which it differs from
      the row as the session `loaded` it. */
  function Saved(committed: Schedule, loaded: Schedule, wanted: Schedule): Schedule {
    Schedule(
      if wanted.interval == loaded.interval then committed.interval else wanted.interval,
      if wanted.next == loaded.next then committed.next else wanted.next,
      if wanted.version == loaded.version then committed.version else wanted.version)
  }

  /** The committed row, the commands it accepted so far, and a tick of the timer: the schedule as the tick
      `listed` it and as its save `loaded` it. */
  datatype Store = Store(row: Schedule, accepted: nat, listed: Option<Schedule>, loaded: Option<Schedule>)

  datatype Action =
    | Command(r: Request) // a command locks the row for its whole transaction
    | List                // the tick lists the schedule among the due ones
    | Load                // the tick's save loads the row
    | Save                // the tick commits; marking a schedule as due changes nothing in it

  function Fresh(row: Schedule): Store {
    Store(row, 0, None, None)
  }

  function Step(s: Store, a: Action): Store {
    match a
    case Command(r) => if Accepts(s.row, r) then s.(row := Execute(s.row, r), accepted := s.accepted + 1) else s
    case List => s.(listed := Some(s.row), loaded := None)
    case Load => if s.listed.Some? && s.loaded.None? then s.(loaded := Some(s.row)) else s
    case Save =>
      if s.listed.None? || s.loaded.None? then s
      else s.(row := Saved(s.row, s.loaded.value, s.listed.value), listed := None, loaded := None)
  }

  function Run(s: Store, actions: seq<Action>): Store
    decreases |actions|
  {
    if actions == [] then s else Run(Step(s, actions[0]), actions[1..])
  }

  /** A command was accepted between the tick's listing and its load. */
  predicate Stale(s: Store) {
    s.listed.Some? && s.loaded.Some? && s.listed.value.version != s.loaded.value.version
  }

  ghost predicate NoStaleSave(s: Store, actions: seq<Action>)
    decreases |actions|
  {
    actions != [] ==> (actions[0].Save? ==> !Stale(s)) && NoStaleSave(Step(s, actions[0]), actions[1..])
  }

  /** The commands of a run, in order. */
  function Requests(actions: seq<Action>): seq<Request>
    decreases |actions|
  {
    if actions == [] then []
    else (if actions[0].Command? then [actions[0].r] else []) + Requests(actions[1..])
  }

  /** Versions never run ahead of the accepted commands; what the tick holds is a row of the past. */
  ghost predicate Counted(s: Store, first: nat) {
    && s.row.version <= first + s.accepted
    && (s.loaded.Some? ==> s.listed.Some?)
    && (s.listed.Some? ==> s.listed.value.version <= s.row.version)
    && (s.loaded.Some? ==>
          && s.listed.value.version <= s.loaded.value.version <= s.row.version
          && (s.listed.value.version == s.loaded.value.version ==> s.listed == s.loaded))
    && (s.listed.Some? && s.listed.value.version == s.row.version ==> s.listed.value == s.row)
  }

  lemma StepKeepsCounted(s: Store, first: nat, a: Action)
    requires Counted(s, first)
    ensures Counted(Step(s, a), first)
    ensures Step(s, a).row.version == first + Step(s, a).accepted <==>
      s.row.version == first + s.accepted && !(a.Save? && Stale(s))
    ensures a.Save? && !Stale(s) ==> Step(s, a).row == s.row
  {
  }

  /** Exactly when no accepted command is lost, over every interleaving of commands and ticks: when no tick
      saves a schedule that a command changed between the tick's listing and its load.  The row's version
      then counts the accepted commands, and after a stale save it never does again. */
  lemma {:induction false} NoCommandIsLostExactly(s: Store, first: nat, actions: seq<Action>)
    requires Counted(s, first)
    ensures Counted(Run(s, actions), first)
    ensures Run(s, actions).row.version == first + Run(s, actions).accepted <==>
      s.row.version == first + s.accepted && NoStaleSave(s, actions)
    decreases |actions|
  {
    if actions != [] {
      StepKeepsCounted(s, first, actions[0]);
      NoCommandIsLostExactly(Step(s, actions[0]), first, actions[1..]);
    }
  }

  lemma {:induction false} ExecuteFirst(row: Schedule, r: Request, rest: seq<Request>)
    ensures ExecuteAll(row, [r] + rest) == ExecuteAll(Execute(row, r), rest)
  {
    if rest == [] {
      assert [r] + rest == [r] && [r][..0] == [];
    } else {
      var k := |rest| - 1;
      ExecuteFirst(row, r, rest[..k]);
      assert ([r] + rest)[..k + 1] == [r] + rest[..k];
    }
  }

  lemma RequestsFirst(row: Schedule, actions: seq<Action>)
    requires actions != []
    ensures ExecuteAll(row, Requests(actions)) ==
      ExecuteAll(if actions[0].Command? then Execute(row, actions[0].r) else row, Requests(actions[1..]))
  {
    if actions[0].Command? {
      ExecuteFirst(row, actions[0].r, Requests(actions[1..]));
    } else {
      assert [] + Requests(actions[1..]) == Requests(actions[1..]);
    }
  }

  /** Without a stale save the timer is invisible: the row is what the commands alone make of it, one after
      the other. */
  lemma {:induction false} TimerIsInvisible(s: Store, first: nat, actions: seq<Action>)
    requires Counted(s, first) && NoStaleSave(s, actions)
    ensures Run(s, actions).row == ExecuteAll(s.row, Requests(actions))
    decreases |actions|
  {
    if actions != [] {
      StepKeepsCounted(s, first, actions[0]);
      TimerIsInvisible(Step(s, actions[0]), first, actions[1..]);
      RequestsFirst(s.row, actions);
      assert !actions[0].Command? ==> Step(s, actions[0]).row == s.row;
    }
  }

  /** The loss on a real run: a watering is answered with version 2, the tick writes version 1 back, and a
      caller that still expects version 1 is accepted. */
  lemma WateringIsLost()
    ensures
      var watering := Request(Complete(5), 1);
      var s := Run(Fresh(Schedule(10, 0, 1)), [List, Command(watering), Load, Save]);
      s.accepted == 1 && s.row == Schedule(10, 0, 1) && Accepts(s.row, Request(SkipOne, 1))
  {
    var watering := Request(Complete(5), 1);
    var s1 := Step(Fresh(Schedule(10, 0, 1)), List);
    var s2 := Step(s1, Command(watering));
    var s3 := Step(s2, Load);
    var s4 := Step(s3, Save);
    var a1, a2, a3 := [Command(watering), Load, Save], [Load, Save], [Save];
    assert [List, Command(watering), Load, Save][1..] == a1 && a1[1..] == a2 && a2[1..] == a3 && a3[1..] == [];
    assert Run(s4, []) == s4 && Run(s3, a3) == s4 && Run(s2, a2) == s4 && Run(s1, a1) == s4;
  }

  /** A row the tick's session already holds is not loaded again: the same commands after the load survive. */
  lemma WateringSurvivesAnEarlyLoad()
    ensures
      var watering := Request(Complete(5), 1);
      Run(Fresh(Schedule(10, 0, 1)), [List, Load, Command(watering), Load, Save]).row == Schedule(10, 15, 2)
  {
    var watering := Request(Complete(5), 1);
    var s1 := Step(Fresh(Schedule(10, 0, 1)), List);
    var s2 := Step(s1, Load);
    var s3 := Step(s2, Command(watering));
    var s4 := Step(s3, Load);
    var s5 := Step(s4, Save);
    var a1, a2 := [Load, Command(watering), Load, Save], [Command(watering), Load, Save];
    var a3, a4 := [Load, Save], [Save];
    assert [List, Load, Command(watering), Load, Save][1..] == a1 && a1[1..] == a2 && a2[1..] == a3 && a3[1..] == a4 && a4[1..] == [];
    assert Run(s5, []) == s5 && Run(s4, a4) == s5 && Run(s3, a3) == s5 && Run(s2, a2) == s5 && Run(s1, a1) == s5;
  }

  // ---------------------------------------------------------------- the window row

  /** A tick and the consumer of a completion that both read the window before either commits.  Both write
      its state, so the row keeps that of the last to commit, and both announce their verdict. */
  function TickOverCompletion(s: System, now: int, completedAt: int, tickLast: bool): System {
    var closed, escalated := MissedCare.Step(s, ConsumeCompleted(completedAt)), MissedCare.Step(s, Tick(now));
    escalated.(satisfied := closed.satisfied, window := if tickLast && escalated.window != s.window then escalated.window
                                                        else if closed.window != s.window then closed.window
                                                        else escalated.window)
  }

  /** Exactly which overlaps give a due moment two verdicts: those in which the completion is within the
      deadline and the tick at or past it. */
  lemma OverlapGivesOneVerdictExactly(s: System, now: int, completedAt: int, tickLast: bool)
    requires Settled(s) && PendingWindow(s)
    ensures OneVerdict(TickOverCompletion(s, now, completedAt, tickLast)) <==>
      !(completedAt <= s.window.value.deadline <= now)
    ensures
      var was, row := s.window.value, TickOverCompletion(s, now, completedAt, tickLast).window;
      row == Some(Window(was.due, was.deadline,
        if was.deadline <= now && (tickLast || was.deadline < completedAt) then Missed
        else if completedAt <= was.deadline then Satisfied
        else Pending))
  {
    var due := s.window.value.due;
    var s' := TickOverCompletion(s, now, completedAt, tickLast);
    if s.window.value.deadline <= now {
      assert s'.missed == s.missed + [due];
      assert s'.missed[|s.missed|] == due && due in s'.missed;
      assert forall d :: d in s'.missed <==> d in s.missed || d == due;
    }
  }
}
