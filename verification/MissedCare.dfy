/** The grace window between "due" and "missed" for one plant: the timer that opens and escalates it, the
    events that open or satisfy it, and the commands that move the schedule under it. */
module MissedCare {
  import opened Wrappers
  import opened Numbers
  import opened CareSchedules
  import opened Sequences

  /** Twenty-four hours, in microseconds. */
  const GRACE := 86_400_000_000

  datatype WindowState = Pending | Satisfied | Missed

  datatype Window = Window(due: int, deadline: int, state: WindowState)

  datatype Plant = Unknown | Removed | Active

  /** `clock` is the latest instant any action used; `issued` are the due moments of the recorded
      `WateringDue` events; `cared` are those whose plant was watered while their window was pending and not
      past its deadline, and `satisfied` those whose window the consumer closed for a completed watering;
      `missed` and `missedAt` are the due moment of every escalated window and the instant it was escalated. */
  datatype System = System(
    plant: Plant, schedule: Schedule, window: Option<Window>, clock: int,
    issued: set<int>, cared: set<int>, satisfied: set<int>, missed: seq<int>, missedAt: seq<int>)

  datatype Action =
    | Tick(now: int)
    | ConsumeDue(due: int)
    | ConsumeCompleted(completedAt: int)
    | CompleteWatering(now: int)
    | Reschedule(next: int, now: int)
    | Skip
    | RemovePlant

  function Opened(due: int): Window {
    Window(due, due + GRACE, Pending)
  }

  predicate PendingWindow(s: System) {
    s.window.Some? && s.window.value.state == Pending
  }

  /** A watering now is a watering inside the grace period of the pending window. */
  predicate InTime(s: System, now: int) {
    PendingWindow(s) && now <= s.window.value.deadline
  }

  /** `_open_windows_for_due`. */
  function Open(s: System, now: int): System {
    if s.plant == Active && s.schedule.next <= now && !PendingWindow(s)
    then s.(window := Some(Opened(s.schedule.next)), issued := s.issued + {s.schedule.next})
    else s
  }

  /** `_escalate_expired`. */
  function Escalate(s: System, now: int): System {
    if PendingWindow(s) && s.window.value.deadline <= now
    then s.(schedule := Moved(s.schedule, s.schedule.next + s.schedule.interval),
            window := Some(s.window.value.(state := Missed)),
            missed := s.missed + [s.window.value.due], missedAt := s.missedAt + [now])
    else s
  }

  function Step(s: System, a: Action): System {
    match a
    case Tick(now) => Escalate(Open(s, now), now).(clock := Max(s.clock, now))
    case ConsumeDue(due) =>
      if s.plant == Unknown || (PendingWindow(s) && s.window.value.due == due) then s
      else s.(window := Some(Opened(due)))
    case ConsumeCompleted(completedAt) =>
      if !PendingWindow(s) || completedAt > s.window.value.deadline then s
      else s.(window := Some(s.window.value.(state := Satisfied)), satisfied := s.satisfied + {s.window.value.due})
    case CompleteWatering(now) =>
      s.(schedule := Moved(s.schedule, now + s.schedule.interval), clock := Max(s.clock, now),
         cared := if InTime(s, now) then s.cared + {s.window.value.due} else s.cared)
    case Reschedule(next, now) =>
      if next < now then s else s.(schedule := Moved(s.schedule, next), clock := Max(s.clock, now))
    case Skip => s.(schedule := Moved(s.schedule, s.schedule.next + s.schedule.interval))
    case RemovePlant => s.(plant := if s.plant == Active then Removed else s.plant)
  }

  function Run(s: System, actions: seq<Action>): System
    decreases |actions|
  {
    if actions == [] then s else Run(Step(s, actions[0]), actions[1..])
  }

  function Planted(schedule: Schedule, now: int): System {
    System(Active, schedule, None, now, {}, {}, {}, [], [])
  }

  // ---------------------------------------------------------------- the consumer itself

  class MissedCareSaga {
    var system: System

    constructor (system: System)
      ensures this.system == system
    {
      this.system := system;
    }

    method OnWateringDue(due: int)
      modifies this
      ensures system == Step(old(system), ConsumeDue(due))
      ensures
        var was := old(system).window;
        if old(system).plant == Unknown || (was.Some? && was.value.due == due && was.value.state == Pending) then system == old(system)
        else system == old(system).(window := Some(Window(due, due + 24 * 3_600 * 1_000_000, Pending)))
    {
      if system.plant == Unknown {
        return;
      }
      if system.window.Some? && system.window.value.state == Pending && system.window.value.due == due {
        return;
      }
      system := system.(window := Some(Opened(due)));
    }

    method OnWateringCompleted(completedAt: int)
      modifies this
      ensures system == Step(old(system), ConsumeCompleted(completedAt))
      ensures
        var was := old(system).window;
        if was.None? || was.value.state != Pending || was.value.deadline < completedAt then system == old(system)
        else system == old(system).(window := Some(Window(was.value.due, was.value.deadline, Satisfied)),
                                    satisfied := old(system).satisfied + {was.value.due})
    {
      if system.window.None? || system.window.value.state != Pending {
        return;
      }
      if completedAt > system.window.value.deadline {
        return;
      }
      system := system.(satisfied := system.satisfied + {system.window.value.due},
                        window := Some(system.window.value.(state := Satisfied)));
    }

    /** One tick: the window of a newly due schedule opens first, and an expired window moves the schedule
        through its own versioned command, which is never refused here. */
    method EscalateOverdue(now: int) returns (missed: nat)
      requires system.schedule.Valid()
      modifies this
      ensures system == Step(old(system), Tick(now))
      ensures missed == |system.missed| - |old(system).missed| <= 1
      ensures
        var was := old(system);
        var pending := was.window.Some? && was.window.value.state == Pending;
        var opens := was.plant == Active && was.schedule.next <= now && !pending;
        && (missed == 1 <==> (pending && was.window.value.deadline <= now) || (opens && was.schedule.next + GRACE <= now))
        && (missed == 0 ==>
              && system.schedule == was.schedule && system.missed == was.missed
              && system.window == if opens then Some(Window(was.schedule.next, was.schedule.next + GRACE, Pending)) else was.window)
        && (missed == 1 ==>
              && system.schedule == Schedule(was.schedule.interval, was.schedule.next + was.schedule.interval, was.schedule.version + 1)
              && system.window.Some? && system.window.value.state == Missed
              && system.window.value.due == (if pending then was.window.value.due else was.schedule.next)
              && system.missed == was.missed + [system.window.value.due])
        && system.issued == was.issued + (if opens then {was.schedule.next} else {})
    {
      missed := 0;
      var schedule := new CareSchedule(system.schedule);
      if system.plant == Active && schedule.schedule.next <= now && !PendingWindow(system) {
        var marked := schedule.MarkDue(now);
        assert marked.Ok?;
        system := system.(window := Some(Opened(schedule.schedule.next)),
                          issued := system.issued + {schedule.schedule.next});
      }
      if PendingWindow(system) && system.window.value.deadline <= now {
        var moved := schedule.MarkMissed(schedule.schedule.version);
        assert moved.Ok?;
        system := system.(schedule := schedule.schedule,
                          missed := system.missed + [system.window.value.due], missedAt := system.missedAt + [now],
                          window := Some(system.window.value.(state := Missed)));
        missed := 1;
      }
      system := system.(clock := Max(system.clock, now));
    }
  }

  // ---------------------------------------------------------------- catching up

  function Ticks(s: System, now: int, n: nat): System
    decreases n
  {
    if n == 0 then s else Ticks(Step(s, Tick(now)), now, n - 1)
  }

  /** How many due moments are more than a grace period behind `now`. */
  function Backlog(s: Schedule, now: int): nat
    requires s.Valid()
  {
    if now - GRACE < s.next then 0
    else
      assert (now - GRACE - s.next) / s.interval >= 0;
      (now - GRACE - s.next) / s.interval + 1
  }

  /** Closed form of the backlog: the first due moment that is not yet missed. */
  lemma BacklogIsExact(s: Schedule, now: int, k: nat)
    requires s.Valid()
    ensures k < Backlog(s, now) <==> s.next + k * s.interval + GRACE <= now
  {
    var x := now - GRACE - s.next;
    if x >= 0 {
      assert x == s.interval * (x / s.interval) + x % s.interval;
      assert k <= x / s.interval <==> k * s.interval <= x by {
        if k <= x / s.interval {
          Monotone(k, x / s.interval, s.interval);
        } else {
          Monotone(x / s.interval + 1, k, s.interval);
        }
      }
    } else {
      assert k * s.interval >= 0;
    }
  }

  lemma Monotone(a: int, b: int, c: int)
    requires a <= b && c > 0
    ensures a * c <= b * c
  {
  }

  lemma QuotientIsUnique(a: int, c: int, q: int, r: int)
    requires c > 0 && a == c * q + r && 0 <= r < c
    ensures a / c == q
  {
    var d := a / c;
    assert a == c * d + a % c;
    if d < q {
      Monotone(1, q - d, c);
    } else if q < d {
      Monotone(1, d - q, c);
    }
  }

  lemma OneLess(x: int, c: int)
    requires c > 0
    ensures (x - c) / c == x / c - 1
  {
    assert x == c * (x / c) + x % c;
    assert x - c == c * (x / c - 1) + x % c;
    QuotientIsUnique(x - c, c, x / c - 1, x % c);
  }

  lemma BacklogAfterMiss(s: Schedule, now: int)
    requires s.Valid() && Backlog(s, now) > 0
    ensures Backlog(Moved(s, s.next + s.interval), now) == Backlog(s, now) - 1
  {
    var x := now - GRACE - s.next;
    OneLess(x, s.interval);
    if x < s.interval {
      QuotientIsUnique(x, s.interval, 0, x);
    }
  }

  /** One tick from a state without a pending window misses exactly when there is a backlog. */
  lemma TickMissesOne(s: System, now: int)
    requires s.plant == Active && s.schedule.Valid() && !PendingWindow(s) && Backlog(s.schedule, now) > 0
    ensures
      var t := Step(s, Tick(now));
      && t.schedule == Moved(s.schedule, s.schedule.next + s.schedule.interval)
      && t.missed == s.missed + [s.schedule.next] && !PendingWindow(t) && t.plant == Active
  {
    BacklogIsExact(s.schedule, now, 0);
  }

  /** The first `n` due moments from `next` on. */
  function DueMoments(next: int, interval: int, n: nat): (r: seq<int>)
    ensures |r| == n
    decreases n
  {
    if n == 0 then [] else [next] + DueMoments(next + interval, interval, n - 1)
  }

  lemma {:induction false} DueMomentsAre(next: int, interval: int, n: nat, k: nat)
    requires k < n
    ensures DueMoments(next, interval, n)[k] == next + k * interval
    decreases n
  {
    if k > 0 {
      DueMomentsAre(next + interval, interval, n - 1, k - 1);
      assert interval + (k - 1) * interval == k * interval;
    }
  }

  lemma Behind(missed: seq<int>, due: int, rest: seq<int>)
    ensures missed + [due] + rest == missed + ([due] + rest)
  {
  }

  /** Catch-up: `n` ticks at one instant miss the first `n` due moments of the backlog, one each, and move
      the schedule and its version by as many intervals. */
  lemma {:induction false} TicksCatchUp(s: System, now: int, n: nat)
    requires s.plant == Active && s.schedule.Valid() && !PendingWindow(s) && n <= Backlog(s.schedule, now)
    ensures
      var t := Ticks(s, now, n);
      && t.schedule == s.schedule.(next := s.schedule.next + n * s.schedule.interval, version := s.schedule.version + n)
      && t.missed == s.missed + DueMoments(s.schedule.next, s.schedule.interval, n)
      && !PendingWindow(t) && t.plant == Active
    decreases n
  {
    if n > 0 {
      var i := s.schedule.interval;
      TickMissesOne(s, now);
      BacklogAfterMiss(s.schedule, now);
      TicksCatchUp(Step(s, Tick(now)), now, n - 1);
      assert i + (n - 1) * i == n * i;
      Behind(s.missed, s.schedule.next, DueMoments(s.schedule.next + i, i, n - 1));
    }
  }

  /** Without a backlog a tick at most opens a window, and the next one changes nothing. */
  lemma TickSettles(s: System, now: int)
    requires s.plant == Active && s.schedule.Valid() && !PendingWindow(s) && Backlog(s.schedule, now) == 0
    ensures
      var t := Step(s, Tick(now));
      t.schedule == s.schedule && t.missed == s.missed && Step(t, Tick(now)) == t
  {
    BacklogIsExact(s.schedule, now, 0);
  }

  lemma {:induction false} TicksStay(s: System, now: int, n: nat)
    requires Step(s, Tick(now)) == s
    ensures Ticks(s, now, n) == s
    decreases n
  {
    if n > 0 {
      TicksStay(s, now, n - 1);
    }
  }

  lemma {:induction false} TicksSplit(s: System, now: int, m: nat, n: nat)
    ensures Ticks(s, now, m + n) == Ticks(Ticks(s, now, m), now, n)
    decreases m
  {
    if m > 0 {
      TicksSplit(Step(s, Tick(now)), now, m - 1, n);
    }
  }

  /** The fixpoint: repeating the tick at one instant misses exactly the backlog, however long it is
      repeated, and one tick after the last miss nothing changes any more. */
  lemma TicksReachFixpoint(s: System, now: int, n: nat)
    requires s.plant == Active && s.schedule.Valid() && !PendingWindow(s) && n > Backlog(s.schedule, now)
    ensures
      var b := Backlog(s.schedule, now);
      var t := Ticks(s, now, n);
      && t == Ticks(s, now, b + 1) && Step(t, Tick(now)) == t
      && |t.missed| == |s.missed| + b
      && t.schedule == s.schedule.(next := s.schedule.next + b * s.schedule.interval, version := s.schedule.version + b)
      && t.schedule.next + GRACE > now
  {
    var b := Backlog(s.schedule, now);
    TicksCatchUp(s, now, b);
    BacklogIsExact(s.schedule, now, b);
    var caughtUp := Ticks(s, now, b);
    BacklogIsExact(caughtUp.schedule, now, 0);
    TickSettles(caughtUp, now);
    TicksSplit(s, now, b, 1);
    assert Ticks(caughtUp, now, 1) == Step(caughtUp, Tick(now));
    TicksSplit(s, now, b + 1, n - b - 1);
    TicksStay(Step(caughtUp, Tick(now)), now, n - b - 1);
  }

  // ---------------------------------------------------------------- never early

  ghost predicate GraceKept(s: System) {
    && |s.missed| == |s.missedAt|
    && (forall k :: 0 <= k < |s.missed| ==> s.missedAt[k] >= s.missed[k] + GRACE)
    && (s.window.Some? ==> s.window.value.deadline == s.window.value.due + GRACE)
  }

  /** In every run, whatever is delivered late or twice, no care is recorded as missed before its window's
      due moment plus the grace period. */
  lemma {:induction false} NeverMissedEarly(s: System, actions: seq<Action>)
    requires GraceKept(s)
    ensures GraceKept(Run(s, actions))
    decreases |actions|
  {
    if actions != [] {
      NeverMissedEarly(Step(s, actions[0]), actions[1..]);
    }
  }

  /** Once a plant is removed, no due moment of it is recorded any more. */
  lemma {:induction false} RemovedPlantIsNeverDue(s: System, actions: seq<Action>)
    requires s.plant != Unknown
    ensures Run(Step(s, RemovePlant), actions).issued == s.issued
    decreases |actions|
  {
    RemovedStaysRemoved(Step(s, RemovePlant), actions);
  }

  lemma {:induction false} RemovedStaysRemoved(s: System, actions: seq<Action>)
    requires s.plant == Removed
    ensures Run(s, actions).issued == s.issued && Run(s, actions).plant == Removed
    decreases |actions|
  {
    if actions != [] {
      RemovedStaysRemoved(Step(s, actions[0]), actions[1..]);
    }
  }

  // ---------------------------------------------------------------- one verdict per due moment

  /** No due moment is missed twice, and none is missed whose window the consumer closed as satisfied. */
  ghost predicate OneVerdict(s: System) {
    NoDuplicates(s.missed) && forall d :: d in s.missed ==> d !in s.satisfied
  }

  ghost predicate Settled(s: System) {
    && OneVerdict(s) && s.schedule.Valid()
    && (forall d :: d in s.missed ==> d in s.issued && d < s.schedule.next && d + GRACE <= s.clock)
    && (forall d :: d in s.issued ==> d <= s.clock && d <= s.schedule.next)
    && (forall d :: d in s.satisfied ==> d in s.issued && (s.plant == Active ==> d < s.schedule.next))
    && (s.window.Some? ==> s.window.value.deadline == s.window.value.due + GRACE)
    && (PendingWindow(s) ==>
          s.window.value.due in s.issued && s.window.value.due !in s.missed && s.window.value.due !in s.satisfied)
  }

  /** A due event closes nothing it must not: it was recorded, and its moment has no verdict yet. */
  predicate DueInTime(s: System, due: int) {
    due in s.issued && due !in s.missed && due !in s.satisfied
  }

  /** A completion satisfies only the window it belongs to: if it is going to close the pending window, the
      schedule has moved past that window's moment, or the timer will not look at the plant again. */
  predicate CompletionInTime(s: System, completedAt: int) {
    PendingWindow(s) && completedAt <= s.window.value.deadline ==>
      s.plant != Active || s.window.value.due < s.schedule.next
  }

  /** Clocks do not run backwards, nobody reschedules to a moment that was satisfied, and events are consumed
      in time. */
  ghost predicate Orderly(s: System, a: Action) {
    match a
    case Tick(now) => now >= s.clock
    case CompleteWatering(now) => now >= s.clock
    case Reschedule(next, now) => now >= s.clock && next !in s.satisfied
    case ConsumeDue(due) => DueInTime(s, due)
    case ConsumeCompleted(completedAt) => CompletionInTime(s, completedAt)
    case _ => true
  }

  ghost predicate OrderlyRun(s: System, actions: seq<Action>)
    decreases |actions|
  {
    actions != [] ==> Orderly(s, actions[0]) && OrderlyRun(Step(s, actions[0]), actions[1..])
  }

  lemma OpenKeepsSettled(s: System, now: int)
    requires Settled(s) && now >= s.clock
    ensures Settled(Open(s, now).(clock := now))
  {
  }

  lemma EscalateKeepsSettled(s: System, now: int)
    requires Settled(s) && now >= s.clock
    ensures Settled(Escalate(s, now).(clock := now))
  {
    var s' := Escalate(s, now);
    if s' != s {
      assert forall d :: d in s'.missed <==> d in s.missed || d == s.window.value.due;
    }
  }

  lemma CompletionKeepsSettled(s: System, completedAt: int)
    requires Settled(s) && CompletionInTime(s, completedAt)
    ensures Settled(Step(s, ConsumeCompleted(completedAt)))
  {
  }

  lemma StepKeepsSettled(s: System, a: Action)
    requires Settled(s) && Orderly(s, a)
    ensures Settled(Step(s, a))
  {
    match a
    case Tick(now) =>
      OpenKeepsSettled(s, now);
      EscalateKeepsSettled(Open(s, now).(clock := now), now);
    case ConsumeCompleted(completedAt) => CompletionKeepsSettled(s, completedAt);
    case _ =>
  }

  lemma {:induction false} RunKeepsSettled(s: System, actions: seq<Action>)
    requires Settled(s) && OrderlyRun(s, actions)
    ensures Settled(Run(s, actions))
    decreases |actions|
  {
    if actions != [] {
      StepKeepsSettled(s, actions[0]);
      RunKeepsSettled(Step(s, actions[0]), actions[1..]);
    }
  }

  lemma PlantedIsSettled(schedule: Schedule, now: int)
    requires schedule.Valid()
    ensures Settled(Planted(schedule, now)) && GraceKept(Planted(schedule, now))
  {
  }

  /** From a new schedule, in every orderly run: no due moment is missed twice, none whose window was closed
      as satisfied is missed, and no miss comes before the grace period is over, whatever waterings, skips and reschedules
      happen while a window is open. */
  lemma OneVerdictPerDue(schedule: Schedule, now: int, actions: seq<Action>)
    requires schedule.Valid() && OrderlyRun(Planted(schedule, now), actions)
    ensures OneVerdict(Run(Planted(schedule, now), actions)) && GraceKept(Run(Planted(schedule, now), actions))
  {
    PlantedIsSettled(schedule, now);
    RunKeepsSettled(Planted(schedule, now), actions);
    NeverMissedEarly(Planted(schedule, now), actions);
  }

  // ---------------------------------------------------------------- care that was done in time

  /** No care that was done inside its grace period is recorded as missed. */
  ghost predicate CareKept(s: System) {
    forall d :: d in s.missed ==> d !in s.cared
  }

  /** Every recorded due moment is missed, satisfied or the one whose window is pending. */
  ghost predicate Accounted(s: System) {
    && (forall d :: d in s.issued ==> d in s.missed || d in s.satisfied || (PendingWindow(s) && s.window.value.due == d))
    && (forall d :: d in s.cared ==> d in s.issued)
  }

  /** The tick comes at or past the deadline of a pending window whose care was done in time: the
      `WateringCompleted` that would have closed it is not consumed yet. */
  predicate TickComesFirst(s: System, a: Action) {
    a.Tick? && PendingWindow(s) && s.window.value.due in s.cared && s.window.value.deadline <= a.now
  }

  ghost predicate CompletionsComeFirst(s: System, actions: seq<Action>)
    decreases |actions|
  {
    actions != [] ==> !TickComesFirst(s, actions[0]) && CompletionsComeFirst(Step(s, actions[0]), actions[1..])
  }

  lemma OpenKeepsAccounted(s: System, now: int)
    requires Settled(s) && Accounted(s) && now >= s.clock
    ensures Accounted(Open(s, now).(clock := now))
    ensures Open(s, now) != s ==> s.schedule.next !in s.cared
  {
  }

  lemma EscalateKeepsAccounted(s: System, now: int)
    requires Settled(s) && Accounted(s)
    ensures Accounted(Escalate(s, now))
    ensures CareKept(Escalate(s, now)) <==>
      CareKept(s) && !(PendingWindow(s) && s.window.value.due in s.cared && s.window.value.deadline <= now)
  {
    var s' := Escalate(s, now);
    if s' != s {
      assert forall d :: d in s'.missed <==> d in s.missed || d == s.window.value.due;
    }
  }

  lemma StepKeepsCare(s: System, a: Action)
    requires Settled(s) && Accounted(s) && Orderly(s, a)
    ensures Accounted(Step(s, a))
    ensures CareKept(Step(s, a)) <==> CareKept(s) && !TickComesFirst(s, a)
  {
    match a
    case Tick(now) =>
      OpenKeepsSettled(s, now);
      OpenKeepsAccounted(s, now);
      EscalateKeepsAccounted(Open(s, now).(clock := now), now);
    case _ =>
  }

  lemma {:induction false} RunKeepsCare(s: System, actions: seq<Action>)
    requires Settled(s) && Accounted(s) && OrderlyRun(s, actions)
    ensures Accounted(Run(s, actions))
    ensures CareKept(Run(s, actions)) <==> CareKept(s) && CompletionsComeFirst(s, actions)
    decreases |actions|
  {
    if actions != [] {
      StepKeepsSettled(s, actions[0]);
      StepKeepsCare(s, actions[0]);
      RunKeepsCare(Step(s, actions[0]), actions[1..]);
    }
  }

  /** Exactly when care that was done in time is never recorded as missed, over every orderly run of a new
      schedule: no tick at or past the deadline comes while the completion of a pending window is still
      unconsumed.  Every moment cared for in time is then satisfied, or its window is still pending. */
  lemma CareIsKeptExactly(schedule: Schedule, now: int, actions: seq<Action>)
    requires schedule.Valid() && OrderlyRun(Planted(schedule, now), actions)
    ensures
      var s := Run(Planted(schedule, now), actions);
      && (CareKept(s) <==> CompletionsComeFirst(Planted(schedule, now), actions))
      && (CareKept(s) ==> forall d :: d in s.cared ==> d in s.satisfied || (PendingWindow(s) && s.window.value.due == d))
  {
    PlantedIsSettled(schedule, now);
    RunKeepsCare(Planted(schedule, now), actions);
  }

  /** Care done a microsecond after it was due and recorded as missed a day later, in an orderly run: its
      completion is still unconsumed when the tick comes. */
  lemma UnconsumedCareIsMissed()
    ensures
      var start := Planted(Schedule(GRACE, 0, 1), 0);
      var actions := [Tick(0), CompleteWatering(1), Tick(GRACE)];
      && OrderlyRun(start, actions) && OneVerdict(Run(start, actions))
      && Run(start, actions).missed == [0] && Run(start, actions).cared == {0}
  {
    var start := Planted(Schedule(GRACE, 0, 1), 0);
    var s1 := Step(start, Tick(0));
    var s2 := Step(s1, CompleteWatering(1));
    var s3 := Step(s2, Tick(GRACE));
    var actions, a1, a2 := [Tick(0), CompleteWatering(1), Tick(GRACE)], [CompleteWatering(1), Tick(GRACE)], [Tick(GRACE)];
    assert actions[1..] == a1 && a1[1..] == a2 && a2[1..] == [];
    assert Run(s3, []) == s3 && Run(s2, a2) == s3 && Run(s1, a1) == s3 && Run(start, actions) == s3;
    assert OrderlyRun(s3, []) && OrderlyRun(s2, a2) && OrderlyRun(s1, a1);
  }

  // ---------------------------------------------------------------- events consumed late

  ghost predicate AlwaysOneVerdict(s: System) {
    forall actions :: OrderlyRun(s, actions) ==> OneVerdict(Run(s, actions))
  }

  /** One tick late enough to escalate any window, as a run. */
  lemma LateTick(s: System, now: int)
    requires now >= s.clock
    ensures OrderlyRun(s, [Tick(now)]) && Run(s, [Tick(now)]) == Step(s, Tick(now))
  {
    assert [Tick(now)][1..] == [];
    assert OrderlyRun(Step(s, Tick(now)), []) && Run(Step(s, Tick(now)), []) == Step(s, Tick(now));
  }

  /** Exactly when a delivery of a recorded `WateringDue` is harmless: if and only if its due moment has no
      verdict yet.  A later delivery reopens the closed window, missed or satisfied, and a tick misses it. */
  lemma LateDueReopens(s: System, due: int)
    requires Settled(s) && s.plant != Unknown && due in s.issued
    ensures AlwaysOneVerdict(Step(s, ConsumeDue(due))) <==> due !in s.missed && due !in s.satisfied
  {
    var reopened := Step(s, ConsumeDue(due));
    if DueInTime(s, due) {
      StepKeepsSettled(s, ConsumeDue(due));
      forall actions | OrderlyRun(reopened, actions) ensures OneVerdict(Run(reopened, actions)) {
        RunKeepsSettled(reopened, actions);
      }
    } else {
      var now := Max(s.clock, due + GRACE);
      LateTick(reopened, now);
      var again := Step(reopened, Tick(now)).missed;
      assert again == s.missed + [due];
      assert again[|s.missed|] == due && due in again;
      if due in s.missed {
        var k :| 0 <= k < |s.missed| && s.missed[k] == due;
        assert again[k] == due;
      }
      assert !OneVerdict(Run(reopened, [Tick(now)]));
    }
  }

  /** Exactly when a completion that closes the pending window is harmless: if and only if the schedule has
      moved past the window's moment, or the plant was removed.  A completion consumed a window late closes
      the next one instead, which the timer then opens again and misses. */
  lemma LateCompletionSatisfiesTheNext(s: System, completedAt: int)
    requires Settled(s) && s.plant != Unknown && PendingWindow(s) && completedAt <= s.window.value.deadline
    ensures AlwaysOneVerdict(Step(s, ConsumeCompleted(completedAt))) <==>
      s.plant != Active || s.window.value.due < s.schedule.next
  {
    var closed := Step(s, ConsumeCompleted(completedAt));
    if CompletionInTime(s, completedAt) {
      StepKeepsSettled(s, ConsumeCompleted(completedAt));
      forall actions | OrderlyRun(closed, actions) ensures OneVerdict(Run(closed, actions)) {
        RunKeepsSettled(closed, actions);
      }
    } else {
      var due := s.window.value.due;
      var now := Max(s.clock, due + GRACE);
      LateTick(closed, now);
      var missed := Step(closed, Tick(now)).missed;
      assert missed == s.missed + [due];
      assert missed[|s.missed|] == due && due in missed && due in closed.satisfied;
      assert !OneVerdict(Run(closed, [Tick(now)]));
    }
  }

  /** A care completed inside its grace period and recorded as missed: its due event is delivered after the
      window was satisfied. */
  lemma SatisfiedCareIsMissed()
    ensures
      var start := Planted(Schedule(GRACE, 0, 1), 0);
      var actions := [Tick(0), CompleteWatering(1), ConsumeCompleted(1), ConsumeDue(0), Tick(GRACE)];
      Run(start, actions).missed == [0] && Run(start, actions).satisfied == {0} && Run(start, actions).cared == {0}
  {
    var start := Planted(Schedule(GRACE, 0, 1), 0);
    var actions := [Tick(0), CompleteWatering(1), ConsumeCompleted(1), ConsumeDue(0), Tick(GRACE)];
    var s3 := System(Active, Schedule(GRACE, GRACE + 1, 2), Some(Window(0, GRACE, Satisfied)), 1, {0}, {0}, {0}, [], []);
    SatisfiedInTime();
    var s4 := Step(s3, ConsumeDue(0));
    assert Run(s3, [ConsumeDue(0), Tick(GRACE)]) == Step(s4, Tick(GRACE)) by {
      assert [ConsumeDue(0), Tick(GRACE)][1..] == [Tick(GRACE)] && [Tick(GRACE)][1..] == [];
      assert Run(Step(s4, Tick(GRACE)), []) == Step(s4, Tick(GRACE));
      assert Run(s4, [Tick(GRACE)]) == Step(s4, Tick(GRACE));
    }
    var first := [Tick(0), CompleteWatering(1), ConsumeCompleted(1)];
    assert actions == first + [ConsumeDue(0), Tick(GRACE)];
    RunSplits(start, first, [ConsumeDue(0), Tick(GRACE)]);
  }

  lemma SatisfiedInTime()
    ensures Run(Planted(Schedule(GRACE, 0, 1), 0), [Tick(0), CompleteWatering(1), ConsumeCompleted(1)]) ==
      System(Active, Schedule(GRACE, GRACE + 1, 2), Some(Window(0, GRACE, Satisfied)), 1, {0}, {0}, {0}, [], [])
  {
    var start := Planted(Schedule(GRACE, 0, 1), 0);
    var s1 := Step(start, Tick(0));
    var s2 := Step(s1, CompleteWatering(1));
    var s3 := Step(s2, ConsumeCompleted(1));
    var a1, a2 := [ConsumeCompleted(1)], [CompleteWatering(1), ConsumeCompleted(1)];
    assert [Tick(0), CompleteWatering(1), ConsumeCompleted(1)][1..] == a2 && a2[1..] == a1 && a1[1..] == [];
    assert Run(s3, []) == s3 && Run(s2, a1) == s3 && Run(s1, a2) == s3;
  }

  lemma {:induction false} RunSplits(s: System, first: seq<Action>, second: seq<Action>)
    ensures Run(s, first + second) == Run(Run(s, first), second)
    decreases |first|
  {
    if first == [] {
      assert first + second == second;
    } else {
      assert (first + second)[1..] == first[1..] + second;
      RunSplits(Step(s, first[0]), first[1..], second);
    }
  }

  /** What a command leaves of the schedule, each sent with the version that is stored. */
  function Commanded(s: System, c: Command): Schedule {
    Execute(s.schedule, Request(c, s.schedule.version))
  }

  /** Commands and escalations move this schedule by its own versioned transitions: a watering to one interval
      past now, a reschedule to the moment asked for unless that is past, a skip and a miss by one interval. */
  lemma StepsAreCommands(s: System, now: int, next: int)
    ensures Step(s, CompleteWatering(now)).schedule == Commanded(s, Complete(now))
    ensures Step(s, Reschedule(next, now)).schedule == Commanded(s, Move(next, now))
    ensures Step(s, Skip).schedule == Commanded(s, SkipOne)
    ensures Step(s, Tick(now)).schedule ==
      if |Step(s, Tick(now)).missed| == |s.missed| then s.schedule else Commanded(s, Miss)
    ensures Step(s, CompleteWatering(now)).schedule.next == now + s.schedule.interval
    ensures Step(s, Reschedule(next, now)).schedule.next == if next >= now then next else s.schedule.next
  {
  }

  /** The schedule moves even when the plant was watered after the deadline, or skipped, while the window
      was open: the miss always advances whatever the next watering has become. */
  lemma MissAdvancesTheMovedSchedule(s: System, now: int)
    requires PendingWindow(s) && s.window.value.deadline <= now
    ensures Step(Step(s, Skip), Tick(now)).schedule
      == s.schedule.(next := s.schedule.next + 2 * s.schedule.interval, version := s.schedule.version + 2)
    ensures Step(Step(s, CompleteWatering(now)), Tick(now)).schedule
      == s.schedule.(next := now + 2 * s.schedule.interval, version := s.schedule.version + 2)
  {
  }
}
