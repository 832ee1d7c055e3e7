/** The watering schedule of one plant: every change is versioned, a fact is not a change. */
module CareSchedules {
  import opened Wrappers

  datatype Error = InvariantViolated | VersionConflict | WateringNotDue

  datatype Event =
    | CareScheduleCreated(next: int)
    | WateringDue(due: int)
    | WateringCompleted(completedAt: int, next: int)
    | WateringRescheduled(previous: int, next: int)
    | CareSkipped(next: int)
    | CareMissed(next: int)

  datatype Schedule = Schedule(interval: int, next: int, version: nat) {
    /** `WateringInterval` is strictly positive. */
    ghost predicate Valid() { interval > 0 }
  }

  function Moved(s: Schedule, next: int): Schedule {
    s.(next := next, version := s.version + 1)
  }

  /** What every command of the aggregate answers and leaves: it is the transition of the run below, it is
      refused exactly when that transition is not accepted, and it records one event exactly when it is. */
  predicate Changed(before: Schedule, after: Schedule, recorded: seq<Event>, q: Request, e: Event, r: Result<(), Error>) {
    && after == Execute(before, q)
    && (r.Ok? <==> Accepts(before, q))
    && (r.Err? ==> r.error == if q.expected != before.version then VersionConflict else InvariantViolated)
    && recorded == if Accepts(before, q) then [e] else []
  }

  class CareSchedule {
    var schedule: Schedule
    var events: seq<Event>

    ghost predicate Valid()
      reads this
    {
      schedule.Valid()
    }

    constructor (schedule: Schedule)
      requires schedule.Valid()
      ensures Valid() && this.schedule == schedule && events == []
    {
      this.schedule, events := schedule, [];
    }

    /** `create`: the first watering is never in the past. */
    static method Create(interval: int, startsAt: int, now: int) returns (r: Result<CareSchedule, Error>)
      requires interval > 0
      ensures r.Ok? <==> startsAt >= now
      ensures r.Ok? ==> fresh(r.value) && r.value.Valid() && r.value.schedule == Schedule(interval, startsAt, 1)
      ensures r.Ok? ==> r.value.events == [CareScheduleCreated(startsAt)]
      ensures r.Err? ==> r.error == InvariantViolated
    {
      if startsAt < now {
        return Err(InvariantViolated);
      }
      var created := new CareSchedule(Schedule(interval, startsAt, 1));
      created.events := [CareScheduleCreated(startsAt)];
      r := Ok(created);
    }

    /** A fact, not a change: no version is asked for and none is consumed. */
    method MarkDue(now: int) returns (r: Result<(), Error>)
      requires Valid()
      modifies this
      ensures Valid() && schedule == old(schedule)
      ensures r == if now < schedule.next then Err(WateringNotDue) else Ok(())
      ensures events == old(events) + (if r.Ok? then [WateringDue(schedule.next)] else [])
    {
      if now < schedule.next {
        return Err(WateringNotDue);
      }
      events := events + [WateringDue(schedule.next)];
      r := Ok(());
    }

    method CompleteWatering(now: int, expected: nat) returns (r: Result<(), Error>)
      requires Valid()
      modifies this
      ensures Valid()
      ensures old(events) <= events
      ensures Changed(old(schedule), schedule, events[|old(events)|..], Request(Complete(now), expected),
                      WateringCompleted(now, now + old(schedule).interval), r)
      ensures r.Ok? <==> expected == old(schedule).version
      ensures r.Ok? ==>
        && schedule == Schedule(old(schedule).interval, now + old(schedule).interval, old(schedule).version + 1)
        && events == old(events) + [WateringCompleted(now, schedule.next)]
      ensures r.Err? ==> schedule == old(schedule) && events == old(events)
    {
      if expected != schedule.version {
        return Err(VersionConflict);
      }
      schedule := Moved(schedule, now + schedule.interval);
      events := events + [WateringCompleted(now, schedule.next)];
      r := Ok(());
    }

    /** The version is checked before the moment. */
    method Reschedule(next: int, now: int, expected: nat) returns (r: Result<(), Error>)
      requires Valid()
      modifies this
      ensures Valid()
      ensures old(events) <= events
      ensures Changed(old(schedule), schedule, events[|old(events)|..], Request(Move(next, now), expected),
                      WateringRescheduled(old(schedule).next, next), r)
      ensures r.Ok? <==> expected == old(schedule).version && next >= now
      ensures r.Ok? ==>
        && schedule == Schedule(old(schedule).interval, next, old(schedule).version + 1)
        && events == old(events) + [WateringRescheduled(old(schedule).next, schedule.next)]
      ensures r.Err? ==> schedule == old(schedule) && events == old(events)
    {
      if expected != schedule.version {
        return Err(VersionConflict);
      }
      if next < now {
        return Err(InvariantViolated);
      }
      events := events + [WateringRescheduled(schedule.next, next)];
      schedule := Moved(schedule, next);
      r := Ok(());
    }

    method Skip(expected: nat) returns (r: Result<(), Error>)
      requires Valid()
      modifies this
      ensures Valid()
      ensures old(events) <= events
      ensures Changed(old(schedule), schedule, events[|old(events)|..], Request(SkipOne, expected),
                      CareSkipped(old(schedule).next + old(schedule).interval), r)
      ensures r.Ok? <==> expected == old(schedule).version
      ensures r.Ok? ==>
        && schedule == Schedule(old(schedule).interval, old(schedule).next + old(schedule).interval, old(schedule).version + 1)
        && events == old(events) + [CareSkipped(schedule.next)]
      ensures r.Err? ==> schedule == old(schedule) && events == old(events)
    {
      if expected != schedule.version {
        return Err(VersionConflict);
      }
      schedule := Moved(schedule, schedule.next + schedule.interval);
      events := events + [CareSkipped(schedule.next)];
      r := Ok(());
    }

    method MarkMissed(expected: nat) returns (r: Result<(), Error>)
      requires Valid()
      modifies this
      ensures Valid()
      ensures old(events) <= events
      ensures Changed(old(schedule), schedule, events[|old(events)|..], Request(Miss, expected),
                      CareMissed(old(schedule).next + old(schedule).interval), r)
      ensures r.Ok? <==> expected == old(schedule).version
      ensures r.Ok? ==>
        && schedule == Schedule(old(schedule).interval, old(schedule).next + old(schedule).interval, old(schedule).version + 1)
        && events == old(events) + [CareMissed(schedule.next)]
      ensures r.Err? ==> schedule == old(schedule) && events == old(events)
    {
      if expected != schedule.version {
        return Err(VersionConflict);
      }
      schedule := Moved(schedule, schedule.next + schedule.interval);
      events := events + [CareMissed(schedule.next)];
      r := Ok(());
    }
  }

  // ---------------------------------------------------------------- optimistic locking over runs

  datatype Command = Complete(now: int) | Move(next: int, now: int) | SkipOne | Miss

  /** A command as a caller sends it, with the version that caller read. */
  datatype Request = Request(command: Command, expected: nat)

  function Target(s: Schedule, c: Command): int {
    match c
    case Complete(now) => now + s.interval
    case Move(next, _) => next
    case SkipOne => s.next + s.interval
    case Miss => s.next + s.interval
  }

  predicate Accepts(s: Schedule, r: Request) {
    r.expected == s.version && (r.command.Move? ==> r.command.next >= r.command.now)
  }

  function Execute(s: Schedule, r: Request): Schedule {
    if Accepts(s, r) then Moved(s, Target(s, r.command)) else s
  }

  function ExecuteAll(s: Schedule, requests: seq<Request>): Schedule {
    if requests == [] then s else Execute(ExecuteAll(s, requests[..|requests| - 1]), requests[|requests| - 1])
  }

  /** The requests that were accepted, in order. */
  function Accepted(s: Schedule, requests: seq<Request>): seq<Request> {
    if requests == [] then []
    else
      var k := |requests| - 1;
      Accepted(s, requests[..k]) + (if Accepts(ExecuteAll(s, requests[..k]), requests[k]) then [requests[k]] else [])
  }

  /** No lost update: whatever callers send, the accepted commands expected the consecutive versions from
      the first one on, so no two of them had read the same version, and the version counts them. */
  lemma {:induction false} NoLostUpdate(s: Schedule, requests: seq<Request>)
    ensures ExecuteAll(s, requests).version == s.version + |Accepted(s, requests)|
    ensures forall k :: 0 <= k < |Accepted(s, requests)| ==> Accepted(s, requests)[k].expected == s.version + k
  {
    if requests != [] {
      NoLostUpdate(s, requests[..|requests| - 1]);
    }
  }

  /** Skips and misses never lose the rhythm: together they move the due moment by exactly one interval for
      each accepted one, whatever the clock says. */
  lemma {:induction false} SkipsKeepTheRhythm(s: Schedule, requests: seq<Request>)
    requires forall r :: r in requests ==> r.command.SkipOne? || r.command.Miss?
    ensures ExecuteAll(s, requests).next == s.next + |Accepted(s, requests)| * s.interval
    ensures ExecuteAll(s, requests).interval == s.interval
  {
    if requests != [] {
      var k := |requests| - 1;
      assert requests[k] in requests;
      SkipsKeepTheRhythm(s, requests[..k]);
      var n := |Accepted(s, requests[..k])|;
      assert (n + 1) * s.interval == n * s.interval + s.interval;
    }
  }
}
