/** One sensor on the write side, its silence timer, and the `sensor_latest` row the read side folds
    from its events. */
module Telemetry {
  import opened Wrappers

  datatype Error = ReadingMismatch | NeverSeen | StillOnline | AlreadyAnnounced

  /** Instants are microseconds since the epoch, in UTC. */
  const OFFLINE_AFTER := 600_000_000
  const MOISTURE_LOW := 30.0
  const MOISTURE_HIGH := 80.0
  const TEMPERATURE_LOW := 10.0
  const TEMPERATURE_HIGH := 35.0

  datatype Reading = Reading(sensor: nat, at: int, moisture: real, temperature: real, light: real)

  datatype Alert = SoilMoistureLow | SoilMoistureHigh | TemperatureAnomaly

  datatype Event =
    | TelemetryReceived(reading: Reading)
    | Alerted(alert: Alert, at: int)
    | SensorOffline(lastSeen: int, offlineFor: int, at: int)

  // ---------------------------------------------------------------- the aggregate

  datatype State = State(lastSeen: Option<int>, announced: Option<int>)

  const REGISTERED := State(None, None)

  /** The newest instant only moves forward, and a reading at or after it ends the silence. */
  function Recorded(s: State, at: int): State {
    if s.lastSeen.None? || at >= s.lastSeen.value then State(Some(at), None) else s
  }

  /** The threshold events of one reading; being on a threshold is not crossing it. */
  function Alerts(r: Reading): seq<Alert> {
    (if r.moisture < MOISTURE_LOW then [SoilMoistureLow] else [])
    + (if r.moisture > MOISTURE_HIGH then [SoilMoistureHigh] else [])
    + (if r.temperature < TEMPERATURE_LOW || r.temperature > TEMPERATURE_HIGH then [TemperatureAnomaly] else [])
  }

  function EventsOf(r: Reading): (events: seq<Event>)
    ensures |events| == 1 + |Alerts(r)| && events[0] == TelemetryReceived(r)
    ensures forall k :: 1 <= k < |events| ==> events[k] == Alerted(Alerts(r)[k - 1], r.at)
  {
    [TelemetryReceived(r)] + seq(|Alerts(r)|, k requires 0 <= k < |Alerts(r)| => Alerted(Alerts(r)[k], r.at))
  }

  /** Exactly which alerts a reading records: too dry below thirty, too wet above eighty, an anomaly outside
      ten to thirty-five degrees; each at most once. */
  lemma AlertsAreCrossed(r: Reading)
    ensures Alerted(SoilMoistureLow, r.at) in EventsOf(r) <==> r.moisture < 30.0
    ensures Alerted(SoilMoistureHigh, r.at) in EventsOf(r) <==> r.moisture > 80.0
    ensures Alerted(TemperatureAnomaly, r.at) in EventsOf(r) <==> !(10.0 <= r.temperature <= 35.0)
    ensures forall i, j :: 0 <= i < j < |EventsOf(r)| ==> EventsOf(r)[i] != EventsOf(r)[j]
    ensures forall e :: e in EventsOf(r) ==> e == TelemetryReceived(r) || (e.Alerted? && e.at == r.at)
  {
    var events, alerts := EventsOf(r), Alerts(r);
    forall alert | Alerted(alert, r.at) in events ensures alert in alerts {
      var k :| 0 <= k < |events| && events[k] == Alerted(alert, r.at);
      assert alerts[k - 1] == alert;
    }
    forall alert | alert in alerts ensures Alerted(alert, r.at) in events {
      var k :| 0 <= k < |alerts| && alerts[k] == alert;
      assert events[k + 1] == Alerted(alert, r.at);
    }
  }

  predicate Silent(s: State, now: int) {
    s.lastSeen.Some? && s.lastSeen.value <= now - OFFLINE_AFTER && s.announced.None?
  }

  class Sensor {
    const id: nat
    var state: State
    var events: seq<Event>

    constructor (id: nat, state: State)
      ensures this.id == id && this.state == state && events == []
    {
      this.id, this.state, events := id, state, [];
    }

    /** A measurement is always an event, late or not; only a foreign reading is refused. */
    method Record(r: Reading) returns (result: Result<(), Error>)
      modifies this
      ensures result == if r.sensor != id then Err(ReadingMismatch) else Ok(())
      ensures result.Ok? ==> state == Recorded(old(state), r.at) && events == old(events) + EventsOf(r)
      ensures result.Ok? ==>
        var recorded := events[|old(events)|..];
        && recorded != [] && recorded[0] == TelemetryReceived(r)
        && (Alerted(SoilMoistureLow, r.at) in recorded <==> r.moisture < 30.0)
        && (Alerted(SoilMoistureHigh, r.at) in recorded <==> r.moisture > 80.0)
        && (Alerted(TemperatureAnomaly, r.at) in recorded <==> !(10.0 <= r.temperature <= 35.0))
      ensures result.Err? ==> state == old(state) && events == old(events)
    {
      if r.sensor != id {
        return Err(ReadingMismatch);
      }
      if state.lastSeen.None? || r.at >= state.lastSeen.value {
        state := State(Some(r.at), None);
      }
      var recorded := [TelemetryReceived(r)];
      if r.moisture < MOISTURE_LOW {
        recorded := recorded + [Alerted(SoilMoistureLow, r.at)];
      }
      if r.moisture > MOISTURE_HIGH {
        recorded := recorded + [Alerted(SoilMoistureHigh, r.at)];
      }
      if r.temperature < TEMPERATURE_LOW || r.temperature > TEMPERATURE_HIGH {
        recorded := recorded + [Alerted(TemperatureAnomaly, r.at)];
      }
      assert recorded == EventsOf(r);
      AlertsAreCrossed(r);
      events := events + recorded;
      assert events[|old(events)|..] == recorded;
      result := Ok(());
    }

    /** Announce a silence once: never before the threshold, never twice. */
    method MarkOffline(now: int) returns (result: Result<(), Error>)
      modifies this
      ensures result.Ok? <==> Silent(old(state), now)
      ensures result == Err(NeverSeen) <==> old(state).lastSeen.None?
      ensures result == Err(StillOnline) <==> old(state).lastSeen.Some? && old(state).lastSeen.value > now - OFFLINE_AFTER
      ensures result.Ok? ==>
        && state == old(state).(announced := Some(now))
        && events == old(events) + [SensorOffline(state.lastSeen.value, now - state.lastSeen.value, now)]
      ensures result.Err? ==> state == old(state) && events == old(events)
    {
      if state.lastSeen.None? {
        return Err(NeverSeen);
      }
      var offlineFor := now - state.lastSeen.value;
      if offlineFor < OFFLINE_AFTER {
        return Err(StillOnline);
      }
      if state.announced.Some? {
        return Err(AlreadyAnnounced);
      }
      state := state.(announced := Some(now));
      events := events + [SensorOffline(state.lastSeen.value, offlineFor, now)];
      result := Ok(());
    }
  }

  // ---------------------------------------------------------------- the read side

  datatype Row = Row(reading: Reading, offlineAt: Option<int>, alert: Option<(int, Alert)>)

  /** `UPSERT_LATEST`, `ANNOUNCE_OFFLINE` and `RECORD_ALERT` on the row of one sensor. */
  function Project(row: Option<Row>, e: Event): Option<Row> {
    match e
    case TelemetryReceived(r) =>
      if row.None? then Some(Row(r, None, None))
      else if r.at > row.value.reading.at then Some(row.value.(reading := r, offlineAt := None))
      else row
    case Alerted(alert, at) =>
      if row.None? || (row.value.alert.Some? && row.value.alert.value.0 > at) then row
      else Some(row.value.(alert := Some((at, alert))))
    case SensorOffline(_, _, at) =>
      if row.None? then row else Some(row.value.(offlineAt := Some(at)))
  }

  function Latest(log: seq<Event>): Option<Row> {
    if log == [] then None else Project(Latest(log[..|log| - 1]), log[|log| - 1])
  }

  lemma LatestOne(log: seq<Event>, e: Event)
    ensures Latest(log + [e]) == Project(Latest(log), e)
  {
    assert (log + [e])[..|log|] == log;
  }

  /** Whatever order alerts arrive in, the row keeps the newest: it is an alert of the log, and no alert
      of the log is later. */
  lemma {:induction false} LatestAlertIsNewest(log: seq<Event>)
    requires log != [] && log[0].TelemetryReceived?
    ensures Latest(log).Some?
    ensures forall k :: 0 <= k < |log| && log[k].Alerted? ==>
      Latest(log).value.alert.Some? && log[k].at <= Latest(log).value.alert.value.0
    ensures Latest(log).value.alert.Some? ==>
      Alerted(Latest(log).value.alert.value.1, Latest(log).value.alert.value.0) in log
  {
    var n := |log| - 1;
    if n == 0 {
      assert log[..0] == [];
    } else {
      LatestAlertIsNewest(log[..n]);
      assert log == log[..n] + [log[n]];
    }
  }

  /** Of several alerts of one instant the row keeps the one that arrived last, so a replay rewrites it. */
  lemma {:induction false} LatestAlertIsLast(log: seq<Event>, k: nat)
    requires log != [] && log[0].TelemetryReceived? && k < |log| && log[k].Alerted?
    requires forall j :: 0 <= j < k && log[j].Alerted? ==> log[j].at <= log[k].at
    requires forall j :: k < j < |log| && log[j].Alerted? ==> log[j].at < log[k].at
    ensures Latest(log).Some? && Latest(log).value.alert == Some((log[k].at, log[k].alert))
  {
    var n := |log| - 1;
    assert log == log[..n] + [log[n]];
    if k < n {
      LatestAlertIsLast(log[..n], k);
    } else {
      LatestAlertIsNewest(log[..n]);
      if Latest(log[..n]).value.alert.Some? {
        var kept := Latest(log[..n]).value.alert.value;
        assert Alerted(kept.1, kept.0) in log[..n];
        var j :| 0 <= j < n && log[j] == Alerted(kept.1, kept.0);
      }
    }
  }

  // ---------------------------------------------------------------- the two sides together

  /** A registered sensor, its readings table, and the events announced so far in order. */
  datatype System = System(sensor: State, stored: map<int, Reading>, log: seq<Event>)

  datatype Action = Ingest(r: Reading) | Tick(now: int)

  const START := System(REGISTERED, map[], [])

  /** A reading already stored for its instant changes nothing and announces nothing. */
  function Step(s: System, a: Action): System {
    match a
    case Ingest(r) =>
      if r.at in s.stored then s
      else System(Recorded(s.sensor, r.at), s.stored[r.at := r], s.log + EventsOf(r))
    case Tick(now) =>
      if !Silent(s.sensor, now) then s
      else
        var seen := s.sensor.lastSeen.value;
        s.(sensor := s.sensor.(announced := Some(now)), log := s.log + [SensorOffline(seen, now - seen, now)])
  }

  function Run(s: System, actions: seq<Action>): System
    decreases |actions|
  {
    if actions == [] then s else Run(Step(s, actions[0]), actions[1..])
  }

  ghost predicate Agree(sensor: State, row: Option<Row>) {
    && (row.None? <==> sensor.lastSeen.None?)
    && (sensor.lastSeen.None? ==> sensor.announced.None?)
    && (row.Some? ==> sensor.lastSeen == Some(row.value.reading.at) && row.value.offlineAt == sensor.announced)
  }

  /** The row holds the newest stored reading. */
  ghost predicate RowIsNewest(s: System) {
    && (forall at :: at in s.stored ==> s.stored[at].at == at && s.sensor.lastSeen.Some? && at <= s.sensor.lastSeen.value)
    && (s.sensor.lastSeen.Some? ==> s.sensor.lastSeen.value in s.stored)
    && (Latest(s.log).Some? ==>
          Latest(s.log).value.reading.at in s.stored && s.stored[Latest(s.log).value.reading.at] == Latest(s.log).value.reading)
  }

  ghost predicate Consistent(s: System) {
    Agree(s.sensor, Latest(s.log)) && RowIsNewest(s)
  }

  /** Alerts never touch what a reading wrote. */
  lemma {:induction false} AlertsLeaveTheReading(log: seq<Event>, events: seq<Event>)
    requires forall k :: 0 <= k < |events| ==> events[k].Alerted?
    requires Latest(log).Some?
    ensures
      var before, after := Latest(log), Latest(log + events);
      after.Some? && after.value.reading == before.value.reading && after.value.offlineAt == before.value.offlineAt
  {
    if events == [] {
      assert log + events == log;
    } else {
      var k := |events| - 1;
      AlertsLeaveTheReading(log, events[..k]);
      assert log + events == (log + events[..k]) + [events[k]];
      LatestOne(log + events[..k], events[k]);
    }
  }

  lemma AfterIngest(log: seq<Event>, r: Reading)
    ensures
      var read, after := Project(Latest(log), TelemetryReceived(r)), Latest(log + EventsOf(r));
      read.Some? && after.Some? && after.value.reading == read.value.reading && after.value.offlineAt == read.value.offlineAt
  {
    var received := TelemetryReceived(r);
    LatestOne(log, received);
    assert log + EventsOf(r) == (log + [received]) + EventsOf(r)[1..];
    AlertsLeaveTheReading(log + [received], EventsOf(r)[1..]);
  }

  /** Recording a reading keeps the two sides in agreement, unless the sensor is announced offline and the
      reading has exactly the instant last seen: the aggregate then ends the silence and the row does not. */
  lemma RecordKeepsAgreementExactly(sensor: State, log: seq<Event>, r: Reading)
    requires Agree(sensor, Latest(log))
    ensures Agree(Recorded(sensor, r.at), Latest(log + EventsOf(r))) <==>
      !(sensor.announced.Some? && sensor.lastSeen == Some(r.at))
  {
    AfterIngest(log, r);
  }

  lemma IngestKeepsNewest(s: System, r: Reading)
    requires Consistent(s) && r.at !in s.stored
    ensures RowIsNewest(Step(s, Ingest(r)))
  {
    AfterIngest(s.log, r);
  }

  lemma IngestKeepsConsistent(s: System, r: Reading)
    requires Consistent(s) && r.at !in s.stored
    ensures Consistent(Step(s, Ingest(r)))
  {
    RecordKeepsAgreementExactly(s.sensor, s.log, r);
    IngestKeepsNewest(s, r);
  }

  /** The agreement of the two sides, for every run of readings, repeated or out of time order, and timer
      ticks: the projected row's instant is the sensor's last-seen instant, its `offline_at` is the
      sensor's announcement, and its values are those of the newest stored reading. */
  lemma {:induction false} RunKeepsSidesInAgreement(s: System, actions: seq<Action>)
    requires Consistent(s)
    ensures Consistent(Run(s, actions))
    decreases |actions|
  {
    if actions != [] {
      match actions[0] {
        case Ingest(r) =>
          if r.at !in s.stored { IngestKeepsConsistent(s, r); }
        case Tick(now) =>
          if Silent(s.sensor, now) {
            LatestOne(s.log, SensorOffline(s.sensor.lastSeen.value, now - s.sensor.lastSeen.value, now));
          }
      }
      RunKeepsSidesInAgreement(Step(s, actions[0]), actions[1..]);
    }
  }

  // ---------------------------------------------------------------- overlapping transactions

  /** What saving `wanted` leaves of the committed row: `merge` writes the columns in which it differs from
      the row as the session `loaded` it. */
  function Saved(committed: State, loaded: State, wanted: State): State {
    State(
      if wanted.lastSeen == loaded.lastSeen then committed.lastSeen else wanted.lastSeen,
      if wanted.announced == loaded.announced then committed.announced else wanted.announced)
  }

  /** Two transactions that read the sensor before either commits: one ingests `r`, the other announces the
      silence at `now`.  `ingestFirst` is the order of their commits; `reloaded` says that the one that
      commits last loads the row for its save after the first has committed. */
  function Overlapped(s: System, r: Reading, now: int, ingestFirst: bool, reloaded: bool): System {
    var seen := if s.sensor.lastSeen.Some? then s.sensor.lastSeen.value else now;
    var ingested, silenced := Recorded(s.sensor, r.at), s.sensor.(announced := Some(now));
    var first := if ingestFirst then ingested else silenced;
    var second := if ingestFirst then silenced else ingested;
    var offline := [SensorOffline(seen, now - seen, now)];
    System(
      Saved(first, if reloaded then first else s.sensor, second),
      s.stored[r.at := r],
      s.log + (if ingestFirst then EventsOf(r) + offline else offline + EventsOf(r)))
  }

  /** Exactly which overlaps leave the two sides in agreement.  Whichever way rows are loaded for a save,
      a newer reading and the timer disagree in one of their two orders; a late reading, only when it
      commits last over a row loaded after the announcement. */
  lemma OverlapAgreesExactly(s: System, r: Reading, now: int, ingestFirst: bool, reloaded: bool)
    requires Consistent(s) && Silent(s.sensor, now) && r.at !in s.stored
    ensures
      var s' := Overlapped(s, r, now, ingestFirst, reloaded);
      Agree(s'.sensor, Latest(s'.log)) <==>
        if s.sensor.lastSeen.value < r.at then ingestFirst != reloaded else ingestFirst || !reloaded
  {
    var seen := s.sensor.lastSeen.value;
    var offline := SensorOffline(seen, now - seen, now);
    if ingestFirst {
      RowAfterIngestFirst(s.log, r, offline);
    } else {
      RowAfterTickFirst(s.log, r, offline);
    }
  }

  /** The disagreement on a real state: a reading and the announcement of the silence before it overlap, the
      announcement commits first, and the reading's save still sees the row without it. */
  lemma OverlapDisagrees()
    ensures
      var first, next := Reading(1, 0, 50.0, 20.0, 1.0), Reading(1, OFFLINE_AFTER, 50.0, 20.0, 1.0);
      var s := Overlapped(Step(START, Ingest(first)), next, OFFLINE_AFTER, false, false);
      !Agree(s.sensor, Latest(s.log))
  {
    var first, next := Reading(1, 0, 50.0, 20.0, 1.0), Reading(1, OFFLINE_AFTER, 50.0, 20.0, 1.0);
    StartIsConsistent();
    IngestKeepsConsistent(START, first);
    OverlapAgreesExactly(Step(START, Ingest(first)), next, OFFLINE_AFTER, false, false);
  }

  /** What the row says of the reading and of the announcement after both events, in either order. */
  lemma RowAfterIngestFirst(log: seq<Event>, r: Reading, offline: Event)
    requires offline.SensorOffline?
    ensures
      var read, after := Project(Latest(log), TelemetryReceived(r)), Latest(log + (EventsOf(r) + [offline]));
      after.Some? && after.value.reading == read.value.reading && after.value.offlineAt == Some(offline.at)
  {
    AfterIngest(log, r);
    LatestOne(log + EventsOf(r), offline);
    assert log + (EventsOf(r) + [offline]) == log + EventsOf(r) + [offline];
  }

  lemma RowAfterTickFirst(log: seq<Event>, r: Reading, offline: Event)
    requires offline.SensorOffline?
    ensures
      var read := Project(Project(Latest(log), offline), TelemetryReceived(r));
      var after := Latest(log + ([offline] + EventsOf(r)));
      after.Some? && after.value.reading == read.value.reading && after.value.offlineAt == read.value.offlineAt
  {
    LatestOne(log, offline);
    AfterIngest(log + [offline], r);
    assert log + ([offline] + EventsOf(r)) == log + [offline] + EventsOf(r);
  }

  // ---------------------------------------------------------------- one announcement per silence

  /** A reading at or after `moment` between two places of the log. */
  ghost predicate HeardBetween(log: seq<Event>, i: nat, j: nat, moment: int) {
    exists k :: i < k < j && k < |log| && log[k].TelemetryReceived? && log[k].reading.at >= moment
  }

  ghost predicate SilencesApart(s: System) {
    && (forall i, j :: 0 <= i < j < |s.log| && s.log[i].SensorOffline? && s.log[j].SensorOffline? ==>
          HeardBetween(s.log, i, j, s.log[i].lastSeen))
    && (forall i :: 0 <= i < |s.log| && s.log[i].SensorOffline? ==>
          && s.sensor.lastSeen.Some? && s.log[i].lastSeen <= s.sensor.lastSeen.value
          && s.log[i].offlineFor == s.log[i].at - s.log[i].lastSeen >= OFFLINE_AFTER
          && (s.sensor.announced.None? ==> HeardBetween(s.log, i, |s.log|, s.log[i].lastSeen)))
  }

  lemma HeardStays(log: seq<Event>, events: seq<Event>, i: nat, j: nat, moment: int)
    requires HeardBetween(log, i, j, moment)
    ensures HeardBetween(log + events, i, j, moment)
  {
    var k :| i < k < j && k < |log| && log[k].TelemetryReceived? && log[k].reading.at >= moment;
    assert (log + events)[k] == log[k];
  }

  lemma StepKeepsSilencesApart(s: System, a: Action)
    requires SilencesApart(s)
    ensures SilencesApart(Step(s, a))
  {
    var s' := Step(s, a);
    if s'.log != s.log {
      var events := s'.log[|s.log|..];
      assert s'.log == s.log + events;
      forall i, j | 0 <= i < j < |s'.log| && s'.log[i].SensorOffline? && s'.log[j].SensorOffline?
        ensures HeardBetween(s'.log, i, j, s'.log[i].lastSeen)
      {
        assert i < |s.log| && (a.Ingest? ==> j < |s.log|);
        HeardStays(s.log, events, i, if j < |s.log| then j else |s.log|, s.log[i].lastSeen);
      }
      forall i | 0 <= i < |s'.log| && s'.log[i].SensorOffline? && s'.sensor.announced.None?
        ensures HeardBetween(s'.log, i, |s'.log|, s'.log[i].lastSeen)
      {
        assert a.Ingest? && i < |s.log|;
        if s.sensor.announced.None? {
          HeardStays(s.log, events, i, |s.log|, s.log[i].lastSeen);
        } else {
          assert s'.log[|s.log|] == TelemetryReceived(a.r);
        }
      }
    }
  }

  /** Over every run, between two announcements of silence the sensor was heard again, at or after the
      instant the first one calls last seen; and no silence is announced before its ten minutes are over. */
  lemma {:induction false} RunAnnouncesEachSilenceOnce(s: System, actions: seq<Action>)
    requires SilencesApart(s)
    ensures SilencesApart(Run(s, actions))
    decreases |actions|
  {
    if actions != [] {
      StepKeepsSilencesApart(s, actions[0]);
      RunAnnouncesEachSilenceOnce(Step(s, actions[0]), actions[1..]);
    }
  }

  lemma StartIsConsistent()
    ensures Consistent(START) && SilencesApart(START)
  {
  }
}
