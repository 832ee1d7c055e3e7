/** The two writers of the sensor registry, over all sensors: the ingress that stores a reading and
    announces it, and the timer that announces silences.  Both are proved to move every sensor by the
    one-sensor steps of `Telemetry`. */
module TelemetryJobs {
  import opened Wrappers
  import opened Telemetry
  import opened Sequences

  datatype Announced = Announced(sensor: nat, event: Event)

  function Tagged(sensor: nat, events: seq<Event>): (r: seq<Announced>)
    ensures |r| == |events| && forall k :: 0 <= k < |r| ==> r[k] == Announced(sensor, events[k])
  {
    seq(|events|, k requires 0 <= k < |events| => Announced(sensor, events[k]))
  }

  /** What one timer tick does to a sensor. */
  function Ticked(s: State, now: int): State {
    if Silent(s, now) then s.(announced := Some(now)) else s
  }

  function Announcement(s: State, id: nat, now: int): Announced
    requires s.lastSeen.Some?
  {
    Announced(id, SensorOffline(s.lastSeen.value, now - s.lastSeen.value, now))
  }

  predicate QuietLonger(a: State, i: nat, b: State, j: nat)
    requires a.lastSeen.Some? && b.lastSeen.Some?
  {
    a.lastSeen.value < b.lastSeen.value || (a.lastSeen == b.lastSeen && i < j)
  }

  /** `list_silent`: exactly the silent sensors, the longest silence first. */
  ghost predicate Listing(sensors: map<nat, State>, now: int, ids: seq<nat>) {
    && (forall id :: id in ids <==> id in sensors && Silent(sensors[id], now))
    && (forall i, j :: 0 <= i < j < |ids| ==>
          && ids[i] in ids && ids[j] in ids
          && QuietLonger(sensors[ids[i]], ids[i], sensors[ids[j]], ids[j]))
  }

  ghost function Announcements(sensors: map<nat, State>, now: int, ids: seq<nat>): (r: seq<Announced>)
    requires forall id :: id in ids ==> id in sensors && sensors[id].lastSeen.Some?
    ensures |r| == |ids|
  {
    seq(|ids|, k requires 0 <= k < |ids| => assert ids[k] in ids; Announcement(sensors[ids[k]], ids[k], now))
  }

  /** The first `k` listed sensors are announced, the others as they were. */
  ghost predicate TickedSoFar(was: map<nat, State>, sensors: map<nat, State>, now: int, ids: seq<nat>, k: nat)
    requires k <= |ids|
  {
    && sensors.Keys == was.Keys
    && forall id :: id in sensors ==> sensors[id] == if id in ids[..k] then Ticked(was[id], now) else was[id]
  }

  lemma ListedOnce(sensors: map<nat, State>, now: int, ids: seq<nat>, k: nat)
    requires Listing(sensors, now, ids) && k < |ids|
    ensures ids[k] in sensors && Silent(sensors[ids[k]], now) && ids[k] !in ids[..k]
  {
    assert ids[k] in ids;
    forall j | 0 <= j < k ensures ids[j] != ids[k] {
      assert ids[j] in ids && QuietLonger(sensors[ids[j]], ids[j], sensors[ids[k]], ids[k]);
    }
  }

  lemma OneMoreTicked(was: map<nat, State>, sensors: map<nat, State>, now: int, ids: seq<nat>, k: nat)
    requires Listing(was, now, ids) && k < |ids| && TickedSoFar(was, sensors, now, ids, k)
    ensures ids[k] in sensors && sensors[ids[k]] == was[ids[k]] && Silent(was[ids[k]], now)
    ensures TickedSoFar(was, sensors[ids[k] := Ticked(was[ids[k]], now)], now, ids, k + 1)
  {
    ListedOnce(was, now, ids, k);
    assert ids[..k + 1] == ids[..k] + [ids[k]];
  }

  lemma AllTicked(was: map<nat, State>, sensors: map<nat, State>, now: int, ids: seq<nat>)
    requires Listing(was, now, ids) && TickedSoFar(was, sensors, now, ids, |ids|)
    ensures sensors == map id | id in was :: Ticked(was[id], now)
  {
    assert ids[..|ids|] == ids;
  }

  class Registry {
    var sensors: map<nat, State>
    var readings: map<(nat, int), Reading>
    var outbox: seq<Announced>

    constructor (sensors: map<nat, State>)
      ensures this.sensors == sensors && readings == map[] && outbox == []
    {
      this.sensors, readings, outbox := sensors, map[], [];
    }

    /** Store and announce one reading.  A sensor nobody registered drops it; a reading already stored for
        its sensor and instant is neither stored nor announced again. */
    method Ingest(r: Reading) returns (inTable: bool)
      modifies this
      ensures inTable <==> r.sensor in old(sensors)
      ensures
        var isNew := r.sensor in old(sensors) && (r.sensor, r.at) !in old(readings);
        && readings == (if isNew then old(readings)[(r.sensor, r.at) := r] else old(readings))
        && sensors == (if isNew then old(sensors)[r.sensor := Recorded(old(sensors)[r.sensor], r.at)] else old(sensors))
        && outbox == old(outbox) + (if isNew then Tagged(r.sensor, EventsOf(r)) else [])
    {
      if r.sensor !in sensors {
        return false;
      }
      if (r.sensor, r.at) !in readings {
        var sensor := new Sensor(r.sensor, sensors[r.sensor]);
        var recorded := sensor.Record(r);
        assert recorded.Ok? && sensor.events == EventsOf(r);
        readings := readings[(r.sensor, r.at) := r];
        outbox := outbox + Tagged(r.sensor, sensor.events);
        sensors := sensors[r.sensor := sensor.state];
      }
      inTable := true;
    }

    method ListSilent(now: int) returns (ids: seq<nat>)
      ensures Listing(sensors, now, ids)
      ensures forall id :: id in ids <==>
        && id in sensors && sensors[id].announced.None?
        && sensors[id].lastSeen.Some? && now - sensors[id].lastSeen.value >= 10 * 60 * 1_000_000
      ensures forall i, j :: 0 <= i < j < |ids| ==>
        && ids[i] in sensors && ids[j] in sensors
        && sensors[ids[i]].lastSeen.Some? && sensors[ids[j]].lastSeen.Some?
        && (sensors[ids[i]].lastSeen.value < sensors[ids[j]].lastSeen.value
            || (sensors[ids[i]].lastSeen == sensors[ids[j]].lastSeen && ids[i] < ids[j]))
    {
      var left := set id | id in sensors && Silent(sensors[id], now);
      ids := [];
      while left != {}
        invariant forall id :: (id in left || id in ids) <==> id in sensors && Silent(sensors[id], now)
        invariant forall i, id :: 0 <= i < |ids| && id in left ==>
          ids[i] in ids && QuietLonger(sensors[ids[i]], ids[i], sensors[id], id)
        invariant forall i, j :: 0 <= i < j < |ids| ==>
          ids[i] in ids && ids[j] in ids && QuietLonger(sensors[ids[i]], ids[i], sensors[ids[j]], ids[j])
        decreases left
      {
        var next := QuietestOf(left);
        assert forall j :: 0 <= j < |ids| ==> ids[j] in ids;
        ids := ids + [next];
        left := left - {next};
      }
    }

    method QuietestOf(ids: set<nat>) returns (next: nat)
      requires ids != {} && forall id :: id in ids ==> id in sensors && sensors[id].lastSeen.Some?
      ensures next in ids
      ensures forall id :: id in ids && id != next ==> QuietLonger(sensors[next], next, sensors[id], id)
    {
      next :| next in ids;
      var rest := ids - {next};
      while rest != {}
        invariant next in ids && next !in rest && rest <= ids
        invariant forall id :: id in ids && id != next && id !in rest ==> QuietLonger(sensors[next], next, sensors[id], id)
        decreases rest
      {
        var other :| other in rest;
        rest := rest - {other};
        if QuietLonger(sensors[other], other, sensors[next], next) {
          next := other;
        }
      }
    }

    /** One tick: every silent sensor is announced exactly once, longest silence first; no sensor that the
        query lists is refused by its aggregate, and no other sensor changes. */
    method RunOnce(now: int) returns (announced: nat)
      modifies this
      ensures sensors == map id | id in old(sensors) :: Ticked(old(sensors)[id], now)
      ensures readings == old(readings)
      ensures exists ids: seq<nat> ::
        (Listing(old(sensors), now, ids) && announced == |ids|
         && outbox == old(outbox) + Announcements(old(sensors), now, ids))
    {
      var ids := ListSilent(now);
      announced := 0;
      while announced < |ids|
        invariant 0 <= announced <= |ids| && readings == old(readings) && Listing(old(sensors), now, ids)
        invariant TickedSoFar(old(sensors), sensors, now, ids, announced)
        invariant outbox == old(outbox) + Announcements(old(sensors), now, ids)[..announced]
      {
        assert ids[announced] in ids;
        OneMoreTicked(old(sensors), sensors, now, ids, announced);
        Announce(ids[announced], now);
        announced := announced + 1;
      }
      AllTicked(old(sensors), sensors, now, ids);
    }

    /** Announce the silence of one listed sensor. */
    method Announce(id: nat, now: int)
      requires id in sensors && Silent(sensors[id], now)
      modifies this
      ensures readings == old(readings)
      ensures sensors == old(sensors)[id := Ticked(old(sensors)[id], now)]
      ensures outbox == old(outbox) + [Announcement(old(sensors)[id], id, now)]
    {
      var sensor := new Sensor(id, sensors[id]);
      var marked := sensor.MarkOffline(now);
      assert marked.Ok?;
      assert Tagged(id, sensor.events) == [Announcement(old(sensors)[id], id, now)];
      outbox := outbox + Tagged(id, sensor.events);
      sensors := sensors[id := sensor.state];
    }
  }
}
