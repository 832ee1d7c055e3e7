/** The catalogue synchronisation: applying a fetched list, remembering before-images, and the
    compensation that deletes what was created and restores the before-images in the order they were taken. */
module SpeciesSync {
  import opened Text
  import opened Wrappers

  datatype Values = Values(scientific: string, common: string, interval: int, light: nat)

  datatype Species = Species(values: Values, version: nat)

  datatype Snapshot = Snapshot(id: nat, values: Values)

  datatype Event = SpeciesAdded(id: nat, entry: Species) | SpeciesUpdated(id: nat, entry: Species)

  type Catalogue = map<nat, Species>

  /** `_normalize_name` on both names; a blank one is refused. */
  function Normalized(v: Values): Option<Values> {
    if Strip(v.scientific) == [] || Strip(v.common) == [] then None
    else Some(v.(scientific := Strip(v.scientific), common := Strip(v.common)))
  }

  /** `kept` are the given values with their names trimmed. */
  ghost predicate KeepsValues(given: Values, kept: Values) {
    && Trims(given.scientific, kept.scientific) && Trims(given.common, kept.common)
    && kept.interval == given.interval && kept.light == given.light
  }

  /** Exactly the lists with a name of nothing but white space are refused; otherwise only the white space
      around the names is dropped. */
  lemma NormalizedKeeps(v: Values)
    ensures Normalized(v).None? <==> AllSpace(v.scientific) || AllSpace(v.common)
    ensures Normalized(v).Some? ==> KeepsValues(v, Normalized(v).value)
  {
    StripIsExact(v.scientific);
    StripIsExact(v.common);
    StripOfSpace(v.scientific);
    StripOfSpace(v.common);
  }

  lemma NormalizedTwice(v: Values)
    ensures Normalized(v).Some? ==> Normalized(Normalized(v).value) == Normalized(v)
  {
    StripIdempotent(v.scientific);
    StripIdempotent(v.common);
  }

  ghost predicate Clean(c: Catalogue) {
    forall id :: id in c ==> Normalized(c[id].values) == Some(c[id].values)
  }

  ghost predicate NoneBlank(fetched: seq<Snapshot>) {
    forall k :: 0 <= k < |fetched| ==> Normalized(fetched[k].values).Some?
  }

  /** The state of one run of the step. */
  datatype Sync = Sync(catalogue: Catalogue, created: seq<nat>, updated: seq<Snapshot>, outbox: seq<Event>)

  /** One record: create the unknown, update the changed, leave the equal alone. */
  function ApplyOne(s: Sync, id: nat, v: Values): Sync {
    if id !in s.catalogue then
      var added := Species(v, 1);
      s.(catalogue := s.catalogue[id := added], created := s.created + [id], outbox := s.outbox + [SpeciesAdded(id, added)])
    else if s.catalogue[id].values == v then s
    else
      var changed := Species(v, s.catalogue[id].version + 1);
      s.(catalogue := s.catalogue[id := changed],
         updated := s.updated + [Snapshot(id, s.catalogue[id].values)],
         outbox := s.outbox + [SpeciesUpdated(id, changed)])
  }

  function Apply(s: Sync, fetched: seq<Snapshot>): Sync
    requires NoneBlank(fetched)
  {
    if fetched == [] then s
    else
      var k := |fetched| - 1;
      ApplyOne(Apply(s, fetched[..k]), fetched[k].id, Normalized(fetched[k].values).value)
  }

  /** Restoring one before-image goes through the aggregate's own update. */
  function RestoreOne(s: Sync, b: Snapshot): Sync {
    if b.id !in s.catalogue || s.catalogue[b.id].values == b.values then s
    else
      var restored := Species(b.values, s.catalogue[b.id].version + 1);
      s.(catalogue := s.catalogue[b.id := restored], outbox := s.outbox + [SpeciesUpdated(b.id, restored)])
  }

  function Restore(s: Sync, images: seq<Snapshot>): Sync {
    if images == [] then s else RestoreOne(Restore(s, images[..|images| - 1]), images[|images| - 1])
  }

  function Deleted(c: Catalogue, ids: seq<nat>): Catalogue {
    map id | id in c && id !in ids :: c[id]
  }

  function Compensated(s: Sync): Sync {
    Restore(s.(catalogue := Deleted(s.catalogue, s.created)), s.updated).(created := [], updated := [])
  }

  function Begin(c: Catalogue): Sync {
    Sync(c, [], [], [])
  }

  // ---------------------------------------------------------------- the aggregate

  datatype Refusal = VersionConflict | NameEmpty

  class SpeciesEntry {
    const id: nat
    var entry: Species
    var events: seq<Event>

    constructor (id: nat, entry: Species)
      ensures this.id == id && this.entry == entry && events == []
    {
      this.id, this.entry, events := id, entry, [];
    }

    /** The version is checked first, then the names; identical values are no change and no event. */
    method Update(v: Values, expected: nat) returns (changed: bool, refused: Option<Refusal>)
      modifies this
      ensures refused == if expected != old(entry).version then Some(VersionConflict)
                         else if Normalized(v).None? then Some(NameEmpty) else None
      ensures changed <==> refused.None? && Normalized(v) != Some(old(entry).values)
      ensures entry == if changed then Species(Normalized(v).value, old(entry).version + 1) else old(entry)
      ensures events == old(events) + if changed then [SpeciesUpdated(id, entry)] else []
    {
      if expected != entry.version {
        return false, Some(VersionConflict);
      }
      var normalized := Normalized(v);
      if normalized.None? {
        return false, Some(NameEmpty);
      }
      if normalized.value == entry.values {
        return false, None;
      }
      entry := Species(normalized.value, entry.version + 1);
      events := events + [SpeciesUpdated(id, entry)];
      changed, refused := true, None;
    }
  }

  // ---------------------------------------------------------------- the step itself

  /** Every stored name is already normalised, in the catalogue and in the before-images. */
  ghost predicate Stored(s: Sync) {
    Clean(s.catalogue) && forall b :: b in s.updated ==> Normalized(b.values) == Some(b.values)
  }

  lemma ApplyOneKeepsStored(s: Sync, id: nat, v: Values)
    requires Stored(s) && Normalized(v) == Some(v)
    ensures Stored(ApplyOne(s, id, v))
  {
  }

  lemma RestoreOneKeepsStored(s: Sync, b: Snapshot)
    requires Stored(s) && Normalized(b.values) == Some(b.values)
    ensures Stored(RestoreOne(s, b)) && RestoreOne(s, b).updated == s.updated
  {
  }

  lemma ApplyStep(s: Sync, fetched: seq<Snapshot>, k: nat)
    requires k < |fetched| && NoneBlank(fetched[..k]) && Normalized(fetched[k].values).Some?
    ensures NoneBlank(fetched[..k + 1])
    ensures Apply(s, fetched[..k + 1])
      == ApplyOne(Apply(s, fetched[..k]), fetched[k].id, Normalized(fetched[k].values).value)
  {
    assert fetched[..k + 1] == fetched[..k] + [fetched[k]];
    assert fetched[..k + 1][..k] == fetched[..k];
  }

  lemma RestoreStep(s: Sync, images: seq<Snapshot>, k: nat)
    requires k < |images|
    ensures Restore(s, images[..k + 1]) == RestoreOne(Restore(s, images[..k]), images[k])
  {
    assert images[..k + 1][..k] == images[..k];
  }

  /** A rolled-back run: nothing was committed, the lists keep what it noted. */
  function Noted(s: Sync, working: Sync): Sync {
    s.(created := working.created, updated := working.updated)
  }

  /** The first `k` records are applied; what they announced comes behind the outbox. */
  ghost predicate AppliedSoFar(s: Sync, working: Sync, fetched: seq<Snapshot>, k: nat)
    requires k <= |fetched|
  {
    NoneBlank(fetched[..k]) && working == Apply(s, fetched[..k]) && Stored(working) && s.outbox <= working.outbox
  }

  lemma ApplyOneMore(s: Sync, working: Sync, fetched: seq<Snapshot>, k: nat)
    requires k < |fetched| && AppliedSoFar(s, working, fetched, k) && Normalized(fetched[k].values).Some?
    ensures AppliedSoFar(s, ApplyOne(working, fetched[k].id, Normalized(fetched[k].values).value), fetched, k + 1)
  {
    NormalizedTwice(fetched[k].values);
    ApplyOneKeepsStored(working, fetched[k].id, Normalized(fetched[k].values).value);
    ApplyStep(s, fetched, k);
  }

  class ApplySpeciesUpdatesStep {
    var state: Sync

    ghost predicate Valid()
      reads this
    {
      Stored(state)
    }

    constructor (c: Catalogue)
      requires Clean(c)
      ensures Valid() && state == Begin(c)
    {
      state := Begin(c);
    }

    /** Apply a fetched list, all or nothing: a blank name raises and commits nothing.  The context's two
        lists still hold what was noted before it, and `left` are the events still with the tracked
        entries: the next commit of the same unit of work publishes them. */
    method Act(fetched: seq<Snapshot>) returns (applied: bool, left: seq<Event>)
      requires Valid()
      modifies this
      ensures Valid()
      ensures applied <==> NoneBlank(fetched)
      ensures applied ==> state == Apply(old(state), fetched) && left == []
      ensures !applied ==> exists k ::
        (0 <= k < |fetched| && NoneBlank(fetched[..k]) && Normalized(fetched[k].values).None?
         && state.catalogue == old(state).catalogue && state.outbox == old(state).outbox
         && state.created == Apply(old(state), fetched[..k]).created
         && state.updated == Apply(old(state), fetched[..k]).updated
         && state.outbox + left == Apply(old(state), fetched[..k]).outbox)
    {
      var working := state;
      var k := 0;
      while k < |fetched|
        invariant 0 <= k <= |fetched| && state == old(state) && AppliedSoFar(state, working, fetched, k)
      {
        var normalized := Normalized(fetched[k].values);
        if normalized.None? {
          left := working.outbox[|state.outbox|..];
          state := Noted(state, working);
          return false, left;
        }
        NormalizedTwice(fetched[k].values);
        ApplyOneMore(state, working, fetched, k);
        working := ApplyRecord(working, fetched[k].id, normalized.value);
        k := k + 1;
      }
      assert fetched[..k] == fetched;
      state := working;
      applied, left := true, [];
    }

    static method ApplyRecord(s: Sync, id: nat, v: Values) returns (r: Sync)
      requires Normalized(v) == Some(v)
      ensures r == ApplyOne(s, id, v)
    {
      r := s;
      if id !in s.catalogue {
        var added := Species(v, 1);
        r := r.(catalogue := r.catalogue[id := added], created := r.created + [id],
                outbox := r.outbox + [SpeciesAdded(id, added)]);
        return;
      }
      var before := s.catalogue[id];
      var species := new SpeciesEntry(id, before);
      var changed, refused := species.Update(v, before.version);
      assert refused.None? && (changed ==> species.events == [SpeciesUpdated(id, species.entry)]);
      if changed {
        r := r.(catalogue := r.catalogue[id := species.entry], updated := r.updated + [Snapshot(id, before.values)],
                outbox := r.outbox + species.events);
      }
    }

    /** Delete what was created, then restore the before-images in order, and forget both lists. */
    method Compensate()
      requires Valid()
      modifies this
      ensures Valid() && state == Compensated(old(state))
      ensures state.created == [] && state.updated == []
    {
      var working := state.(catalogue := DeleteAll(state.catalogue, state.created));
      ghost var start := working;
      var k := 0;
      while k < |state.updated|
        invariant 0 <= k <= |state.updated| && state == old(state)
        invariant working == Restore(start, state.updated[..k])
        invariant Stored(working) && working.updated == state.updated
      {
        assert state.updated[k] in state.updated;
        RestoreOneKeepsStored(working, state.updated[k]);
        RestoreStep(start, state.updated, k);
        working := RestoreImage(working, state.updated[k]);
        k := k + 1;
      }
      assert state.updated[..k] == state.updated;
      state := working.(created := [], updated := []);
    }

    static function DeleteAll(c: Catalogue, ids: seq<nat>): (r: Catalogue)
      ensures r == Deleted(c, ids)
    {
      if ids == [] then c
      else
        assert forall id :: id in ids <==> id == ids[0] || id in ids[1..];
        DeleteAll(c - {ids[0]}, ids[1..])
    }

    static method RestoreImage(s: Sync, b: Snapshot) returns (r: Sync)
      requires Normalized(b.values) == Some(b.values)
      ensures r == RestoreOne(s, b)
    {
      r := s;
      if b.id !in s.catalogue {
        return;
      }
      var species := new SpeciesEntry(b.id, s.catalogue[b.id]);
      var changed, refused := species.Update(b.values, s.catalogue[b.id].version);
      assert refused.None? && (changed ==> species.events == [SpeciesUpdated(b.id, species.entry)]);
      if changed {
        r := r.(catalogue := r.catalogue[b.id := species.entry], outbox := r.outbox + species.events);
      }
    }
  }

  // ---------------------------------------------------------------- what a list does to one entry

  /** The values the list has for one entry, in order. */
  function History(fetched: seq<Snapshot>, id: nat): seq<Values>
    requires NoneBlank(fetched)
  {
    if fetched == [] then []
    else
      var k := |fetched| - 1;
      var rest := History(fetched[..k], id);
      if fetched[k].id == id then rest + [Normalized(fetched[k].values).value] else rest
  }

  function LastOf(first: Values, history: seq<Values>): Values {
    if history == [] then first else history[|history| - 1]
  }

  /** The values just before the last change the list makes; the first ones when it makes none. */
  function BeforeLastChange(first: Values, history: seq<Values>): Values {
    if history == [] then first
    else
      var k := |history| - 1;
      var current := LastOf(first, history[..k]);
      if history[k] != current then current else BeforeLastChange(first, history[..k])
  }

  /** The last before-image kept for an entry. */
  function LastImage(images: seq<Snapshot>, id: nat): Option<Values> {
    if images == [] then None
    else if images[|images| - 1].id == id then Some(images[|images| - 1].values)
    else LastImage(images[..|images| - 1], id)
  }

  lemma LastImageAppends(images: seq<Snapshot>, b: Snapshot, id: nat)
    ensures LastImage(images + [b], id) == if b.id == id then Some(b.values) else LastImage(images, id)
  {
    assert (images + [b])[..|images|] == images;
  }

  lemma OtherEntryApplied(s: Sync, other: nat, v: Values, id: nat)
    requires id in s.catalogue && other != id
    ensures
      var t := ApplyOne(s, other, v);
      && id in t.catalogue && t.catalogue[id] == s.catalogue[id] && (id in t.created <==> id in s.created)
      && LastImage(t.updated, id) == LastImage(s.updated, id)
  {
    if other in s.catalogue {
      LastImageAppends(s.updated, Snapshot(other, s.catalogue[other].values), id);
    }
  }

  lemma EntryApplied(s: Sync, id: nat, v: Values)
    requires id in s.catalogue
    ensures
      var t, was := ApplyOne(s, id, v), s.catalogue[id].values;
      && id in t.catalogue && t.catalogue[id].values == v && t.created == s.created
      && LastImage(t.updated, id) == (if was == v then LastImage(s.updated, id) else Some(was))
      && (was == v ==> t == s)
  {
    LastImageAppends(s.updated, Snapshot(id, s.catalogue[id].values), id);
  }

  lemma HistoryAppends(first: Values, history: seq<Values>, v: Values)
    ensures LastOf(first, history + [v]) == v
    ensures BeforeLastChange(first, history + [v]) ==
      if v != LastOf(first, history) then LastOf(first, history) else BeforeLastChange(first, history)
  {
    assert (history + [v])[..|history|] == history;
  }

  /** What applying a list to a catalogue leaves for one entry that was there before. */
  lemma {:induction false} AppliedEntry(c: Catalogue, fetched: seq<Snapshot>, id: nat)
    requires NoneBlank(fetched) && id in c
    ensures
      var s := Apply(Begin(c), fetched);
      var first, history := c[id].values, History(fetched, id);
      && id in s.catalogue && id !in s.created && s.catalogue[id].values == LastOf(first, history)
      && (LastImage(s.updated, id).None? ==>
            BeforeLastChange(first, history) == first && LastOf(first, history) == first
            && s.catalogue[id].version == c[id].version)
      && (LastImage(s.updated, id).Some? ==> LastImage(s.updated, id).value == BeforeLastChange(first, history))
  {
    if fetched != [] {
      var k := |fetched| - 1;
      AppliedEntry(c, fetched[..k], id);
      var before := Apply(Begin(c), fetched[..k]);
      var v := Normalized(fetched[k].values).value;
      if fetched[k].id == id {
        EntryApplied(before, id, v);
        HistoryAppends(c[id].values, History(fetched[..k], id), v);
      } else {
        OtherEntryApplied(before, fetched[k].id, v, id);
      }
    }
  }

  /** An entry that was not there is either still absent or was created by the run. */
  lemma {:induction false} AppliedNewEntries(c: Catalogue, fetched: seq<Snapshot>)
    requires NoneBlank(fetched)
    ensures
      var s := Apply(Begin(c), fetched);
      && (forall id :: id in s.catalogue <==> id in c || id in s.created)
      && (forall id :: id in s.created ==> id !in c)
  {
    if fetched != [] {
      AppliedNewEntries(c, fetched[..|fetched| - 1]);
    }
  }

  /** What restoring a list of images leaves for one entry: the last image wins. */
  lemma {:induction false} RestoredEntry(s: Sync, images: seq<Snapshot>, id: nat)
    ensures
      var t := Restore(s, images);
      && (id in t.catalogue <==> id in s.catalogue)
      && (id in s.catalogue ==>
            t.catalogue[id].values == if LastImage(images, id).Some? then LastImage(images, id).value else s.catalogue[id].values)
      && (id in s.catalogue && LastImage(images, id).None? ==> t.catalogue[id] == s.catalogue[id])
  {
    if images != [] {
      RestoredEntry(s, images[..|images| - 1], id);
    }
  }

  // ---------------------------------------------------------------- compensation is the inverse

  /** The catalogue has the members and the values it had. */
  ghost predicate SameValues(c: Catalogue, c': Catalogue) {
    c.Keys == c'.Keys && forall id :: id in c && id in c' ==> c'[id].values == c[id].values
  }

  function Undone(c: Catalogue, fetched: seq<Snapshot>): Catalogue
    requires NoneBlank(fetched)
  {
    Compensated(Apply(Begin(c), fetched)).catalogue
  }

  lemma UndoneEntry(c: Catalogue, fetched: seq<Snapshot>, id: nat)
    requires NoneBlank(fetched)
    ensures id in Undone(c, fetched) <==> id in c
    ensures id in c ==> Undone(c, fetched)[id].values == BeforeLastChange(c[id].values, History(fetched, id))
  {
    var s := Apply(Begin(c), fetched);
    AppliedNewEntries(c, fetched);
    RestoredEntry(s.(catalogue := Deleted(s.catalogue, s.created)), s.updated, id);
    if id in c {
      AppliedEntry(c, fetched, id);
    }
  }

  /** Compensation, exactly.  For every catalogue and every fetched list, applying and compensating gives
      every entry's membership and values back if and only if, for each entry, the values before the last
      change the list makes to it are the ones it began with. */
  lemma CompensationRestoresExactly(c: Catalogue, fetched: seq<Snapshot>)
    requires NoneBlank(fetched)
    ensures SameValues(c, Undone(c, fetched)) <==>
      forall id :: id in c ==> BeforeLastChange(c[id].values, History(fetched, id)) == c[id].values
  {
    forall id ensures id in Undone(c, fetched) <==> id in c {
      UndoneEntry(c, fetched, id);
    }
    forall id | id in c
      ensures Undone(c, fetched)[id].values == BeforeLastChange(c[id].values, History(fetched, id))
    {
      UndoneEntry(c, fetched, id);
    }
  }

  ghost predicate DistinctIds(fetched: seq<Snapshot>) {
    forall i, j :: 0 <= i < j < |fetched| ==> fetched[i].id != fetched[j].id
  }

  lemma {:induction false} HistoryOfDistinct(fetched: seq<Snapshot>, id: nat)
    requires NoneBlank(fetched) && DistinctIds(fetched)
    ensures |History(fetched, id)| <= 1
    ensures History(fetched, id) != [] ==> exists k :: 0 <= k < |fetched| && fetched[k].id == id
  {
    if fetched != [] {
      HistoryOfDistinct(fetched[..|fetched| - 1], id);
    }
  }

  /** With distinct identifiers the compensation is the inverse of the step. */
  lemma CompensationRestoresDistinct(c: Catalogue, fetched: seq<Snapshot>)
    requires NoneBlank(fetched) && DistinctIds(fetched)
    ensures SameValues(c, Undone(c, fetched))
  {
    forall id | id in c ensures BeforeLastChange(c[id].values, History(fetched, id)) == c[id].values {
      HistoryOfDistinct(fetched, id);
      var history := History(fetched, id);
      assert history == [] || history[..0] == [];
    }
    CompensationRestoresExactly(c, fetched);
  }

  /** Two different records of one entry: the second before-image is restored last, so the compensation
      leaves the first record's values. */
  lemma DuplicateRecordIsNotUndone()
    ensures
      var original, first, second := Values("a", "a", 1, 0), Values("b", "b", 1, 0), Values("c", "c", 1, 0);
      var fetched := [Snapshot(7, first), Snapshot(7, second)];
      var c := map[7 := Species(original, 1)];
      NoneBlank(fetched) && 7 in Undone(c, fetched) && Undone(c, fetched)[7].values == first
  {
    var original, first, second := Values("a", "a", 1, 0), Values("b", "b", 1, 0), Values("c", "c", 1, 0);
    var fetched := [Snapshot(7, first), Snapshot(7, second)];
    assert Strip("b") == "b" && Strip("c") == "c";
    assert Normalized(first) == Some(first) && Normalized(second) == Some(second);
    var c := map[7 := Species(original, 1)];
    assert fetched[..1] == [fetched[0]] && fetched[..1][..0] == [];
    assert History(fetched[..1], 7) == [first];
    assert History(fetched, 7) == [first] + [second];
    assert ([first] + [second])[..1] == [first];
    UndoneEntry(c, fetched, 7);
  }

  // ---------------------------------------------------------------- versions

  /** How many of the images name one entry. */
  function Images(images: seq<Snapshot>, id: nat): nat {
    if images == [] then 0
    else Images(images[..|images| - 1], id) + (if images[|images| - 1].id == id then 1 else 0)
  }

  /** A version is taken exactly with a before-image. */
  lemma ApplyOneCounts(s: Sync, id: nat, v: Values, other: nat)
    requires other in s.catalogue
    ensures
      var t := ApplyOne(s, id, v);
      other in t.catalogue
      && t.catalogue[other].version + Images(s.updated, other) == s.catalogue[other].version + Images(t.updated, other)
  {
    if id in s.catalogue {
      var grown := s.updated + [Snapshot(id, s.catalogue[id].values)];
      assert grown[..|s.updated|] == s.updated;
    }
  }

  lemma {:induction false} AppliedVersion(c: Catalogue, fetched: seq<Snapshot>, id: nat)
    requires NoneBlank(fetched) && id in c
    ensures
      var s := Apply(Begin(c), fetched);
      id in s.catalogue && s.catalogue[id].version == c[id].version + Images(s.updated, id)
  {
    if fetched != [] {
      var k := |fetched| - 1;
      AppliedVersion(c, fetched[..k], id);
      ApplyOneCounts(Apply(Begin(c), fetched[..k]), fetched[k].id, Normalized(fetched[k].values).value, id);
    }
  }

  ghost predicate Mentions(fetched: seq<Snapshot>, id: nat) {
    exists k :: 0 <= k < |fetched| && fetched[k].id == id
  }

  lemma ApplyOneSets(s: Sync, id: nat, v: Values)
    ensures id in ApplyOne(s, id, v).catalogue && ApplyOne(s, id, v).catalogue[id].values == v
  {
  }

  lemma ApplyOneElsewhere(s: Sync, id: nat, v: Values, other: nat)
    requires id != other && other in s.catalogue
    ensures
      var t := ApplyOne(s, id, v);
      other in t.catalogue && t.catalogue[other] == s.catalogue[other] && Images(t.updated, other) == Images(s.updated, other)
  {
    if id in s.catalogue {
      var grown := s.updated + [Snapshot(id, s.catalogue[id].values)];
      assert grown[..|s.updated|] == s.updated;
    }
  }

  lemma {:induction false} UntouchedEntry(c: Catalogue, fetched: seq<Snapshot>, id: nat)
    requires NoneBlank(fetched) && id in c && !Mentions(fetched, id)
    ensures
      var s := Apply(Begin(c), fetched);
      id in s.catalogue && s.catalogue[id] == c[id] && Images(s.updated, id) == 0
  {
    if fetched != [] {
      var k := |fetched| - 1;
      assert forall j :: 0 <= j < k ==> fetched[..k][j] == fetched[j];
      UntouchedEntry(c, fetched[..k], id);
      ApplyOneElsewhere(Apply(Begin(c), fetched[..k]), fetched[k].id, Normalized(fetched[k].values).value, id);
    }
  }

  /** With distinct identifiers a changed entry has exactly one before-image. */
  lemma {:induction false} ImagesOfDistinct(c: Catalogue, fetched: seq<Snapshot>, id: nat)
    requires NoneBlank(fetched) && DistinctIds(fetched) && id in c
    ensures
      var s := Apply(Begin(c), fetched);
      id in s.catalogue && Images(s.updated, id) == (if s.catalogue[id].values != c[id].values then 1 else 0)
  {
    if fetched != [] {
      var k := |fetched| - 1;
      var s, v := Apply(Begin(c), fetched[..k]), Normalized(fetched[k].values).value;
      if fetched[k].id == id {
        UntouchedEntry(c, fetched[..k], id);
        var grown := s.updated + [Snapshot(id, s.catalogue[id].values)];
        assert grown[..|s.updated|] == s.updated;
      } else {
        ImagesOfDistinct(c, fetched[..k], id);
        ApplyOneElsewhere(s, fetched[k].id, v, id);
      }
    }
  }

  lemma {:induction false} ImagesExist(images: seq<Snapshot>, id: nat)
    ensures Images(images, id) == 0 <==> LastImage(images, id).None?
  {
    if images != [] {
      ImagesExist(images[..|images| - 1], id);
    }
  }

  lemma {:induction false} RestoredOnce(s: Sync, images: seq<Snapshot>, id: nat)
    requires id in s.catalogue && Images(images, id) <= 1
    requires LastImage(images, id).Some? ==> LastImage(images, id).value != s.catalogue[id].values
    ensures
      var t := Restore(s, images);
      id in t.catalogue && t.catalogue[id].version == s.catalogue[id].version + Images(images, id)
  {
    if images != [] {
      var k := |images| - 1;
      if images[k].id == id {
        ImagesExist(images[..k], id);
        RestoredEntry(s, images[..k], id);
      } else {
        RestoredOnce(s, images[..k], id);
      }
    }
  }

  /** A rollback is a change that readers see: an entry the list changed ends two versions up with its old
      values, every other entry ends exactly as it was. */
  lemma ChangedEntriesEndTwoVersionsUp(c: Catalogue, fetched: seq<Snapshot>, id: nat)
    requires NoneBlank(fetched) && DistinctIds(fetched) && id in c
    ensures id in Apply(Begin(c), fetched).catalogue && id in Undone(c, fetched)
    ensures
      var changed := Apply(Begin(c), fetched).catalogue[id].values != c[id].values;
      Undone(c, fetched)[id] == Species(c[id].values, c[id].version + if changed then 2 else 0)
  {
    var s := Apply(Begin(c), fetched);
    AppliedEntry(c, fetched, id);
    AppliedVersion(c, fetched, id);
    ImagesOfDistinct(c, fetched, id);
    ImagesExist(s.updated, id);
    UndoneEntry(c, fetched, id);
    CompensationRestoresDistinct(c, fetched);
    RestoredOnce(s.(catalogue := Deleted(s.catalogue, s.created)), s.updated, id);
  }

  // ---------------------------------------------------------------- what readers are told

  /** The catalogue a reader has who takes over every announced entry. */
  function Told(c: Catalogue, events: seq<Event>): Catalogue {
    if events == [] then c
    else
      var k := |events| - 1;
      Told(c, events[..k])[events[k].id := events[k].entry]
  }

  /** Between `s` and `t`, readers were told everything. */
  ghost predicate Announced(s: Sync, t: Sync) {
    s.outbox <= t.outbox && Told(s.catalogue, t.outbox[|s.outbox|..]) == t.catalogue
  }

  lemma AnnouncedOnce(s: Sync, t: Sync, u: Sync, e: Event)
    requires Announced(s, t) && u.outbox == t.outbox + [e] && u.catalogue == t.catalogue[e.id := e.entry]
    ensures Announced(s, u)
  {
    var events := u.outbox[|s.outbox|..];
    assert events == t.outbox[|s.outbox|..] + [e];
    assert events[..|events| - 1] == t.outbox[|s.outbox|..];
  }

  lemma AnnouncedNothing(s: Sync)
    ensures Announced(s, s)
  {
    assert s.outbox[|s.outbox|..] == [];
  }

  /** A reader who takes over every announced entry has the catalogue, whatever list was applied. */
  lemma {:induction false} ApplicationIsAnnounced(s: Sync, fetched: seq<Snapshot>)
    requires NoneBlank(fetched)
    ensures Announced(s, Apply(s, fetched))
  {
    AnnouncedNothing(s);
    if fetched != [] {
      var k := |fetched| - 1;
      var t, u := Apply(s, fetched[..k]), Apply(s, fetched);
      ApplicationIsAnnounced(s, fetched[..k]);
      if u.outbox != t.outbox {
        AnnouncedOnce(s, t, u, u.outbox[|t.outbox|]);
      }
    }
  }

  /** So has one after a compensation, but for the entries it deleted, which nobody announces. */
  lemma {:induction false} RestorationIsAnnounced(s: Sync, images: seq<Snapshot>)
    ensures Announced(s, Restore(s, images))
  {
    AnnouncedNothing(s);
    if images != [] {
      var k := |images| - 1;
      var t, u := Restore(s, images[..k]), Restore(s, images);
      RestorationIsAnnounced(s, images[..k]);
      if u.outbox != t.outbox {
        AnnouncedOnce(s, t, u, u.outbox[|t.outbox|]);
      }
    }
  }

  /** How often an entry was announced as updated. */
  function Updates(events: seq<Event>, id: nat): nat {
    if events == [] then 0
    else
      var last := events[|events| - 1];
      Updates(events[..|events| - 1], id) + (if last.SpeciesUpdated? && last.id == id then 1 else 0)
  }

  lemma OneMoreUpdate(events: seq<Event>, e: Event, id: nat)
    ensures Updates(events + [e], id) == Updates(events, id) + (if e.SpeciesUpdated? && e.id == id then 1 else 0)
  {
    assert (events + [e])[..|events|] == events;
  }

  /** An entry's version counts its updates, from the one it had, or from one when the list created it. */
  lemma {:induction false} VersionsCountUpdates(c: Catalogue, fetched: seq<Snapshot>, id: nat)
    requires NoneBlank(fetched)
    ensures
      var s := Apply(Begin(c), fetched);
      && (id in s.catalogue ==> s.catalogue[id].version == (if id in c then c[id].version else 1) + Updates(s.outbox, id))
      && (id !in s.catalogue ==> id !in c && Updates(s.outbox, id) == 0)
  {
    if fetched != [] {
      var k := |fetched| - 1;
      var t, s := Apply(Begin(c), fetched[..k]), Apply(Begin(c), fetched);
      VersionsCountUpdates(c, fetched[..k], id);
      if s.outbox != t.outbox {
        OneMoreUpdate(t.outbox, s.outbox[|t.outbox|], id);
        assert s.outbox == t.outbox + [s.outbox[|t.outbox|]];
      }
    }
  }

  // ---------------------------------------------------------------- applying twice

  /** Records of one entry never contradict each other. */
  ghost predicate Consistent(fetched: seq<Snapshot>)
    requires NoneBlank(fetched)
  {
    forall i, j :: 0 <= i < j < |fetched| && fetched[i].id == fetched[j].id ==>
      Normalized(fetched[i].values) == Normalized(fetched[j].values)
  }

  predicate MatchesAt(c: Catalogue, r: Snapshot) {
    r.id in c && Some(c[r.id].values) == Normalized(r.values)
  }

  ghost predicate Matches(c: Catalogue, fetched: seq<Snapshot>)
    requires NoneBlank(fetched)
  {
    forall k :: 0 <= k < |fetched| ==> MatchesAt(c, fetched[k])
  }

  lemma ApplyOneSpeaksIffDifferent(s: Sync, id: nat, v: Values)
    ensures ApplyOne(s, id, v) == s <==> id in s.catalogue && s.catalogue[id].values == v
    ensures |ApplyOne(s, id, v).outbox| == |s.outbox| + (if ApplyOne(s, id, v) == s then 0 else 1)
  {
    if id !in s.catalogue || s.catalogue[id].values != v {
      assert |ApplyOne(s, id, v).outbox| == |s.outbox| + 1;
    }
  }

  lemma MatchesOneMore(c: Catalogue, fetched: seq<Snapshot>, k: nat)
    requires k + 1 == |fetched| && NoneBlank(fetched)
    ensures Matches(c, fetched) <==>
      Matches(c, fetched[..k]) && MatchesAt(c, fetched[k])
  {
    assert forall j :: 0 <= j < k ==> fetched[..k][j] == fetched[j];
  }

  /** A list is silent, changing nothing and announcing nothing, exactly when it matches the catalogue. */
  lemma {:induction false} SilentIffMatches(s: Sync, fetched: seq<Snapshot>)
    requires NoneBlank(fetched)
    ensures Matches(s.catalogue, fetched) ==> Apply(s, fetched) == s
    ensures !Matches(s.catalogue, fetched) ==> |Apply(s, fetched).outbox| > |s.outbox|
  {
    if fetched != [] {
      var k := |fetched| - 1;
      SilentIffMatches(s, fetched[..k]);
      MatchesOneMore(s.catalogue, fetched, k);
      ApplyOneSpeaksIffDifferent(Apply(s, fetched[..k]), fetched[k].id, Normalized(fetched[k].values).value);
    }
  }

  /** The last record of an entry decides its values. */
  lemma {:induction false} LastRecordWins(s: Sync, fetched: seq<Snapshot>, i: nat)
    requires NoneBlank(fetched) && i < |fetched|
    requires forall j :: i < j < |fetched| ==> fetched[j].id != fetched[i].id
    ensures fetched[i].id in Apply(s, fetched).catalogue
    ensures Some(Apply(s, fetched).catalogue[fetched[i].id].values) == Normalized(fetched[i].values)
  {
    var k := |fetched| - 1;
    var before, v := Apply(s, fetched[..k]), Normalized(fetched[k].values).value;
    if i == k {
      ApplyOneSets(before, fetched[k].id, v);
    } else {
      assert fetched[..k][i] == fetched[i] && fetched[k].id != fetched[i].id;
      LastRecordWins(s, fetched[..k], i);
      ApplyOneElsewhere(before, fetched[k].id, v, fetched[i].id);
    }
  }

  lemma {:induction false} LastRecordOf(fetched: seq<Snapshot>, i: nat) returns (last: nat)
    requires i < |fetched|
    ensures i <= last < |fetched| && fetched[last].id == fetched[i].id
    ensures forall j :: last < j < |fetched| ==> fetched[j].id != fetched[i].id
    decreases |fetched| - i
  {
    if j :| i < j < |fetched| && fetched[j].id == fetched[i].id {
      last := LastRecordOf(fetched, j);
    } else {
      last := i;
    }
  }

  lemma MatchingIsConsistent(c: Catalogue, fetched: seq<Snapshot>)
    requires NoneBlank(fetched) && Matches(c, fetched)
    ensures Consistent(fetched)
  {
  }

  lemma ConsistentMatchesAt(s: Sync, fetched: seq<Snapshot>, k: nat)
    requires NoneBlank(fetched) && Consistent(fetched) && k < |fetched|
    ensures MatchesAt(Apply(s, fetched).catalogue, fetched[k])
  {
    var last := LastRecordOf(fetched, k);
    LastRecordWins(s, fetched, last);
    assert last == k || Normalized(fetched[k].values) == Normalized(fetched[last].values);
  }

  lemma ConsistentMatchesItself(s: Sync, fetched: seq<Snapshot>)
    requires NoneBlank(fetched) && Consistent(fetched)
    ensures Matches(Apply(s, fetched).catalogue, fetched)
  {
    var c := Apply(s, fetched).catalogue;
    forall k | 0 <= k < |fetched| ensures MatchesAt(c, fetched[k]) {
      ConsistentMatchesAt(s, fetched, k);
    }
  }

  /** Idempotence, exactly: a second application of the same list changes nothing and records no event if
      and only if its records never contradict each other; distinct identifiers are one such case. */
  lemma SecondApplicationIsSilent(c: Catalogue, fetched: seq<Snapshot>)
    requires NoneBlank(fetched)
    ensures Apply(Apply(Begin(c), fetched), fetched) == Apply(Begin(c), fetched) <==> Consistent(fetched)
    ensures DistinctIds(fetched) ==> Consistent(fetched)
  {
    var once := Apply(Begin(c), fetched);
    SilentIffMatches(once, fetched);
    if Consistent(fetched) {
      ConsistentMatchesItself(Begin(c), fetched);
    } else if Matches(once.catalogue, fetched) {
      MatchingIsConsistent(once.catalogue, fetched);
    }
  }
}
