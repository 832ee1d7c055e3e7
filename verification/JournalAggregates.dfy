/** The journal as the objects the code changes in place, each method proved against the journal as a
    value: the stream that registers entries, the aggregate that replays and appends, the loading loop
    that checks continuity, and the read models. */
module JournalAggregates {
  import opened Wrappers
  import opened Journal

  class JournalStream {
    const plant: nat
    var entries: seq<Entry>
    var ids: set<nat>

    ghost predicate Valid()
      reads this
    {
      && Replayable(plant, entries)
      && (forall id :: id in ids <==> Has(entries, id))
    }

    constructor (plant: nat)
      ensures Valid() && this.plant == plant && entries == []
    {
      this.plant := plant;
      entries, ids := [], {};
    }

    /** Reject an entry of another plant, then a repeated entry; a rejected entry changes nothing. */
    method Register(e: Entry) returns (r: Result<(), Error>)
      requires Valid()
      modifies this
      ensures Valid()
      ensures r == if e.plant != plant then Err(PlantMismatch)
                   else if Has(old(entries), e.id) then Err(AlreadyAppended) else Ok(())
      ensures entries == if r.Ok? then old(entries) + [e] else old(entries)
    {
      if e.plant != plant {
        return Err(PlantMismatch);
      }
      if e.id in ids {
        return Err(AlreadyAppended);
      }
      forall id { HasAppended(entries, e, id); }
      assert forall k :: 0 <= k < |entries| ==> entries[k].id != e.id;
      entries := entries + [e];
      ids := ids + {e.id};
      r := Ok(());
    }

    method Find(id: nat) returns (found: Option<Entry>)
      requires Valid()
      ensures found.None? <==> !Has(entries, id)
      ensures found.Some? ==> found.value in entries && found.value.id == id
    {
      var k := 0;
      while k < |entries|
        invariant 0 <= k <= |entries|
        invariant forall j :: 0 <= j < k ==> entries[j].id != id
      {
        if entries[k].id == id {
          return Some(entries[k]);
        }
        k := k + 1;
      }
      found := None;
    }
  }

  class JournalAggregate {
    const stream: JournalStream
    var version: nat
    /** Facts recorded here that the store does not hold yet. */
    var events: seq<Entry>

    ghost predicate Valid()
      reads this, stream
    {
      stream.Valid()
    }

    ghost function Abstract(): State
      reads this, stream
    {
      State(stream.plant, stream.entries, version)
    }

    constructor (plant: nat)
      ensures Valid() && fresh(stream) && events == []
      ensures Abstract() == State(plant, [], 0)
    {
      stream := new JournalStream(plant);
      version, events := 0, [];
    }

    /** Take over a checkpoint: register its rebuilt entries, then its version. */
    method RestoreFrom(c: Checkpoint) returns (r: Result<(), Error>)
      requires Valid() && Abstract() == State(c.plant, [], 0)
      modifies this, stream
      ensures Valid() && events == old(events)
      ensures r.Ok? <==> Restore(c).Ok?
      ensures r.Ok? ==> Abstract() == Restore(c).value
      ensures r.Err? ==> r.error == Restore(c).error
    {
      ghost var rebuilt := seq(|c.entries|, k requires 0 <= k < |c.entries| => ToDomain(c.entries[k], c.plant));
      var k := 0;
      while k < |c.entries|
        invariant 0 <= k <= |c.entries|
        invariant Valid() && events == old(events) && stream.plant == c.plant
        invariant Replay(State(c.plant, [], 0), rebuilt) == Replay(State(c.plant, stream.entries, k), rebuilt[k..])
        modifies this, stream
      {
        var e := ToDomain(c.entries[k], c.plant);
        assert rebuilt[k..][0] == e && rebuilt[k..][1..] == rebuilt[k + 1..];
        RebuiltTwice(Entry(c.entries[k].id, c.plant, c.entries[k].kind, c.entries[k].at, c.entries[k].note));
        var registered := stream.Register(e);
        if registered.Err? {
          return Err(registered.error);
        }
        k := k + 1;
      }
      version := c.version;
      r := Ok(());
    }

    /** Fold one stored event into the state, recording nothing. */
    method Apply(e: Entry) returns (r: Result<(), Error>)
      requires Valid()
      modifies this, stream
      ensures Valid() && events == old(events)
      ensures r.Ok? <==> Journal.Apply(old(Abstract()), e).Ok?
      ensures r.Ok? ==> Abstract() == Journal.Apply(old(Abstract()), e).value
      ensures r.Ok? ==>
        && |stream.entries| == |old(stream.entries)| + 1 && old(stream.entries) <= stream.entries
        && Keeps(e, stream.entries[|stream.entries| - 1]) && version == old(version) + 1
      ensures r.Err? ==> Abstract() == old(Abstract()) && r.error == Journal.Apply(old(Abstract()), e).error
    {
      RebuiltKeeps(e);
      r := stream.Register(Rebuilt(e));
      if r.Ok? {
        version := version + 1;
      }
    }

    /** The only way a new fact enters the stream: it is recorded once, with the note it will keep. */
    method AddEntry(id: nat, kind: nat, at: int, note: Option<string>) returns (r: Result<Entry, Error>)
      requires Valid()
      modifies this, stream
      ensures Valid()
      ensures r.Err? <==> Has(old(stream.entries), id)
      ensures r.Err? ==> r.error == AlreadyAppended && Abstract() == old(Abstract())
      ensures r.Ok? ==>
        && r.value == Rebuilt(Entry(id, stream.plant, kind, at, note))
        && Journal.Apply(old(Abstract()), r.value) == Ok(Abstract())
        && Keeps(Entry(id, stream.plant, kind, at, note), r.value)
        && stream.entries == old(stream.entries) + [r.value] && version == old(version) + 1
      ensures events == old(events) + [Rebuilt(Entry(id, stream.plant, kind, at, note))]
      ensures Keeps(Entry(id, stream.plant, kind, at, note), events[|events| - 1])
    {
      var entry := Rebuilt(Entry(id, stream.plant, kind, at, note));
      RebuiltTwice(Entry(id, stream.plant, kind, at, note));
      RebuiltKeeps(Entry(id, stream.plant, kind, at, note));
      events := events + [entry];
      var registered := stream.Register(entry);
      if registered.Err? {
        return Err(registered.error);
      }
      version := version + 1;
      r := Ok(entry);
    }
  }

  // ---------------------------------------------------------------- loading

  datatype Stored = Stored(version: nat, event: StoredEvent)
  datatype StoredEvent = JournalEntryAdded(entry: Entry) | AnotherEvent

  /** The stream behind a journal is exactly its continuation: consecutive versions, journal events only. */
  ghost predicate Continues(version: nat, stored: seq<Stored>) {
    forall k :: 0 <= k < |stored| ==> stored[k].version == version + 1 + k && stored[k].event.JournalEntryAdded?
  }

  ghost function Entries(version: nat, stored: seq<Stored>): (r: seq<Entry>)
    requires Continues(version, stored)
    ensures |r| == |stored|
  {
    seq(|stored|, k requires 0 <= k < |stored| => stored[k].event.entry)
  }

  /** `load_journal_aggregate` over what its two reads returned: it loads exactly when the checkpoint
      can be restored, the stored events continue it without a gap, and they replay; and then it holds
      the checkpoint's journal with those events applied, and nothing to store. */
  method LoadJournal(plant: nat, checkpoint: Option<Checkpoint>, stored: seq<Stored>)
      returns (r: Result<(), Error>, aggregate: JournalAggregate)
    requires checkpoint.Some? ==> checkpoint.value.plant == plant
    ensures fresh(aggregate) && fresh(aggregate.stream) && aggregate.Valid() && aggregate.events == []
    ensures
      var start := if checkpoint.None? then Ok(State(plant, [], 0)) else Restore(checkpoint.value);
      && (r.Ok? <==>
            start.Ok? && Continues(start.value.version, stored)
            && Replay(start.value, Entries(start.value.version, stored)).Ok?)
      && (r.Ok? ==> aggregate.Abstract() == Replay(start.value, Entries(start.value.version, stored)).value)
  {
    aggregate := new JournalAggregate(plant);
    if checkpoint.Some? {
      r := aggregate.RestoreFrom(checkpoint.value);
      if r.Err? {
        return;
      }
    }
    ghost var start := aggregate.Abstract();
    ghost var replayed: seq<Entry> := [];
    var expected := aggregate.version + 1;
    var k := 0;
    while k < |stored|
      invariant 0 <= k <= |stored| && expected == start.version + 1 + k
      invariant aggregate.Valid() && aggregate.events == []
      invariant fresh(aggregate) && fresh(aggregate.stream)
      invariant Continues(start.version, stored[..k]) && replayed == Entries(start.version, stored[..k])
      invariant Replay(start, replayed) == Ok(aggregate.Abstract())
      modifies aggregate, aggregate.stream
    {
      if stored[k].version != expected {
        return Err(VersionGap), aggregate;
      }
      if stored[k].event.AnotherEvent? {
        return Err(ForeignEvent), aggregate;
      }
      ghost var before := aggregate.Abstract();
      ghost var grown := replayed + [stored[k].event.entry];
      ReplayGrows(start, replayed, stored[k].event.entry);
      r := aggregate.Apply(stored[k].event.entry);
      if r.Err? {
        if Continues(start.version, stored) {
          assert grown <= Entries(start.version, stored);
          ReplayOfPrefix(start, grown, Entries(start.version, stored));
        }
        return;
      }
      assert stored[..k + 1] == stored[..k] + [stored[k]];
      assert Continues(start.version, stored[..k + 1]);
      assert Entries(start.version, stored[..k + 1]) == grown;
      replayed := grown;
      expected := expected + 1;
      k := k + 1;
    }
    assert stored[..k] == stored;
    r := Ok(());
  }

  lemma {:induction false} ReplayGrows(j: State, events: seq<Entry>, e: Entry)
    requires Replay(j, events).Ok?
    ensures Replay(j, events + [e]) == Journal.Apply(Replay(j, events).value, e)
    decreases |events|
  {
    if events == [] {
      assert (events + [e])[1..] == [];
    } else {
      assert (events + [e])[1..] == events[1..] + [e];
      ReplayGrows(Journal.Apply(j, events[0]).value, events[1..], e);
    }
  }

  lemma {:induction false} ReplayOfPrefix(j: State, head: seq<Entry>, events: seq<Entry>)
    requires head <= events && Replay(j, head).Err?
    ensures Replay(j, events) == Replay(j, head)
    decreases |head|
  {
    if head != [] && Journal.Apply(j, head[0]).Ok? {
      ReplayOfPrefix(Journal.Apply(j, head[0]).value, head[1..], events[1..]);
    }
  }

  // ---------------------------------------------------------------- read models

  function UpTo(entries: seq<Entry>, moment: int): (r: seq<Entry>)
    ensures forall e :: e in r <==> e in entries && e.at <= moment
  {
    if entries == [] then []
    else
      assert forall e :: e in entries <==> e == entries[0] || e in entries[1..];
      (if entries[0].at <= moment then [entries[0]] else []) + UpTo(entries[1..], moment)
  }

  /** How many leading entries are not after the moment. */
  function Cut(entries: seq<Entry>, moment: int): (n: nat)
    ensures n <= |entries|
  {
    if entries == [] || entries[0].at > moment then 0 else 1 + Cut(entries[1..], moment)
  }

  lemma {:induction false} LaterCut(entries: seq<Entry>, earlier: int, later: int)
    requires earlier <= later
    ensures Cut(entries, earlier) <= Cut(entries, later)
  {
    if entries != [] {
      LaterCut(entries[1..], earlier, later);
    }
  }

  lemma SortedTail(entries: seq<Entry>)
    requires Sorted(entries) && entries != []
    ensures Sorted(entries[1..])
  {
  }

  lemma {:induction false} UpToIsCut(entries: seq<Entry>, moment: int)
    requires Sorted(entries)
    ensures UpTo(entries, moment) == entries[..Cut(entries, moment)]
  {
    if entries != [] {
      if entries[0].at > moment {
        NothingBefore(entries, moment);
      } else {
        var rest, n := entries[1..], Cut(entries[1..], moment);
        SortedTail(entries);
        UpToIsCut(rest, moment);
        assert entries[..n + 1] == [entries[0]] + rest[..n];
      }
    }
  }

  /** `state_at`: a temporal query cuts the canonical journal at one place, so the answers for later
      moments only ever extend the answers for earlier ones. */
  lemma StateAtIsAPrefix(entries: seq<Entry>, earlier: int, later: int)
    requires Sorted(entries) && earlier <= later
    ensures UpTo(entries, earlier) <= UpTo(entries, later) <= entries
  {
    UpToIsCut(entries, earlier);
    UpToIsCut(entries, later);
    LaterCut(entries, earlier, later);
  }

  lemma NothingBefore(entries: seq<Entry>, moment: int)
    requires Sorted(entries) && entries != [] && entries[0].at > moment
    ensures UpTo(entries, moment) == []
  {
    var r := UpTo(entries, moment);
    if r != [] {
      assert r[0] in entries && r[0].at <= moment;
      SortedHeadIsLeast(entries, r[0]);
      assert false;
    }
  }

  function Kinds(entries: seq<EntryState>): (r: seq<nat>)
    ensures |r| == |entries|
  {
    seq(|entries|, k requires 0 <= k < |entries| => entries[k].kind)
  }

  /** A kind has a count exactly when it occurs, and the count is how often. */
  ghost predicate Counts(counts: map<nat, nat>, kinds: multiset<nat>) {
    && (forall kind :: kind in counts <==> kind in kinds)
    && (forall kind :: kind in counts ==> counts[kind] == kinds[kind])
  }

  lemma CountsOneMore(counts: map<nat, nat>, kinds: multiset<nat>, kind: nat)
    requires Counts(counts, kinds)
    ensures Counts(counts[kind := (if kind in counts then counts[kind] else 0) + 1], kinds + multiset{kind})
  {
  }

  lemma OneMoreKind(entries: seq<EntryState>, k: nat)
    requires k < |entries|
    ensures multiset(Kinds(entries[..k + 1])) == multiset(Kinds(entries[..k])) + multiset{entries[k].kind}
  {
    assert Kinds(entries[..k + 1]) == Kinds(entries[..k]) + [entries[k].kind];
  }

  /** Count the entries per kind: a kind has a count exactly when it occurs, and the count is how often. */
  method CountsByType(entries: seq<EntryState>) returns (counts: map<nat, nat>)
    ensures Counts(counts, multiset(Kinds(entries)))
  {
    counts := map[];
    var k := 0;
    while k < |entries|
      invariant 0 <= k <= |entries| && Counts(counts, multiset(Kinds(entries[..k])))
    {
      var kind := entries[k].kind;
      OneMoreKind(entries, k);
      CountsOneMore(counts, multiset(Kinds(entries[..k])), kind);
      counts := counts[kind := (if kind in counts then counts[kind] else 0) + 1];
      k := k + 1;
    }
    assert entries[..k] == entries;
  }
}
