/** The event-sourced journal of one plant: replay, append, the canonical order on read, checkpoints. */
module Journal {
  import opened Text
  import opened Wrappers

  datatype Error = PlantMismatch | AlreadyAppended | VersionGap | ForeignEvent

  datatype Entry = Entry(id: nat, plant: nat, kind: nat, at: int, note: Option<string>)

  /** Blank notes become no note at all. */
  function NormalizeNote(note: Option<string>): Option<string> {
    if note.None? || Strip(note.value) == [] then None else Some(Strip(note.value))
  }

  /** What rebuilding an entry stores: the constructor normalises the note it is given. */
  function Rebuilt(e: Entry): Entry {
    e.(note := NormalizeNote(e.note))
  }

  lemma RebuiltTwice(e: Entry)
    ensures Rebuilt(Rebuilt(e)) == Rebuilt(e)
  {
    if e.note.Some? {
      StripIdempotent(e.note.value);
    }
  }

  /** What the journal keeps of a note: none exactly when it is absent or all white space, otherwise the note
      without the white space around it. */
  ghost predicate KeepsNote(given: Option<string>, stored: Option<string>) {
    && (stored.None? <==> given.None? || AllSpace(given.value))
    && (stored.Some? ==> Trims(given.value, stored.value))
  }

  /** The stored entry is the given fact: every field as given, and its note kept. */
  ghost predicate Keeps(given: Entry, stored: Entry) {
    && stored.id == given.id && stored.plant == given.plant && stored.kind == given.kind && stored.at == given.at
    && KeepsNote(given.note, stored.note)
  }

  /** No fact is altered when it is rebuilt. */
  lemma RebuiltKeeps(e: Entry)
    ensures Keeps(e, Rebuilt(e))
  {
    if e.note.Some? {
      StripIsExact(e.note.value);
      StripOfSpace(e.note.value);
    }
  }

  // ---------------------------------------------------------------- the canonical order

  /** Chronological order with the entry identifier as the tie break. */
  predicate Before(a: Entry, b: Entry) {
    a.at < b.at || (a.at == b.at && a.id <= b.id)
  }

  ghost predicate Sorted(s: seq<Entry>) {
    forall i, j :: 0 <= i < j < |s| ==> Before(s[i], s[j])
  }

  ghost predicate UniqueIds(s: seq<Entry>) {
    forall i, j :: 0 <= i < j < |s| ==> s[i].id != s[j].id
  }

  lemma InMultiset(s: seq<Entry>)
    ensures forall e :: e in s <==> e in multiset(s)
  {
  }

  function Insert(e: Entry, s: seq<Entry>): (r: seq<Entry>)
    ensures multiset(r) == multiset(s) + multiset{e}
  {
    if s == [] || Before(e, s[0]) then [e] + s
    else
      assert s == [s[0]] + s[1..];
      [s[0]] + Insert(e, s[1..])
  }

  lemma {:induction false} InsertKeepsSorted(e: Entry, s: seq<Entry>)
    requires Sorted(s)
    ensures Sorted(Insert(e, s))
  {
    if s == [] || Before(e, s[0]) {
    } else {
      var rest := Insert(e, s[1..]);
      InsertKeepsSorted(e, s[1..]);
      forall x | x in rest ensures Before(s[0], x) {
        InMultiset(rest);
        InMultiset(s[1..]);
        if x != e {
          assert x in s[1..];
        }
      }
    }
  }

  /** `sorted(entries, key=(occurred_at, id))`. */
  function Chronological(s: seq<Entry>): (r: seq<Entry>)
    ensures multiset(r) == multiset(s)
  {
    if s == [] then []
    else
      assert s == [s[0]] + s[1..];
      Insert(s[0], Chronological(s[1..]))
  }

  lemma {:induction false} ChronologicalIsSorted(s: seq<Entry>)
    ensures Sorted(Chronological(s))
  {
    if s != [] {
      ChronologicalIsSorted(s[1..]);
      InsertKeepsSorted(s[0], Chronological(s[1..]));
    }
  }

  /** What readers see: every entry once, oldest first, and of two at one instant the smaller identifier
      first. */
  lemma ChronologicalIsOldestFirst(s: seq<Entry>)
    requires UniqueIds(s)
    ensures
      var c := Chronological(s);
      && multiset(c) == multiset(s)
      && forall i, j :: 0 <= i < j < |c| ==> c[i].at < c[j].at || (c[i].at == c[j].at && c[i].id < c[j].id)
  {
    ChronologicalIsSorted(s);
    UniqueIdsSurvivePermutation(s, Chronological(s));
  }

  lemma SameMultisetSameElements(a: seq<Entry>, b: seq<Entry>)
    requires multiset(a) == multiset(b)
    ensures |a| == |b| && forall e :: e in a <==> e in b
  {
    assert |multiset(a)| == |a| && |multiset(b)| == |b|;
    InMultiset(a);
    InMultiset(b);
  }

  lemma SortedHeadIsLeast(s: seq<Entry>, e: Entry)
    requires Sorted(s) && e in s
    ensures Before(s[0], e)
  {
  }

  lemma UniqueIdsDecide(s: seq<Entry>, x: Entry, y: Entry)
    requires UniqueIds(s) && x in s && y in s && x.id == y.id
    ensures x == y
  {
  }

  lemma TailOf(s: seq<Entry>)
    requires s != []
    ensures multiset(s[1..]) == multiset(s) - multiset{s[0]}
  {
    assert s == [s[0]] + s[1..];
  }

  /** With unique identifiers the order is total, so sorting is canonical: it forgets how entries arrived. */
  lemma {:induction false} SortIsCanonical(a: seq<Entry>, b: seq<Entry>)
    requires Sorted(a) && Sorted(b) && multiset(a) == multiset(b) && UniqueIds(a)
    ensures a == b
  {
    SameMultisetSameElements(a, b);
    if a != [] {
      SortedHeadIsLeast(a, b[0]);
      SortedHeadIsLeast(b, a[0]);
      UniqueIdsDecide(a, a[0], b[0]);
      TailOf(a);
      TailOf(b);
      SortIsCanonical(a[1..], b[1..]);
      assert a == [a[0]] + a[1..] && b == [b[0]] + b[1..];
    }
  }

  // ---------------------------------------------------------------- replay

  /** The journal as a value: its entries in the order they were registered. */
  datatype State = State(plant: nat, entries: seq<Entry>, version: nat)

  predicate Has(entries: seq<Entry>, id: nat) {
    exists k :: 0 <= k < |entries| && entries[k].id == id
  }

  /** `_register`, then the version bump of `apply`. */
  function Apply(j: State, e: Entry): Result<State, Error> {
    if e.plant != j.plant then Err(PlantMismatch)
    else if Has(j.entries, e.id) then Err(AlreadyAppended)
    else Ok(State(j.plant, j.entries + [Rebuilt(e)], j.version + 1))
  }

  function Replay(j: State, events: seq<Entry>): Result<State, Error>
    decreases |events|
  {
    if events == [] then Ok(j)
    else
      match Apply(j, events[0])
      case Err(e) => Err(e)
      case Ok(next) => Replay(next, events[1..])
  }

  /** The facts of a stream that replays: one plant, no identifier twice. */
  ghost predicate Replayable(plant: nat, events: seq<Entry>) {
    UniqueIds(events) && forall e :: e in events ==> e.plant == plant
  }

  ghost function AllRebuilt(events: seq<Entry>): (r: seq<Entry>)
    ensures |r| == |events| && forall k :: 0 <= k < |r| ==> r[k] == Rebuilt(events[k])
  {
    seq(|events|, k requires 0 <= k < |events| => Rebuilt(events[k]))
  }

  ghost predicate AllNew(j: State, events: seq<Entry>) {
    forall e :: e in events ==> !Has(j.entries, e.id)
  }

  lemma HasAppended(entries: seq<Entry>, e: Entry, id: nat)
    ensures Has(entries + [e], id) <==> Has(entries, id) || id == e.id
  {
    assert (entries + [e])[|entries|] == e;
    if Has(entries, id) {
      var k :| 0 <= k < |entries| && entries[k].id == id;
      assert (entries + [e])[k].id == id;
    }
  }

  lemma UniqueIdsCons(head: Entry, rest: seq<Entry>)
    ensures UniqueIds([head] + rest) <==> UniqueIds(rest) && forall e :: e in rest ==> e.id != head.id
  {
    var all := [head] + rest;
    assert forall k :: 0 <= k < |rest| ==> rest[k] == all[k + 1];
    if UniqueIds(all) {
      forall e | e in rest ensures e.id != head.id {
        var k :| 0 <= k < |rest| && rest[k] == e;
        assert all[0].id != all[k + 1].id;
      }
    }
  }

  lemma ReplayableHead(plant: nat, head: Entry, rest: seq<Entry>)
    ensures Replayable(plant, [head] + rest) <==>
      head.plant == plant && Replayable(plant, rest) && forall e :: e in rest ==> e.id != head.id
  {
    UniqueIdsCons(head, rest);
    assert forall e :: e in [head] + rest <==> e == head || e in rest;
  }

  lemma NewAfterHead(j: State, head: Entry, rest: seq<Entry>)
    requires Apply(j, head).Ok?
    ensures AllNew(Apply(j, head).value, rest) <==> AllNew(j, rest) && forall e :: e in rest ==> e.id != head.id
  {
    forall e | e in rest ensures Has(Apply(j, head).value.entries, e.id) <==> Has(j.entries, e.id) || e.id == head.id {
      HasAppended(j.entries, Rebuilt(head), e.id);
    }
  }

  lemma NewHead(j: State, head: Entry, rest: seq<Entry>)
    ensures AllNew(j, [head] + rest) <==> !Has(j.entries, head.id) && AllNew(j, rest)
  {
    assert forall e :: e in [head] + rest <==> e == head || e in rest;
  }

  /** Whether a stream replays is decided event by event. */
  lemma ReplayableCons(j: State, events: seq<Entry>)
    requires events != []
    ensures (Replayable(j.plant, events) && AllNew(j, events)) <==>
      && Apply(j, events[0]).Ok?
      && Replayable(j.plant, events[1..]) && AllNew(Apply(j, events[0]).value, events[1..])
  {
    var head, rest := events[0], events[1..];
    assert events == [head] + rest;
    ReplayableHead(j.plant, head, rest);
    NewHead(j, head, rest);
    if Apply(j, head).Ok? {
      NewAfterHead(j, head, rest);
    }
  }

  lemma {:induction false} ReplayAccepts(j: State, events: seq<Entry>)
    ensures Replay(j, events).Ok? <==> Replayable(j.plant, events) && AllNew(j, events)
    decreases |events|
  {
    if events != [] {
      ReplayableCons(j, events);
      if Apply(j, events[0]).Ok? {
        ReplayAccepts(Apply(j, events[0]).value, events[1..]);
      }
    }
  }

  lemma RebuiltAppended(entries: seq<Entry>, events: seq<Entry>)
    requires events != []
    ensures entries + [Rebuilt(events[0])] + AllRebuilt(events[1..]) == entries + AllRebuilt(events)
  {
    assert AllRebuilt(events) == [Rebuilt(events[0])] + AllRebuilt(events[1..]);
  }

  lemma {:induction false} ReplayGives(j: State, events: seq<Entry>)
    requires Replay(j, events).Ok?
    ensures Replay(j, events).value == State(j.plant, j.entries + AllRebuilt(events), j.version + |events|)
    decreases |events|
  {
    if events == [] {
      assert j.entries + AllRebuilt([]) == j.entries;
    } else {
      var next := Apply(j, events[0]).value;
      ReplayGives(next, events[1..]);
      RebuiltAppended(j.entries, events);
    }
  }

  /** Replay succeeds exactly on streams of the plant whose identifiers are new and distinct, and then
      appends every event and counts it. */
  lemma ReplayAppends(j: State, events: seq<Entry>)
    ensures Replay(j, events).Ok? <==> Replayable(j.plant, events) && AllNew(j, events)
    ensures Replay(j, events).Ok? ==>
      Replay(j, events).value == State(j.plant, j.entries + AllRebuilt(events), j.version + |events|)
  {
    ReplayAccepts(j, events);
    if Replay(j, events).Ok? {
      ReplayGives(j, events);
    }
  }

  // ---------------------------------------------------------------- checkpoints

  datatype EntryState = EntryState(id: nat, kind: nat, at: int, note: Option<string>)

  datatype Checkpoint = Checkpoint(plant: nat, version: nat, entries: seq<EntryState>)

  function FromDomain(e: Entry): EntryState {
    EntryState(e.id, e.kind, e.at, e.note)
  }

  function ToDomain(s: EntryState, plant: nat): Entry {
    Rebuilt(Entry(s.id, plant, s.kind, s.at, s.note))
  }

  /** `state()`: the whole journal in canonical order at its current version. */
  function Save(j: State): Checkpoint {
    var ordered := Chronological(j.entries);
    Checkpoint(j.plant, j.version, seq(|ordered|, k requires 0 <= k < |ordered| => FromDomain(ordered[k])))
  }

  /** `from_state`: a stream registers the rebuilt entries and the checkpoint's version is taken over. */
  function Restore(c: Checkpoint): Result<State, Error> {
    var entries := seq(|c.entries|, k requires 0 <= k < |c.entries| => ToDomain(c.entries[k], c.plant));
    match Replay(State(c.plant, [], 0), entries)
    case Err(e) => Err(e)
    case Ok(j) => Ok(j.(version := c.version))
  }

  ghost predicate WellFormed(j: State) {
    Replayable(j.plant, j.entries) && AllStored(j.entries)
  }

  ghost predicate AllStored(entries: seq<Entry>) {
    forall e :: e in entries ==> Rebuilt(e) == e
  }

  lemma RebuiltKeepsIdentity(e: Entry)
    ensures Rebuilt(e).id == e.id && Rebuilt(e).plant == e.plant
  {
  }

  lemma RebuiltIsStored(events: seq<Entry>)
    ensures AllStored(AllRebuilt(events))
  {
    forall e | e in AllRebuilt(events) ensures Rebuilt(e) == e {
      var k :| 0 <= k < |events| && AllRebuilt(events)[k] == e;
      RebuiltTwice(events[k]);
    }
  }

  lemma RebuiltIsReplayable(plant: nat, events: seq<Entry>)
    requires Replayable(plant, events)
    ensures Replayable(plant, AllRebuilt(events))
  {
    var r := AllRebuilt(events);
    forall k | 0 <= k < |events| ensures r[k].id == events[k].id && r[k].plant == plant {
      assert events[k] in events;
      RebuiltKeepsIdentity(events[k]);
    }
  }

  lemma ReplayFromStart(plant: nat, events: seq<Entry>)
    ensures Replay(State(plant, [], 0), events).Ok? <==> Replayable(plant, events)
    ensures Replayable(plant, events) ==>
      Replay(State(plant, [], 0), events) == Ok(State(plant, AllRebuilt(events), |events|))
  {
    ReplayAppends(State(plant, [], 0), events);
    assert [] + AllRebuilt(events) == AllRebuilt(events);
  }

  lemma ReplayedIsWellFormed(plant: nat, events: seq<Entry>)
    requires Replay(State(plant, [], 0), events).Ok?
    ensures WellFormed(Replay(State(plant, [], 0), events).value)
  {
    ReplayFromStart(plant, events);
    RebuiltIsStored(events);
    RebuiltIsReplayable(plant, events);
  }

  lemma UniqueIdsSurvivePermutation(a: seq<Entry>, b: seq<Entry>)
    requires multiset(a) == multiset(b) && UniqueIds(a)
    ensures UniqueIds(b)
  {
    SameMultisetSameElements(a, b);
    forall i, j | 0 <= i < j < |b| ensures b[i].id != b[j].id {
      assert b[i] in a && b[j] in a;
      var p, q :| 0 <= p < |a| && 0 <= q < |a| && a[p] == b[i] && a[q] == b[j];
      if b[i] == b[j] {
        TwiceInMultiset(b, i, j);
        OnceWhenUnique(a, p);
      }
    }
  }

  lemma TwiceInMultiset(s: seq<Entry>, i: nat, j: nat)
    requires i < j < |s| && s[i] == s[j]
    ensures multiset(s)[s[i]] >= 2
  {
    assert s == s[..j] + [s[j]] + s[j + 1..];
    assert s[..j][i] in multiset(s[..j]);
  }

  lemma OnceWhenUnique(s: seq<Entry>, p: nat)
    requires UniqueIds(s) && p < |s|
    ensures multiset(s)[s[p]] == 1
  {
    assert s == s[..p] + [s[p]] + s[p + 1..];
    assert s[p] !in s[..p] && s[p] !in s[p + 1..];
    assert s[p] !in multiset(s[..p]) && s[p] !in multiset(s[p + 1..]);
  }

  /** The snapshot round trip: restoring a checkpoint gives the journal back, its entries in canonical
      order, and saving it again gives the same checkpoint. */
  lemma CheckpointRoundTrip(j: State)
    requires WellFormed(j)
    ensures Restore(Save(j)) == Ok(State(j.plant, Chronological(j.entries), j.version))
    ensures Save(State(j.plant, Chronological(j.entries), j.version)) == Save(j)
  {
    var ordered := Chronological(j.entries);
    SameMultisetSameElements(j.entries, ordered);
    UniqueIdsSurvivePermutation(j.entries, ordered);
    var c := Save(j);
    var rebuilt := seq(|c.entries|, k requires 0 <= k < |c.entries| => ToDomain(c.entries[k], c.plant));
    forall k | 0 <= k < |ordered| ensures rebuilt[k] == ordered[k] {
      assert ordered[k] in ordered && ordered[k] in j.entries;
      assert Rebuilt(ordered[k]) == ordered[k];
    }
    assert rebuilt == ordered;
    ChronologicalIsSorted(j.entries);
    ChronologicalIsSorted(ordered);
    ReplayAppends(State(j.plant, [], 0), ordered);
    assert AllRebuilt(ordered) == ordered;
    assert [] + ordered == ordered;
    SortIsCanonical(ordered, Chronological(ordered));
  }

  lemma PartsReplay(plant: nat, events: seq<Entry>, m: nat)
    requires m <= |events| && Replayable(plant, events)
    ensures Replayable(plant, events[..m]) && Replayable(plant, events[m..])
  {
    forall i, j | 0 <= i < j < |events| - m ensures events[m..][i].id != events[m..][j].id {
      assert events[m + i].id != events[m + j].id;
    }
    forall e | e in events[m..] ensures e.plant == plant {
      assert e in events;
    }
  }

  lemma TailIsNew(plant: nat, events: seq<Entry>, m: nat)
    requires m <= |events| && UniqueIds(events)
    ensures AllNew(State(plant, AllRebuilt(events[..m]), m), events[m..])
  {
    forall e | e in events[m..] ensures !Has(AllRebuilt(events[..m]), e.id) {
      var q :| 0 <= q < |events| - m && events[m..][q] == e;
      forall k | 0 <= k < m ensures AllRebuilt(events[..m])[k].id != e.id {
        assert events[k].id != events[m + q].id;
      }
    }
  }

  lemma NewnessIsAboutElements(a: State, b: State, events: seq<Entry>)
    requires multiset(a.entries) == multiset(b.entries) && AllNew(a, events)
    ensures AllNew(b, events)
  {
    SameMultisetSameElements(a.entries, b.entries);
    forall e, k | e in events && 0 <= k < |b.entries| ensures b.entries[k].id != e.id {
      assert b.entries[k] in a.entries;
    }
  }

  /** What loading does after it has read a checkpoint and the events behind it. */
  function Resume(c: Checkpoint, tail: seq<Entry>): Result<State, Error> {
    match Restore(c)
    case Err(e) => Err(e)
    case Ok(j) => Replay(j, tail)
  }

  lemma ResumeFrom(c: Checkpoint, j: State, tail: seq<Entry>)
    requires Restore(c) == Ok(j)
    ensures Resume(c, tail) == Replay(j, tail)
  {
  }

  lemma ReplayOnto(j: State, tail: seq<Entry>)
    requires Replayable(j.plant, tail) && AllNew(j, tail)
    ensures Replay(j, tail) == Ok(State(j.plant, j.entries + AllRebuilt(tail), j.version + |tail|))
  {
    ReplayAppends(j, tail);
  }

  lemma ResumeAppends(c: Checkpoint, j: State, tail: seq<Entry>)
    requires Replayable(j.plant, tail) && AllNew(j, tail)
    requires Restore(c) == Ok(State(j.plant, Chronological(j.entries), j.version))
    ensures Resume(c, tail) == Ok(State(j.plant, Chronological(j.entries) + AllRebuilt(tail), j.version + |tail|))
  {
    var restored := State(j.plant, Chronological(j.entries), j.version);
    NewnessIsAboutElements(j, restored, tail);
    ReplayOnto(restored, tail);
    ResumeFrom(c, restored, tail);
  }

  lemma RebuiltConcatenates(events: seq<Entry>, m: nat)
    requires m <= |events|
    ensures AllRebuilt(events) == AllRebuilt(events[..m]) + AllRebuilt(events[m..])
  {
  }

  /** The main result of snapshots.  Loading from a checkpoint taken anywhere in the stream and replaying
      the rest gives the same journal as replaying everything: the same ordered entries, the same version
      and, for any identifier, the same answer to "is this fact already there?". */
  lemma TailReplayEqualsFullReplay(plant: nat, events: seq<Entry>, m: nat)
    requires m <= |events| && Replay(State(plant, [], 0), events).Ok?
    ensures Replay(State(plant, [], 0), events[..m]).Ok?
    ensures
      var full := Replay(State(plant, [], 0), events).value;
      var saved := Save(Replay(State(plant, [], 0), events[..m]).value);
      Resume(saved, events[m..]).Ok? && SameToReaders(Resume(saved, events[m..]).value, full)
  {
    ReplayFromStart(plant, events);
    PartsReplay(plant, events, m);
    ReplayFromStart(plant, events[..m]);
    var atM := State(plant, AllRebuilt(events[..m]), m);
    TailResumes(plant, events, m);
    ReplayedIsWellFormed(plant, events);
    ResumedElements(events, m);
    SameJournal(Resume(Save(atM), events[m..]).value, State(plant, AllRebuilt(events), |events|));
  }

  lemma TailResumes(plant: nat, events: seq<Entry>, m: nat)
    requires m <= |events| && Replayable(plant, events)
    ensures
      var saved := Save(State(plant, AllRebuilt(events[..m]), m));
      Resume(saved, events[m..]) ==
        Ok(State(plant, Chronological(AllRebuilt(events[..m])) + AllRebuilt(events[m..]), |events|))
  {
    PartsReplay(plant, events, m);
    TailIsNew(plant, events, m);
    ReplayFromStart(plant, events[..m]);
    ReplayedIsWellFormed(plant, events[..m]);
    var atM := State(plant, AllRebuilt(events[..m]), m);
    CheckpointRoundTrip(atM);
    ResumeAppends(Save(atM), atM, events[m..]);
  }

  lemma ResumedElements(events: seq<Entry>, m: nat)
    requires m <= |events|
    ensures multiset(Chronological(AllRebuilt(events[..m])) + AllRebuilt(events[m..])) == multiset(AllRebuilt(events))
  {
    RebuiltConcatenates(events, m);
    ChronologicalIsSorted(AllRebuilt(events[..m]));
  }

  ghost predicate SameToReaders(a: State, b: State) {
    && a.plant == b.plant && a.version == b.version
    && multiset(a.entries) == multiset(b.entries)
    && Save(a) == Save(b)
    && (forall id :: Has(a.entries, id) <==> Has(b.entries, id))
  }

  /** Journals with the same entries are the same to every reader. */
  lemma SameJournal(a: State, b: State)
    requires a.plant == b.plant && a.version == b.version
    requires multiset(a.entries) == multiset(b.entries) && UniqueIds(b.entries)
    ensures SameToReaders(a, b)
  {
    ChronologicalIsSorted(a.entries);
    ChronologicalIsSorted(b.entries);
    UniqueIdsSurvivePermutation(b.entries, Chronological(a.entries));
    SortIsCanonical(Chronological(a.entries), Chronological(b.entries));
    SameMultisetSameElements(a.entries, b.entries);
    forall id ensures Has(a.entries, id) <==> Has(b.entries, id) {
      if Has(a.entries, id) {
        var k :| 0 <= k < |a.entries| && a.entries[k].id == id;
        assert a.entries[k] in b.entries;
      }
      if Has(b.entries, id) {
        var k :| 0 <= k < |b.entries| && b.entries[k].id == id;
        assert b.entries[k] in a.entries;
      }
    }
  }
}
