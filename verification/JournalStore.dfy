/** Any number of writers on the journal of one plant.

    A writer is one transaction of `record_journal_entry`: it reads the newest checkpoint, then the
    events behind it, and finally appends one event, announces it and saves a checkpoint when one is
    due, all committed together.  Between those steps other writers commit freely; nothing but the
    unique key on `(stream, version)` keeps them apart. */
module JournalStore {
  import opened Wrappers
  import opened Journal
  import opened JournalAggregates
  import opened Sequences

  const SNAPSHOT_EVERY := 50

  datatype Writer = SnapshotRead(checkpoint: Option<Checkpoint>) | Loaded(journal: State)

  /** `corrupt` records that some load was refused; `outbox` holds the announced entries in commit order. */
  datatype Store = Store(
    plant: nat, events: map<nat, Entry>, snapshots: map<nat, Checkpoint>, outbox: seq<Entry>,
    writers: map<nat, Writer>, corrupt: bool)

  datatype Action =
    | ReadSnapshot(w: nat)
    | ReadTail(w: nat)
    | Append(w: nat, id: nat, owned: bool, kind: nat, at: int, note: Option<string>)
    | Abort(w: nat)

  /** `should_snapshot`. */
  predicate Due(version: int) {
    version > 0 && version % SNAPSHOT_EVERY == 0
  }

  function WithDue(n: nat, snapshots: map<nat, Checkpoint>, c: Checkpoint): map<nat, Checkpoint> {
    if Due(n) then snapshots[n := c] else snapshots
  }

  ghost function Latest(snapshots: map<nat, Checkpoint>): (c: Option<Checkpoint>)
    ensures c.None? <==> snapshots == map[]
    ensures c.Some? ==> exists v :: v in snapshots && snapshots[v] == c.value && forall u :: u in snapshots ==> u <= v
  {
    var versions: set<int> := set v | v in snapshots;
    if versions == {} then
      assert forall v :: v in snapshots ==> v as int in versions;
      None
    else
      var last: nat := Greatest(versions);
      assert forall u :: u in snapshots ==> u as int in versions;
      Some(snapshots[last])
  }

  ghost function Versions(events: map<nat, Entry>, after: nat): set<int> {
    set v | v in events && v > after :: v as int
  }

  /** The rows of the given versions. */
  ghost function Pick(events: map<nat, Entry>, versions: seq<int>): (r: seq<Stored>)
    requires forall v :: v in versions ==> 0 <= v && v in events
    ensures |r| == |versions|
    ensures forall k :: 0 <= k < |r| ==>
      versions[k] in versions && r[k] == Stored(versions[k], JournalEntryAdded(events[versions[k] as nat]))
  {
    seq(|versions|, k requires 0 <= k < |versions| =>
      assert versions[k] in versions;
      var v: nat := versions[k];
      Stored(v, JournalEntryAdded(events[v])))
  }

  /** `load_stream`: the events strictly after a version, by version. */
  ghost function Behind(events: map<nat, Entry>, version: nat): seq<Stored> {
    Pick(events, Ascending(Versions(events, version)))
  }

  /** What `LoadJournal` loads. */
  ghost function Load(plant: nat, checkpoint: Option<Checkpoint>, stored: seq<Stored>): Result<State, Error> {
    var start := if checkpoint.None? then Ok(State(plant, [], 0)) else Restore(checkpoint.value);
    if start.Ok? && Continues(start.value.version, stored)
    then Replay(start.value, Entries(start.value.version, stored))
    else Err(VersionGap)
  }

  ghost function Finish(s: Store, w: nat): Store {
    s.(writers := s.writers - {w})
  }

  /** The rows of one successful append: the event, its announcement and the checkpoint when it is due. */
  ghost function Rows(s: Store, version: nat, entry: Entry, checkpoint: Checkpoint): Store {
    s.(events := s.events[version := entry], outbox := s.outbox + [entry],
       snapshots := WithDue(version, s.snapshots, checkpoint))
  }

  /** The append and the commit.  A caller-owned identifier that is already there answers with the stored
      entry; a repeated minted one, or a version another writer took, raises and rolls everything back. */
  ghost function AppendEntry(s: Store, j: State, owned: bool, entry: Entry): Store {
    if owned && Has(j.entries, entry.id) then s
    else if Journal.Apply(j, entry).Err? then s
    else
      var next := Journal.Apply(j, entry).value;
      if next.version in s.events || (Due(next.version) && next.version in s.snapshots) then s
      else Rows(s, next.version, entry, Save(next))
  }

  ghost function NewEntry(plant: nat, a: Action): Entry
    requires a.Append?
  {
    Rebuilt(Entry(a.id, plant, a.kind, a.at, a.note))
  }

  ghost function Step(s: Store, a: Action): Store {
    match a
    case ReadSnapshot(w) =>
      if w in s.writers then s else s.(writers := s.writers[w := SnapshotRead(Latest(s.snapshots))])
    case ReadTail(w) =>
      if !(w in s.writers && s.writers[w].SnapshotRead?) then s
      else
        var c := s.writers[w].checkpoint;
        (match Load(s.plant, c, Behind(s.events, if c.None? then 0 else c.value.version))
         case Ok(j) => s.(writers := s.writers[w := Loaded(j)])
         case Err(_) => Finish(s, w).(corrupt := true))
    case Append(w, id, owned, kind, at, note) =>
      if !(w in s.writers && s.writers[w].Loaded?) then s
      else Finish(AppendEntry(s, s.writers[w].journal, owned, NewEntry(s.plant, a)), w)
    case Abort(w) => Finish(s, w)
  }

  ghost function Run(s: Store, actions: seq<Action>): Store
    decreases |actions|
  {
    if actions == [] then s else Run(Step(s, actions[0]), actions[1..])
  }

  function Start(plant: nat): Store {
    Store(plant, map[], map[], [], map[], false)
  }

  // ---------------------------------------------------------------- the invariant

  /** The versions are 1 to n. */
  ghost predicate Gapless(events: map<nat, Entry>) {
    forall v :: v in events <==> 1 <= v <= |events|
  }

  ghost function Log(s: Store): (r: seq<Entry>)
    requires Gapless(s.events)
    ensures |r| == |s.events| && forall k :: 0 <= k < |r| ==> r[k] == s.events[k + 1]
  {
    seq(|s.events|, k requires 0 <= k < |s.events| => s.events[k + 1])
  }

  /** `j` is to every reader the journal after the first `j.version` events of `log`. */
  ghost predicate IsPrefixJournal(plant: nat, log: seq<Entry>, j: State) {
    && j.version <= |log|
    && SameToReaders(j, State(plant, AllRebuilt(log[..j.version]), j.version))
  }

  ghost predicate IsPrefixCheckpoint(plant: nat, log: seq<Entry>, c: Checkpoint) {
    c.version <= |log| && c == Save(State(plant, AllRebuilt(log[..c.version]), c.version))
  }

  ghost predicate SnapshotsDue(n: nat, snapshots: map<nat, Checkpoint>) {
    forall v :: v in snapshots <==> v <= n && Due(v)
  }

  ghost predicate SnapshotTrue(plant: nat, log: seq<Entry>, v: nat, c: Checkpoint) {
    c.version == v && IsPrefixCheckpoint(plant, log, c)
  }

  ghost predicate AllTrue(plant: nat, log: seq<Entry>, snapshots: map<nat, Checkpoint>) {
    forall v :: v in snapshots ==> SnapshotTrue(plant, log, v, snapshots[v])
  }

  ghost predicate SnapshotsTrue(plant: nat, log: seq<Entry>, snapshots: map<nat, Checkpoint>) {
    SnapshotsDue(|log|, snapshots) && AllTrue(plant, log, snapshots)
  }

  ghost predicate WriterTrue(plant: nat, log: seq<Entry>, writer: Writer) {
    match writer
    case SnapshotRead(c) => c.Some? ==> IsPrefixCheckpoint(plant, log, c.value)
    case Loaded(j) => IsPrefixJournal(plant, log, j)
  }

  ghost predicate WritersTrue(plant: nat, log: seq<Entry>, writers: map<nat, Writer>) {
    forall w :: w in writers ==> WriterTrue(plant, log, writers[w])
  }

  /** The stream has no gap and no identifier twice, every event is announced once, every checkpoint is
      the journal of its prefix, every open writer holds the journal of some prefix, no load was refused. */
  ghost predicate Sound(s: Store) {
    && Gapless(s.events) && Replayable(s.plant, Log(s)) && s.outbox == Log(s)
    && SnapshotsTrue(s.plant, Log(s), s.snapshots) && WritersTrue(s.plant, Log(s), s.writers) && !s.corrupt
  }

  // ---------------------------------------------------------------- reading

  lemma {:induction false} ConsecutiveWhenIncreasing(s: seq<int>, low: int, high: int)
    requires Increasing(s) && low <= high
    requires forall x :: x in s <==> low < x <= high
    ensures |s| == high - low && forall k :: 0 <= k < |s| ==> s[k] == low + 1 + k
    decreases |s|
  {
    assert low < high ==> high in s;
    if s != [] {
      var front, last := s[..|s| - 1], s[|s| - 1];
      assert last in s;
      var p :| 0 <= p < |s| && s[p] == high;
      forall x ensures x in front <==> low < x <= high - 1 {
        assert low < x <= high - 1 ==> x in s;
        if x in front {
          var q :| 0 <= q < |front| && front[q] == x;
          assert s[q] in s && s[q] < last;
        }
      }
      ConsecutiveWhenIncreasing(front, low, high - 1);
    }
  }

  lemma VersionsBehind(s: Store, m: nat)
    requires Gapless(s.events) && m <= |s.events|
    ensures |Ascending(Versions(s.events, m))| == |s.events| - m
    ensures forall k :: 0 <= k < |s.events| - m ==> Ascending(Versions(s.events, m))[k] == m + 1 + k
  {
    var wanted := Versions(s.events, m);
    forall x ensures x in Ascending(wanted) <==> m < x <= |s.events| {
      if m < x <= |s.events| {
        var v: nat := x;
        assert v in s.events && v as int == x;
      }
    }
    ConsecutiveWhenIncreasing(Ascending(wanted), m, |s.events|);
  }

  lemma PickedAt(events: map<nat, Entry>, versions: seq<int>, k: nat, v: nat)
    requires forall u :: u in versions ==> 0 <= u && u in events
    requires k < |versions| && versions[k] == v
    ensures v in events && Pick(events, versions)[k] == Stored(v, JournalEntryAdded(events[v]))
  {
    assert versions[k] in versions;
  }

  lemma LogAt(s: Store, i: nat, v: nat)
    requires Gapless(s.events) && i < |s.events| && v == i + 1
    ensures v in s.events && Log(s)[i] == s.events[v]
  {
  }

  lemma PickedFromLog(s: Store, versions: seq<int>, k: nat, i: nat)
    requires Gapless(s.events) && i < |s.events|
    requires forall u :: u in versions ==> 0 <= u && u in s.events
    requires k < |versions| && versions[k] == i + 1
    ensures Pick(s.events, versions)[k] == Stored(i + 1, JournalEntryAdded(Log(s)[i]))
  {
    PickedAt(s.events, versions, k, i + 1);
    LogAt(s, i, i + 1);
  }

  lemma PickedTail(s: Store, versions: seq<int>, m: nat)
    requires Gapless(s.events) && m <= |s.events| && |versions| == |s.events| - m
    requires forall u :: u in versions ==> 0 <= u && u in s.events
    requires forall k :: 0 <= k < |versions| ==> versions[k] == m + 1 + k
    ensures forall k :: 0 <= k < |s.events| - m ==>
      Pick(s.events, versions)[k] == Stored(m + 1 + k, JournalEntryAdded(Log(s)[m + k]))
  {
    forall k | 0 <= k < |s.events| - m
      ensures Pick(s.events, versions)[k] == Stored(m + 1 + k, JournalEntryAdded(Log(s)[m + k]))
    {
      PickedFromLog(s, versions, k, m + k);
    }
  }

  lemma BehindAt(s: Store, m: nat)
    requires Gapless(s.events) && m <= |s.events|
    ensures |Behind(s.events, m)| == |s.events| - m
    ensures forall k :: 0 <= k < |s.events| - m ==>
      Behind(s.events, m)[k] == Stored(m + 1 + k, JournalEntryAdded(Log(s)[m + k]))
  {
    VersionsBehind(s, m);
    PickedTail(s, Ascending(Versions(s.events, m)), m);
  }

  /** Reading behind a version of a gapless stream returns exactly its tail. */
  lemma BehindIsTheTail(s: Store, m: nat)
    requires Gapless(s.events) && m <= |s.events|
    ensures Continues(m, Behind(s.events, m))
    ensures Entries(m, Behind(s.events, m)) == Log(s)[m..]
  {
    BehindAt(s, m);
  }

  lemma WholePrefix(plant: nat, log: seq<Entry>, j: State)
    requires j.version == |log|
    ensures IsPrefixJournal(plant, log, j) <==> SameToReaders(j, State(plant, AllRebuilt(log), |log|))
  {
    assert log[..|log|] == log;
  }

  lemma FullReplayIsThePrefix(plant: nat, log: seq<Entry>)
    requires Replayable(plant, log)
    ensures Replay(State(plant, [], 0), log).Ok? && Replay(State(plant, [], 0), log).value.version == |log|
    ensures IsPrefixJournal(plant, log, Replay(State(plant, [], 0), log).value)
  {
    ReplayFromStart(plant, log);
    ReplayedIsWellFormed(plant, log);
    var full := State(plant, AllRebuilt(log), |log|);
    SameJournal(full, full);
    WholePrefix(plant, log, full);
  }

  lemma ResumeIsThePrefix(plant: nat, log: seq<Entry>, c: Checkpoint)
    requires Replayable(plant, log) && IsPrefixCheckpoint(plant, log, c)
    ensures Resume(c, log[c.version..]).Ok? && Resume(c, log[c.version..]).value.version == |log|
    ensures IsPrefixJournal(plant, log, Resume(c, log[c.version..]).value)
  {
    var m := c.version;
    ReplayFromStart(plant, log);
    TailReplayEqualsFullReplay(plant, log, m);
    ReplayFromStart(plant, log[..m]);
    WholePrefix(plant, log, Resume(c, log[m..]).value);
  }

  lemma LoadFromStart(s: Store)
    requires Gapless(s.events) && Replayable(s.plant, Log(s))
    ensures
      var loaded := Load(s.plant, None, Behind(s.events, 0));
      loaded.Ok? && loaded.value.version == |Log(s)| && IsPrefixJournal(s.plant, Log(s), loaded.value)
  {
    BehindIsTheTail(s, 0);
    assert Log(s)[0..] == Log(s);
    FullReplayIsThePrefix(s.plant, Log(s));
  }

  lemma LoadIsResume(plant: nat, c: Checkpoint, stored: seq<Stored>)
    requires Continues(c.version, stored) && Resume(c, Entries(c.version, stored)).Ok?
    ensures Load(plant, Some(c), stored) == Resume(c, Entries(c.version, stored))
  {
  }

  lemma LoadFromCheckpoint(s: Store, c: Checkpoint)
    requires Gapless(s.events) && Replayable(s.plant, Log(s)) && IsPrefixCheckpoint(s.plant, Log(s), c)
    ensures
      var loaded := Load(s.plant, Some(c), Behind(s.events, c.version));
      loaded.Ok? && loaded.value.version == |Log(s)| && IsPrefixJournal(s.plant, Log(s), loaded.value)
  {
    BehindIsTheTail(s, c.version);
    ResumeIsThePrefix(s.plant, Log(s), c);
    LoadIsResume(s.plant, c, Behind(s.events, c.version));
  }

  /** Whatever was committed after the checkpoint was read, the load succeeds and gives the whole stream. */
  lemma LoadSucceeds(s: Store, c: Option<Checkpoint>)
    requires Gapless(s.events) && Replayable(s.plant, Log(s))
    requires c.Some? ==> IsPrefixCheckpoint(s.plant, Log(s), c.value)
    ensures
      var loaded := Load(s.plant, c, Behind(s.events, if c.None? then 0 else c.value.version));
      loaded.Ok? && loaded.value.version == |Log(s)| && IsPrefixJournal(s.plant, Log(s), loaded.value)
  {
    match c
    case None => LoadFromStart(s);
    case Some(checkpoint) => LoadFromCheckpoint(s, checkpoint);
  }

  // ---------------------------------------------------------------- appending

  lemma CheckpointSurvives(plant: nat, log: seq<Entry>, longer: seq<Entry>, c: Checkpoint)
    requires log <= longer && IsPrefixCheckpoint(plant, log, c)
    ensures IsPrefixCheckpoint(plant, longer, c)
  {
    assert longer[..c.version] == log[..c.version];
  }

  lemma WriterSurvives(plant: nat, log: seq<Entry>, longer: seq<Entry>, writer: Writer)
    requires log <= longer && WriterTrue(plant, log, writer)
    ensures WriterTrue(plant, longer, writer)
  {
    match writer
    case SnapshotRead(c) =>
      if c.Some? { CheckpointSurvives(plant, log, longer, c.value); }
    case Loaded(j) =>
      assert longer[..j.version] == log[..j.version];
  }

  lemma WritersSurvive(plant: nat, log: seq<Entry>, longer: seq<Entry>, writers: map<nat, Writer>, w: nat)
    requires log <= longer && WritersTrue(plant, log, writers)
    ensures WritersTrue(plant, longer, writers - {w})
  {
    forall v | v in writers - {w} ensures WriterTrue(plant, longer, writers[v]) {
      WriterSurvives(plant, log, longer, writers[v]);
    }
  }

  lemma SnapshotSurvives(plant: nat, log: seq<Entry>, longer: seq<Entry>, v: nat, c: Checkpoint)
    requires log <= longer && SnapshotTrue(plant, log, v, c)
    ensures SnapshotTrue(plant, longer, v, c)
  {
    CheckpointSurvives(plant, log, longer, c);
  }

  lemma SnapshotsSurvive(plant: nat, log: seq<Entry>, longer: seq<Entry>, snapshots: map<nat, Checkpoint>)
    requires log <= longer && AllTrue(plant, log, snapshots)
    ensures AllTrue(plant, longer, snapshots)
  {
    forall v | v in snapshots ensures SnapshotTrue(plant, longer, v, snapshots[v]) {
      SnapshotSurvives(plant, log, longer, v, snapshots[v]);
    }
  }

  lemma OneMoreIsTrue(plant: nat, log: seq<Entry>, snapshots: map<nat, Checkpoint>, n: nat, c: Checkpoint)
    requires AllTrue(plant, log, snapshots) && SnapshotTrue(plant, log, n, c)
    ensures AllTrue(plant, log, snapshots[n := c])
  {
    var more := snapshots[n := c];
    forall v | v in more ensures SnapshotTrue(plant, log, v, more[v]) {
      if v != n {
        assert more[v] == snapshots[v];
      }
    }
  }

  lemma DueGrows(n: nat, snapshots: map<nat, Checkpoint>, c: Checkpoint)
    requires SnapshotsDue(n, snapshots)
    ensures n + 1 !in snapshots && SnapshotsDue(n + 1, WithDue(n + 1, snapshots, c))
  {
  }

  lemma NewSnapshotIsTrue(plant: nat, log: seq<Entry>)
    ensures SnapshotTrue(plant, log, |log|, Save(State(plant, AllRebuilt(log), |log|)))
  {
    assert log[..|log|] == log;
  }

  /** Growing by one event keeps the snapshot table true when the checkpoint due there is added. */
  lemma SnapshotsGrow(plant: nat, log: seq<Entry>, longer: seq<Entry>, snapshots: map<nat, Checkpoint>, c: Checkpoint)
    requires log <= longer && |longer| == |log| + 1 && SnapshotsTrue(plant, log, snapshots)
    requires SnapshotTrue(plant, longer, |longer|, c)
    ensures |longer| !in snapshots
    ensures SnapshotsTrue(plant, longer, WithDue(|longer|, snapshots, c))
  {
    SnapshotsSurvive(plant, log, longer, snapshots);
    DueGrows(|log|, snapshots, c);
    OneMoreIsTrue(plant, longer, snapshots, |longer|, c);
  }

  lemma PrefixKnowsItsEntries(plant: nat, log: seq<Entry>, j: State, id: nat)
    requires IsPrefixJournal(plant, log, j) && j.version == |log|
    ensures Has(j.entries, id) <==> Has(log, id)
    ensures j.plant == plant
  {
    WholePrefix(plant, log, j);
    var rebuilt := AllRebuilt(log);
    if Has(log, id) {
      var k :| 0 <= k < |log| && log[k].id == id;
      assert rebuilt[k].id == id;
    }
    if Has(rebuilt, id) {
      var k :| 0 <= k < |rebuilt| && rebuilt[k].id == id;
      assert log[k].id == id;
    }
  }

  lemma NewEntryContinues(plant: nat, log: seq<Entry>, e: Entry)
    requires Replayable(plant, log) && e.plant == plant && !Has(log, e.id)
    ensures Replayable(plant, log + [e])
  {
  }

  lemma SameAfterApply(plant: nat, log: seq<Entry>, j: State, e: Entry)
    requires Replayable(plant, log + [e]) && Rebuilt(e) == e
    requires SameToReaders(j, State(plant, AllRebuilt(log), |log|)) && Journal.Apply(j, e).Ok?
    ensures Save(Journal.Apply(j, e).value) == Save(State(plant, AllRebuilt(log + [e]), |log| + 1))
  {
    ReplayFromStart(plant, log + [e]);
    ReplayedIsWellFormed(plant, log + [e]);
    assert AllRebuilt(log + [e]) == AllRebuilt(log) + [e];
    SameJournal(Journal.Apply(j, e).value, State(plant, AllRebuilt(log + [e]), |log| + 1));
  }

  /** A writer whose version is still free has the whole stream, so its new entry continues it and its
      checkpoint is the journal of the whole new stream. */
  lemma TakenAppend(s: Store, j: State, e: Entry)
    requires Gapless(s.events) && Replayable(s.plant, Log(s)) && IsPrefixJournal(s.plant, Log(s), j)
    requires j.version + 1 !in s.events && Rebuilt(e) == e && Journal.Apply(j, e).Ok?
    ensures j.version == |Log(s)| && Replayable(s.plant, Log(s) + [e])
    ensures Save(Journal.Apply(j, e).value) == Save(State(s.plant, AllRebuilt(Log(s) + [e]), j.version + 1))
  {
    PrefixKnowsItsEntries(s.plant, Log(s), j, e.id);
    NewEntryContinues(s.plant, Log(s), e);
    WholePrefix(s.plant, Log(s), j);
    SameAfterApply(s.plant, Log(s), j, e);
  }

  lemma GrownLog(s: Store, s': Store, e: Entry)
    requires Gapless(s.events) && s'.events == s.events[|s.events| + 1 := e]
    ensures Gapless(s'.events) && Log(s') == Log(s) + [e]
  {
  }

  lemma RowsKeepSound(s: Store, w: nat, e: Entry)
    requires Sound(s) && Replayable(s.plant, Log(s) + [e])
    ensures Sound(Finish(Rows(s, |Log(s)| + 1, e, Save(State(s.plant, AllRebuilt(Log(s) + [e]), |Log(s)| + 1))), w))
  {
    var c := Save(State(s.plant, AllRebuilt(Log(s) + [e]), |Log(s)| + 1));
    var s' := Finish(Rows(s, |Log(s)| + 1, e, c), w);
    GrownLog(s, s', e);
    NewSnapshotIsTrue(s.plant, Log(s) + [e]);
    SnapshotsGrow(s.plant, Log(s), Log(s) + [e], s.snapshots, c);
    WritersSurvive(s.plant, Log(s), Log(s'), s.writers, w);
  }

  lemma FinishKeepsSound(s: Store, w: nat)
    requires Sound(s)
    ensures Sound(Finish(s, w))
  {
    assert Log(Finish(s, w)) == Log(s);
    WritersSurvive(s.plant, Log(s), Log(s), s.writers, w);
  }

  /** An append either leaves no trace, or its writer had the whole stream and the rows continue it. */
  lemma AppendIsAllOrNothing(s: Store, j: State, owned: bool, e: Entry)
    requires Sound(s) && IsPrefixJournal(s.plant, Log(s), j) && Rebuilt(e) == e
    ensures
      || AppendEntry(s, j, owned, e) == s
      || (&& Replayable(s.plant, Log(s) + [e]) && !Has(Log(s), e.id)
          && AppendEntry(s, j, owned, e)
             == Rows(s, |Log(s)| + 1, e, Save(State(s.plant, AllRebuilt(Log(s) + [e]), |Log(s)| + 1))))
  {
    if Journal.Apply(j, e).Ok? && j.version + 1 !in s.events {
      TakenAppend(s, j, e);
      PrefixKnowsItsEntries(s.plant, Log(s), j, e.id);
    }
  }

  lemma AppendKeepsSound(s: Store, a: Action)
    requires Sound(s) && a.Append? && a.w in s.writers && s.writers[a.w].Loaded?
    ensures Sound(Step(s, a))
  {
    RebuiltTwice(Entry(a.id, s.plant, a.kind, a.at, a.note));
    assert WriterTrue(s.plant, Log(s), s.writers[a.w]);
    AppendIsAllOrNothing(s, s.writers[a.w].journal, a.owned, NewEntry(s.plant, a));
    FinishKeepsSound(s, a.w);
    if AppendEntry(s, s.writers[a.w].journal, a.owned, NewEntry(s.plant, a)) != s {
      RowsKeepSound(s, a.w, NewEntry(s.plant, a));
    }
  }

  lemma ReadKeepsSound(s: Store, w: nat, writer: Writer)
    requires Sound(s) && WriterTrue(s.plant, Log(s), writer)
    ensures Sound(s.(writers := s.writers[w := writer]))
  {
    assert Log(s.(writers := s.writers[w := writer])) == Log(s);
  }

  lemma LatestIsTrue(s: Store)
    requires Sound(s)
    ensures WriterTrue(s.plant, Log(s), SnapshotRead(Latest(s.snapshots)))
  {
  }

  lemma StepKeepsSound(s: Store, a: Action)
    requires Sound(s)
    ensures Sound(Step(s, a))
  {
    match a
    case Append(w, id, owned, kind, at, note) =>
      if w in s.writers && s.writers[w].Loaded? {
        AppendKeepsSound(s, a);
      }
    case ReadTail(w) =>
      if w in s.writers && s.writers[w].SnapshotRead? {
        assert WriterTrue(s.plant, Log(s), s.writers[w]);
        var c := s.writers[w].checkpoint;
        LoadSucceeds(s, c);
        ReadKeepsSound(s, w, Loaded(Load(s.plant, c, Behind(s.events, if c.None? then 0 else c.value.version)).value));
      }
    case ReadSnapshot(w) =>
      LatestIsTrue(s);
      ReadKeepsSound(s, w, SnapshotRead(Latest(s.snapshots)));
    case Abort(w) =>
      FinishKeepsSound(s, w);
  }

  lemma SameEventsSameLog(s: Store, s': Store)
    requires Gapless(s.events) && s'.events == s.events
    ensures Gapless(s'.events) && Log(s') == Log(s)
  {
  }

  /** The stream only grows, by one entry whose identifier was not there: a committed version never changes. */
  lemma StepAppendsOnly(s: Store, a: Action)
    requires Sound(s)
    ensures Gapless(Step(s, a).events)
    ensures
      || Log(Step(s, a)) == Log(s)
      || (a.Append? && !Has(Log(s), a.id) && Log(Step(s, a)) == Log(s) + [NewEntry(s.plant, a)])
  {
    if a.Append? && a.w in s.writers && s.writers[a.w].Loaded? {
      RebuiltTwice(Entry(a.id, s.plant, a.kind, a.at, a.note));
      assert WriterTrue(s.plant, Log(s), s.writers[a.w]);
      AppendIsAllOrNothing(s, s.writers[a.w].journal, a.owned, NewEntry(s.plant, a));
      if AppendEntry(s, s.writers[a.w].journal, a.owned, NewEntry(s.plant, a)) != s {
        GrownLog(s, Step(s, a), NewEntry(s.plant, a));
      } else {
        SameEventsSameLog(s, Step(s, a));
      }
    } else {
      SameEventsSameLog(s, Step(s, a));
    }
  }

  /** The main result: for every interleaving of any number of writers, aborts included, the committed
      stream has versions 1 to n without a gap, no entry twice, one announcement per event in order, a
      correct checkpoint at every fiftieth version, and no load is ever refused. */
  lemma {:induction false} RunIsSound(s: Store, actions: seq<Action>)
    requires Sound(s)
    ensures Sound(Run(s, actions)) && Log(s) <= Log(Run(s, actions))
    decreases |actions|
  {
    if actions != [] {
      StepKeepsSound(s, actions[0]);
      StepAppendsOnly(s, actions[0]);
      RunIsSound(Step(s, actions[0]), actions[1..]);
    }
  }

  lemma StartIsSound(plant: nat)
    ensures Sound(Start(plant)) && Log(Start(plant)) == []
  {
  }

  /** Every run of the code is sound: it starts with an empty stream. */
  lemma EveryRunIsSound(plant: nat, actions: seq<Action>)
    ensures Sound(Run(Start(plant), actions))
  {
    StartIsSound(plant);
    RunIsSound(Start(plant), actions);
  }

  /** A fact with a caller-owned identifier is recorded at most once: when it is committed already, an
      append that names it changes nothing, even one whose writer had loaded before that commit. */
  lemma OwnedEntryIsRecordedOnce(s: Store, a: Action)
    requires Sound(s) && a.Append? && a.owned && Has(Log(s), a.id)
    ensures Step(s, a).events == s.events && Step(s, a).outbox == s.outbox && Step(s, a).snapshots == s.snapshots
  {
    if a.w in s.writers && s.writers[a.w].Loaded? {
      RebuiltTwice(Entry(a.id, s.plant, a.kind, a.at, a.note));
      assert WriterTrue(s.plant, Log(s), s.writers[a.w]);
      AppendIsAllOrNothing(s, s.writers[a.w].journal, a.owned, NewEntry(s.plant, a));
    }
  }

  /** The branches of an append, decided by the log alone. */
  lemma AppendDecided(s: Store, j: State, owned: bool, e: Entry)
    requires Sound(s) && IsPrefixJournal(s.plant, Log(s), j) && e.plant == s.plant
    ensures AppendEntry(s, j, owned, e).events != s.events <==> j.version == |s.events| && !Has(Log(s), e.id)
  {
    AppendBranches(s, j, owned, e);
    NextVersionIsFree(s, j.version);
    assert j.plant == s.plant;
    if j.version == |s.events| {
      PrefixKnowsItsEntries(s.plant, Log(s), j, e.id);
    }
  }

  lemma AppendBranches(s: Store, j: State, owned: bool, e: Entry)
    requires e.plant == j.plant
    ensures AppendEntry(s, j, owned, e).events != s.events <==>
      && !Has(j.entries, e.id) && j.version + 1 !in s.events
      && !(Due(j.version + 1) && j.version + 1 in s.snapshots)
  {
  }

  lemma NextVersionIsFree(s: Store, version: nat)
    requires Sound(s) && version <= |s.events|
    ensures version + 1 !in s.events <==> version == |s.events|
    ensures version == |s.events| ==> version + 1 !in s.snapshots
  {
  }

  /** An entry is committed exactly when its identifier is new and no other writer committed since the
      writer loaded: the optimistic lock refuses nothing else. */
  lemma AppendedIffUncontended(s: Store, a: Action)
    requires Sound(s) && a.Append? && a.w in s.writers && s.writers[a.w].Loaded?
    ensures Step(s, a).events != s.events <==>
      s.writers[a.w].journal.version == |s.events| && !Has(Log(s), a.id)
  {
    assert WriterTrue(s.plant, Log(s), s.writers[a.w]);
    AppendDecided(s, s.writers[a.w].journal, a.owned, NewEntry(s.plant, a));
  }

  lemma AppendedRows(s: Store, j: State, owned: bool, e: Entry)
    requires AppendEntry(s, j, owned, e).events != s.events
    ensures AppendEntry(s, j, owned, e).events == s.events[j.version + 1 := e]
    ensures AppendEntry(s, j, owned, e).outbox == s.outbox + [e]
    ensures j.version + 1 !in s.events
  {
  }

  /** What a committed append stores and announces: the fact it was given, behind everything committed before. */
  lemma AppendStoresTheFact(s: Store, a: Action) returns (stored: Entry)
    requires Sound(s) && a.Append? && Step(s, a).events != s.events
    ensures Keeps(Entry(a.id, s.plant, a.kind, a.at, a.note), stored)
    ensures |s.events| + 1 !in s.events
    ensures Step(s, a).events == s.events[|s.events| + 1 := stored] && Step(s, a).outbox == s.outbox + [stored]
  {
    stored := NewEntry(s.plant, a);
    RebuiltKeeps(Entry(a.id, s.plant, a.kind, a.at, a.note));
    AppendedIffUncontended(s, a);
    AppendedRows(s, s.writers[a.w].journal, a.owned, stored);
  }

  /** The checkpoints of every run are those at the positive multiples of fifty. */
  lemma CheckpointsAreFiftyApart(plant: nat, actions: seq<Action>)
    ensures
      var s := Run(Start(plant), actions);
      forall v :: v in s.snapshots <==> 0 < v <= |s.events| && v % 50 == 0
  {
    EveryRunIsSound(plant, actions);
  }

  lemma LatestIsRecent(n: nat, snapshots: map<nat, Checkpoint>)
    requires forall v :: v in snapshots <==> 0 < v <= n && v % 50 == 0
    requires forall v :: v in snapshots ==> snapshots[v].version == v
    ensures
      var c := Latest(snapshots);
      var from := if c.None? then 0 else c.value.version;
      from <= n < from + 50
  {
    var last := n - n % 50;
    assert last > 0 ==> last in snapshots;
  }

  lemma BehindLength(s: Store, m: nat)
    requires Gapless(s.events) && m <= |s.events|
    ensures |Behind(s.events, m)| == |s.events| - m
  {
    BehindAt(s, m);
  }

  lemma SoundFacts(s: Store)
    requires Sound(s)
    ensures Gapless(s.events)
    ensures forall v :: v in s.snapshots ==> s.snapshots[v].version == v
  {
    forall v | v in s.snapshots ensures s.snapshots[v].version == v {
      assert SnapshotTrue(s.plant, Log(s), v, s.snapshots[v]);
    }
  }

  /** What checkpoints are for: in every run, a writer that has read the latest one has fewer than fifty
      events left to replay. */
  lemma FewerThanFiftyAreReplayed(plant: nat, actions: seq<Action>, w: nat)
    requires w !in Run(Start(plant), actions).writers
    ensures
      var s := Run(Start(plant), actions);
      var writers := Step(s, ReadSnapshot(w)).writers;
      && w in writers && writers[w].SnapshotRead?
      && |Behind(s.events, if writers[w].checkpoint.None? then 0 else writers[w].checkpoint.value.version)| < 50
  {
    var s := Run(Start(plant), actions);
    EveryRunIsSound(plant, actions);
    CheckpointsAreFiftyApart(plant, actions);
    SoundFacts(s);
    LatestIsRecent(|s.events|, s.snapshots);
    var c := Latest(s.snapshots);
    BehindLength(s, if c.None? then 0 else c.value.version);
  }

  /** A writer that aborted commits nothing until it has loaded again. */
  lemma AbortedWriterAppendsNothing(s: Store, a: Action)
    requires a.Append?
    ensures Step(Step(s, Abort(a.w)), a) == Step(s, Abort(a.w))
    ensures Step(s, Abort(a.w)).events == s.events && Step(s, Abort(a.w)).outbox == s.outbox
  {
  }

  /** What an append answers its caller: an entry, or an error. */
  datatype Answer = Answered(entry: Entry) | Raised

  ghost function AnswerTo(s: Store, j: State, owned: bool, entry: Entry): Answer {
    if owned && Has(j.entries, entry.id) then
      var k :| 0 <= k < |j.entries| && j.entries[k].id == entry.id;
      Answered(j.entries[k])
    else if AppendEntry(s, j, owned, entry).events != s.events then Answered(entry)
    else Raised
  }

  lemma PrefixEntriesAreLogged(plant: nat, log: seq<Entry>, j: State, e: Entry)
    requires IsPrefixJournal(plant, log, j) && e in j.entries
    ensures exists k :: 0 <= k < |log| && e == Rebuilt(log[k])
  {
    var rebuilt := AllRebuilt(log[..j.version]);
    SameMultisetSameElements(j.entries, rebuilt);
    var k :| 0 <= k < |rebuilt| && rebuilt[k] == e;
    assert log[..j.version][k] == log[k];
  }

  /** Repeating a fact: a caller that owns the identifier is answered with the entry the stream holds, any
      other is refused, and neither changes anything. */
  lemma RepeatedFactIsAnswered(s: Store, w: nat, a: Action)
    requires Sound(s) && a.Append? && a.w == w && w in s.writers && s.writers[w].Loaded?
    requires Has(s.writers[w].journal.entries, a.id)
    ensures Step(s, a).events == s.events
    ensures
      var answer := AnswerTo(s, s.writers[w].journal, a.owned, NewEntry(s.plant, a));
      && (a.owned <==> answer.Answered?)
      && (a.owned ==> answer.entry.id == a.id && exists k :: 0 <= k < |Log(s)| && answer.entry == Rebuilt(Log(s)[k]))
  {
    var j := s.writers[w].journal;
    assert WriterTrue(s.plant, Log(s), s.writers[w]);
    if a.owned {
      var answer := AnswerTo(s, j, true, NewEntry(s.plant, a));
      PrefixEntriesAreLogged(s.plant, Log(s), j, answer.entry);
    }
  }
}
