/** Any number of concurrent create requests, some sharing an idempotency key.

    A request looks its key up, runs its operation, and commits the operation together with the stored
    response; the primary key on the key column refuses the second of two such commits, whose request
    rolls back and reads the winner's response.  Fingerprints stand for the digests of the command's
    content, responses for stored views. */
module IdempotentCreate {
  import opened Wrappers

  type Key = nat

  datatype Record = Record(fingerprint: nat, response: nat)

  /** A committed operation: what the write side really did. */
  datatype Effect = Effect(key: Option<Key>, record: Record)

  datatype Request = Request(key: Option<Key>, fingerprint: nat)

  datatype Progress =
    | Working
    | RolledBack(keyTaken: bool)
    | Answered(response: nat)
    | Refused
    | Raised

  datatype Requests = Requests(
    records: map<Key, Record>, effects: seq<Effect>, asked: map<nat, Request>, progress: map<nat, Progress>)

  datatype Action =
    | Lookup(r: nat, request: Request)
    | Commit(r: nat, response: nat, unique: bool)
    | Reread(r: nat)
    | Abandon(r: nat)

  const NONE := Requests(map[], [], map[], map[])

  /** `_replayed`: the stored response, or a refusal when the key was used for other content. */
  function Replayed(stored: Record, fingerprint: nat): Progress {
    if stored.fingerprint != fingerprint then Refused else Answered(stored.response)
  }

  /** `unique` is whether every other unique constraint accepts the operation's rows. */
  function Committed(s: Requests, r: nat, response: nat, unique: bool): Requests
    requires r in s.asked
  {
    var q := s.asked[r];
    var taken := q.key.Some? && q.key.value in s.records;
    if q.key.None? && !unique then s.(progress := s.progress[r := Raised])
    else if taken || !unique then s.(progress := s.progress[r := RolledBack(taken)])
    else
      s.(records := if q.key.Some? then s.records[q.key.value := Record(q.fingerprint, response)] else s.records,
         effects := s.effects + [Effect(q.key, Record(q.fingerprint, response))],
         progress := s.progress[r := Answered(response)])
  }

  function Step(s: Requests, a: Action): Requests {
    match a
    case Lookup(r, q) =>
      if r in s.asked then s
      else
        var found := if q.key.Some? && q.key.value in s.records
          then Replayed(s.records[q.key.value], q.fingerprint) else Working;
        s.(asked := s.asked[r := q], progress := s.progress[r := found])
    case Commit(r, response, unique) =>
      if r in s.asked && r in s.progress && s.progress[r].Working? then Committed(s, r, response, unique) else s
    case Reread(r) =>
      if !(r in s.asked && r in s.progress && s.progress[r].RolledBack? && s.asked[r].key.Some?) then s
      else
        var key := s.asked[r].key.value;
        s.(progress := s.progress[r :=
          if key in s.records then Replayed(s.records[key], s.asked[r].fingerprint) else Raised])
    case Abandon(r) =>
      if r in s.progress && s.progress[r].Working? then s.(progress := s.progress[r := Raised]) else s
  }

  function Run(s: Requests, actions: seq<Action>): Requests
    decreases |actions|
  {
    if actions == [] then s else Run(Step(s, actions[0]), actions[1..])
  }

  // ---------------------------------------------------------------- one winner per key

  /** A record stands for exactly one committed operation, and a key's operations are never two. */
  ghost predicate OneEffectPerKey(s: Requests) {
    && (forall i, j :: 0 <= i < j < |s.effects| && s.effects[i].key.Some? ==> s.effects[i].key != s.effects[j].key)
    && (forall i :: 0 <= i < |s.effects| && s.effects[i].key.Some? ==>
          s.effects[i].key.value in s.records && s.records[s.effects[i].key.value] == s.effects[i].record)
    && (forall k :: k in s.records ==> Effect(Some(k), s.records[k]) in s.effects)
  }

  /** What a keyed request was told agrees with the record under its key. */
  ghost predicate ToldTheTruth(s: Requests, r: nat)
    requires r in s.progress && r in s.asked
  {
    var q := s.asked[r];
    q.key.Some? ==>
      && (s.progress[r].Answered? ==>
            q.key.value in s.records && s.records[q.key.value] == Record(q.fingerprint, s.progress[r].response))
      && (s.progress[r].Refused? ==> q.key.value in s.records && s.records[q.key.value].fingerprint != q.fingerprint)
      && (s.progress[r].RolledBack? && s.progress[r].keyTaken ==> q.key.value in s.records)
  }

  ghost predicate Consistent(s: Requests) {
    && OneEffectPerKey(s)
    && s.progress.Keys == s.asked.Keys
    && (forall r :: r in s.progress ==> ToldTheTruth(s, r))
  }

  /** Records and answers are never changed. */
  ghost predicate Keeps(s: Requests, s': Requests) {
    && (forall k :: k in s.records ==> k in s'.records && s'.records[k] == s.records[k])
    && s.effects <= s'.effects
    && (forall r :: r in s.asked ==> r in s'.asked && s'.asked[r] == s.asked[r])
    && (forall r :: r in s.progress && (s.progress[r].Answered? || s.progress[r].Refused?) ==>
          r in s'.progress && s'.progress[r] == s.progress[r])
  }

  lemma CommitKeepsOneEffect(s: Requests, r: nat, response: nat, unique: bool)
    requires OneEffectPerKey(s) && r in s.asked
    ensures OneEffectPerKey(Committed(s, r, response, unique))
  {
    var s' := Committed(s, r, response, unique);
    if s'.effects != s.effects {
      var latest := s'.effects[|s.effects|];
      forall i | 0 <= i < |s.effects| && latest.key.Some? ensures s.effects[i].key != latest.key {
        assert s.effects[i].key.Some? ==> s.effects[i].key.value in s.records;
      }
      assert latest in s'.effects;
    }
  }

  lemma StepKeepsOneEffect(s: Requests, a: Action)
    requires Consistent(s)
    ensures OneEffectPerKey(Step(s, a)) && Step(s, a).progress.Keys == Step(s, a).asked.Keys
  {
    if a.Commit? && a.r in s.asked {
      CommitKeepsOneEffect(s, a.r, a.response, a.unique);
    }
  }

  lemma StepKeeps(s: Requests, a: Action)
    requires s.progress.Keys == s.asked.Keys
    ensures Keeps(s, Step(s, a))
  {
  }

  lemma StepTellsTheTruth(s: Requests, a: Action, r: nat)
    requires Consistent(s) && r in Step(s, a).progress && r in Step(s, a).asked
    ensures ToldTheTruth(Step(s, a), r)
  {
    if r in s.progress {
      assert ToldTheTruth(s, r);
    }
  }

  lemma StepKeepsConsistent(s: Requests, a: Action)
    requires Consistent(s)
    ensures Consistent(Step(s, a)) && Keeps(s, Step(s, a))
  {
    StepKeepsOneEffect(s, a);
    StepKeeps(s, a);
    forall r | r in Step(s, a).progress ensures ToldTheTruth(Step(s, a), r) {
      StepTellsTheTruth(s, a, r);
    }
  }

  /** The main result, for every interleaving of any number of requests: under one key at most one
      operation is committed; every request that finished on that key with the winner's content was
      answered with the winner's stored response, and every one with other content was refused. */
  lemma {:induction false} RunIsConsistent(s: Requests, actions: seq<Action>)
    requires Consistent(s)
    ensures Consistent(Run(s, actions)) && Keeps(s, Run(s, actions))
    decreases |actions|
  {
    if actions != [] {
      StepKeepsConsistent(s, actions[0]);
      RunIsConsistent(Step(s, actions[0]), actions[1..]);
    }
  }

  lemma OneWinnerPerKey(actions: seq<Action>, i: nat, j: nat)
    requires i < |Run(NONE, actions).effects| && j < |Run(NONE, actions).effects|
    requires Run(NONE, actions).effects[i].key.Some?
    ensures Run(NONE, actions).effects[i].key == Run(NONE, actions).effects[j].key ==> i == j
  {
    RunIsConsistent(NONE, actions);
    assert OneEffectPerKey(Run(NONE, actions));
  }

  lemma FinishedRequestsAreDecided(actions: seq<Action>, r: nat)
    requires
      var end := Run(NONE, actions);
      r in end.progress && r in end.asked && end.asked[r].key.Some? && (end.progress[r].Answered? || end.progress[r].Refused?)
    ensures
      var end := Run(NONE, actions);
      var q := end.asked[r];
      && q.key.value in end.records
      && Effect(q.key, end.records[q.key.value]) in end.effects
      && end.progress[r] == Replayed(end.records[q.key.value], q.fingerprint)
  {
    RunIsConsistent(NONE, actions);
    assert ToldTheTruth(Run(NONE, actions), r);
  }

  lemma {:induction false} NotWorkingStays(s: Requests, r: nat, actions: seq<Action>)
    requires s.progress.Keys == s.asked.Keys && r in s.progress && (s.progress[r].Answered? || s.progress[r].Refused?)
    ensures r in Run(s, actions).progress && Run(s, actions).progress[r] == s.progress[r]
    decreases |actions|
  {
    if actions != [] {
      StepKeeps(s, actions[0]);
      NotWorkingStays(Step(s, actions[0]), r, actions[1..]);
    }
  }

  /** A repeated request runs nothing: its lookup finds the record and answers from it at once, the stored
      response for the same content and a refusal for other, and no later commit of it is ever made. */
  lemma RepeatedRequestRunsNothing(s: Requests, r: nat, q: Request, actions: seq<Action>, response: nat, unique: bool)
    requires Consistent(s) && r !in s.asked && q.key.Some? && q.key.value in s.records
    ensures
      var looked := Step(s, Lookup(r, q));
      var stored := s.records[q.key.value];
      && r in looked.progress && looked.effects == s.effects
      && looked.progress[r] == (if stored.fingerprint == q.fingerprint then Answered(stored.response) else Refused)
      && Step(Run(looked, actions), Commit(r, response, unique)) == Run(looked, actions)
  {
    NotWorkingStays(Step(s, Lookup(r, q)), r, actions);
  }

  /** Losing the race for the key never surfaces as an error: the loser's second read finds the winner. */
  lemma LoserFindsTheWinner(actions: seq<Action>, r: nat)
    requires
      var end := Run(NONE, actions);
      r in end.progress && r in end.asked && end.asked[r].key.Some? && end.progress[r] == RolledBack(true)
    ensures
      var end := Run(NONE, actions);
      && end.asked[r].key.value in end.records
      && Step(end, Reread(r)).progress[r] == Replayed(end.records[end.asked[r].key.value], end.asked[r].fingerprint)
  {
    RunIsConsistent(NONE, actions);
    assert ToldTheTruth(Run(NONE, actions), r);
  }

  // ---------------------------------------------------------------- the helper itself

  predicate IsAt(s: Requests, r: nat, request: Request, progress: Progress) {
    r in s.asked && s.asked[r] == request && r in s.progress && s.progress[r] == progress
  }

  lemma CommitDecides(s: Requests, r: nat, request: Request, view: nat, unique: bool)
    requires IsAt(s, r, request, Working)
    ensures
      var s' := Step(s, Commit(r, view, unique));
      || (IsAt(s', r, request, Answered(view)) && unique
          && Effect(request.key, Record(request.fingerprint, view)) in s'.effects
          && (request.key.Some? ==> s'.records == s.records[request.key.value := Record(request.fingerprint, view)]))
      || (IsAt(s', r, request, Raised) && !unique)
      || (exists taken :: IsAt(s', r, request, RolledBack(taken)) && request.key.Some? && (taken || !unique))
  {
    var taken := request.key.Some? && request.key.value in s.records;
    assert IsAt(Step(s, Commit(r, view, unique)), r, request, RolledBack(taken))
      || IsAt(Step(s, Commit(r, view, unique)), r, request, Answered(view))
      || IsAt(Step(s, Commit(r, view, unique)), r, request, Raised);
  }

  lemma RereadDecides(s: Requests, r: nat, request: Request, taken: bool)
    requires Consistent(s) && IsAt(s, r, request, RolledBack(taken)) && request.key.Some?
    ensures
      var s' := Step(s, Reread(r));
      || (IsAt(s', r, request, Raised) && !taken)
      || (request.key.value in s.records && IsAt(s', r, request, Replayed(s.records[request.key.value], request.fingerprint)))
  {
    assert ToldTheTruth(s, r);
  }

  /** What a finished request was told.  A keyed one got the replay of the record under its key, whoever
      wrote it, and raised only for a foreign unique constraint; one without a key was answered from its own
      committed operation, or raised for such a constraint. */
  ghost predicate Told(s: Requests, r: nat, request: Request, view: nat, unique: bool, outcome: Progress) {
    && IsAt(s, r, request, outcome)
    && (outcome.Raised? ==> !unique)
    && (request.key.Some? && !outcome.Raised? ==>
          request.key.value in s.records && outcome == Replayed(s.records[request.key.value], request.fingerprint))
    && (request.key.None? ==>
          && outcome == (if unique then Answered(view) else Raised)
          && (unique ==> Effect(None, Record(request.fingerprint, view)) in s.effects))
  }

  class IdempotencyKeys {
    var table: Requests

    constructor ()
      ensures table == NONE
    {
      table := NONE;
    }

    /** What the other requests commit meanwhile. */
    method Others(actions: seq<Action>)
      requires Consistent(table)
      modifies this
      ensures table == Run(old(table), actions) && Consistent(table)
    {
      RunIsConsistent(table, actions);
      var k := 0;
      while k < |actions|
        invariant 0 <= k <= |actions| && Run(table, actions[k..]) == Run(old(table), actions)
      {
        assert actions[k..][0] == actions[k] && actions[k..][1..] == actions[k + 1..];
        table := Step(table, actions[k]);
        k := k + 1;
      }
      assert Run(table, actions[k..]) == table;
    }

    /** `commit_create` of request `r`, with what other requests commit between its lookup and its commit,
        and between its rollback and its second read. */
    method CommitCreate(r: nat, request: Request, view: nat, unique: bool, first: seq<Action>, second: seq<Action>)
        returns (outcome: Progress)
      requires Consistent(table) && r !in table.asked
      requires forall k :: 0 <= k < |first| ==> first[k].r != r
      requires forall k :: 0 <= k < |second| ==> second[k].r != r
      modifies this
      ensures Consistent(table)
      ensures Told(table, r, request, view, unique, outcome)
      ensures outcome.Answered? || outcome.Refused? || outcome.Raised?
    {
      Take(Lookup(r, request));
      if table.progress[r].Working? {
        OthersLeaveAlone(table, first, r);
        Others(first);
        outcome := CommitOnce(r, request, view, unique, second);
      } else {
        outcome := table.progress[r];
      }
    }

    /** From the commit on, for a request whose lookup found nothing. */
    method CommitOnce(r: nat, request: Request, view: nat, unique: bool, second: seq<Action>) returns (outcome: Progress)
      requires Consistent(table) && IsAt(table, r, request, Working)
      requires forall k :: 0 <= k < |second| ==> second[k].r != r
      modifies this
      ensures Consistent(table)
      ensures Told(table, r, request, view, unique, outcome)
      ensures outcome.Answered? || outcome.Refused? || outcome.Raised?
    {
      CommitDecides(table, r, request, view, unique);
      Take(Commit(r, view, unique));
      if table.progress[r].RolledBack? {
        OthersLeaveAlone(table, second, r);
        Others(second);
        RereadDecides(table, r, request, table.progress[r].keyTaken);
        Take(Reread(r));
      }
      outcome := table.progress[r];
    }

    /** One step of this request. */
    method Take(a: Action)
      requires Consistent(table)
      modifies this
      ensures table == Step(old(table), a) && Consistent(table)
    {
      StepKeepsConsistent(table, a);
      table := Step(table, a);
    }
  }

  lemma {:induction false} OthersLeaveAlone(s: Requests, actions: seq<Action>, r: nat)
    requires r in s.asked && r in s.progress
    requires forall k :: 0 <= k < |actions| ==> actions[k].r != r
    ensures IsAt(Run(s, actions), r, s.asked[r], s.progress[r])
    decreases |actions|
  {
    if actions != [] {
      assert actions[0].r != r;
      OthersLeaveAlone(Step(s, actions[0]), actions[1..], r);
    }
  }
}
