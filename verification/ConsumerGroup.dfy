/** One consumer group behind the relay: the claim on `(consumer_group, event_id)` and the handler's
    effect commit together, so at-least-once delivery becomes an exactly-once, in-order effect.

    The groups that trigger a saga are the exception: their claim commits with the saga's first commit, and
    the run may end without its effect.  Such rows are kept apart, in `alone`; what becomes of them is the
    subject of `FailurePolicy`.

    Members of the group read one partition, each at its own position; a member that stalled through
    a rebalance keeps handling old deliveries next to its successor.  `committed` is the offset a new
    member starts from, and an operator may rewind it. */
module ConsumerGroup {
  import opened Outbox
  import opened Sequences

  /** `ledger` is the group's `processed_events`; `aside` are the deliveries copied to the dead-letter
      topic and claimed instead of handled; `alone` are those whose claim a saga run committed without an
      effect; `effects` is what the handlers committed, in order. */
  datatype Group = Group(
    positions: map<nat, nat>, committed: nat, ledger: set<RowId>, effects: seq<RowId>,
    aside: set<RowId>, alone: set<RowId>)

  datatype System = System(world: World, group: Group)

  datatype Move =
    | Relay(a: Action)
    | Join(member: nat)
    | Handle(member: nat)
    | HandlerFails(member: nat)
    | MoveAside(member: nat)
    | ClaimAlone(member: nat)
    | CommitOffset(member: nat)
    | Rewind(offset: nat)
    | Leave(member: nat)

  const START := System(EMPTY, Group(map[], 0, {}, [], {}, {}))

  /** The next delivery of a member, if it is one this group handles and has not claimed. */
  predicate Fresh(s: System, kinds: set<nat>, member: nat) {
    && member in s.group.positions
    && s.group.positions[member] < |s.world.topic|
    && var id := s.world.topic[s.group.positions[member]];
       id in s.world.rows && s.world.rows[id].kind in kinds && id !in s.group.ledger
  }

  /** One move.  A failed handler leaves nothing behind: its claim is rolled back with its work. */
  function Next(s: System, budget: nat, kinds: set<nat>, move: Move): System {
    var g := s.group;
    match move
    case Relay(a) => s.(world := Step(s.world, budget, a))
    case Join(member) => s.(group := g.(positions := g.positions[member := g.committed]))
    case Handle(member) =>
      if member !in g.positions || g.positions[member] >= |s.world.topic| then s
      else
        var id := s.world.topic[g.positions[member]];
        var moved := g.(positions := g.positions[member := g.positions[member] + 1]);
        if Fresh(s, kinds, member) then
          s.(group := moved.(ledger := g.ledger + {id}, effects := g.effects + [id]))
        else s.(group := moved)
    case HandlerFails(member) => s
    case MoveAside(member) =>
      if !Fresh(s, kinds, member) then s
      else
        var id := s.world.topic[g.positions[member]];
        s.(group := g.(positions := g.positions[member := g.positions[member] + 1],
                       ledger := g.ledger + {id}, aside := g.aside + {id}))
    case ClaimAlone(member) =>
      if !Fresh(s, kinds, member) then s
      else
        var id := s.world.topic[g.positions[member]];
        s.(group := g.(ledger := g.ledger + {id}, alone := g.alone + {id}))
    case CommitOffset(member) =>
      if member !in g.positions then s else s.(group := g.(committed := g.positions[member]))
    case Rewind(offset) =>
      if g.committed < offset then s else s.(group := g.(committed := offset))
    case Leave(member) => s.(group := g.(positions := g.positions - {member}))
  }

  function Play(s: System, budget: nat, kinds: set<nat>, moves: seq<Move>): System
    decreases |moves|
  {
    if moves == [] then s else Play(Next(s, budget, kinds, moves[0]), budget, kinds, moves[1..])
  }

  ghost predicate VisibleInOrderPlay(s: System, budget: nat, kinds: set<nat>, moves: seq<Move>)
    decreases |moves|
  {
    moves != [] ==>
      && (moves[0].Relay? ==> VisibleInOrder(s.world, moves[0].a))
      && VisibleInOrderPlay(Next(s, budget, kinds, moves[0]), budget, kinds, moves[1..])
  }

  /** Every handled delivery before offset `p` is claimed. */
  ghost predicate ClaimedUpTo(s: System, kinds: set<nat>, p: nat) {
    && p <= |s.world.topic|
    && (forall k :: 0 <= k < p && s.world.topic[k] in s.world.rows && s.world.rows[s.world.topic[k]].kind in kinds
          ==> s.world.topic[k] in s.group.ledger)
  }

  /** The ledger and the effects agree: a claim is an effect, a copy or a saga run's alone, only one of
      them, never twice. */
  ghost predicate LedgerIsExact(s: System, kinds: set<nat>) {
    var g := s.group;
    && NoDuplicates(g.effects)
    && (forall id :: id in g.ledger <==> id in g.effects || id in g.aside || id in g.alone)
    && (forall id :: id in g.effects ==> id !in g.aside && id !in g.alone)
    && g.aside !! g.alone
    && (forall id :: id in g.ledger ==> id in s.world.topic && id in s.world.rows && s.world.rows[id].kind in kinds)
  }

  /** An older row of the key that this group handles, that was given up nowhere and that no saga run claimed
      alone. */
  ghost predicate OlderLive(s: System, kinds: set<nat>, i: RowId, j: RowId) {
    Older(s.world.rows, i, j) && s.world.rows[i].kind in kinds && !s.world.rows[i].deadLettered
    && i !in s.group.aside && i !in s.group.alone
  }

  ghost predicate EffectsOrdered(s: System, kinds: set<nat>) {
    forall n, i :: 0 <= n < |s.group.effects| && OlderLive(s, kinds, i, s.group.effects[n]) ==> i in s.group.effects[..n]
  }

  ghost predicate Consistent(s: System, kinds: set<nat>) {
    && MarksAreTrue(s.world) && InOrder(s.world)
    && ClaimedUpTo(s, kinds, s.group.committed)
    && (forall member :: member in s.group.positions ==> ClaimedUpTo(s, kinds, s.group.positions[member]))
    && LedgerIsExact(s, kinds)
    && EffectsOrdered(s, kinds)
  }

  lemma RelayMoveKeeps(s: System, budget: nat, kinds: set<nat>, a: Action)
    requires Consistent(s, kinds) && VisibleInOrder(s.world, a)
    ensures Consistent(Next(s, budget, kinds, Relay(a)), kinds)
  {
    StepKeepsMarksTrue(s.world, budget, a);
    StepKeeps(s.world, budget, a);
    StepHoldsBarrier(s.world, budget, a);
    StepOrdersTopic(s.world, budget, a);
    var s' := Next(s, budget, kinds, Relay(a));
    forall p | ClaimedUpTo(s, kinds, p) ensures ClaimedUpTo(s', kinds, p) {
      assert forall k :: 0 <= k < p ==> s'.world.topic[k] == s.world.topic[k] && s.world.topic[k] in s.world.topic;
    }
    forall n, i | 0 <= n < |s'.group.effects| && OlderLive(s', kinds, i, s'.group.effects[n])
      ensures i in s'.group.effects[..n]
    {
      var j := s.group.effects[n];
      assert j in s.group.effects && j in s.group.ledger;
      if i in s.world.rows {
        assert OlderLive(s, kinds, i, j);
      }
    }
  }

  /** The delivery a member is about to take comes after every older live row of its key. */
  lemma PredecessorsClaimed(s: System, kinds: set<nat>, member: nat, i: RowId)
    requires Consistent(s, kinds) && Fresh(s, kinds, member)
    requires OlderLive(s, kinds, i, s.world.topic[s.group.positions[member]])
    ensures i in s.group.effects
  {
    var p := s.group.positions[member];
    assert i in s.world.topic[..p];
    var k :| 0 <= k < p && s.world.topic[k] == i;
    assert ClaimedUpTo(s, kinds, p);
  }

  predicate Takes(move: Move) {
    move.Handle? || move.MoveAside? || move.ClaimAlone?
  }

  lemma HandleOrders(s: System, budget: nat, kinds: set<nat>, member: nat)
    requires Consistent(s, kinds) && Fresh(s, kinds, member)
    ensures EffectsOrdered(Next(s, budget, kinds, Handle(member)), kinds)
  {
    var s' := Next(s, budget, kinds, Handle(member));
    forall n, i | 0 <= n < |s'.group.effects| && OlderLive(s', kinds, i, s'.group.effects[n])
      ensures i in s'.group.effects[..n]
    {
      assert OlderLive(s, kinds, i, s'.group.effects[n]);
      if n < |s.group.effects| {
        assert s'.group.effects[..n] == s.group.effects[..n];
      } else {
        PredecessorsClaimed(s, kinds, member, i);
        assert s'.group.effects[..n] == s.group.effects;
      }
    }
  }

  lemma HandleClaims(s: System, budget: nat, kinds: set<nat>, member: nat)
    requires Consistent(s, kinds) && Fresh(s, kinds, member)
    ensures LedgerIsExact(Next(s, budget, kinds, Handle(member)), kinds)
  {
    var id := s.world.topic[s.group.positions[member]];
    assert id in s.world.topic;
    assert forall x :: x in s.group.effects + [id] <==> x in s.group.effects || x == id;
  }

  lemma SettingAsideOrders(s: System, budget: nat, kinds: set<nat>, move: Move)
    requires Consistent(s, kinds) && (move.MoveAside? || move.ClaimAlone?) && Fresh(s, kinds, move.member)
    ensures EffectsOrdered(Next(s, budget, kinds, move), kinds)
  {
    var s' := Next(s, budget, kinds, move);
    forall n, i | 0 <= n < |s'.group.effects| && OlderLive(s', kinds, i, s'.group.effects[n])
      ensures i in s'.group.effects[..n]
    {
      assert OlderLive(s, kinds, i, s.group.effects[n]);
    }
  }

  lemma SettingAsideClaims(s: System, budget: nat, kinds: set<nat>, move: Move)
    requires Consistent(s, kinds) && (move.MoveAside? || move.ClaimAlone?) && Fresh(s, kinds, move.member)
    ensures LedgerIsExact(Next(s, budget, kinds, move), kinds)
  {
    assert s.world.topic[s.group.positions[move.member]] in s.world.topic;
  }

  lemma TakingKeepsClaims(s: System, budget: nat, kinds: set<nat>, move: Move, p: nat)
    requires Consistent(s, kinds) && Takes(move) && ClaimedUpTo(s, kinds, p)
    ensures ClaimedUpTo(Next(s, budget, kinds, move), kinds, p)
  {
  }

  lemma TakingKeeps(s: System, budget: nat, kinds: set<nat>, move: Move)
    requires Consistent(s, kinds) && Takes(move)
    ensures Consistent(Next(s, budget, kinds, move), kinds)
  {
    var s' := Next(s, budget, kinds, move);
    if move.Handle? && Fresh(s, kinds, move.member) {
      HandleOrders(s, budget, kinds, move.member);
      HandleClaims(s, budget, kinds, move.member);
    } else if !move.Handle? && Fresh(s, kinds, move.member) {
      SettingAsideOrders(s, budget, kinds, move);
      SettingAsideClaims(s, budget, kinds, move);
    }
    TakingKeepsClaims(s, budget, kinds, move, s.group.committed);
    forall member | member in s'.group.positions ensures ClaimedUpTo(s', kinds, s'.group.positions[member]) {
      TakingKeepsClaims(s, budget, kinds, move, s.group.positions[member]);
    }
  }

  lemma OffsetMovesKeep(s: System, budget: nat, kinds: set<nat>, move: Move)
    requires Consistent(s, kinds) && !move.Relay? && !Takes(move)
    ensures Consistent(Next(s, budget, kinds, move), kinds)
  {
    var s' := Next(s, budget, kinds, move);
    assert forall n, i :: OlderLive(s', kinds, i, n) ==> OlderLive(s, kinds, i, n);
  }

  lemma {:induction false} PlayKeeps(s: System, budget: nat, kinds: set<nat>, moves: seq<Move>)
    requires Consistent(s, kinds) && VisibleInOrderPlay(s, budget, kinds, moves)
    ensures Consistent(Play(s, budget, kinds, moves), kinds)
    decreases |moves|
  {
    if moves != [] {
      match moves[0] {
        case Relay(a) => RelayMoveKeeps(s, budget, kinds, a);
        case Handle(_) => TakingKeeps(s, budget, kinds, moves[0]);
        case MoveAside(_) => TakingKeeps(s, budget, kinds, moves[0]);
        case ClaimAlone(_) => TakingKeeps(s, budget, kinds, moves[0]);
        case _ => OffsetMovesKeep(s, budget, kinds, moves[0]);
      }
      PlayKeeps(Next(s, budget, kinds, moves[0]), budget, kinds, moves[1..]);
    }
  }

  // ---------------------------------------------------------------- the ideal queue

  /** The rows of `key` the group owes an effect in its turn: those it handles, that nobody gave up and that
      no saga run claimed alone. */
  ghost function LiveRows(s: System, kinds: set<nat>, key: Key): set<RowId> {
    set id | id in s.world.rows && s.world.rows[id].key == key && s.world.rows[id].kind in kinds
             && !s.world.rows[id].deadLettered && id !in s.group.aside && id !in s.group.alone
  }

  /** The ideal queue of a key: its live rows, oldest first. */
  ghost function Queue(s: System, kinds: set<nat>, key: Key): seq<int> {
    Ascending(set id | id in LiveRows(s, kinds, key) :: id as int)
  }

  /** What the group did with the live rows of a key, in the order it did it. */
  ghost function Effects(s: System, kinds: set<nat>, key: Key): seq<int> {
    Filter(AsInts(s.group.effects), set id | id in LiveRows(s, kinds, key) :: id as int)
  }

  ghost function AsInts(s: seq<RowId>): (r: seq<int>)
    ensures |r| == |s| && forall k :: 0 <= k < |s| ==> r[k] == s[k]
  {
    seq(|s|, k requires 0 <= k < |s| => s[k])
  }

  lemma ConsistentIsQueue(s: System, kinds: set<nat>, key: Key)
    requires Consistent(s, kinds)
    ensures Effects(s, kinds, key) <= Queue(s, kinds, key)
  {
    var live := set id | id in LiveRows(s, kinds, key) :: id as int;
    var done := AsInts(s.group.effects);
    forall n, x | 0 <= n < |done| && done[n] in live && x in live && x < done[n] ensures x in done[..n] {
      assert OlderLive(s, kinds, x, s.group.effects[n]);
      assert x in s.group.effects[..n];
      var k :| 0 <= k < n && s.group.effects[k] == x;
      assert done[..n][k] == x;
    }
    FilterIncreasing(done, live);
    forall x, y | x in Effects(s, kinds, key) && y in Queue(s, kinds, key) && y < x ensures y in Effects(s, kinds, key) {
      var n :| 0 <= n < |done| && done[n] == x;
      assert y in done[..n];
    }
    DownwardClosedIsPrefix(Effects(s, kinds, key), Queue(s, kinds, key));
  }

  lemma StartIsConsistent(kinds: set<nat>)
    ensures Consistent(START, kinds)
  {
  }

  /** Exactly once, in order.  Any number of relays and group members, any crashes, lease expiries,
      redeliveries and rewinds: at every moment the effects of the group on the live rows of a key are
      a prefix of those rows in identifier order, each once. */
  lemma EffectsFollowTheQueue(budget: nat, kinds: set<nat>, moves: seq<Move>, key: Key)
    requires VisibleInOrderPlay(START, budget, kinds, moves)
    ensures var s := Play(START, budget, kinds, moves);
      Effects(s, kinds, key) <= Queue(s, kinds, key) && NoDuplicates(s.group.effects)
  {
    StartIsConsistent(kinds);
    PlayKeeps(START, budget, kinds, moves);
    ConsistentIsQueue(Play(START, budget, kinds, moves), kinds, key);
  }

  /** A group that has read the whole partition of a settled outbox: nothing of the key is pending. */
  ghost predicate CaughtUp(s: System, key: Key) {
    && s.group.committed == |s.world.topic|
    && forall id :: id in s.world.rows && s.world.rows[id].key == key ==> !s.world.rows[id].Pending()
  }

  /** Nothing is lost: once the rows of a key are settled and the group caught up, its effects on the
      key are exactly the ideal queue. */
  lemma CaughtUpGroupDidEverything(budget: nat, kinds: set<nat>, moves: seq<Move>, key: Key)
    requires VisibleInOrderPlay(START, budget, kinds, moves)
    requires CaughtUp(Play(START, budget, kinds, moves), key)
    ensures var s := Play(START, budget, kinds, moves); Effects(s, kinds, key) == Queue(s, kinds, key)
  {
    var s := Play(START, budget, kinds, moves);
    StartIsConsistent(kinds);
    PlayKeeps(START, budget, kinds, moves);
    ConsistentIsQueue(s, kinds, key);
    forall y | y in Queue(s, kinds, key) ensures y in Effects(s, kinds, key) {
      assert y in LiveRows(s, kinds, key) && s.world.rows[y].published;
      assert y in s.world.topic;
      var k :| 0 <= k < |s.world.topic| && s.world.topic[k] == y;
      assert y in s.group.ledger && y in s.group.effects;
      var n :| 0 <= n < |s.group.effects| && s.group.effects[n] == y;
      assert AsInts(s.group.effects)[n] == y;
    }
    FullPrefix(Effects(s, kinds, key), Queue(s, kinds, key));
  }

  // ---------------------------------------------------------------- groups that trigger a saga

  predicate NoSagaRuns(moves: seq<Move>) {
    forall k :: 0 <= k < |moves| ==> !moves[k].ClaimAlone?
  }

  /** A group that triggers no saga claims nothing alone: its queue leaves out only what was given up. */
  lemma {:induction false} OnlyTriggersClaimAlone(s: System, budget: nat, kinds: set<nat>, moves: seq<Move>)
    requires NoSagaRuns(moves) && s.group.alone == {}
    ensures Play(s, budget, kinds, moves).group.alone == {}
    decreases |moves|
  {
    if moves != [] {
      assert !moves[0].ClaimAlone?;
      assert forall k :: 0 <= k < |moves| - 1 ==> moves[1..][k] == moves[k + 1];
      OnlyTriggersClaimAlone(Next(s, budget, kinds, moves[0]), budget, kinds, moves[1..]);
    }
  }

  lemma {:induction false} AloneStays(s: System, budget: nat, kinds: set<nat>, moves: seq<Move>, id: RowId)
    requires id in s.group.alone
    ensures id in Play(s, budget, kinds, moves).group.alone
    decreases |moves|
  {
    if moves != [] {
      AloneStays(Next(s, budget, kinds, moves[0]), budget, kinds, moves[1..], id);
    }
  }

  predicate NeverMovesAside(moves: seq<Move>) {
    forall k :: 0 <= k < |moves| ==> !moves[k].MoveAside?
  }

  /** Only moving a delivery aside puts it aside: handling never does. */
  lemma {:induction false} OnlyMovingAsideSetsAside(s: System, budget: nat, kinds: set<nat>, moves: seq<Move>)
    requires NeverMovesAside(moves) && s.group.aside == {}
    ensures Play(s, budget, kinds, moves).group.aside == {}
    decreases |moves|
  {
    if moves != [] {
      assert !moves[0].MoveAside?;
      assert forall k :: 0 <= k < |moves| - 1 ==> moves[1..][k] == moves[k + 1];
      OnlyMovingAsideSetsAside(Next(s, budget, kinds, moves[0]), budget, kinds, moves[1..]);
    }
  }

  /** A row of the key whose kind the group handles and that the relay did not give up. */
  predicate Owed(rows: map<RowId, Row>, kinds: set<nat>, key: Key, id: RowId) {
    id in rows && rows[id].key == key && rows[id].kind in kinds && !rows[id].deadLettered
  }

  /** A claim covers every published row of the key once the group has caught up. */
  lemma CaughtUpClaims(s: System, kinds: set<nat>, key: Key, id: RowId)
    requires Consistent(s, kinds) && CaughtUp(s, key) && Owed(s.world.rows, kinds, key, id)
    ensures id in s.group.ledger
  {
    assert s.world.rows[id].published && id in s.world.topic;
    var k :| 0 <= k < |s.world.topic| && s.world.topic[k] == id;
    assert ClaimedUpTo(s, kinds, s.group.committed);
  }

  /** Nothing is lost, on rows and effects alone.  In every run without a copy moved aside and without a saga
      run, a group that caught up on a settled key has committed the effect of every row of the key that it
      handles and that the relay did not give up, each after all such older ones. */
  lemma EveryHandledRowHasItsEffect(budget: nat, kinds: set<nat>, moves: seq<Move>, key: Key)
    requires VisibleInOrderPlay(START, budget, kinds, moves) && NeverMovesAside(moves) && NoSagaRuns(moves)
    requires CaughtUp(Play(START, budget, kinds, moves), key)
    ensures
      var s := Play(START, budget, kinds, moves);
      forall id :: Owed(s.world.rows, kinds, key, id) ==>
        && id in s.group.effects
        && forall n :: 0 <= n < |s.group.effects| && Older(s.world.rows, id, s.group.effects[n]) ==> id in s.group.effects[..n]
  {
    var s := Play(START, budget, kinds, moves);
    StartIsConsistent(kinds);
    PlayKeeps(START, budget, kinds, moves);
    OnlyMovingAsideSetsAside(START, budget, kinds, moves);
    OnlyTriggersClaimAlone(START, budget, kinds, moves);
    forall id | Owed(s.world.rows, kinds, key, id)
      ensures id in s.group.effects
      ensures forall n :: 0 <= n < |s.group.effects| && Older(s.world.rows, id, s.group.effects[n]) ==> id in s.group.effects[..n]
    {
      CaughtUpClaims(s, kinds, key, id);
      forall n | 0 <= n < |s.group.effects| && Older(s.world.rows, id, s.group.effects[n]) ensures id in s.group.effects[..n] {
        assert OlderLive(s, kinds, id, s.group.effects[n]);
      }
    }
  }

  function Handles(member: nat, n: nat): seq<Move> {
    if n == 0 then [] else [Handle(member)] + Handles(member, n - 1)
  }

  lemma {:induction false} HandlesAdvance(s: System, budget: nat, kinds: set<nat>, member: nat, n: nat)
    requires member in s.group.positions && s.group.positions[member] + n <= |s.world.topic|
    ensures
      var end := Play(s, budget, kinds, Handles(member, n));
      && member in end.group.positions && end.group.positions[member] == s.group.positions[member] + n
      && end.world == s.world && end.group.aside == s.group.aside && end.group.alone == s.group.alone
      && s.group.effects <= end.group.effects
    decreases n
  {
    if n > 0 {
      var next := Next(s, budget, kinds, Handle(member));
      assert Handles(member, n)[1..] == Handles(member, n - 1);
      HandlesAdvance(next, budget, kinds, member, n - 1);
    }
  }

  lemma {:induction false} PlaySplits(s: System, budget: nat, kinds: set<nat>, first: seq<Move>, second: seq<Move>)
    ensures Play(s, budget, kinds, first + second) == Play(Play(s, budget, kinds, first), budget, kinds, second)
    decreases |first|
  {
    if first == [] {
      assert first + second == second;
    } else {
      assert (first + second)[1..] == first[1..] + second;
      PlaySplits(Next(s, budget, kinds, first[0]), budget, kinds, first[1..], second);
    }
  }

  /** A group can always catch up: a member that joins and handles what is left has read the partition. */
  lemma GroupCanCatchUp(s: System, budget: nat, kinds: set<nat>, member: nat) returns (moves: seq<Move>)
    requires Consistent(s, kinds)
    ensures
      var end := Play(s, budget, kinds, moves);
      && end.group.committed == |s.world.topic| && end.world == s.world
      && end.group.aside == s.group.aside && end.group.alone == s.group.alone && s.group.effects <= end.group.effects
  {
    var n := |s.world.topic| - s.group.committed;
    var joined := Next(s, budget, kinds, Join(member));
    HandlesAdvance(joined, budget, kinds, member, n);
    PlaySplits(joined, budget, kinds, Handles(member, n), [CommitOffset(member)]);
    moves := [Join(member)] + (Handles(member, n) + [CommitOffset(member)]);
    assert moves[1..] == Handles(member, n) + [CommitOffset(member)];
    assert [CommitOffset(member)][1..] == [];
    var read := Play(joined, budget, kinds, Handles(member, n));
    var end := Next(read, budget, kinds, CommitOffset(member));
    assert Play(end, budget, kinds, []) == end && Play(read, budget, kinds, [CommitOffset(member)]) == end;
  }

  lemma {:induction false} ClaimedHandlesChangeNothing(s: System, budget: nat, kinds: set<nat>, member: nat, n: nat)
    requires member in s.group.positions && s.group.positions[member] + n <= |s.world.topic|
    requires ClaimedUpTo(s, kinds, |s.world.topic|)
    ensures
      var end := Play(s, budget, kinds, Handles(member, n));
      && end.group.effects == s.group.effects && end.group.ledger == s.group.ledger
      && member in end.group.positions && end.group.positions[member] == s.group.positions[member] + n
    decreases n
  {
    if n > 0 {
      assert Handles(member, n)[1..] == Handles(member, n - 1);
      ClaimedHandlesChangeNothing(Next(s, budget, kinds, Handle(member)), budget, kinds, member, n - 1);
    }
  }

  /** An operator's replay is harmless: a group that has read everything, rewound to any offset, reads all
      of it again from there and commits no further effect. */
  lemma ReplayChangesNothing(s: System, budget: nat, kinds: set<nat>, member: nat, offset: nat)
    requires Consistent(s, kinds) && s.group.committed == |s.world.topic| && offset <= |s.world.topic|
    ensures
      var n := |s.world.topic| - offset;
      var end := Play(s, budget, kinds, [Rewind(offset), Join(member)] + Handles(member, n));
      && end.group.committed == offset && member in end.group.positions && end.group.positions[member] == |s.world.topic|
      && end.group.effects == s.group.effects && end.group.ledger == s.group.ledger
  {
    var n := |s.world.topic| - offset;
    var rewound := Next(s, budget, kinds, Rewind(offset));
    var joined := Next(rewound, budget, kinds, Join(member));
    var moves := [Rewind(offset), Join(member)] + Handles(member, n);
    assert moves[1..] == [Join(member)] + Handles(member, n) && moves[1..][1..] == Handles(member, n);
    ClaimedHandlesChangeNothing(joined, budget, kinds, member, n);
    HandlesKeepTheOffset(joined, budget, kinds, member, n);
  }

  lemma {:induction false} HandlesKeepTheOffset(s: System, budget: nat, kinds: set<nat>, member: nat, n: nat)
    ensures Play(s, budget, kinds, Handles(member, n)).group.committed == s.group.committed
    decreases n
  {
    if n > 0 {
      assert Handles(member, n)[1..] == Handles(member, n - 1);
      HandlesKeepTheOffset(Next(s, budget, kinds, Handle(member)), budget, kinds, member, n - 1);
    }
  }

  lemma {:induction false} AsideStays(s: System, budget: nat, kinds: set<nat>, moves: seq<Move>, id: RowId)
    requires id in s.group.aside
    ensures id in Play(s, budget, kinds, moves).group.aside
    decreases |moves|
  {
    if moves != [] {
      AsideStays(Next(s, budget, kinds, moves[0]), budget, kinds, moves[1..], id);
    }
  }

  /** A delivery moved aside is never handled by the group afterwards, whatever is redelivered. */
  lemma MovedAsideIsNeverHandled(s: System, budget: nat, kinds: set<nat>, member: nat, moves: seq<Move>)
    requires Consistent(s, kinds) && Fresh(s, kinds, member)
    requires VisibleInOrderPlay(Next(s, budget, kinds, MoveAside(member)), budget, kinds, moves)
    ensures
      var id := s.world.topic[s.group.positions[member]];
      var moved := Next(s, budget, kinds, MoveAside(member)).group;
      && id !in Play(Next(s, budget, kinds, MoveAside(member)), budget, kinds, moves).group.effects
      && id in moved.ledger && moved.positions == s.group.positions[member := s.group.positions[member] + 1]
  {
    var moved := Next(s, budget, kinds, MoveAside(member));
    TakingKeeps(s, budget, kinds, MoveAside(member));
    PlayKeeps(moved, budget, kinds, moves);
    AsideStays(moved, budget, kinds, moves, s.world.topic[s.group.positions[member]]);
  }

  /** What a trigger's claim without its effect costs: no redelivery to the group ever has the effect, while
      the group goes on with the younger rows of the key. */
  lemma ClaimedAloneIsNeverHandled(s: System, budget: nat, kinds: set<nat>, member: nat, moves: seq<Move>)
    requires Consistent(s, kinds) && Fresh(s, kinds, member)
    requires VisibleInOrderPlay(Next(s, budget, kinds, ClaimAlone(member)), budget, kinds, moves)
    ensures
      var id := s.world.topic[s.group.positions[member]];
      id !in Play(Next(s, budget, kinds, ClaimAlone(member)), budget, kinds, moves).group.effects
  {
    var claimed := Next(s, budget, kinds, ClaimAlone(member));
    TakingKeeps(s, budget, kinds, ClaimAlone(member));
    PlayKeeps(claimed, budget, kinds, moves);
    AloneStays(claimed, budget, kinds, moves, s.world.topic[s.group.positions[member]]);
  }
}
