/** The notification stream of one household: reads ordered by creation but resumed by identifier, the
    wake-up flag between reads, and any number of reconnections with the last identifier as cursor. */
module NotificationStream {
  import opened Wrappers
  import opened Sequences

  type Id = int

  // ---------------------------------------------------------------- one read

  /** `list_pending` orders by creation and then by identifier. */
  predicate Before(created: map<Id, int>, a: Id, b: Id)
    requires a in created && b in created
  {
    created[a] < created[b] || (created[a] == created[b] && a < b)
  }

  ghost function Newest(created: map<Id, int>, ids: set<Id>): (n: Id)
    requires ids != {} && ids <= created.Keys
    ensures n in ids && forall x :: x in ids && x != n ==> Before(created, x, n)
    decreases |ids|
  {
    var x := Greatest(ids);
    if ids == {x} then x
    else
      var rest := Newest(created, ids - {x});
      assert forall y :: y in ids ==> y == x || y in ids - {x};
      if Before(created, rest, x) then x else rest
  }

  /** The given notifications, oldest first. */
  ghost function Listing(created: map<Id, int>, ids: set<Id>): (r: seq<Id>)
    requires ids <= created.Keys
    ensures forall x :: x in r <==> x in ids
    decreases |ids|
  {
    if ids == {} then []
    else
      var n := Newest(created, ids);
      assert forall x :: x in ids <==> x in ids - {n} || x == n;
      Listing(created, ids - {n}) + [n]
  }

  /** Identifiers ordered by creation, which is what the cursor assumes. */
  ghost predicate Monotone(created: map<Id, int>, ids: set<Id>)
    requires ids <= created.Keys
  {
    forall a, b :: a in ids && b in ids && Before(created, a, b) ==> a < b
  }

  /** With monotone identifiers a read is simply ordered by identifier. */
  lemma {:induction false} MonotoneListing(created: map<Id, int>, ids: set<Id>)
    requires ids <= created.Keys && Monotone(created, ids)
    ensures Listing(created, ids) == Ascending(ids)
    decreases |ids|
  {
    if ids != {} {
      assert Newest(created, ids) == Greatest(ids);
      MonotoneListing(created, ids - {Newest(created, ids)});
    }
  }

  ghost function After(ids: set<Id>, cursor: Option<Id>): set<Id> {
    set x | x in ids && (cursor.None? || x > cursor.value)
  }

  /** The cursor after a read that was delivered in full. */
  ghost function CursorAfter(created: map<Id, int>, ids: set<Id>, cursor: Option<Id>): Option<Id>
    requires ids <= created.Keys
  {
    var read := Listing(created, After(ids, cursor));
    if read == [] then cursor else Some(read[|read| - 1])
  }

  /** Exactly when reading twice delivers nothing twice: the newest pending notification must have the
      greatest pending identifier.  Otherwise the cursor moves back and the second read repeats it. */
  lemma SecondReadIsEmptyExactly(created: map<Id, int>, ids: set<Id>, cursor: Option<Id>)
    requires ids <= created.Keys && After(ids, cursor) != {}
    ensures Listing(created, After(ids, CursorAfter(created, ids, cursor))) == [] <==>
      Newest(created, After(ids, cursor)) == Greatest(After(ids, cursor))
  {
    var pending := After(ids, cursor);
    var newest, greatest := Newest(created, pending), Greatest(pending);
    var next := CursorAfter(created, ids, cursor);
    assert next == Some(newest);
    var again := After(ids, next);
    if newest == greatest {
      forall x | x in again ensures x in pending {
      }
      assert again == {};
    } else {
      assert greatest in again;
      assert greatest in Listing(created, again);
    }
  }

  /** Identifiers derived from events carry no order: a notification is delivered twice. */
  lemma DerivedIdentifierIsRepeated()
    ensures
      var created: map<Id, int> := map[5 := 1, 3 := 2];
      var first := CursorAfter(created, {3, 5}, None);
      first == Some(3) && 5 in Listing(created, After({3, 5}, None)) && 5 in Listing(created, After({3, 5}, first))
  {
    var created: map<Id, int> := map[5 := 1, 3 := 2];
    assert After({3, 5}, None) == {3, 5};
    var n := Newest(created, {3, 5});
    assert n == 5 || n == 3;
    assert Before(created, 5, 3);
    assert n == 3;
    assert 5 in After({3, 5}, Some(3));
  }

  /** The generator's read: yield what the cursor has not passed, moving the cursor with every arrival. */
  class Cursor {
    var cursor: Option<Id>
    var yielded: seq<Id>

    constructor (since: Option<Id>)
      ensures cursor == since && yielded == []
    {
      cursor, yielded := since, [];
    }

    method Drain(found: seq<Id>)
      modifies this
      ensures yielded == old(yielded) + found
      ensures cursor == if found == [] then old(cursor) else Some(found[|found| - 1])
    {
      var k := 0;
      while k < |found|
        invariant 0 <= k <= |found| && yielded == old(yielded) + found[..k]
        invariant cursor == if k == 0 then old(cursor) else Some(found[k - 1])
      {
        cursor := Some(found[k]);
        yielded := yielded + [found[k]];
        k := k + 1;
      }
      assert found[..k] == found;
    }
  }

  // ---------------------------------------------------------------- the running stream

  datatype Phase = Ready | Reading(left: seq<Id>) | Waiting

  /** `since` is the cursor of the very first connection; `created` holds the committed notifications with
      the instant each was created.  `seen` is what was committed when the latest read began; `silent` says
      that something was committed and its nudge is still to be published. */
  datatype Stream = Stream(
    since: Option<Id>, created: map<Id, int>, acknowledged: set<Id>, seen: set<Id>,
    cursor: Option<Id>, yielded: seq<Id>, phase: Phase, flag: bool, silent: bool)

  datatype Action =
    | Add(id: Id, at: int) // a notification created at the given instant is committed
    | Acknowledge(id: Id)
    | Nudge               // the household's channel wakes the stream
    | StartRead
    | Yield
    | EndRead
    | Wake                // `wait` returns and clears the flag
    | KeepAlive           // `wait` times out; the loop reads again
    | Reconnect           // with the last identifier received; the old signal is gone

  /** One step; the read lists what is committed, unread and past the cursor, oldest first. */
  ghost function Step(s: Stream, a: Action): Stream {
    match a
    case Add(id, at) => if id in s.created then s else s.(created := s.created[id := at], silent := true)
    case Acknowledge(id) => if id in s.created then s.(acknowledged := s.acknowledged + {id}) else s
    case Nudge => s.(flag := true, silent := false)
    case StartRead =>
      if s.phase != Ready then s
      else
        var left := Listing(s.created, After(s.created.Keys - s.acknowledged, s.cursor));
        s.(phase := Reading(left), seen := s.created.Keys)
    case Yield =>
      if !(s.phase.Reading? && s.phase.left != []) then s
      else s.(phase := Reading(s.phase.left[1..]), cursor := Some(s.phase.left[0]), yielded := s.yielded + [s.phase.left[0]])
    case EndRead => if s.phase == Reading([]) then s.(phase := Waiting) else s
    case Wake => if s.phase == Waiting && s.flag then s.(phase := Ready, flag := false) else s
    case KeepAlive => if s.phase == Waiting then s.(phase := Ready) else s
    case Reconnect => s.(phase := Ready, flag := false)
  }

  ghost function Run(s: Stream, actions: seq<Action>): Stream
    decreases |actions|
  {
    if actions == [] then s else Run(Step(s, actions[0]), actions[1..])
  }

  /** The premise: notifications are committed in the order of their creation and of their identifiers. */
  ghost predicate InOrder(s: Stream, a: Action) {
    a.Add? && a.id !in s.created ==> forall x :: x in s.created ==> x < a.id && s.created[x] <= a.at
  }

  ghost predicate InOrderRun(s: Stream, actions: seq<Action>)
    decreases |actions|
  {
    actions != [] ==> InOrder(s, actions[0]) && InOrderRun(Step(s, actions[0]), actions[1..])
  }

  predicate Passed(cursor: Option<Id>, x: Id) {
    cursor.Some? && x <= cursor.value
  }

  /** Delivered identifiers strictly increase, all past `since`, none past the cursor; nothing unread the
      cursor has passed is missing. */
  ghost predicate Delivered(s: Stream) {
    && Increasing(s.yielded)
    && (forall x :: x in s.yielded ==> x in s.created && !Passed(s.since, x) && Passed(s.cursor, x))
    && (forall x :: x in s.created && !Passed(s.since, x) && Passed(s.cursor, x) ==> x in s.yielded || x in s.acknowledged)
    && (s.since.Some? ==> s.cursor.Some? && s.since.value <= s.cursor.value)
    && (s.cursor == s.since || (s.cursor.Some? && s.cursor.value in s.yielded))
  }

  /** What is left of a read: increasing, past the cursor, and all of it that is still unread. */
  ghost predicate ReadInProgress(s: Stream) {
    && (s.seen <= s.created.Keys && forall x, y :: x in s.seen && y in s.created && y !in s.seen ==> x < y)
    && (s.phase.Reading? ==>
          && Increasing(s.phase.left)
          && (forall x :: x in s.phase.left ==> x in s.seen && !Passed(s.cursor, x))
          && (forall x :: x in s.seen && !Passed(s.cursor, x) ==> x in s.phase.left || x in s.acknowledged))
    && (s.phase.Waiting? ==> forall x :: x in s.seen && !Passed(s.cursor, x) ==> x in s.acknowledged)
  }

  /** Whatever is committed and was not seen by the latest read is still going to be: its nudge is to
      come, or the flag is up, or a read is next. */
  ghost predicate NoLostNudge(s: Stream) {
    s.created.Keys != s.seen ==> s.silent || s.flag || s.phase == Ready
  }

  ghost predicate Sound(s: Stream) {
    Delivered(s) && ReadInProgress(s) && NoLostNudge(s) && Monotone(s.created, s.created.Keys)
  }

  lemma StepDelivers(s: Stream, a: Action)
    requires Sound(s) && InOrder(s, a)
    ensures Delivered(Step(s, a))
  {
    if a.Yield? && s.phase.Reading? && s.phase.left != [] {
      var next, s' := s.phase.left[0], Step(s, a);
      assert next in s.phase.left;
      assert forall k :: 0 <= k < |s.yielded| ==> s.yielded[k] in s.yielded;
      forall x | x in s.created && !Passed(s.since, x) && Passed(s'.cursor, x) ensures x in s'.yielded || x in s.acknowledged {
        if !Passed(s.cursor, x) && x !in s.acknowledged {
          assert x in s.seen;
          var k :| 0 <= k < |s.phase.left| && s.phase.left[k] == x;
          assert k == 0;
        }
      }
    }
  }

  lemma AddIsSound(s: Stream, id: Id, at: int)
    requires Sound(s) && InOrder(s, Add(id, at))
    ensures Sound(Step(s, Add(id, at)))
  {
    StepDelivers(s, Add(id, at));
  }

  lemma StartReadIsSound(s: Stream)
    requires Sound(s)
    ensures Sound(Step(s, StartRead))
  {
    StepDelivers(s, StartRead);
    MonotoneListing(s.created, After(s.created.Keys - s.acknowledged, s.cursor));
  }

  lemma YieldIsSound(s: Stream)
    requires Sound(s)
    ensures Sound(Step(s, Yield))
  {
    StepDelivers(s, Yield);
    if s.phase.Reading? && s.phase.left != [] {
      RestOfRead(s.phase.left);
    }
  }

  lemma RestOfRead(left: seq<Id>)
    requires Increasing(left) && left != []
    ensures Increasing(left[1..]) && left[0] in left
    ensures forall x :: x in left[1..] <==> x in left && x > left[0]
  {
    assert forall k :: 0 < k < |left| ==> left[1..][k - 1] == left[k];
  }

  lemma StepIsSound(s: Stream, a: Action)
    requires Sound(s) && InOrder(s, a)
    ensures Sound(Step(s, a))
  {
    match a
    case Add(id, at) => AddIsSound(s, id, at);
    case StartRead => StartReadIsSound(s);
    case Yield => YieldIsSound(s);
    case _ => StepDelivers(s, a);
  }

  lemma {:induction false} RunIsSound(s: Stream, actions: seq<Action>)
    requires Sound(s) && InOrderRun(s, actions)
    ensures Sound(Run(s, actions))
    decreases |actions|
  {
    if actions != [] {
      StepIsSound(s, actions[0]);
      RunIsSound(Step(s, actions[0]), actions[1..]);
    }
  }

  function Opening(since: Option<Id>): Stream {
    Stream(since, map[], {}, {}, since, [], Ready, false, false)
  }

  lemma {:induction false} SinceNeverChanges(s: Stream, actions: seq<Action>)
    ensures Run(s, actions).since == s.since
    decreases |actions|
  {
    if actions != [] {
      SinceNeverChanges(Step(s, actions[0]), actions[1..]);
    }
  }

  /** Nothing is delivered twice and nothing is passed over.  For every run that commits in
      order, whatever commits, nudges, timeouts and reconnections happen: the delivered identifiers strictly
      increase, and whenever the stream waits with its flag down and no nudge is outstanding, everything
      past the first cursor was delivered or acknowledged. */
  lemma DeliveredOnceAndCompletely(since: Option<Id>, actions: seq<Action>)
    requires InOrderRun(Opening(since), actions)
    ensures
      var s := Run(Opening(since), actions);
      && Increasing(s.yielded)
      && (s.phase == Waiting && !s.flag && !s.silent ==>
            forall x :: x in After(s.created.Keys, since) ==> x in s.yielded || x in s.acknowledged)
  {
    RunIsSound(Opening(since), actions);
    SinceNeverChanges(Opening(since), actions);
  }

  /** Reconnecting is invisible: two clients that saw the same notifications committed, with any number of
      reconnections each, have received the same sequence when both are quiet and nothing was acknowledged. */
  lemma ReconnectingIsInvisible(since: Option<Id>, one: seq<Action>, other: seq<Action>)
    requires InOrderRun(Opening(since), one) && InOrderRun(Opening(since), other)
    requires
      var a, b := Run(Opening(since), one), Run(Opening(since), other);
      && a.created.Keys == b.created.Keys && a.acknowledged == {} && b.acknowledged == {}
      && a.phase == Waiting && !a.flag && !a.silent && b.phase == Waiting && !b.flag && !b.silent
    ensures Run(Opening(since), one).yielded == Run(Opening(since), other).yielded
    ensures Run(Opening(since), one).yielded == Ascending(After(Run(Opening(since), one).created.Keys, since))
  {
    QuietStreamHasEverything(since, one);
    QuietStreamHasEverything(since, other);
  }

  lemma QuietStreamHasEverything(since: Option<Id>, actions: seq<Action>)
    requires InOrderRun(Opening(since), actions)
    requires
      var s := Run(Opening(since), actions);
      s.acknowledged == {} && s.phase == Waiting && !s.flag && !s.silent
    ensures
      var s := Run(Opening(since), actions);
      s.yielded == Ascending(After(s.created.Keys, since))
  {
    var s := Run(Opening(since), actions);
    RunIsSound(Opening(since), actions);
    SinceNeverChanges(Opening(since), actions);
    DeliveredOnceAndCompletely(since, actions);
    var all := Ascending(After(s.created.Keys, since));
    DownwardClosedIsPrefix(s.yielded, all);
    FullPrefix(s.yielded, all);
  }

  lemma {:induction false} UnnudgedFlagStaysDown(s: Stream, actions: seq<Action>)
    requires !s.flag && Nudge !in actions
    ensures !Run(s, actions).flag
    decreases |actions|
  {
    if actions != [] {
      UnnudgedFlagStaysDown(Step(s, actions[0]), actions[1..]);
    }
  }

  /** A stream is woken only by a nudge since it connected: a reconnection starts with a signal of its own. */
  lemma OnlyANudgeWakes(s: Stream, actions: seq<Action>)
    requires Nudge !in actions
    ensures
      var end := Run(Step(s, Reconnect), actions);
      Step(end, Wake) == end
  {
    UnnudgedFlagStaysDown(Step(s, Reconnect), actions);
  }

  /** A nudge that finds the stream waiting is never slept through, and a wait that times out reads again. */
  lemma NudgedStreamReadsAgain(s: Stream)
    requires s.phase == Waiting
    ensures
      var reading := Step(Step(Step(s, Nudge), Wake), StartRead);
      reading.phase.Reading? && reading.seen == s.created.Keys && !reading.flag
    ensures
      var reading := Step(Step(s, KeepAlive), StartRead);
      reading.phase.Reading? && reading.seen == s.created.Keys && reading.flag == s.flag
  {
  }

  // ---------------------------------------------------------------- without the premise

  /** What holds of every run, in whatever order notifications are committed. */
  ghost predicate WellFormed(s: Stream) {
    && s.acknowledged <= s.created.Keys
    && (forall x :: x in s.yielded ==> x in s.created)
    && (s.phase.Reading? ==> forall x :: x in s.phase.left ==> x in s.created)
  }

  lemma {:induction false} RunIsWellFormed(s: Stream, actions: seq<Action>)
    requires WellFormed(s)
    ensures WellFormed(Run(s, actions))
    decreases |actions|
  {
    if actions != [] {
      RunIsWellFormed(Step(s, actions[0]), actions[1..]);
    }
  }

  /** The cursor has passed `x` and no read in progress will move it back before `x`. */
  ghost predicate Overtaken(s: Stream, x: Id) {
    Passed(s.cursor, x) && (s.phase.Reading? ==> forall y :: y in s.phase.left ==> x < y)
  }

  /** How often an identifier was delivered. */
  function Times(s: Stream, x: Id): nat {
    multiset(s.yielded)[x]
  }

  lemma StaysOvertaken(s: Stream, x: Id, a: Action)
    requires Overtaken(s, x)
    ensures Overtaken(Step(s, a), x) && Times(Step(s, a), x) == Times(s, x)
  {
    var t := Step(s, a);
    if a.Yield? && s.phase.Reading? && s.phase.left != [] {
      assert s.phase.left[0] in s.phase.left;
      assert forall y :: y in t.phase.left ==> y in s.phase.left;
    }
    if a.StartRead? && s.phase == Ready {
      assert forall y :: y in t.phase.left ==> y in After(s.created.Keys - s.acknowledged, s.cursor);
    }
  }

  /** What was overtaken stays overtaken and is never delivered, again or at all. */
  lemma {:induction false} OvertakenIsLost(s: Stream, x: Id, actions: seq<Action>)
    requires Overtaken(s, x)
    ensures Overtaken(Run(s, actions), x) && Times(Run(s, actions), x) == Times(s, x)
    decreases |actions|
  {
    if actions != [] {
      StaysOvertaken(s, x, actions[0]);
      OvertakenIsLost(Step(s, actions[0]), x, actions[1..]);
    }
  }

  lemma {:induction false} TimesGrow(s: Stream, x: Id, actions: seq<Action>)
    ensures Times(Run(s, actions), x) >= Times(s, x)
    decreases |actions|
  {
    if actions != [] {
      TimesGrow(Step(s, actions[0]), x, actions[1..]);
    }
  }

  lemma {:induction false} RunAppends(s: Stream, one: seq<Action>, two: seq<Action>)
    ensures Run(s, one + two) == Run(Run(s, one), two)
    decreases |one|
  {
    if one == [] {
      assert one + two == two;
    } else {
      assert (one + two)[1..] == one[1..] + two;
      RunAppends(Step(s, one[0]), one[1..], two);
    }
  }

  /** A read in progress that nothing disturbs reaches everything it still lists. */
  lemma {:induction false} ReadReaches(s: Stream, x: Id) returns (actions: seq<Action>)
    requires s.phase.Reading? && x in s.phase.left
    ensures
      var t := Run(s, actions);
      t.cursor == Some(x) && Times(t, x) > Times(s, x) && t.created == s.created && t.acknowledged == s.acknowledged
    decreases |s.phase.left|
  {
    var t := Step(s, Yield);
    if s.phase.left[0] == x {
      actions := [Yield];
      assert actions[1..] == [] && Run(t, []) == t;
    } else {
      var rest := ReadReaches(t, x);
      actions := [Yield] + rest;
      assert actions[1..] == rest;
    }
  }

  /** A client that reconnects is sent whatever is unread and past its cursor. */
  lemma ReconnectReaches(s: Stream, x: Id) returns (actions: seq<Action>)
    requires x in s.created && x !in s.acknowledged && !Passed(s.cursor, x)
    ensures Times(Run(s, actions), x) > Times(s, x)
  {
    var ready := Step(s, Reconnect);
    var reading := Step(ready, StartRead);
    assert x in After(s.created.Keys - s.acknowledged, s.cursor);
    var rest := ReadReaches(reading, x);
    actions := [Reconnect, StartRead] + rest;
    assert actions[1..] == [StartRead] + rest && ([StartRead] + rest)[1..] == rest;
    assert Run(ready, actions[1..]) == Run(reading, rest);
  }

  /** Some continuation delivers what is not overtaken: the read in progress, or the next one, lists it. */
  lemma NotOvertakenCanBeDelivered(s: Stream, x: Id) returns (actions: seq<Action>)
    requires x in s.created && x !in s.acknowledged && !Overtaken(s, x)
    ensures Times(Run(s, actions), x) > Times(s, x)
  {
    if !Passed(s.cursor, x) {
      actions := ReconnectReaches(s, x);
    } else {
      var y :| y in s.phase.left && y <= x;
      var back := ReadReaches(s, y);
      if y == x {
        actions := back;
      } else {
        var next := ReconnectReaches(Run(s, back), x);
        TimesGrow(s, x, back);
        actions := back + next;
        RunAppends(s, back, next);
      }
    }
  }

  /** Exactly when an unread notification, delivered before or not, can still be delivered once more, from
      any state of any run: when it is not overtaken. */
  lemma DeliveredOnceMoreExactly(s: Stream, x: Id)
    requires x in s.created && x !in s.acknowledged
    ensures (exists actions :: Times(Run(s, actions), x) > Times(s, x)) <==> !Overtaken(s, x)
  {
    if Overtaken(s, x) {
      forall actions ensures Times(Run(s, actions), x) == Times(s, x) {
        OvertakenIsLost(s, x, actions);
      }
    } else {
      var actions := NotOvertakenCanBeDelivered(s, x);
      assert Times(Run(s, actions), x) > Times(s, x);
    }
  }

  lemma StaysOutside(s: Stream, x: Id, a: Action)
    requires x in s.created && x in s.acknowledged && !(s.phase.Reading? && x in s.phase.left)
    ensures
      var t := Step(s, a);
      && x in t.created && x in t.acknowledged && !(t.phase.Reading? && x in t.phase.left) && Times(t, x) == Times(s, x)
  {
    var t := Step(s, a);
    if a.Yield? && s.phase.Reading? && s.phase.left != [] {
      assert s.phase.left[0] in s.phase.left;
      assert forall y :: y in t.phase.left ==> y in s.phase.left;
    }
    if a.StartRead? && s.phase == Ready {
      assert x !in After(s.created.Keys - s.acknowledged, s.cursor);
    }
  }

  lemma {:induction false} AcknowledgedIsLeftOut(s: Stream, x: Id, actions: seq<Action>)
    requires x in s.created && x in s.acknowledged && !(s.phase.Reading? && x in s.phase.left)
    ensures Times(Run(s, actions), x) == Times(s, x)
    decreases |actions|
  {
    if actions != [] {
      StaysOutside(s, x, actions[0]);
      AcknowledgedIsLeftOut(Step(s, actions[0]), x, actions[1..]);
    }
  }

  /** Exactly when an acknowledged notification can still be delivered once more, from any state: when the
      read in progress lists it. */
  lemma AcknowledgedIsDeliveredExactly(s: Stream, x: Id)
    requires x in s.created && x in s.acknowledged
    ensures (exists actions :: Times(Run(s, actions), x) > Times(s, x)) <==> s.phase.Reading? && x in s.phase.left
  {
    if s.phase.Reading? && x in s.phase.left {
      var actions := ReadReaches(s, x);
      assert Times(Run(s, actions), x) > Times(s, x);
    } else {
      forall actions ensures Times(Run(s, actions), x) == Times(s, x) {
        AcknowledgedIsLeftOut(s, x, actions);
      }
    }
  }

  /** What is acknowledged before a read begins is delivered neither by that read nor by any later one. */
  lemma AcknowledgedBeforeTheReadIsNotDelivered(s: Stream, x: Id, actions: seq<Action>)
    requires x in s.created && !s.phase.Reading?
    ensures
      var read := Step(Step(s, Acknowledge(x)), StartRead);
      Times(Run(read, actions), x) == Times(s, x)
  {
    var acknowledged := Step(s, Acknowledge(x));
    StaysOutside(acknowledged, x, StartRead);
    AcknowledgedIsLeftOut(Step(acknowledged, StartRead), x, actions);
  }

  /** The first instant an identifier was added with. */
  function FirstAdded(actions: seq<Action>, x: Id): Option<int>
    decreases |actions|
  {
    if actions == [] then None
    else if actions[0].Add? && actions[0].id == x then Some(actions[0].at)
    else FirstAdded(actions[1..], x)
  }

  /** Along every run nothing but committing creates a notification, none is ever lost, and each keeps the
      instant it was created at; only what was acknowledged is acknowledged. */
  lemma {:induction false} CreatedAsCommitted(s: Stream, actions: seq<Action>, x: Id)
    ensures x in s.created ==> x in Run(s, actions).created && Run(s, actions).created[x] == s.created[x]
    ensures x !in s.created ==>
      (if FirstAdded(actions, x).None? then x !in Run(s, actions).created
       else x in Run(s, actions).created && Run(s, actions).created[x] == FirstAdded(actions, x).value)
    ensures x !in s.acknowledged && Acknowledge(x) !in actions ==> x !in Run(s, actions).acknowledged
    decreases |actions|
  {
    if actions != [] {
      CreatedAsCommitted(Step(s, actions[0]), actions[1..], x);
    }
  }

  lemma {:induction false} ListingBefore(created: map<Id, int>, ids: set<Id>, i: nat, j: nat)
    requires ids <= created.Keys && i < j < |Listing(created, ids)|
    ensures
      var a, b := Listing(created, ids)[i], Listing(created, ids)[j];
      a in created && b in created && (created[a] < created[b] || (created[a] == created[b] && a < b))
    decreases |ids|
  {
    var n := Newest(created, ids);
    var rest := Listing(created, ids - {n});
    assert Listing(created, ids) == rest + [n];
    if j < |rest| {
      ListingBefore(created, ids - {n}, i, j);
    } else {
      assert rest[i] in rest;
    }
  }

  /** What a read delivers: exactly the committed, unread notifications past the cursor, each once, the oldest
      first, and of two created at one instant the smaller identifier first. */
  lemma ReadIsExact(s: Stream)
    requires s.phase == Ready
    ensures
      var left := Step(s, StartRead).phase.left;
      && (forall x :: x in left <==>
            x in s.created && x !in s.acknowledged && (s.cursor.Some? ==> s.cursor.value < x))
      && (forall i, j :: 0 <= i < j < |left| ==>
            && left[i] in s.created && left[j] in s.created
            && (s.created[left[i]] < s.created[left[j]] || (s.created[left[i]] == s.created[left[j]] && left[i] < left[j])))
  {
    var ids := After(s.created.Keys - s.acknowledged, s.cursor);
    var left := Listing(s.created, ids);
    forall i, j | 0 <= i < j < |left|
      ensures left[i] in s.created && left[j] in s.created
      ensures s.created[left[i]] < s.created[left[j]] || (s.created[left[i]] == s.created[left[j]] && left[i] < left[j])
    {
      ListingBefore(s.created, ids, i, j);
    }
  }

  /** Exactly when a newly committed notification can never be delivered, from any state of any run and
      whatever happens afterwards: the cursor has passed its identifier, and nothing that the read in
      progress still lists has a smaller one. */
  lemma LateCommitIsLostExactly(s: Stream, id: Id, at: int)
    requires WellFormed(s) && id !in s.created
    ensures (forall actions :: id !in Run(Step(s, Add(id, at)), actions).yielded) <==>
      Passed(s.cursor, id) && !(s.phase.Reading? && exists x :: x in s.phase.left && x < id)
  {
    var t := Step(s, Add(id, at));
    assert id !in t.yielded && Times(t, id) == 0;
    forall actions ensures id in Run(t, actions).yielded <==> Times(Run(t, actions), id) > Times(t, id) {
    }
    DeliveredOnceMoreExactly(t, id);
    assert Overtaken(t, id) <==>
      Passed(s.cursor, id) && !(s.phase.Reading? && exists x :: x in s.phase.left && x < id);
  }

  /** The loss on a real run: 5 is committed and delivered, then 3, created later, is never listed. */
  lemma DerivedIdentifierIsLost(actions: seq<Action>)
    ensures
      var s := Run(Opening(None), [Add(5, 1), StartRead, Yield, EndRead, Add(3, 2)]);
      s.yielded == [5] && 3 in s.created && 3 !in Run(s, actions).yielded
  {
    RunOfFive(Opening(None), Add(5, 1), StartRead, Yield, EndRead, Add(3, 2));
    var waiting := ReadingOne();
    var s := Step(waiting, Add(3, 2));
    OvertakenIsLost(s, 3, actions);
  }

  lemma RunOfFive(s: Stream, a: Action, b: Action, c: Action, d: Action, e: Action)
    ensures Run(s, [a, b, c, d, e]) == Step(Step(Step(Step(Step(s, a), b), c), d), e)
  {
    var s1, s2, s3, s4 := Step(s, a), Step(Step(s, a), b), Step(Step(Step(s, a), b), c), Step(Step(Step(Step(s, a), b), c), d);
    var a1, a2, a3, a4 := [b, c, d, e], [c, d, e], [d, e], [e];
    assert [a, b, c, d, e][1..] == a1 && a1[1..] == a2 && a2[1..] == a3 && a3[1..] == a4 && a4[1..] == [];
    assert Run(s4, a4) == Run(Step(s4, e), []) && Run(s3, a3) == Run(s4, a4) && Run(s2, a2) == Run(s3, a3);
    assert Run(s1, a1) == Run(s2, a2) && Run(s, [a] + a1) == Run(s1, a1) && [a] + a1 == [a, b, c, d, e];
  }

  lemma ReadingOne() returns (waiting: Stream)
    ensures waiting == Step(Step(Step(Step(Opening(None), Add(5, 1)), StartRead), Yield), EndRead)
    ensures waiting.cursor == Some(5) && waiting.yielded == [5] && waiting.created == map[5 := 1] && waiting.phase == Waiting
  {
    var added := Step(Opening(None), Add(5, 1));
    assert added.created == map[5 := 1] && added.phase == Ready;
    assert After(added.created.Keys - {}, None) == {5};
    ListingOfOne(added.created, 5);
    var reading := Step(added, StartRead);
    assert reading.phase == Reading([5]);
    var read := Step(reading, Yield);
    waiting := Step(read, EndRead);
  }

  lemma ListingOfOne(created: map<Id, int>, x: Id)
    requires x in created
    ensures Listing(created, {x}) == [x]
  {
    assert Newest(created, {x}) == x && {x} - {x} == {};
  }
}
