/** The circuit breaker of one external dependency, under any number of overlapping calls.

    A call is admitted under the lock, runs outside it, and records its outcome under the lock again; a
    cancelled call records nothing.  Calls admitted in an earlier closed period may record later. */
module CircuitBreaker {
  import opened Wrappers

  datatype Circuit = Closed | Open | HalfOpen

  datatype Breaker = Breaker(state: Circuit, failures: nat, openedAt: Option<int>, trial: bool)

  datatype Config = Config(threshold: nat, reset: int) {
    /** What the constructor accepts. */
    predicate Valid() { threshold >= 1 && reset > 0 }
  }

  const FRESH := Breaker(Closed, 0, None, false)

  /** An expired open breaker counts as half-open. */
  function Effective(b: Breaker, c: Config, now: int): Circuit {
    if b.state == Open && b.openedAt.Some? && now - b.openedAt.value >= c.reset then HalfOpen else b.state
  }

  predicate Admits(b: Breaker, c: Config, now: int) {
    var e := Effective(b, c, now);
    e == Closed || (e == HalfOpen && (b.state == Open || !b.trial))
  }

  function Succeeded(b: Breaker): Breaker {
    FRESH
  }

  function Opened(c: Config, now: int): Breaker {
    Breaker(Open, c.threshold, Some(now), false)
  }

  function Failed(b: Breaker, c: Config, now: int): Breaker {
    if b.state == HalfOpen || b.failures + 1 >= c.threshold then Opened(c, now)
    else b.(failures := b.failures + 1, trial := false)
  }

  class AsyncCircuitBreaker {
    const config: Config
    var breaker: Breaker

    /** Trial, state and count fit together, and the stored state is one a run can produce. */
    predicate Valid()
      reads this
    {
      config.Valid() && Sane(breaker, config)
    }

    constructor (config: Config)
      requires config.Valid()
      ensures Valid() && this.config == config && breaker == FRESH
    {
      this.config := config;
      breaker := FRESH;
    }

    /** A threshold below one, or a reset timeout that is not positive, is refused. */
    static method Configure(config: Config) returns (r: Option<AsyncCircuitBreaker>)
      ensures r.Some? <==> config.threshold >= 1 && config.reset > 0
      ensures r.Some? ==> fresh(r.value) && r.value.Valid() && r.value.config == config && r.value.breaker == FRESH
    {
      if config.threshold < 1 || config.reset <= 0 {
        return None;
      }
      var breaker := new AsyncCircuitBreaker(config);
      r := Some(breaker);
    }

    /** Admit or reject a call. */
    method BeforeCall(now: int) returns (admitted: bool)
      requires Valid()
      modifies this
      ensures Valid() && admitted == Admits(old(breaker), config, now)
      ensures !admitted ==> breaker == old(breaker)
      ensures admitted && old(breaker).state == Closed ==> breaker == old(breaker)
      ensures admitted && old(breaker).state != Closed ==> breaker == old(breaker).(state := HalfOpen, trial := true)
    {
      var state := Effective(breaker, config, now);
      if state == Open {
        return false;
      }
      if state == HalfOpen && breaker.trial {
        return false;
      }
      breaker := breaker.(state := state);
      if state == HalfOpen {
        breaker := breaker.(trial := true);
      }
      admitted := true;
    }

    method RecordSuccess()
      requires Valid()
      modifies this
      ensures Valid() && breaker == Succeeded(old(breaker))
    {
      breaker := Breaker(Closed, 0, None, false);
    }

    method RecordFailure(now: int)
      requires Valid()
      modifies this
      ensures Valid() && breaker == Failed(old(breaker), config, now)
    {
      breaker := breaker.(trial := false);
      if breaker.state == HalfOpen {
        OpenNow(now);
        return;
      }
      breaker := breaker.(failures := breaker.failures + 1);
      if breaker.failures >= config.threshold {
        OpenNow(now);
      }
    }

    method OpenNow(now: int)
      modifies this
      ensures breaker == old(breaker).(state := Open, openedAt := Some(now), failures := config.threshold)
    {
      breaker := breaker.(state := Open, openedAt := Some(now), failures := config.threshold);
    }
  }

  // ---------------------------------------------------------------- overlapping calls

  datatype Event = Admitted(now: int) | Success | Failure(now: int)

  /** `outstanding` counts the admitted calls that have not ended. */
  datatype System = System(breaker: Breaker, outstanding: nat, log: seq<Event>)

  datatype Action = Call(now: int) | Succeed | Fail(now: int) | Cancel

  const START := System(FRESH, 0, [])

  function AfterAdmission(b: Breaker): Breaker {
    if b.state == Closed then b else b.(state := HalfOpen, trial := true)
  }

  function Step(s: System, c: Config, a: Action): System {
    match a
    case Call(now) =>
      if !Admits(s.breaker, c, now) then s
      else System(AfterAdmission(s.breaker), s.outstanding + 1, s.log + [Admitted(now)])
    case Succeed =>
      if s.outstanding == 0 then s else System(Succeeded(s.breaker), s.outstanding - 1, s.log + [Success])
    case Fail(now) =>
      if s.outstanding == 0 then s else System(Failed(s.breaker, c, now), s.outstanding - 1, s.log + [Failure(now)])
    case Cancel =>
      if s.outstanding == 0 then s else s.(outstanding := s.outstanding - 1)
  }

  function Run(s: System, c: Config, actions: seq<Action>): System
    decreases |actions|
  {
    if actions == [] then s else Run(Step(s, c, actions[0]), c, actions[1..])
  }

  // ---------------------------------------------------------------- what every run keeps

  /** A trial is flagged exactly in half-open; closed has fewer failures than the threshold, open and
      half-open exactly the threshold. */
  predicate Sane(b: Breaker, c: Config) {
    && (b.trial <==> b.state == HalfOpen)
    && (b.state == Closed ==> b.failures < c.threshold)
    && (b.state != Closed ==> b.failures == c.threshold)
    && (b.state == Closed <==> b.openedAt.None?)
  }

  /** The failures recorded since the last recorded success. */
  function Consecutive(log: seq<Event>): nat {
    if log == [] then 0
    else
      match log[|log| - 1]
      case Success => 0
      case Failure(_) => Consecutive(log[..|log| - 1]) + 1
      case Admitted(_) => Consecutive(log[..|log| - 1])
  }

  /** The last recorded outcome, and the admissions since. */
  function LastOutcome(log: seq<Event>): Option<Event> {
    if log == [] then None
    else if log[|log| - 1].Admitted? then LastOutcome(log[..|log| - 1])
    else Some(log[|log| - 1])
  }

  function AdmittedSince(log: seq<Event>): seq<int> {
    if log == [] || !log[|log| - 1].Admitted? then []
    else AdmittedSince(log[..|log| - 1]) + [log[|log| - 1].now]
  }

  /** The stored state, read off the history: closed exactly below the threshold of consecutive failures;
      otherwise opened by the last recorded outcome, and half-open exactly when one call was admitted since. */
  ghost predicate Explained(s: System, c: Config) {
    && Sane(s.breaker, c)
    && (s.breaker.state == Closed <==> Consecutive(s.log) < c.threshold)
    && (s.breaker.state == Closed ==> s.breaker.failures == Consecutive(s.log))
    && (s.breaker.state != Closed ==>
          && s.breaker.openedAt.Some? && LastOutcome(s.log) == Some(Failure(s.breaker.openedAt.value))
          && (s.breaker.state == Open ==> AdmittedSince(s.log) == [])
          && (s.breaker.state == HalfOpen ==>
                |AdmittedSince(s.log)| == 1 && AdmittedSince(s.log)[0] >= s.breaker.openedAt.value + c.reset))
  }

  lemma AfterOneMore(log: seq<Event>, e: Event)
    ensures Consecutive(log + [e]) ==
      match e case Success => 0 case Failure(_) => Consecutive(log) + 1 case Admitted(_) => Consecutive(log)
    ensures LastOutcome(log + [e]) == if e.Admitted? then LastOutcome(log) else Some(e)
    ensures AdmittedSince(log + [e]) == if e.Admitted? then AdmittedSince(log) + [e.now] else []
  {
    assert (log + [e])[..|log|] == log;
  }

  lemma CallStaysExplained(s: System, c: Config, now: int)
    requires c.Valid() && Explained(s, c)
    ensures Explained(Step(s, c, Call(now)), c)
  {
    AfterOneMore(s.log, Admitted(now));
  }

  lemma SuccessStaysExplained(s: System, c: Config)
    requires c.Valid() && Explained(s, c)
    ensures Explained(Step(s, c, Succeed), c)
  {
    AfterOneMore(s.log, Success);
  }

  lemma FailureStaysExplained(s: System, c: Config, now: int)
    requires c.Valid() && Explained(s, c)
    ensures Explained(Step(s, c, Fail(now)), c)
  {
    AfterOneMore(s.log, Failure(now));
  }

  lemma StepStaysExplained(s: System, c: Config, a: Action)
    requires c.Valid() && Explained(s, c)
    ensures Explained(Step(s, c, a), c)
  {
    match a
    case Call(now) => CallStaysExplained(s, c, now);
    case Succeed => SuccessStaysExplained(s, c);
    case Fail(now) => FailureStaysExplained(s, c, now);
    case Cancel =>
  }

  /** For every interleaving of overlapping, failing, late and cancelled calls: the breaker is closed exactly
      when fewer than `threshold` consecutive failures are recorded; from the outcome that opened it to the
      next recorded outcome at most one call is admitted, and none before the reset timeout. */
  lemma {:induction false} RunStaysExplained(s: System, c: Config, actions: seq<Action>)
    requires c.Valid() && Explained(s, c)
    ensures Explained(Run(s, c, actions), c)
    decreases |actions|
  {
    if actions != [] {
      StepStaysExplained(s, c, actions[0]);
      RunStaysExplained(Step(s, c, actions[0]), c, actions[1..]);
    }
  }

  // ---------------------------------------------------------------- can it ever admit a call again

  ghost predicate Recovers(s: System, c: Config) {
    exists actions :: |Run(s, c, actions).log| > |s.log| && Run(s, c, actions).log[|Run(s, c, actions).log| - 1].Admitted?
  }

  predicate Stuck(s: System) {
    s.breaker.state == HalfOpen && s.outstanding == 0
  }

  lemma {:induction false} StuckStays(s: System, c: Config, actions: seq<Action>)
    requires Sane(s.breaker, c) && Stuck(s)
    ensures Run(s, c, actions) == s
    decreases |actions|
  {
    if actions != [] {
      assert Step(s, c, actions[0]) == s;
      StuckStays(s, c, actions[1..]);
    }
  }

  lemma RunOne(s: System, c: Config, a: Action)
    ensures Run(s, c, [a]) == Step(s, c, a)
  {
    assert [a][1..] == [];
    assert Run(Step(s, c, a), c, []) == Step(s, c, a);
  }

  /** Liveness, exactly: some continuation admits a call if and only if the breaker is not half-open with
      every call gone, which is what a cancelled trial leaves behind. */
  lemma RecoversUnlessTrialVanished(s: System, c: Config)
    requires c.Valid() && Sane(s.breaker, c)
    ensures Recovers(s, c) <==> !Stuck(s)
  {
    if Stuck(s) {
      forall actions ensures Run(s, c, actions).log == s.log {
        StuckStays(s, c, actions);
      }
    } else if s.breaker.state == HalfOpen {
      var t := Step(s, c, Succeed);
      RunOne(t, c, Call(0));
      assert [Succeed, Call(0)][1..] == [Call(0)];
      assert Run(s, c, [Succeed, Call(0)]) == Step(t, c, Call(0));
    } else {
      var now := if s.breaker.openedAt.Some? then s.breaker.openedAt.value + c.reset else 0;
      RunOne(s, c, Call(now));
      assert Admits(s.breaker, c, now);
    }
  }

  /** One failure, one trial, and its cancellation reach the stuck state. */
  lemma CancelledTrialIsStuck()
    ensures
      var c := Config(1, 10);
      var actions := [Call(0), Fail(1), Call(11), Cancel];
      c.Valid() && Stuck(Run(START, c, actions)) && !Recovers(Run(START, c, actions), c)
  {
    var c := Config(1, 10);
    var actions := [Call(0), Fail(1), Call(11), Cancel];
    var s1 := Step(START, c, Call(0));
    var s2 := Step(s1, c, Fail(1));
    var s3 := Step(s2, c, Call(11));
    var a2, a3 := [Call(11), Cancel], [Fail(1), Call(11), Cancel];
    assert actions[1..] == a3 && a3[1..] == a2 && a2[1..] == [Cancel];
    RunOne(s3, c, Cancel);
    assert Run(s2, c, a2) == Step(s3, c, Cancel);
    assert Run(s1, c, a3) == Step(s3, c, Cancel);
    RunStaysExplained(START, c, actions);
    RecoversUnlessTrialVanished(Run(START, c, actions), c);
  }
}
