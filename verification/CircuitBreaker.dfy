/** A circuit breaker shared by overlapping calls. Every transition happens under
    the state lock, so a run is a sequence of events; time is part of the event. */
module CircuitBreaker {
  import opened Options

  datatype Phase = Closed | Open | HalfOpen

  datatype Config = Config(failureThreshold: nat, resetTimeout: nat, successThreshold: nat)

  datatype State = State(phase: Phase, openedAt: Option<nat>, failures: nat, successes: nat)

  const FRESH := State(Closed, None, 0, 0)

  datatype Event = BeforeCall(at: nat) | Success(at: nat) | Failure(at: nat)

  /** The pause since the circuit opened is over. */
  predicate TimedOut(c: Config, s: State, now: nat) {
    s.openedAt.Some? && now - s.openedAt.value >= c.resetTimeout
  }

  predicate Admits(c: Config, s: State, now: nat) {
    s.phase != Open || TimedOut(c, s, now)
  }

  function Step(c: Config, s: State, e: Event): State {
    match e
    case BeforeCall(now) =>
      if s.phase == Open && TimedOut(c, s, now) then s.(phase := HalfOpen, successes := 0) else s
    case Success(_) =>
      (match s.phase
       case Closed => s.(failures := 0)
       case HalfOpen =>
         if s.successes + 1 >= c.successThreshold
         then s.(phase := Closed, failures := 0, successes := s.successes + 1)
         else s.(successes := s.successes + 1)
       case Open => s)
    case Failure(now) =>
      (match s.phase
       case Closed =>
         if s.failures + 1 >= c.failureThreshold
         then s.(phase := Open, openedAt := Some(now), failures := s.failures + 1)
         else s.(failures := s.failures + 1)
       case HalfOpen => s.(phase := Open, openedAt := Some(now))
       case Open => s)
  }

  function After(c: Config, s: State, es: seq<Event>): State {
    if es == [] then s else Step(c, After(c, s, es[..|es| - 1]), es[|es| - 1])
  }

  datatype CallResult = Rejected | Succeeded | ServiceFailed

  class Breaker {
    const config: Config
    var phase: Phase
    var openedAt: Option<nat>
    var failures: nat
    var successes: nat

    ghost function Value(): State
      reads this
    {
      State(phase, openedAt, failures, successes)
    }

    constructor (config: Config)
      ensures this.config == config && Value() == FRESH
    {
      this.config := config;
      phase, openedAt, failures, successes := Closed, None, 0, 0;
    }

    method Before(now: nat) returns (admitted: bool)
      modifies this
      ensures Value() == Step(config, old(Value()), BeforeCall(now))
      ensures admitted == Admits(config, old(Value()), now)
    {
      match phase
      case Closed => return true;
      case HalfOpen => return true;
      case Open =>
        if openedAt.Some? && now - openedAt.value >= config.resetTimeout {
          phase := HalfOpen;
          successes := 0;
          return true;
        }
        return false;
    }

    method OnSuccess(now: nat)
      modifies this
      ensures Value() == Step(config, old(Value()), Success(now))
    {
      match phase
      case HalfOpen =>
        successes := successes + 1;
        if successes >= config.successThreshold {
          phase := Closed;
          failures := 0;
        }
      case Closed => failures := 0;
      case Open =>
    }

    method OnFailure(now: nat)
      modifies this
      ensures Value() == Step(config, old(Value()), Failure(now))
    {
      match phase
      case Closed =>
        failures := failures + 1;
        if failures >= config.failureThreshold {
          phase := Open;
          openedAt := Some(now);
        }
      case HalfOpen =>
        phase := Open;
        openedAt := Some(now);
      case Open =>
    }

    /** What overlapping calls do while one call waits for the service. */
    method Overlap(others: seq<Event>)
      modifies this
      ensures Value() == After(config, old(Value()), others)
    {
      for i := 0 to |others|
        invariant Value() == After(config, old(Value()), others[..i])
      {
        assert others[..i + 1][..i] == others[..i];
        match others[i]
        case BeforeCall(now) => var _ := Before(now);
        case Success(now) => OnSuccess(now);
        case Failure(now) => OnFailure(now);
      }
      assert others[..|others|] == others;
    }

    /** One call: rejected without touching the service, or its outcome is
        reported once the service answers. */
    method Call(start: nat, others: seq<Event>, ok: bool, end: nat) returns (r: CallResult)
      modifies this
      ensures r == Rejected <==> !Admits(config, old(Value()), start)
      ensures r == Rejected ==> Value() == old(Value())
      ensures r != Rejected ==> r == (if ok then Succeeded else ServiceFailed)
      ensures r != Rejected ==>
        var waiting := After(config, Step(config, old(Value()), BeforeCall(start)), others);
        Value() == Step(config, waiting, if ok then Success(end) else Failure(end))
    {
      var admitted := Before(start);
      if !admitted {
        return Rejected;
      }
      Overlap(others);
      if ok {
        OnSuccess(end);
        return Succeeded;
      }
      OnFailure(end);
      return ServiceFailed;
    }
  }

  // ---------------------------------------------------------------------------
  // Runs
  // ---------------------------------------------------------------------------

  /** The state after the first i events. */
  function At(c: Config, es: seq<Event>, i: nat): State
    requires i <= |es|
  {
    After(c, FRESH, es[..i])
  }

  function AtLeastOne(n: nat): nat { if n == 0 then 1 else n }

  lemma {:induction false} AtNext(c: Config, es: seq<Event>, i: nat)
    requires i < |es|
    ensures At(c, es, i + 1) == Step(c, At(c, es, i), es[i])
  {
    assert es[..i + 1][..i] == es[..i];
  }

  function CountFailures(es: seq<Event>): nat {
    if es == [] then 0 else CountFailures(es[..|es| - 1]) + if es[|es| - 1].Failure? then 1 else 0
  }

  function CountSuccesses(es: seq<Event>): nat {
    if es == [] then 0 else CountSuccesses(es[..|es| - 1]) + if es[|es| - 1].Success? then 1 else 0
  }

  /** From event a up to event b the circuit stays closed and no success is reported. */
  ghost predicate FailingStretch(c: Config, es: seq<Event>, a: int, b: int) {
    0 <= a <= b <= |es| && forall j :: a <= j < b ==> At(c, es, j).phase == Closed && !es[j].Success?
  }

  /** From event a up to event b the circuit stays half open. */
  ghost predicate TrialStretch(c: Config, es: seq<Event>, a: int, b: int) {
    0 <= a <= b <= |es| && forall j :: a <= j < b ==> At(c, es, j).phase == HalfOpen
  }

  /** Some failing stretch up to event b holds exactly n failures. */
  ghost predicate FailedTimes(c: Config, es: seq<Event>, b: int, n: nat) {
    exists a :: FailingStretch(c, es, a, b) && CountFailures(es[a..b]) == n
  }

  ghost predicate FailedAtMost(c: Config, es: seq<Event>, b: int, n: nat) {
    forall a :: FailingStretch(c, es, a, b) ==> CountFailures(es[a..b]) <= n
  }

  /** Some stretch half open up to event b holds exactly n successes. */
  ghost predicate SucceededTimes(c: Config, es: seq<Event>, b: int, n: nat) {
    exists a :: TrialStretch(c, es, a, b) && CountSuccesses(es[a..b]) == n
  }

  ghost predicate SucceededAtMost(c: Config, es: seq<Event>, b: int, n: nat) {
    forall a :: TrialStretch(c, es, a, b) ==> CountSuccesses(es[a..b]) <= n
  }

  lemma {:induction false} StretchNext(es: seq<Event>, a: nat, i: nat)
    requires a <= i < |es|
    ensures CountFailures(es[a..i + 1]) == CountFailures(es[a..i]) + if es[i].Failure? then 1 else 0
    ensures CountSuccesses(es[a..i + 1]) == CountSuccesses(es[a..i]) + if es[i].Success? then 1 else 0
  {
    assert es[a..i + 1][..i - a] == es[a..i];
  }

  /** One more event of a failing stretch. */
  lemma {:induction false} FailingNext(c: Config, es: seq<Event>, i: nat, n: nat)
    requires i < |es| && At(c, es, i).phase == Closed && !es[i].Success?
    requires FailedTimes(c, es, i, n) && FailedAtMost(c, es, i, n)
    ensures var n' := if es[i].Failure? then n + 1 else n;
      FailedTimes(c, es, i + 1, n') && FailedAtMost(c, es, i + 1, n')
  {
    var n', b := if es[i].Failure? then n + 1 else n, i + 1;
    var a0 :| FailingStretch(c, es, a0, i) && CountFailures(es[a0..i]) == n;
    StretchNext(es, a0, i);
    assert FailingStretch(c, es, a0, b);
    forall a | FailingStretch(c, es, a, b) ensures CountFailures(es[a..b]) <= n' {
      if a <= i {
        assert FailingStretch(c, es, a, i);
        StretchNext(es, a, i);
      }
    }
  }

  /** No failing stretch reaches across a success or another phase. */
  lemma {:induction false} FailingBroken(c: Config, es: seq<Event>, i: nat)
    requires i < |es| && (At(c, es, i).phase != Closed || es[i].Success?)
    ensures FailedTimes(c, es, i + 1, 0) && FailedAtMost(c, es, i + 1, 0)
  {
    var b := i + 1;
    assert FailingStretch(c, es, b, b) && es[b..b] == [];
    forall a | FailingStretch(c, es, a, b) ensures CountFailures(es[a..b]) <= 0 {
      assert a == b;
    }
  }

  lemma {:induction false} TrialNext(c: Config, es: seq<Event>, i: nat, n: nat)
    requires i < |es| && At(c, es, i).phase == HalfOpen
    requires SucceededTimes(c, es, i, n) && SucceededAtMost(c, es, i, n)
    ensures var n' := if es[i].Success? then n + 1 else n;
      SucceededTimes(c, es, i + 1, n') && SucceededAtMost(c, es, i + 1, n')
  {
    var n', b := if es[i].Success? then n + 1 else n, i + 1;
    var a0 :| TrialStretch(c, es, a0, i) && CountSuccesses(es[a0..i]) == n;
    StretchNext(es, a0, i);
    assert TrialStretch(c, es, a0, b);
    forall a | TrialStretch(c, es, a, b) ensures CountSuccesses(es[a..b]) <= n' {
      if a <= i {
        assert TrialStretch(c, es, a, i);
        StretchNext(es, a, i);
      }
    }
  }

  lemma {:induction false} TrialBroken(c: Config, es: seq<Event>, i: nat)
    requires i < |es| && At(c, es, i).phase != HalfOpen
    ensures SucceededTimes(c, es, i + 1, 0) && SucceededAtMost(c, es, i + 1, 0)
  {
    var b := i + 1;
    assert TrialStretch(c, es, b, b) && es[b..b] == [];
    forall a | TrialStretch(c, es, a, b) ensures CountSuccesses(es[a..b]) <= 0 {
      assert a == b;
    }
  }

  /** While closed, the failure counter counts the longest failing stretch that ends here. */
  ghost predicate FailuresExact(c: Config, es: seq<Event>, i: nat)
    requires i <= |es|
  {
    var s := At(c, es, i);
    s.phase == Closed ==>
      && s.failures < AtLeastOne(c.failureThreshold)
      && FailedTimes(c, es, i, s.failures)
      && FailedAtMost(c, es, i, s.failures)
  }

  /** While half open, the success counter counts the trial so far. */
  ghost predicate SuccessesExact(c: Config, es: seq<Event>, i: nat)
    requires i <= |es|
  {
    var s := At(c, es, i);
    s.phase == HalfOpen ==>
      && s.successes < AtLeastOne(c.successThreshold)
      && SucceededTimes(c, es, i, s.successes)
      && SucceededAtMost(c, es, i, s.successes)
  }

  lemma {:induction false} FailuresStayExact(c: Config, es: seq<Event>, i: nat)
    requires i < |es| && FailuresExact(c, es, i)
    ensures FailuresExact(c, es, i + 1)
  {
    AtNext(c, es, i);
    var s := At(c, es, i);
    if s.phase == Closed && !es[i].Success? {
      FailingNext(c, es, i, s.failures);
    } else {
      FailingBroken(c, es, i);
    }
  }

  lemma {:induction false} SuccessesStayExact(c: Config, es: seq<Event>, i: nat)
    requires i < |es| && SuccessesExact(c, es, i)
    ensures SuccessesExact(c, es, i + 1)
  {
    AtNext(c, es, i);
    var s := At(c, es, i);
    if s.phase == HalfOpen {
      TrialNext(c, es, i, s.successes);
    } else {
      TrialBroken(c, es, i);
    }
  }

  lemma {:induction false} CountersAreExact(c: Config, es: seq<Event>, i: nat)
    requires i <= |es|
    ensures FailuresExact(c, es, i) && SuccessesExact(c, es, i)
  {
    if i == 0 {
      assert es[..0] == [] && es[0..0] == [];
      assert FailingStretch(c, es, 0, 0);
    } else {
      CountersAreExact(c, es, i - 1);
      FailuresStayExact(c, es, i - 1);
      SuccessesStayExact(c, es, i - 1);
    }
  }

  /** A closed circuit opens exactly when the failures since it closed or since
      the last success reach the threshold, taken as one when it is zero. */
  lemma {:induction false} OpensExactly(c: Config, es: seq<Event>, i: nat)
    requires i < |es| && At(c, es, i).phase == Closed
    ensures At(c, es, i + 1).phase == Open <==>
      es[i].Failure? && FailedTimes(c, es, i + 1, AtLeastOne(c.failureThreshold))
    ensures At(c, es, i + 1).phase != HalfOpen
  {
    CountersAreExact(c, es, i);
    AtNext(c, es, i);
    if es[i].Failure? {
      FailingNext(c, es, i, At(c, es, i).failures);
    }
  }

  /** A half-open circuit closes exactly when the successes since it half-opened
      reach the threshold, taken as one when it is zero; any failure reopens it. */
  lemma {:induction false} ClosesExactly(c: Config, es: seq<Event>, i: nat)
    requires i < |es| && At(c, es, i).phase == HalfOpen
    ensures At(c, es, i + 1).phase == Closed <==>
      es[i].Success? && SucceededTimes(c, es, i + 1, AtLeastOne(c.successThreshold))
    ensures At(c, es, i + 1).phase == Open <==> es[i].Failure?
  {
    CountersAreExact(c, es, i);
    AtNext(c, es, i);
    TrialNext(c, es, i, At(c, es, i).successes);
  }

  ghost predicate MonotoneClock(es: seq<Event>) {
    forall i, j :: 0 <= i < j < |es| ==> es[i].at <= es[j].at
  }

  /** Once open at event i, the circuit stays open, since that moment, through
      every event that comes before the pause is over. */
  lemma {:induction false} StaysOpen(c: Config, es: seq<Event>, i: nat, j: nat)
    requires MonotoneClock(es) && i < j < |es|
    requires At(c, es, i).phase != Open && At(c, es, i + 1).phase == Open
    requires es[j].at < es[i].at + c.resetTimeout
    ensures At(c, es, j).phase == Open && At(c, es, j).openedAt == Some(es[i].at)
  {
    if j == i + 1 {
      AtNext(c, es, i);
    } else {
      StaysOpen(c, es, i, j - 1);
      AtNext(c, es, j - 1);
    }
  }

  /** Fail fast: no call is admitted within the pause after the circuit opened. */
  lemma {:induction false} NoCallWithinPause(c: Config, es: seq<Event>, i: nat, j: nat)
    requires MonotoneClock(es) && i < j < |es|
    requires At(c, es, i).phase != Open && At(c, es, i + 1).phase == Open
    requires es[j].at < es[i].at + c.resetTimeout
    ensures !Admits(c, At(c, es, j), es[j].at)
  {
    StaysOpen(c, es, i, j);
  }

  ghost predicate OpensAt(c: Config, es: seq<Event>, i: nat)
    requires i < |es|
  {
    At(c, es, i).phase != Open && At(c, es, i + 1).phase == Open
  }

  /** An open circuit opened at some event, and remembers when. */
  lemma {:induction false} OpenedBy(c: Config, es: seq<Event>, j: nat) returns (i: nat)
    requires j <= |es| && At(c, es, j).phase == Open
    ensures i < j && OpensAt(c, es, i) && At(c, es, j).openedAt == Some(es[i].at)
  {
    assert At(c, es, 0) == FRESH by {
      assert es[..0] == [];
    }
    AtNext(c, es, j - 1);
    if At(c, es, j - 1).phase == Open {
      i := OpenedBy(c, es, j - 1);
    } else {
      i := j - 1;
    }
  }

  /** An open circuit half-opens exactly at the first call after the pause, counted from
      when it opened, with a fresh success count; nothing else changes it. */
  lemma {:induction false} HalfOpensExactly(c: Config, es: seq<Event>, j: nat) returns (i: nat)
    requires j < |es| && At(c, es, j).phase == Open
    ensures i < j && OpensAt(c, es, i)
    ensures if es[j].BeforeCall? && es[j].at >= es[i].at + c.resetTimeout
            then At(c, es, j + 1).phase == HalfOpen && At(c, es, j + 1).successes == 0
            else At(c, es, j + 1) == At(c, es, j)
  {
    i := OpenedBy(c, es, j);
    AtNext(c, es, j);
  }

  /** A call that finds the circuit not open changes nothing before it is answered. */
  lemma {:induction false} AdmissionAloneChangesNothing(c: Config, es: seq<Event>, j: nat)
    requires j < |es| && es[j].BeforeCall? && At(c, es, j).phase != Open
    ensures At(c, es, j + 1) == At(c, es, j)
  {
    AtNext(c, es, j);
  }

  /** A call is rejected if and only if the circuit opened less than the pause before it. */
  lemma {:induction false} RejectsExactly(c: Config, es: seq<Event>, j: nat)
    requires MonotoneClock(es) && j < |es|
    ensures !Admits(c, At(c, es, j), es[j].at) <==>
      exists i: nat :: i < j && OpensAt(c, es, i) && es[j].at < es[i].at + c.resetTimeout
  {
    if !Admits(c, At(c, es, j), es[j].at) {
      var i := OpenedBy(c, es, j);
    }
    forall i: nat | i < j && OpensAt(c, es, i) && es[j].at < es[i].at + c.resetTimeout
      ensures !Admits(c, At(c, es, j), es[j].at)
    {
      NoCallWithinPause(c, es, i, j);
    }
  }

  /** The counters never exceed their thresholds, so 32 bits suffice. */
  lemma {:induction false} CountersBounded(c: Config, es: seq<Event>, i: nat)
    requires i <= |es|
    ensures At(c, es, i).failures <= AtLeastOne(c.failureThreshold)
    ensures At(c, es, i).successes <= AtLeastOne(c.successThreshold)
  {
    if i == 0 {
      assert es[..0] == [];
    } else {
      CountersBounded(c, es, i - 1);
      CountersAreExact(c, es, i - 1);
      AtNext(c, es, i - 1);
    }
  }
}
