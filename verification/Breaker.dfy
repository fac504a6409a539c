/**
 The circuit breaker that both the entitlement gate and the outbound HTTP clients put around
 their network calls, written as an explicit three-state machine: closed with a count of
 consecutive failures, open since some instant, or half-open with one probe in flight.
 */
module Breaker {
  import opened Prelude

  datatype Config = Config(failMax: nat, timeout: real) {
    ghost predicate Valid() { failMax >= 1 && timeout > 0.0 }
  }

  datatype State = Closed(failures: nat) | Open(openedAt: real) | HalfOpen

  const INITIAL: State := Closed(0)

  /** Whether a call that reaches the breaker at `now` is let through to the network. */
  predicate Admits(c: Config, s: State, now: real) {
    match s
    case Closed(_) => true
    case Open(at) => at + c.timeout <= now
    case HalfOpen => false
  }

  /** The state while an admitted call is on the network. */
  function Enter(s: State): State {
    if s.Open? then HalfOpen else s
  }

  /** The state after an admitted call ends at `now`; only a raised exception is a failure. */
  function Record(c: Config, s: State, ok: bool, now: real): State {
    match s
    case Closed(n) =>
      if ok then Closed(0)
      else if n + 1 >= c.failMax then Open(now) else Closed(n + 1)
    case HalfOpen => if ok then Closed(0) else Open(now)
    case Open(_) => s
  }

  /** One call that was let through: when it began, when it ended, whether it raised. */
  datatype Attempt = Attempt(begin: real, end: real, ok: bool)

  function Through(c: Config, s: State, a: Attempt): State {
    Record(c, Enter(s), a.ok, a.end)
  }

  /** States a breaker can be in between two sequential calls. */
  ghost predicate Settled(c: Config, s: State) {
    match s
    case Closed(n) => n < c.failMax
    case Open(_) => true
    case HalfOpen => false
  }

  /** The attempts `log` ran one after another, each let through by the state its
      predecessors left behind, the first of them no earlier than `from`. */
  ghost predicate Trail(c: Config, s: State, from: real, log: seq<Attempt>)
    decreases |log|
  {
    log == [] ||
    (from <= log[0].begin <= log[0].end && Admits(c, s, log[0].begin)
     && Trail(c, Through(c, s, log[0]), log[0].end, log[1..]))
  }

  function After(c: Config, s: State, log: seq<Attempt>): State
    decreases |log|
  {
    if log == [] then s else After(c, Through(c, s, log[0]), log[1..])
  }

  ghost predicate AllFail(log: seq<Attempt>) {
    forall k :: 0 <= k < |log| ==> !log[k].ok
  }

  lemma {:induction false} TrailConcat(c: Config, s: State, from: real, mid: real, a: seq<Attempt>, b: seq<Attempt>)
    requires Trail(c, s, from, a) && from <= mid
    requires forall k :: 0 <= k < |a| ==> a[k].end <= mid
    requires Trail(c, After(c, s, a), mid, b)
    ensures Trail(c, s, from, a + b)
    ensures After(c, s, a + b) == After(c, After(c, s, a), b)
    decreases |a|
  {
    if a == [] {
      assert a + b == b;
    } else {
      assert (a + b)[1..] == a[1..] + b;
      TrailConcat(c, Through(c, s, a[0]), a[0].end, mid, a[1..], b);
    }
  }

  lemma {:induction false} TrailSlice(c: Config, s: State, from: real, log: seq<Attempt>, i: nat, j: nat)
    returns (s': State, from': real)
    requires Trail(c, s, from, log) && Settled(c, s) && c.Valid() && i <= j <= |log|
    ensures Settled(c, s') && Trail(c, s', from', log[i..j])
    decreases |log|
  {
    if i == 0 {
      s', from' := s, from;
      if j > 0 {
        var _, _ := TrailSlice(c, Through(c, s, log[0]), log[0].end, log[1..], 0, j - 1);
        TrailPrefix(c, s, from, log, j);
      }
      assert log[0..j] == log[..j];
    } else {
      s', from' := TrailSlice(c, Through(c, s, log[0]), log[0].end, log[1..], i - 1, j - 1);
      assert log[1..][i - 1..j - 1] == log[i..j];
    }
  }

  lemma {:induction false} TrailPrefix(c: Config, s: State, from: real, log: seq<Attempt>, j: nat)
    requires Trail(c, s, from, log) && j <= |log|
    ensures Trail(c, s, from, log[..j])
    decreases |log|
  {
    if j > 0 {
      TrailPrefix(c, Through(c, s, log[0]), log[0].end, log[1..], j - 1);
      assert log[..j][1..] == log[1..][..j - 1];
    }
  }

  /** Once open, each further failing attempt costs a full timeout. */
  lemma {:induction false} OpenCostsTimeout(c: Config, at: real, from: real, log: seq<Attempt>)
    requires c.Valid() && log != [] && Trail(c, Open(at), from, log) && AllFail(log)
    ensures Span(|log|, c.timeout) <= log[|log| - 1].begin - at
    decreases |log|
  {
    var rest := log[1..];
    if rest != [] {
      assert Through(c, Open(at), log[0]) == Open(log[0].end);
      OpenCostsTimeout(c, log[0].end, log[0].end, rest);
      SpanSucc(|rest|, c.timeout);
    }
  }

  /** From any settled state, at most `failMax` failing attempts are free; every further
      one is paid for with a timeout. */
  lemma {:induction false} FailuresCost(c: Config, s: State, from: real, log: seq<Attempt>)
    requires c.Valid() && Settled(c, s) && log != [] && Trail(c, s, from, log) && AllFail(log)
    ensures Span(|log| - c.failMax, c.timeout) <= log[|log| - 1].begin - log[0].begin
    ensures s.Closed? && |log| > c.failMax - s.failures ==>
      Span(|log| - (c.failMax - s.failures), c.timeout) <= log[|log| - 1].begin - log[0].begin
    decreases |log|
  {
    var s1 := Through(c, s, log[0]);
    var rest := log[1..];
    if rest != [] {
      if s1.Open? {
        OpenCostsTimeout(c, s1.openedAt, log[0].end, rest);
        SpanMonotone(|log| - c.failMax, |rest|, c.timeout);
      } else {
        FailuresCost(c, s1, log[0].end, rest);
        assert rest[0] == log[1] && rest[|rest| - 1] == log[|log| - 1];
        assert log[0].begin <= rest[0].begin;
        if |log| <= c.failMax {
          BeginsAscend(c, s, from, log);
          SpanMonotone(|log| - c.failMax, 0, c.timeout);
        } else {
          SpanMonotone(|log| - c.failMax, |rest| - (c.failMax - s1.failures), c.timeout);
        }
      }
    } else {
      SpanMonotone(|log| - c.failMax, 0, c.timeout);
    }
  }

  lemma {:induction false} BeginsAscend(c: Config, s: State, from: real, log: seq<Attempt>)
    requires log != [] && Trail(c, s, from, log)
    ensures from <= log[0].begin <= log[|log| - 1].begin
    decreases |log|
  {
    if |log| > 1 {
      BeginsAscend(c, Through(c, s, log[0]), log[0].end, log[1..]);
    }
  }

  /** LOAD BOUND. In a sequential history of any length, take any stretch of consecutive
      attempts that all failed and that began within a window of width `width`: there are
      at most `failMax + floor(width / timeout)` of them. */
  lemma OutageBound(c: Config, s: State, from: real, log: seq<Attempt>, i: nat, j: nat, width: real)
    requires c.Valid() && Settled(c, s) && Trail(c, s, from, log)
    requires i <= j < |log| && AllFail(log[i..j + 1])
    requires log[j].begin - log[i].begin <= width
    ensures j - i + 1 <= c.failMax + (width / c.timeout).Floor
  {
    var s', from' := TrailSlice(c, s, from, log, i, j + 1);
    var part := log[i..j + 1];
    FailuresCost(c, s', from', part);
    assert part[0] == log[i] && part[|part| - 1] == log[j];
    assert Span(|part| - c.failMax, c.timeout) <= width;
    FloorBound(|part| - c.failMax, c.timeout, width);
  }

  /** How many attempts at the end of the log failed, counted since the last success. */
  function FailingSuffix(log: seq<Attempt>): (n: nat)
    ensures n <= |log| && (forall i :: |log| - n <= i < |log| ==> !log[i].ok)
    ensures n < |log| ==> log[|log| - n - 1].ok
    decreases |log|
  {
    if log == [] || log[|log| - 1].ok then 0
    else
      assert forall i :: 0 <= i < |log| - 1 ==> log[..|log| - 1][i] == log[i];
      1 + FailingSuffix(log[..|log| - 1])
  }

  lemma {:induction false} AfterLast(c: Config, s: State, log: seq<Attempt>)
    requires log != []
    ensures After(c, s, log) == Through(c, After(c, s, log[..|log| - 1]), log[|log| - 1])
    decreases |log|
  {
    if |log| > 1 {
      AfterLast(c, Through(c, s, log[0]), log[1..]);
      assert log[1..][..|log| - 2] == log[..|log| - 1][1..];
    } else {
      assert log[1..] == [] && log[..0] == [];
    }
  }

  /** CONSECUTIVE FAILURES, exactly. After any history from a new breaker, it is closed with count n
      if and only if n attempts have failed since the last success and n is below failMax; otherwise
      it is open since the last attempt ended, and at least the last failMax attempts all failed. */
  lemma {:induction false} CountsConsecutively(c: Config, log: seq<Attempt>)
    requires c.Valid()
    ensures
      var (s, n) := (After(c, INITIAL, log), FailingSuffix(log));
      && (forall k: nat :: s == Closed(k) <==> k == n < c.failMax)
      && (s.Open? <==> n >= c.failMax)
      && (s.Open? ==> s.openedAt == log[|log| - 1].end)
      && !s.HalfOpen?
    decreases |log|
  {
    if log != [] {
      CountsConsecutively(c, log[..|log| - 1]);
      AfterLast(c, INITIAL, log);
    }
  }

  /** What a caller gets back from one guarded call. */
  datatype Guarded = Guarded(after: State, network: bool)

  function Guard(c: Config, s: State, begin: real, end: real, ok: bool): Guarded {
    if Admits(c, s, begin) then Guarded(Through(c, s, Attempt(begin, end, ok)), true)
    else Guarded(s, false)
  }

  /** The breaker object itself: one mutable state, driven by its owner's calls. */
  class CircuitBreaker {
    const config: Config
    var state: State

    constructor (config: Config)
      ensures this.config == config && state == INITIAL
    {
      this.config := config;
      state := INITIAL;
    }

    /** Lets a call at `now` through, or refuses it and changes nothing. */
    method TryEnter(now: real) returns (admitted: bool)
      modifies this
      ensures admitted == Admits(config, old(state), now)
      ensures old(state).Closed? ==> admitted && state == old(state)
      ensures old(state).Open? ==>
        && (admitted <==> now >= old(state).openedAt + config.timeout)
        && state == if admitted then HalfOpen else old(state)
      ensures old(state).HalfOpen? ==> !admitted && state == old(state)
    {
      admitted := Admits(config, state, now);
      if admitted && state.Open? {
        state := HalfOpen;
      }
    }

    /** Reports the end of a call that was let through. */
    method Report(ok: bool, now: real)
      modifies this
      ensures state == Record(config, old(state), ok, now)
      ensures ok && !old(state).Open? ==> state == Closed(0)
      ensures !ok && old(state).Closed? ==>
        state == if old(state).failures + 1 < config.failMax then Closed(old(state).failures + 1) else Open(now)
      ensures !ok && old(state).HalfOpen? ==> state == Open(now)
    {
      match state
      case Closed(n) =>
        if ok {
          state := Closed(0);
        } else if n + 1 >= config.failMax {
          state := Open(now);
        } else {
          state := Closed(n + 1);
        }
      case HalfOpen =>
        state := if ok then Closed(0) else Open(now);
      case Open(_) =>
    }
  }
}
