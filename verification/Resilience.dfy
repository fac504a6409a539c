/**
 The retry loop that sits OUTSIDE the circuit breaker: up to three attempts, each passing
 through the breaker on its own, another one only after a failure that is safe to retry.
 */
module Resilience {
  import opened Prelude
  import opened Breaker

  const MAX_ATTEMPTS: nat := 3

  /** What one guarded call can raise. */
  datatype Failure =
    | HttpStatus(code: int)
    | Transport
    | Timeout
    | OtherError
    | CircuitOpen

  /** The end of one call: a 2xx response, or an exception. */
  datatype Result = Response(body: string) | Raised(failure: Failure)

  predicate IsRetryable(f: Failure) {
    match f
    case HttpStatus(code) => code >= 500
    case Transport => true
    case Timeout => true
    case OtherError => false
    case CircuitOpen => false
  }

  /** One attempt's environment: when it would reach the breaker, when the network call would
      end, and how. */
  datatype Try = Try(begin: real, end: real, reply: Result)

  function AsAttempt(t: Try): Attempt {
    Attempt(t.begin, t.end, t.reply.Response?)
  }

  /** How the client is set up. `masksOpening` says which exception the attempt that opens
      the breaker surfaces with: its own, or the breaker's. */
  datatype Setup = Setup(breaker: Config, masksOpening: bool)

  datatype CallResult = CallResult(state: State, result: Result, network: bool)

  /** One pass through the breaker. */
  function GuardedCall(u: Setup, s: State, t: Try): CallResult {
    var g := Guard(u.breaker, s, t.begin, t.end, t.reply.Response?);
    if !g.network then CallResult(s, Raised(CircuitOpen), false)
    else if u.masksOpening && t.reply.Raised? && g.after.Open? then CallResult(g.after, Raised(CircuitOpen), true)
    else CallResult(g.after, t.reply, true)
  }

  /** A whole request: its final breaker state and result, and the attempts that reached the
      network. `tries` holds the environment of the attempts still allowed. */
  datatype Outcome = Outcome(state: State, result: Result, made: seq<Try>)

  function Request(u: Setup, s: State, tries: seq<Try>): Outcome
    requires tries != []
    decreases |tries|
  {
    var r := GuardedCall(u, s, tries[0]);
    var made := if r.network then [tries[0]] else [];
    if r.result.Raised? && IsRetryable(r.result.failure) && |tries| > 1 then
      var rest := Request(u, r.state, tries[1..]);
      Outcome(rest.state, rest.result, made + rest.made)
    else Outcome(r.state, r.result, made)
  }

  /** The outcome of a request that has made `made` so far and goes on with `tries`. */
  function Onward(u: Setup, s: State, tries: seq<Try>, made: seq<Try>): Outcome
    requires tries != []
  {
    var rest := Request(u, s, tries);
    Outcome(rest.state, rest.result, made + rest.made)
  }

  lemma OnwardStep(u: Setup, s: State, tries: seq<Try>, k: nat, made: seq<Try>)
    requires k < |tries|
    ensures
      var g := GuardedCall(u, s, tries[k]);
      var made' := made + if g.network then [tries[k]] else [];
      Onward(u, s, tries[k..], made) ==
        if g.result.Raised? && IsRetryable(g.result.failure) && k + 1 < |tries| then
          Onward(u, g.state, tries[k + 1..], made')
        else Outcome(g.state, g.result, made')
  {
    assert tries[k..][1..] == tries[k + 1..];
  }

  /** `breaker.call_async`: refuse, or run the call and report whether it raised. */
  method CallAsync(breaker: CircuitBreaker, masksOpening: bool, t: Try) returns (r: Result, ghost network: bool)
    modifies breaker
    ensures CallResult(breaker.state, r, network)
      == GuardedCall(Setup(breaker.config, masksOpening), old(breaker.state), t)
  {
    var admitted := breaker.TryEnter(t.begin);
    network := admitted;
    if !admitted {
      return Raised(CircuitOpen), false;
    }
    breaker.Report(t.reply.Response?, t.end);
    r := if masksOpening && t.reply.Raised? && breaker.state.Open? then Raised(CircuitOpen) else t.reply;
  }

  class ResilientHTTPClient {
    const masksOpening: bool
    const breaker: CircuitBreaker

    ghost function Setting(): Setup { Setup(breaker.config, masksOpening) }

    constructor (config: Config, masksOpening: bool)
      ensures this.masksOpening == masksOpening && breaker.config == config
      ensures fresh(breaker) && breaker.state == INITIAL
    {
      this.masksOpening := masksOpening;
      this.breaker := new CircuitBreaker(config);
    }

    /** The decorated `_request`: `stop_after_attempt(3)`, retry on a retryable exception,
        reraise the last one. */
    method Send(tries: seq<Try>) returns (r: Result, ghost made: seq<Try>)
      requires |tries| == MAX_ATTEMPTS
      modifies breaker
      ensures Outcome(breaker.state, r, made) == Request(Setting(), old(breaker.state), tries)
    {
      ghost var u := Setting();
      ghost var whole := Request(u, breaker.state, tries);
      var attempt := 0;
      made := [];
      r := Raised(OtherError);
      var retrying := true;
      while retrying
        invariant 0 <= attempt <= MAX_ATTEMPTS && (retrying ==> attempt < MAX_ATTEMPTS)
        invariant retrying ==> whole == Onward(u, breaker.state, tries[attempt..], made)
        invariant !retrying ==> whole == Outcome(breaker.state, r, made)
        decreases MAX_ATTEMPTS - attempt, retrying
      {
        OnwardStep(u, breaker.state, tries, attempt, made);
        ghost var network;
        r, network := CallAsync(breaker, masksOpening, tries[attempt]);
        made := made + if network then [tries[attempt]] else [];
        attempt := attempt + 1;
        retrying := r.Raised? && IsRetryable(r.failure) && attempt < MAX_ATTEMPTS;
      }
    }
  }

  /** What a request does to the network, for any state, environment and setup. It makes at most
      the attempts allowed, taken from the front of its environment; every attempt but the last
      raised a retryable failure; and it stops short after a retryable failure only because the
      breaker is open. */
  lemma {:induction false} RequestDiscipline(u: Setup, s: State, tries: seq<Try>)
    requires tries != []
    ensures
      var o := Request(u, s, tries);
      && o.made <= tries
      && (forall k :: 0 <= k < |o.made| - 1 ==> RaisedRetryable(o.made[k]))
      && (o.made == [] ==> o.result == Raised(CircuitOpen) && o.state == s)
      && (0 < |o.made| < |tries| && RaisedRetryable(o.made[|o.made| - 1]) ==> o.result == Raised(CircuitOpen))
    decreases |tries|
  {
    var r := GuardedCall(u, s, tries[0]);
    if r.result.Raised? && IsRetryable(r.result.failure) && |tries| > 1 {
      RequestDiscipline(u, r.state, tries[1..]);
      var rest := Request(u, r.state, tries[1..]);
      assert r.network && Request(u, s, tries).made == [tries[0]] + rest.made;
      assert tries == [tries[0]] + tries[1..];
    }
  }

  /** What a request returns is its last attempt's own end or the breaker's refusal, and always the
      former if the last attempt was answered with a 2xx. */
  lemma {:induction false} RequestResult(u: Setup, s: State, tries: seq<Try>)
    requires tries != []
    ensures
      var o := Request(u, s, tries);
      && (o.result != Raised(CircuitOpen) ==> o.made != [] && o.result == o.made[|o.made| - 1].reply)
      && (o.made != [] && o.made[|o.made| - 1].reply.Response? ==> o.result == o.made[|o.made| - 1].reply)
    decreases |tries|
  {
    var r := GuardedCall(u, s, tries[0]);
    if r.result.Raised? && IsRetryable(r.result.failure) && |tries| > 1 {
      RequestResult(u, r.state, tries[1..]);
      var rest := Request(u, r.state, tries[1..]);
      assert r.network && Request(u, s, tries).made == [tries[0]] + rest.made;
    }
  }

  predicate RaisedRetryable(t: Try) {
    t.reply.Raised? && IsRetryable(t.reply.failure)
  }

  /** RETRIES, exactly. A request makes its first attempt if and only if the breaker admits it. After
      each attempt it makes the next one allowed if and only if the attempt raised a 5xx, a transport
      failure or a timeout, that exception was not masked by the breaker opening, and the breaker,
      as the attempts so far left it, admits the next. */
  lemma {:induction false} RetriesExactly(u: Setup, s: State, tries: seq<Try>, k: nat)
    requires tries != [] && k < |Request(u, s, tries).made| && k + 1 < |tries|
    ensures
      var made := Request(u, s, tries).made;
      var (reply, after) := (made[k].reply, After(u.breaker, s, Attempts(made[..k + 1])));
      k + 1 < |made| <==>
        && reply.Raised?
        && (reply.failure.HttpStatus? ==> reply.failure.code >= 500)
        && (reply.failure.HttpStatus? || reply.failure == Transport || reply.failure == Timeout)
        && !(u.masksOpening && after.Open?)
        && Admits(u.breaker, after, tries[k + 1].begin)
    decreases |tries|
  {
    var r := GuardedCall(u, s, tries[0]);
    var made, rest := Request(u, s, tries).made, Request(u, r.state, tries[1..]);
    FirstAttempt(u, s, tries);
    FirstAttempt(u, r.state, tries[1..]);
    OneAttemptLeft(u, s, tries[0]);
    if k == 0 {
      assert made[..1] == [tries[0]];
    } else {
      RetriesExactly(u, r.state, tries[1..], k - 1);
      assert made == [tries[0]] + rest.made;
      assert made[..k + 1] == [tries[0]] + rest.made[..k];
      assert Attempts(made[..k + 1])[1..] == Attempts(rest.made[..k]);
    }
  }

  lemma FirstAttempt(u: Setup, s: State, tries: seq<Try>)
    requires tries != []
    ensures Request(u, s, tries).made != [] <==> Admits(u.breaker, s, tries[0].begin)
    ensures Admits(u.breaker, s, tries[0].begin) ==> Request(u, s, tries).made[0] == tries[0]
  {
  }

  lemma OneAttemptLeft(u: Setup, s: State, t: Try)
    requires Admits(u.breaker, s, t.begin)
    ensures After(u.breaker, s, Attempts([t])) == GuardedCall(u, s, t).state
  {
    assert Attempts([t]) == [AsAttempt(t)];
    assert After(u.breaker, s, [AsAttempt(t)]) == After(u.breaker, Through(u.breaker, s, AsAttempt(t)), []);
  }

  /** REJECTIONS ARE FINAL. A 4xx, any other status below 500, or an exception that is neither a
      transport failure nor a timeout, is the request's last attempt, and the request raises. */
  lemma RejectionIsFinal(u: Setup, s: State, tries: seq<Try>, k: nat)
    requires tries != [] && k < |Request(u, s, tries).made|
    requires
      var reply := Request(u, s, tries).made[k].reply;
      reply.Raised? && ((reply.failure.HttpStatus? && reply.failure.code < 500) || reply.failure == OtherError)
    ensures k == |Request(u, s, tries).made| - 1 && Request(u, s, tries).result.Raised?
  {
    var o := Request(u, s, tries);
    RequestDiscipline(u, s, tries);
    RequestResult(u, s, tries);
    if k + 1 < |tries| {
      RetriesExactly(u, s, tries, k);
    }
  }

  // ---- Whole histories of sequential requests ----

  ghost predicate Ordered(tries: seq<Try>, from: real) {
    tries == [] || (from <= tries[0].begin <= tries[0].end && Ordered(tries[1..], tries[0].end))
  }

  function EndOf(tries: seq<Try>, from: real): real {
    if tries == [] then from else EndOf(tries[1..], tries[0].end)
  }

  /** Every request may use up to three attempts. */
  ghost predicate Offered(requests: seq<seq<Try>>) {
    forall k :: 0 <= k < |requests| ==> |requests[k]| == MAX_ATTEMPTS
  }

  /** Requests run one after another. (An attempt that a request does not use can be given
      the instant the request ended, so nothing is lost by ordering all three.) */
  ghost predicate Sequential(requests: seq<seq<Try>>, from: real)
    decreases |requests|
  {
    requests == [] ||
    (Ordered(requests[0], from) && Sequential(requests[1..], EndOf(requests[0], from)))
  }

  function History(u: Setup, s: State, requests: seq<seq<Try>>): (State, seq<Attempt>)
    requires Offered(requests)
    decreases |requests|
  {
    if requests == [] then (s, [])
    else
      var o := Request(u, s, requests[0]);
      var (s', log) := History(u, o.state, requests[1..]);
      (s', Attempts(o.made) + log)
  }

  function Attempts(made: seq<Try>): (log: seq<Attempt>)
    ensures |log| == |made|
  {
    if made == [] then [] else [AsAttempt(made[0])] + Attempts(made[1..])
  }

  /** REQUEST LOAD BOUND. n logical requests make at most 3n network attempts. */
  lemma {:induction false} ThreePerRequest(u: Setup, s: State, requests: seq<seq<Try>>)
    requires Offered(requests)
    ensures |History(u, s, requests).1| <= 3 * |requests|
    decreases |requests|
  {
    if requests != [] {
      RequestDiscipline(u, s, requests[0]);
      ThreePerRequest(u, Request(u, s, requests[0]).state, requests[1..]);
    }
  }

  lemma {:induction false} EndOfLater(tries: seq<Try>, from: real)
    requires Ordered(tries, from)
    ensures from <= EndOf(tries, from)
    decreases |tries|
  {
    if tries != [] {
      EndOfLater(tries[1..], tries[0].end);
    }
  }

  /** The attempts one request makes are a trail of its breaker, whichever exception the
      opening attempt raises. */
  lemma {:induction false} RequestIsTrail(u: Setup, s: State, tries: seq<Try>, from: real)
    requires tries != [] && Ordered(tries, from)
    ensures
      var o := Request(u, s, tries);
      && Trail(u.breaker, s, from, Attempts(o.made))
      && After(u.breaker, s, Attempts(o.made)) == o.state
      && (forall k :: 0 <= k < |o.made| ==> Attempts(o.made)[k].end <= EndOf(tries, from))
    decreases |tries|
  {
    var r := GuardedCall(u, s, tries[0]);
    EndOfLater(tries[1..], tries[0].end);
    if r.network {
      assert Attempts([tries[0]]) == [AsAttempt(tries[0])];
      assert After(u.breaker, s, [AsAttempt(tries[0])]) == r.state;
    }
    if r.result.Raised? && IsRetryable(r.result.failure) && |tries| > 1 {
      RequestIsTrail(u, r.state, tries[1..], tries[0].end);
      var rest := Request(u, r.state, tries[1..]);
      assert ([tries[0]] + rest.made)[1..] == rest.made;
      var log := Attempts(rest.made);
      assert Attempts([tries[0]] + rest.made) == [AsAttempt(tries[0])] + log;
      assert ([AsAttempt(tries[0])] + log)[1..] == log;
    }
  }

  lemma {:induction false} HistoryIsTrail(u: Setup, s: State, requests: seq<seq<Try>>, from: real)
    requires Offered(requests) && Sequential(requests, from)
    ensures Trail(u.breaker, s, from, History(u, s, requests).1)
    decreases |requests|
  {
    if requests != [] {
      var o := Request(u, s, requests[0]);
      var mid := EndOf(requests[0], from);
      EndOfLater(requests[0], from);
      RequestIsTrail(u, s, requests[0], from);
      HistoryIsTrail(u, o.state, requests[1..], mid);
      TrailConcat(u.breaker, s, from, mid, Attempts(o.made), History(u, o.state, requests[1..]).1);
    }
  }

  /** RETRY-TIMES-BREAKER LOAD BOUND. However many requests arrive, in a window of width
      `width` in which every attempt fails at most failMax + floor(width / timeout) attempts
      reach the peer; the bound is the same whichever exception opens the breaker. */
  lemma OutageLoadBound(u: Setup, requests: seq<seq<Try>>, from: real, i: nat, j: nat, width: real)
    requires u.breaker.Valid() && Offered(requests) && Sequential(requests, from)
    requires
      var log := History(u, INITIAL, requests).1;
      i <= j < |log| && AllFail(log[i..j + 1]) && log[j].begin - log[i].begin <= width
    ensures j - i + 1 <= u.breaker.failMax + (width / u.breaker.timeout).Floor
  {
    HistoryIsTrail(u, INITIAL, requests, from);
    OutageBound(u.breaker, INITIAL, from, History(u, INITIAL, requests).1, i, j, width);
  }
}
