/**
 The peer client calls a different absolute URL per target agent and keeps one circuit
 breaker per agent URL, created on first use.
 */
module PeerClient {
  import opened Prelude
  import opened Breaker
  import opened Resilience

  type Url = string

  /** The breakers of a client, by agent URL; one not yet created is as good as new. */
  type Breakers = map<Url, State>

  function StateFor(b: Breakers, url: Url): State {
    if url in b then b[url] else INITIAL
  }

  function PeerRequest(u: Setup, b: Breakers, url: Url, tries: seq<Try>): (Breakers, Outcome)
    requires tries != []
  {
    var o := Request(u, StateFor(b, url), tries);
    (b[url := o.state], o)
  }

  lemma SameElsewhere(a: Breakers, b: Breakers, url: Url, s: State, next: State)
    requires a[url := s] == b[url := s]
    ensures a[url := next] == b[url := next] && a[url := next][url := next] == b[url := next]
  {
    assert a[url := s][url := next] == a[url := next];
    assert b[url := s][url := next] == b[url := next];
  }

  class A2APeerHTTPClient {
    const failMax: nat
    const masksOpening: bool
    var breakers: map<Url, CircuitBreaker>
    ghost var states: Breakers   // the state of each breaker in the dictionary
    ghost var repr: set<object>

    ghost function Setting(): Setup { Setup(Config(failMax, 30.0), masksOpening) }

    ghost predicate Valid()
      reads this, repr
    {
      && this !in repr
      && breakers.Keys == states.Keys
      && (forall u :: u in breakers ==>
            breakers[u] in repr && breakers[u].config == Config(failMax, 30.0) && breakers[u].state == states[u])
      && (forall u, v :: u in breakers && v in breakers && u != v ==> breakers[u] != breakers[v])
    }

    constructor (failMax: nat, masksOpening: bool)
      ensures Valid() && fresh(repr) && states == map[]
      ensures this.failMax == failMax && this.masksOpening == masksOpening
    {
      this.failMax := failMax;
      this.masksOpening := masksOpening;
      this.breakers, this.states, this.repr := map[], map[], {};
    }

    /** Returns the breaker of `agentUrl`, creating a closed one on first use. */
    method BreakerFor(agentUrl: Url) returns (b: CircuitBreaker)
      requires Valid()
      modifies this
      ensures Valid() && fresh(repr - old(repr))
      ensures agentUrl in breakers && b == breakers[agentUrl]
      ensures b.config.failMax == failMax && b.config.timeout == 30.0
      ensures states == old(states)[agentUrl := StateFor(old(states), agentUrl)]
    {
      if agentUrl !in breakers {
        var created := new CircuitBreaker(Config(failMax, 30.0));
        breakers, states, repr := breakers[agentUrl := created], states[agentUrl := INITIAL], repr + {created};
      }
      b := breakers[agentUrl];
    }

    /** One guarded call to `agentUrl`: `_breaker_for(agent_url).call_async(...)`. */
    method CallPeer(agentUrl: Url, t: Try) returns (r: Result, ghost network: bool)
      requires Valid()
      modifies this, repr
      ensures Valid() && fresh(repr - old(repr))
      ensures
        var g := GuardedCall(Setting(), StateFor(old(states), agentUrl), t);
        states == old(states)[agentUrl := g.state] && r == g.result && network == g.network
    {
      var _ := BreakerFor(agentUrl);
      r, network := CallKnown(agentUrl, t);
    }

    /** `call_async` on the breaker of an agent that has one: no other breaker moves. */
    method CallKnown(agentUrl: Url, t: Try) returns (r: Result, ghost network: bool)
      requires Valid() && agentUrl in breakers
      modifies `states, repr
      ensures Valid() && repr == old(repr)
      ensures
        var g := GuardedCall(Setting(), old(states)[agentUrl], t);
        states == old(states)[agentUrl := g.state] && CallResult(states[agentUrl], r, network) == g
    {
      var breaker := breakers[agentUrl];
      r, network := CallAsync(breaker, masksOpening, t);
      states := states[agentUrl := breaker.state];
    }

    /** `_get` and `_post` alike: the retry loop around the agent's own breaker. */
    method Send(agentUrl: Url, tries: seq<Try>) returns (r: Result, ghost made: seq<Try>)
      requires Valid() && |tries| == MAX_ATTEMPTS
      modifies this, repr
      ensures Valid() && fresh(repr - old(repr))
      ensures
        var p := PeerRequest(Setting(), old(states), agentUrl, tries);
        states == p.0 && r == p.1.result && made == p.1.made
    {
      ghost var u, before := Setting(), states;
      ghost var cur := StateFor(before, agentUrl);
      ghost var whole := Request(u, cur, tries);
      var attempt := 0;
      made := [];
      r := Raised(OtherError);
      var retrying := true;
      while retrying
        invariant Valid() && fresh(repr - old(repr))
        invariant 0 <= attempt <= MAX_ATTEMPTS && (retrying ==> attempt < MAX_ATTEMPTS)
        invariant StateFor(states, agentUrl) == cur && states[agentUrl := cur] == before[agentUrl := cur]
        invariant !retrying ==> agentUrl in states
        invariant retrying ==> whole == Onward(u, cur, tries[attempt..], made)
        invariant !retrying ==> whole == Outcome(cur, r, made)
        decreases MAX_ATTEMPTS - attempt, retrying
      {
        OnwardStep(u, cur, tries, attempt, made);
        ghost var network, next := false, GuardedCall(u, cur, tries[attempt]).state;
        SameElsewhere(states, before, agentUrl, cur, next);
        r, network := CallPeer(agentUrl, tries[attempt]);
        cur := next;
        made := made + if network then [tries[attempt]] else [];
        attempt := attempt + 1;
        retrying := r.Raised? && IsRetryable(r.failure) && attempt < MAX_ATTEMPTS;
      }
    }
  }

  function StripSlashes(url: Url): Url {
    if url != "" && url[|url| - 1] == '/' then StripSlashes(url[..|url| - 1]) else url
  }

  function RequestUrl(agentUrl: Url, path: string): string {
    StripSlashes(agentUrl) + path
  }

  /** `rstrip("/")` takes off all trailing slashes and nothing else. */
  lemma {:induction false} StripsTrailingSlashes(url: Url) returns (n: nat)
    ensures url == StripSlashes(url) + seq(n, _ => '/')
    ensures StripSlashes(url) != "" ==> StripSlashes(url)[|StripSlashes(url)| - 1] != '/'
    decreases |url|
  {
    if url != "" && url[|url| - 1] == '/' {
      var m := StripsTrailingSlashes(url[..|url| - 1]);
      n := m + 1;
      assert url == url[..|url| - 1] + ['/'];
      assert seq(m, _ => '/') + ['/'] == seq(n, _ => '/');
    } else {
      n := 0;
    }
  }

  lemma SuffixCancels(a: string, b: string, path: string)
    requires a + path == b + path
    ensures a == b
  {
    assert |a| == |b|;
    assert a == (a + path)[..|a|] && b == (b + path)[..|b|];
  }

  /** A request to `url` never changes the breaker of `other`. */
  ghost predicate BreakerApart(url: Url, other: Url) {
    forall u: Setup, b: Breakers, tries: seq<Try> :: tries != [] ==>
      StateFor(PeerRequest(u, b, url, tries).0, other) == StateFor(b, other)
  }

  /** ADDRESSES AND BREAKERS, exactly. Two spellings of an agent reach the same address, on any
      path, if and only if they agree up to trailing slashes; they share a breaker if and only if
      they are equal, for the dictionary is keyed by the URL as spelled. */
  lemma SpellingsExactly(url: Url, other: Url, path: string)
    ensures RequestUrl(url, path) == RequestUrl(other, path) <==> StripSlashes(url) == StripSlashes(other)
    ensures BreakerApart(url, other) <==> url != other
  {
    if RequestUrl(url, path) == RequestUrl(other, path) {
      SuffixCancels(StripSlashes(url), StripSlashes(other), path);
    }
    if url == other {
      var u, t := Setup(Config(5, 30.0), false), Try(0.0, 0.0, Raised(HttpStatus(404)));
      assert StateFor(PeerRequest(u, map[], url, [t]).0, other) == Closed(1);
    }
  }

  /** So an agent known to be down is still called under a spelling with one more slash: for every
      instant at which its breaker opened no longer than the timeout ago. */
  lemma DownAgentIsCalledRespelled(u: Setup, url: Url, at: real, tries: seq<Try>)
    requires |tries| == MAX_ATTEMPTS && at <= tries[0].begin < at + u.breaker.timeout
    ensures RequestUrl(url + "/", "/v1/a2a/rpc") == RequestUrl(url, "/v1/a2a/rpc")
    ensures
      var down: Breakers := map[url := Open(at)];
      && PeerRequest(u, down, url, tries).1.made == []
      && PeerRequest(u, down, url + "/", tries).1.made != []
  {
    assert (url + "/")[..|url + "/"| - 1] == url;
    assert url != url + "/";
    RequestDiscipline(u, INITIAL, tries);
  }
}

/** Isolation of peers from one another, under any interleaving of calls to many agents. */
module PeerIsolation {
  import opened Prelude
  import opened Breaker
  import opened Resilience
  import opened PeerClient

  /** A logical call: the agent it names and a serial number. */
  datatype Call = Call(url: Url, serial: nat)

  /** Where a call stands: `used` attempts made so far, one on the network, or over. */
  datatype Progress = Idle(used: nat) | OnNetwork(used: nat) | Over(result: Result)

  datatype Client = Client(breakers: Breakers, calls: map<Call, Progress>)

  const NEW_CLIENT := Client(map[], map[])

  /** An attempt reaching its breaker, and the end of an attempt on the network. */
  datatype Event =
    | Reach(call: Call, now: real)
    | End(call: Call, now: real, reply: Result)

  function ProgressOf(c: Client, call: Call): Progress {
    if call in c.calls then c.calls[call] else Idle(0)
  }

  /** The retry decision after an attempt that ended in `r`. */
  function AfterAttempt(used: nat, r: Result): Progress {
    if r.Raised? && IsRetryable(r.failure) && used + 1 < MAX_ATTEMPTS then Idle(used + 1) else Over(r)
  }

  function Step(u: Setup, c: Client, e: Event): Client {
    var p := ProgressOf(c, e.call);
    var s := StateFor(c.breakers, e.call.url);
    match e
    case Reach(call, now) =>
      if !p.Idle? then c
      else if Admits(u.breaker, s, now) then
        Client(c.breakers[call.url := Enter(s)], c.calls[call := OnNetwork(p.used)])
      else Client(c.breakers[call.url := s], c.calls[call := Over(Raised(CircuitOpen))])
    case End(call, now, reply) =>
      if !p.OnNetwork? then c
      else
        var s' := Record(u.breaker, s, reply.Response?, now);
        var r := if u.masksOpening && reply.Raised? && s'.Open? then Raised(CircuitOpen) else reply;
        Client(c.breakers[call.url := s'], c.calls[call := AfterAttempt(p.used, r)])
  }

  function Run(u: Setup, c: Client, events: seq<Event>): Client
    decreases |events|
  {
    if events == [] then c else Run(u, Step(u, c, events[0]), events[1..])
  }

  function Only(url: Url, events: seq<Event>): seq<Event> {
    if events == [] then []
    else (if events[0].call.url == url then [events[0]] else []) + Only(url, events[1..])
  }

  /** Everything about one agent: its breaker and the progress of the calls to it. */
  ghost predicate SameView(a: Client, b: Client, url: Url) {
    && StateFor(a.breakers, url) == StateFor(b.breakers, url)
    && (forall call: Call :: call.url == url ==> ProgressOf(a, call) == ProgressOf(b, call))
  }

  lemma {:induction false} Isolated(u: Setup, a: Client, b: Client, url: Url, events: seq<Event>)
    requires SameView(a, b, url)
    ensures SameView(Run(u, a, events), Run(u, b, Only(url, events)), url)
    decreases |events|
  {
    if events != [] {
      var e := events[0];
      var a' := Step(u, a, e);
      if e.call.url == url {
        var b' := Step(u, b, e);
        assert Only(url, events)[1..] == Only(url, events[1..]);
        Isolated(u, a', b', url, events[1..]);
      } else {
        assert Only(url, events) == Only(url, events[1..]);
        Isolated(u, a', b, url, events[1..]);
      }
    }
  }

  /** PER-PEER ISOLATION. For every interleaving of calls to any number of agents, one agent's
      breaker and the outcomes of the calls to it are what they would be had only its own calls
      been made, at the same times and with the same answers. */
  lemma PerPeerIsolation(u: Setup, url: Url, events: seq<Event>)
    ensures SameView(Run(u, NEW_CLIENT, events), Run(u, NEW_CLIENT, Only(url, events)), url)
  {
    Isolated(u, NEW_CLIENT, NEW_CLIENT, url, events);
  }

  /** The events of one call that runs undisturbed through the attempts `tries`. */
  function Undisturbed(call: Call, tries: seq<Try>): seq<Event> {
    if tries == [] then []
    else [Reach(call, tries[0].begin), End(call, tries[0].end, tries[0].reply)] + Undisturbed(call, tries[1..])
  }

  lemma {:induction false} OverStays(u: Setup, c: Client, call: Call, tries: seq<Try>)
    requires ProgressOf(c, call).Over?
    ensures Run(u, c, Undisturbed(call, tries)) == c
    decreases |tries|
  {
    if tries != [] {
      var es := Undisturbed(call, tries);
      assert es[1..][1..] == Undisturbed(call, tries[1..]);
      OverStays(u, c, call, tries[1..]);
    }
  }

  /** The two events of one attempt pass the breaker as one guarded call does. */
  lemma ReachThenEnd(u: Setup, c: Client, call: Call, t: Try, k: nat)
    requires ProgressOf(c, call) == Idle(k)
    ensures
      var c' := Step(u, Step(u, c, Reach(call, t.begin)), End(call, t.end, t.reply));
      var g := GuardedCall(u, StateFor(c.breakers, call.url), t);
      c'.breakers == c.breakers[call.url := g.state] && ProgressOf(c', call) == AfterAttempt(k, g.result)
  {
  }

  /** The event machine and the retry loop agree: a call that runs alone ends in the breaker
      state and the result of the loop of `Send`. */
  lemma {:induction false} AloneIsRequest(u: Setup, c: Client, call: Call, tries: seq<Try>)
    requires 0 < |tries| <= MAX_ATTEMPTS && ProgressOf(c, call) == Idle(MAX_ATTEMPTS - |tries|)
    ensures
      var c' := Run(u, c, Undisturbed(call, tries));
      var p := PeerRequest(u, c.breakers, call.url, tries);
      c'.breakers == p.0 && ProgressOf(c', call) == Over(p.1.result)
    decreases |tries|
  {
    var es := Undisturbed(call, tries);
    assert es[1..][1..] == Undisturbed(call, tries[1..]);
    var c1 := Step(u, c, Reach(call, tries[0].begin));
    var c2 := Step(u, c1, End(call, tries[0].end, tries[0].reply));
    ReachThenEnd(u, c, call, tries[0], MAX_ATTEMPTS - |tries|);
    assert Run(u, c, es) == Run(u, c2, Undisturbed(call, tries[1..]));
    if ProgressOf(c2, call).Over? {
      OverStays(u, c2, call, tries[1..]);
    } else {
      AloneIsRequest(u, c2, call, tries[1..]);
    }
  }
}
