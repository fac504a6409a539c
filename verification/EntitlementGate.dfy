/**
 The entitlement gate: a per-tenant TTL cache in front of Multi-tenancy's gate endpoint, one
 circuit breaker shared by all tenants, and an unconditional fail-open on any error.
 */
module EntitlementGate {
  import opened Prelude
  import opened Breaker

  /** What the network call ends in: a well-formed body, a 2xx whose body lacks a usable
      `allowed`, a non-2xx status, or a transport failure or timeout. */
  datatype Reply =
    | Answer(allowed: bool, reason: string)
    | Malformed
    | StatusError(code: int)
    | Unreachable
  {
    /** Only what raises inside the guarded call counts as a breaker failure; the body is
        parsed outside it. */
    predicate CountsAsSuccess() { Answer? || Malformed? }
  }

  /** A cache entry is stamped with the instant its check STARTED. */
  datatype Entry = Entry(stamp: real, allowed: bool, reason: string)

  datatype Config = GateConfig(ttl: real, breaker: Breaker.Config)

  /** The breaker the middleware constructs for itself. */
  const GATE_BREAKER := Breaker.Config(5, 30.0)

  datatype Gate = Gate(cache: map<string, Entry>, breaker: State)

  const EMPTY_GATE := Gate(map[], INITIAL)

  /** One check and the environment it meets: when it starts, when it reaches the breaker,
      when the network call (if any) ends, and with what. */
  datatype Check = Check(tenant: string, at: real, callAt: real, doneAt: real, reply: Reply)

  datatype Source = Cached | Asked | Refused

  datatype Verdict = Verdict(allowed: bool, reason: string, source: Source)

  predicate IsFresh(ttl: real, e: Entry, now: real) {
    now - e.stamp < ttl
  }

  /** The cached entry a check starting at `now` is served from, if any. */
  function CacheHit(ttl: real, cache: map<string, Entry>, tenant: string, now: real): Option<Entry> {
    if tenant in cache && IsFresh(ttl, cache[tenant], now) then Some(cache[tenant]) else None
  }

  function Attempted(c: Check): Attempt {
    Attempt(c.callAt, c.doneAt, c.reply.CountsAsSuccess())
  }

  function Guarded(cfg: Config, g: Gate, c: Check): Breaker.Guarded {
    Guard(cfg.breaker, g.breaker, c.callAt, c.doneAt, c.reply.CountsAsSuccess())
  }

  /** The decision of a check that missed the cache. */
  function LookedUp(network: bool, reply: Reply): Verdict {
    if network && reply.Answer? then Verdict(reply.allowed, reply.reason, Asked)
    else Verdict(true, "", if network then Asked else Refused)
  }

  function CheckStep(cfg: Config, g: Gate, c: Check): (Gate, Verdict) {
    match CacheHit(cfg.ttl, g.cache, c.tenant, c.at)
    case Some(e) => (g, Verdict(e.allowed, e.reason, Cached))
    case None =>
      var r := Guarded(cfg, g, c);
      var v := LookedUp(r.network, c.reply);
      (Gate(g.cache[c.tenant := Entry(c.at, v.allowed, v.reason)], r.after), v)
  }

  datatype Response = Forwarded | PaymentRequired(detail: string)

  const EXCLUDED_PATHS := {"/healthz", "/metrics"}

  class EntitlementGateMiddleware {
    const ttl: real
    const breaker: CircuitBreaker
    var cache: map<string, Entry>

    ghost function Cfg(): Config { GateConfig(ttl, breaker.config) }

    ghost function State(): Gate
      reads this, breaker
    {
      Gate(cache, breaker.state)
    }

    constructor (ttl: real)
      ensures Cfg() == GateConfig(ttl, GATE_BREAKER)
      ensures State() == EMPTY_GATE && fresh(breaker)
    {
      this.ttl := ttl;
      this.breaker := new CircuitBreaker(GATE_BREAKER);
      this.cache := map[];
    }

    method CheckTenant(c: Check) returns (allowed: bool, reason: string)
      modifies this, breaker
      ensures State() == CheckStep(Cfg(), old(State()), c).0
      ensures (allowed, reason)
        == (CheckStep(Cfg(), old(State()), c).1.allowed, CheckStep(Cfg(), old(State()), c).1.reason)
    {
      if c.tenant in cache {
        var cached := cache[c.tenant];
        if c.at - cached.stamp < ttl {
          return cached.allowed, cached.reason;
        }
      }
      allowed, reason := true, "";
      var admitted := breaker.TryEnter(c.callAt);
      if admitted {
        breaker.Report(c.reply.CountsAsSuccess(), c.doneAt);
        if c.reply.Answer? {
          allowed, reason := c.reply.allowed, c.reply.reason;
        }
      }
      cache := cache[c.tenant := Entry(c.at, allowed, reason)];
    }

    method Dispatch(path: string, tenantHeader: Option<string>, c: Check) returns (r: Response)
      requires tenantHeader.Some? ==> c.tenant == tenantHeader.value
      modifies this, breaker
      ensures path == "/healthz" || path == "/metrics" || tenantHeader == None || tenantHeader == Some("") ==>
        r == Forwarded && State() == old(State())
      ensures path != "/healthz" && path != "/metrics" && tenantHeader != None && tenantHeader != Some("") ==>
        var s := CheckStep(Cfg(), old(State()), c);
        State() == s.0 && r == if s.1.allowed then Forwarded else PaymentRequired(s.1.reason)
    {
      if path in EXCLUDED_PATHS {
        return Forwarded;
      }
      if tenantHeader.None? || tenantHeader.value == "" {
        return Forwarded;
      }
      var allowed, reason := CheckTenant(c);
      r := if allowed then Forwarded else PaymentRequired(reason);
    }
  }
}

/** Whole runs of checks that do not overlap: recovery after an outage, and load bounds. */
module GateRuns {
  import opened Prelude
  import opened Breaker
  import opened EntitlementGate

  /** Non-overlapping checks on one advancing clock, the first not before `from`. */
  ghost predicate Sequential(checks: seq<Check>, from: real)
    decreases |checks|
  {
    checks == [] ||
    (from <= checks[0].at <= checks[0].callAt <= checks[0].doneAt
     && Sequential(checks[1..], checks[0].doneAt))
  }

  /** The gate reached, the verdicts served, and the network attempts made by a run. */
  datatype History = History(gate: Gate, verdicts: seq<Verdict>, attempts: seq<Attempt>)

  function Run(cfg: EntitlementGate.Config, g: Gate, checks: seq<Check>): (h: History)
    ensures |h.verdicts| == |checks|
    decreases |checks|
  {
    if checks == [] then History(g, [], [])
    else
      var (g1, v) := CheckStep(cfg, g, checks[0]);
      Prepend(v, checks[0], Run(cfg, g1, checks[1..]))
  }

  /** A history preceded by one check and its verdict. */
  function Prepend(v: Verdict, c: Check, h: History): History {
    History(h.gate, [v] + h.verdicts, (if v.source == Asked then [Attempted(c)] else []) + h.attempts)
  }

  /** One history after another. */
  function Joined(a: History, b: History): History {
    History(b.gate, a.verdicts + b.verdicts, a.attempts + b.attempts)
  }

  lemma PrependJoined(v: Verdict, c: Check, a: History, b: History)
    ensures Joined(Prepend(v, c, a), b) == Prepend(v, c, Joined(a, b))
  {
    assert [v] + a.verdicts + b.verdicts == [v] + (a.verdicts + b.verdicts);
    var first := if v.source == Asked then [Attempted(c)] else [];
    assert first + a.attempts + b.attempts == first + (a.attempts + b.attempts);
  }

  /** From `T` on Multi-tenancy answers: every network call that ends at or after `T` gets a
      well-formed answer, and the answer for `tenant` is a denial. */
  ghost predicate AnswersFrom(checks: seq<Check>, T: real, tenant: string) {
    forall i :: 0 <= i < |checks| && checks[i].doneAt >= T ==>
      checks[i].reply.Answer? && (checks[i].tenant == tenant ==> !checks[i].reply.allowed)
  }

  /** What an outage before `T` can leave behind. */
  ghost predicate Recovering(cfg: EntitlementGate.Config, g: Gate, T: real, tenant: string) {
    && !g.breaker.HalfOpen?
    && (g.breaker.Open? ==> g.breaker.openedAt < T)
    && (tenant in g.cache && g.cache[tenant].stamp >= T + cfg.breaker.timeout ==> !g.cache[tenant].allowed)
  }

  lemma RecoveringStep(cfg: EntitlementGate.Config, g: Gate, c: Check, T: real, tenant: string)
    requires Recovering(cfg, g, T, tenant)
    requires c.at <= c.callAt <= c.doneAt && AnswersFrom([c], T, tenant) && cfg.breaker.timeout >= 0.0
    ensures Recovering(cfg, CheckStep(cfg, g, c).0, T, tenant)
    ensures c.tenant == tenant && c.at >= T + cfg.breaker.timeout + cfg.ttl && cfg.ttl >= 0.0 ==>
      !CheckStep(cfg, g, c).1.allowed
  {
    assert [c][0] == c;
  }

  /** BOUNDED RECOVERY, from any state an outage before `T` can leave behind. */
  lemma {:induction false} RecoveryFrom(
    cfg: EntitlementGate.Config, g: Gate, checks: seq<Check>, from: real, T: real, tenant: string)
    requires Recovering(cfg, g, T, tenant) && cfg.breaker.timeout >= 0.0 && cfg.ttl >= 0.0
    requires Sequential(checks, from) && AnswersFrom(checks, T, tenant)
    ensures forall i ::
      (0 <= i < |checks| && checks[i].tenant == tenant && checks[i].at >= T + cfg.breaker.timeout + cfg.ttl
       ==> !Run(cfg, g, checks).verdicts[i].allowed)
    decreases |checks|
  {
    if checks != [] {
      var (g1, v) := CheckStep(cfg, g, checks[0]);
      assert AnswersFrom([checks[0]], T, tenant);
      assert AnswersFrom(checks[1..], T, tenant);
      RecoveringStep(cfg, g, checks[0], T, tenant);
      RecoveryFrom(cfg, g1, checks[1..], checks[0].doneAt, T, tenant);
    }
  }

  /** BOUNDED RECOVERY over whole runs of the middleware's own configuration: whatever the
      run did before `T`, every check of a denied tenant begun at or after T + 30 + ttl is denied. */
  lemma BoundedRecovery(ttl: real, checks: seq<Check>, from: real, T: real, tenant: string, i: nat)
    requires ttl >= 0.0 && Sequential(checks, from) && AnswersFrom(checks, T, tenant)
    requires i < |checks| && checks[i].tenant == tenant && checks[i].at >= T + 30.0 + ttl
    ensures !Run(GateConfig(ttl, GATE_BREAKER), EMPTY_GATE, checks).verdicts[i].allowed
  {
    RecoveryFrom(GateConfig(ttl, GATE_BREAKER), EMPTY_GATE, checks, from, T, tenant);
  }

  lemma {:induction false} RunConcat(cfg: EntitlementGate.Config, g: Gate, a: seq<Check>, b: seq<Check>)
    ensures Run(cfg, g, a + b) == Joined(Run(cfg, g, a), Run(cfg, Run(cfg, g, a).gate, b))
    decreases |a|
  {
    if a == [] {
      assert a + b == b;
    } else {
      assert (a + b)[1..] == a[1..] + b;
      var (g1, v) := CheckStep(cfg, g, a[0]);
      RunConcat(cfg, g1, a[1..], b);
      var ha := Run(cfg, g1, a[1..]);
      PrependJoined(v, a[0], ha, Run(cfg, ha.gate, b));
    }
  }

  function Down(tenant: string, t: real): Check { Check(tenant, t, t, t, Unreachable) }

  /** Five tenants meet a dead Multi-tenancy at instant 0. */
  const BURST := [Down("a", 0.0), Down("b", 0.0), Down("c", 0.0), Down("d", 0.0), Down("e", 0.0)]

  /** Failing lookups at instant 0 by tenants not yet cached, one short of none: the last one opens
      the breaker. Other tenants stay uncached. */
  lemma {:induction false} FailuresOpen(cfg: EntitlementGate.Config, g: Gate, checks: seq<Check>, other: string)
    requires checks != [] && g.breaker.Closed? && g.breaker.failures + |checks| == cfg.breaker.failMax
    requires forall i :: 0 <= i < |checks| ==> checks[i] == Down(checks[i].tenant, 0.0)
    requires forall i :: 0 <= i < |checks| ==> checks[i].tenant !in g.cache && checks[i].tenant != other
    requires forall i, j :: 0 <= i < j < |checks| ==> checks[i].tenant != checks[j].tenant
    requires other !in g.cache
    ensures Run(cfg, g, checks).gate.breaker == Open(0.0) && other !in Run(cfg, g, checks).gate.cache
    decreases |checks|
  {
    var g1 := CheckStep(cfg, g, checks[0]).0;
    if |checks| > 1 {
      FailuresOpen(cfg, g1, checks[1..], other);
    } else {
      assert Run(cfg, g1, []).gate == g1;
    }
  }

  lemma BurstOpensBreaker(ttl: real)
    ensures
      var h := Run(GateConfig(ttl, GATE_BREAKER), EMPTY_GATE, BURST);
      h.gate.breaker == Open(0.0) && "t" !in h.gate.cache
  {
    assert forall i :: 0 <= i < 5 ==> |BURST[i].tenant| == 1 && BURST[i].tenant[0] == ['a', 'b', 'c', 'd', 'e'][i];
    assert "t"[0] == 't';
    FailuresOpen(GateConfig(ttl, GATE_BREAKER), EMPTY_GATE, BURST, "t");
  }

  /** A check of "t" refused just before the breaker would let it through, then one more
      just before the fail-open entry it left expires. */
  function LateRun(ttl: real, slack: real): seq<Check> {
    [Check("t", 30.0 - slack / 4.0, 30.0 - slack / 4.0, 30.0 - slack / 4.0, Answer(false, "denied")),
     Check("t", 30.0 + ttl - slack / 2.0, 30.0 + ttl - slack / 2.0, 30.0 + ttl - slack / 2.0, Answer(false, "denied"))]
  }

  /** The recovery bound cannot be lowered by any `slack`: after an outage that is over at
      T = slack / 2, a check begun at T + 30 + ttl - slack is still allowed. */
  lemma RecoveryBoundIsTight(ttl: real, slack: real)
    requires 0.0 < slack < ttl && slack < 30.0
    ensures
      var checks := BURST + LateRun(ttl, slack);
      && AnswersFrom(checks, slack / 2.0, "t")
      && checks[6].tenant == "t" && checks[6].at >= slack / 2.0 + 30.0 + ttl - slack
      && Run(GateConfig(ttl, GATE_BREAKER), EMPTY_GATE, checks).verdicts[6].allowed
    ensures Sequential(BURST + LateRun(ttl, slack), 0.0)
  {
    var cfg := GateConfig(ttl, GATE_BREAKER);
    var late := LateRun(ttl, slack);
    BurstOpensBreaker(ttl);
    RunConcat(cfg, EMPTY_GATE, BURST, late);
    assert late[1..] == [late[1]];
    SequentialConcat(BURST, late, 0.0, 0.0);
  }

  lemma {:induction false} SequentialConcat(a: seq<Check>, b: seq<Check>, from: real, mid: real)
    requires from <= mid && Sequential(a, from) && Sequential(b, mid)
    requires forall i :: 0 <= i < |a| ==> a[i].doneAt <= mid
    ensures Sequential(a + b, from)
    decreases |a|
  {
    if a == [] {
      assert a + b == b;
    } else {
      assert (a + b)[1..] == a[1..] + b;
      SequentialConcat(a[1..], b, a[0].doneAt, mid);
    }
  }

  /** The network attempts of a run, across all tenants, are a trail of the shared breaker. */
  lemma {:induction false} AttemptsAreTrail(cfg: EntitlementGate.Config, g: Gate, checks: seq<Check>, from: real)
    requires Sequential(checks, from)
    ensures Trail(cfg.breaker, g.breaker, from, Run(cfg, g, checks).attempts)
    decreases |checks|
  {
    if checks != [] {
      var c := checks[0];
      var (g1, v) := CheckStep(cfg, g, c);
      AttemptsAreTrail(cfg, g1, checks[1..], c.doneAt);
      var rest := Run(cfg, g1, checks[1..]).attempts;
      if v.source == Asked {
        assert ([Attempted(c)] + rest)[1..] == rest;
      } else {
        assert [] + rest == rest;
        TrailEarlier(cfg.breaker, g.breaker, from, c.doneAt, rest);
      }
    }
  }

  lemma TrailEarlier(c: Breaker.Config, s: State, from: real, later: real, log: seq<Attempt>)
    requires from <= later && Trail(c, s, later, log)
    ensures Trail(c, s, from, log)
  {
  }

  /** OUTAGE LOAD BOUND. While every call fails, all tenants together cause at most
      5 + floor(width / 30) network calls in a window of width `width`. */
  lemma OutageLoadBound(ttl: real, checks: seq<Check>, from: real, i: nat, j: nat, width: real)
    requires Sequential(checks, from)
    requires
      var log := Run(GateConfig(ttl, GATE_BREAKER), EMPTY_GATE, checks).attempts;
      i <= j < |log| && AllFail(log[i..j + 1]) && log[j].begin - log[i].begin <= width
    ensures j - i + 1 <= 5 + (width / 30.0).Floor
  {
    var cfg := GateConfig(ttl, GATE_BREAKER);
    AttemptsAreTrail(cfg, EMPTY_GATE, checks, from);
    OutageBound(GATE_BREAKER, INITIAL, from, Run(cfg, EMPTY_GATE, checks).attempts, i, j, width);
  }

  /** Every network attempt of a run is that of one of its checks. */
  lemma {:induction false} AttemptsFail(cfg: EntitlementGate.Config, g: Gate, checks: seq<Check>)
    requires forall i :: 0 <= i < |checks| ==> checks[i].reply.StatusError? || checks[i].reply.Unreachable?
    ensures AllFail(Run(cfg, g, checks).attempts)
    decreases |checks|
  {
    if checks != [] {
      AttemptsFail(cfg, CheckStep(cfg, g, checks[0]).0, checks[1..]);
    }
  }

  /** OUTAGE LOAD BOUND, by the replies. While Multi-tenancy answers every call with a non-2xx status
      or not at all, all tenants together cause at most 5 + floor(width / 30) network calls begun
      within a window of width `width`. */
  lemma FailingRepliesLoadBound(ttl: real, checks: seq<Check>, from: real, i: nat, j: nat, width: real)
    requires Sequential(checks, from)
    requires forall k :: 0 <= k < |checks| ==> checks[k].reply.StatusError? || checks[k].reply.Unreachable?
    requires
      var log := Run(GateConfig(ttl, GATE_BREAKER), EMPTY_GATE, checks).attempts;
      i <= j < |log| && log[j].begin - log[i].begin <= width
    ensures j - i + 1 <= 5 + (width / 30.0).Floor
  {
    AttemptsFail(GateConfig(ttl, GATE_BREAKER), EMPTY_GATE, checks);
    OutageLoadBound(ttl, checks, from, i, j, width);
  }

  lemma {:induction false} StaysClosed(cfg: EntitlementGate.Config, g: Gate, checks: seq<Check>, i: nat)
    requires g.breaker.Closed? && i < |checks|
    requires forall k :: 0 <= k < |checks| ==> checks[k].reply.Answer? || checks[k].reply.Malformed?
    ensures Run(cfg, g, checks).verdicts[i].source != Refused
    decreases |checks|
  {
    if i > 0 {
      StaysClosed(cfg, CheckStep(cfg, g, checks[0]).0, checks[1..], i - 1);
    }
  }

  /** NEVER REFUSED. While Multi-tenancy answers every call with a 2xx, usable or not, no check is
      refused by the breaker. */
  lemma AnsweredIsNeverRefused(ttl: real, checks: seq<Check>, i: nat)
    requires i < |checks|
    requires forall k :: 0 <= k < |checks| ==> checks[k].reply.Answer? || checks[k].reply.Malformed?
    ensures Run(GateConfig(ttl, GATE_BREAKER), EMPTY_GATE, checks).verdicts[i].source != Refused
  {
    StaysClosed(GateConfig(ttl, GATE_BREAKER), EMPTY_GATE, checks, i);
  }

  /** FAIL OPEN, exactly. A check that asked is denied if and only if the answer denied it, and then
      with the answer's reason; any other reply, and every refusal, lets it through with none. */
  lemma {:induction false} FailsOpenExactly(cfg: EntitlementGate.Config, g: Gate, checks: seq<Check>, i: nat)
    requires i < |checks| && Run(cfg, g, checks).verdicts[i].source != Cached
    ensures
      var (v, reply) := (Run(cfg, g, checks).verdicts[i], checks[i].reply);
      && (!v.allowed <==> v.source == Asked && reply.Answer? && !reply.allowed)
      && v.reason == if v.source == Asked && reply.Answer? then reply.reason else ""
    decreases |checks|
  {
    if i > 0 {
      FailsOpenExactly(cfg, CheckStep(cfg, g, checks[0]).0, checks[1..], i - 1);
    }
  }
}
