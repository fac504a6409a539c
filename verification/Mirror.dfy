/**
 Two gateways composed: platform A delegates to platform B over the JSON-RPC shape both sides
 implement. A's peer client retries through its breaker; each attempt may be lost on the way
 there or on the way back.
 */
module Mirror {
  import opened Prelude
  import opened Domain
  import opened Protocol
  import opened ServiceSpec
  import R = Resilience
  import B = Breaker

  /** A gateway instance: its settings and its store. */
  datatype Platform = Platform(settings: Settings, store: Store)

  /** What becomes of one attempt: it is lost on the way there or on the way back, it is answered
      with a status that `raise_for_status` raises, before or after B served it, or it is carried
      both ways. */
  datatype Fate = RequestLost | ReplyLost | BadStatus(code: int, served: bool) | Through

  /** One attempt's environment: its timing and fate at A, the text of the exception it raises
      if it raises one, and what B draws when reached. */
  datatype Hop = Hop(begin: real, end: real, fate: Fate, failureText: string, accept: AcceptEnv)

  function TryOf(h: Hop): R.Try {
    var reply :=
      match h.fate
      case RequestLost => R.Raised(R.Transport)
      case ReplyLost => R.Raised(R.Timeout)
      case BadStatus(code, _) => R.Raised(R.HttpStatus(code))
      case Through => R.Response("");
    R.Try(h.begin, h.end, reply)
  }

  /** A's peer client sends none of the X-Tenant-Id, X-A2A-Caller-Id and X-A2A-Caller-Url
      headers, so B resolves its own default tenant, caller "" and caller URL "". */
  function AnonymousCaller(b: Platform): Caller {
    Caller(b.settings.defaultTenant, "", "")
  }

  /** B's answer to one message/send of A. */
  function Serve(b: Platform, skill: string, msg: Json, rpcId: Json, env: AcceptEnv): (Platform, RpcResponse) {
    var (s, r) := Handle(b.settings.definitions, b.store, "message/send", Some(Params(Some(skill), Some(msg), None)),
      rpcId, AnonymousCaller(b), env);
    (b.(store := s), r)
  }

  predicate ReachesB(h: Hop) {
    h.fate.ReplyLost? || h.fate.Through? || (h.fate.BadStatus? && h.fate.served)
  }

  /** B after one attempt: untouched if the request never reached it. */
  function AfterHop(b: Platform, skill: string, msg: Json, rpcId: Json, h: Hop): Platform {
    if !ReachesB(h) then b else Serve(b, skill, msg, rpcId, h.accept).0
  }

  /** `send_message` after the POST returned: a non-null error object is raised. */
  function ReadReply(r: RpcResponse): PeerReply {
    if r.error.Some? then PeerRaised(r.error.value.message)
    else PeerResult(if r.result.Some? then Obj(r.result.value) else Null)
  }

  /** `send_message` with its retry loop: B after the last attempt, A's breaker, the reply. */
  function SendMessage(
    u: R.Setup, s: B.State, b: Platform, skill: string, msg: Json, rpcId: Json, hops: seq<Hop>)
    : (Platform, B.State, PeerReply)
    requires hops != []
    decreases |hops|
  {
    var h := hops[0];
    var g := R.GuardedCall(u, s, TryOf(h));
    if !g.network then (b, s, PeerRaised(h.failureText))
    else
      var b1 := AfterHop(b, skill, msg, rpcId, h);
      if g.result.Response? then (b1, g.state, ReadReply(Serve(b, skill, msg, rpcId, h.accept).1))
      else if R.IsRetryable(g.result.failure) && |hops| > 1 then
        SendMessage(u, g.state, b1, skill, msg, rpcId, hops[1..])
      else (b1, g.state, PeerRaised(h.failureText))
  }

  function Tries(hops: seq<Hop>): seq<R.Try> {
    if hops == [] then [] else [TryOf(hops[0])] + Tries(hops[1..])
  }

  /** B after the first `n` hops reached the network. */
  function AfterHops(b: Platform, skill: string, msg: Json, rpcId: Json, hops: seq<Hop>, n: nat): Platform
    requires n <= |hops|
    decreases n
  {
    if n == 0 then b else AfterHops(AfterHop(b, skill, msg, rpcId, hops[0]), skill, msg, rpcId, hops[1..], n - 1)
  }

  /** What A reads when the request ended after `n` attempts with `result`: if the last one made
      was carried both ways, B's answer to it, and otherwise the text of the exception that the
      last attempt raised, or that the breaker raised in its place. */
  ghost predicate ReadsEnd(
    b: Platform, reply: PeerReply, skill: string, msg: Json, rpcId: Json, hops: seq<Hop>, n: nat, result: R.Result)
    requires n <= |hops|
  {
    && (result.Response? <==> n > 0 && hops[n - 1].fate == Through)
    && (result.Response? ==>
          var last := AfterHops(b, skill, msg, rpcId, hops, n - 1);
          reply == ReadReply(Serve(last, skill, msg, rpcId, hops[n - 1].accept).1))
    && (result.Raised? ==>
          exists m :: 0 <= m < |hops| && (m == n || m + 1 == n) && reply == PeerRaised(hops[m].failureText))
  }

  /** What was sent is the request `o`: A's breaker, B after the attempts made, and the reply. */
  ghost predicate SentAs(
    b: Platform, sent: (Platform, B.State, PeerReply), skill: string, msg: Json, rpcId: Json, hops: seq<Hop>,
    o: R.Outcome)
  {
    && |o.made| <= |hops| && sent.1 == o.state
    && sent.0 == AfterHops(b, skill, msg, rpcId, hops, |o.made|)
    && ReadsEnd(b, sent.2, skill, msg, rpcId, hops, |o.made|, o.result)
  }

  /** COMPOSED SEND IS THE REQUEST. With the same hops, `send_message` across both platforms is the
      peer client's retrying request at A and, at B, the attempts that request made and no others;
      A reads B's answer to the last of them if and only if the request ends in a response. */
  lemma {:induction false} SendMessageIsRequest(
    u: R.Setup, s: B.State, b: Platform, skill: string, msg: Json, rpcId: Json, hops: seq<Hop>)
    requires hops != []
    ensures Tries(hops) != []
    ensures SentAs(b, SendMessage(u, s, b, skill, msg, rpcId, hops), skill, msg, rpcId, hops,
      R.Request(u, s, Tries(hops)))
    decreases |hops|
  {
    TriesLength(hops);
    RequestUnfolds(u, s, hops);
    if GoesOn(u, s, hops) {
      var s1, b1 := R.GuardedCall(u, s, TryOf(hops[0])).state, AfterHop(b, skill, msg, rpcId, hops[0]);
      SendMessageIsRequest(u, s1, b1, skill, msg, rpcId, hops[1..]);
      var sent, rest := SendMessage(u, s, b, skill, msg, rpcId, hops), R.Request(u, s1, Tries(hops[1..]));
      assert sent == SendMessage(u, s1, b1, skill, msg, rpcId, hops[1..]);
      OneHopMore(b, sent, skill, msg, rpcId, hops, rest);
    } else {
      LastHopEnds(u, s, b, skill, msg, rpcId, hops);
    }
  }

  lemma OneHopMore(
    b: Platform, sent: (Platform, B.State, PeerReply), skill: string, msg: Json, rpcId: Json, hops: seq<Hop>,
    o: R.Outcome)
    requires hops != [] && hops[0].fate != Through
    requires SentAs(AfterHop(b, skill, msg, rpcId, hops[0]), sent, skill, msg, rpcId, hops[1..], o)
    ensures SentAs(b, sent, skill, msg, rpcId, hops, R.Outcome(o.state, o.result, [TryOf(hops[0])] + o.made))
  {
    assert |[TryOf(hops[0])] + o.made| == |o.made| + 1;
    ReadsOneLater(b, sent.2, skill, msg, rpcId, hops, |o.made|, o.result);
  }

  lemma ReadsOneLater(
    b: Platform, reply: PeerReply, skill: string, msg: Json, rpcId: Json, hops: seq<Hop>, n: nat, result: R.Result)
    requires n < |hops| && hops[0].fate != Through
    requires ReadsEnd(AfterHop(b, skill, msg, rpcId, hops[0]), reply, skill, msg, rpcId, hops[1..], n, result)
    ensures ReadsEnd(b, reply, skill, msg, rpcId, hops, n + 1, result)
  {
    var rest := hops[1..];
    if result.Raised? {
      var m :| 0 <= m < |rest| && (m == n || m + 1 == n) && reply == PeerRaised(rest[m].failureText);
      assert hops[m + 1] == rest[m];
    }
  }

  lemma LastHopEnds(u: R.Setup, s: B.State, b: Platform, skill: string, msg: Json, rpcId: Json, hops: seq<Hop>)
    requires hops != [] && !GoesOn(u, s, hops)
    ensures
      var (sent, g) := (SendMessage(u, s, b, skill, msg, rpcId, hops), R.GuardedCall(u, s, TryOf(hops[0])));
      SentAs(b, sent, skill, msg, rpcId, hops, R.Outcome(g.state, g.result, if g.network then [TryOf(hops[0])] else []))
  {
    var g := R.GuardedCall(u, s, TryOf(hops[0]));
    assert AfterHops(b, skill, msg, rpcId, hops, 0) == b;
    assert AfterHops(b, skill, msg, rpcId, hops, 1)
      == AfterHops(AfterHop(b, skill, msg, rpcId, hops[0]), skill, msg, rpcId, hops[1..], 0);
    assert g.result.Raised? ==> SendMessage(u, s, b, skill, msg, rpcId, hops).2 == PeerRaised(hops[0].failureText);
  }

  lemma RequestUnfolds(u: R.Setup, s: B.State, hops: seq<Hop>)
    requires hops != []
    ensures
      var (g, o) := (R.GuardedCall(u, s, TryOf(hops[0])), R.Request(u, s, Tries(hops)));
      if GoesOn(u, s, hops) then
        && Tries(hops[1..]) != []
        && var rest := R.Request(u, g.state, Tries(hops[1..]));
           o == R.Outcome(rest.state, rest.result, [TryOf(hops[0])] + rest.made)
      else o == R.Outcome(g.state, g.result, if g.network then [TryOf(hops[0])] else [])
  {
    TriesLength(hops);
    TriesLength(hops[1..]);
    assert Tries(hops)[1..] == Tries(hops[1..]);
  }

  lemma {:induction false} TriesLength(hops: seq<Hop>)
    ensures |Tries(hops)| == |hops|
    decreases |hops|
  {
    if hops != [] {
      TriesLength(hops[1..]);
    }
  }

  /** The ids B draws are new, as uuid4 makes them. */
  ghost predicate FreshIds(used: set<string>, hops: seq<Hop>)
    decreases |hops|
  {
    hops == [] || (hops[0].accept.id !in used && FreshIds(used + {hops[0].accept.id}, hops[1..]))
  }

  lemma {:induction false} FreshForFewer(used: set<string>, fewer: set<string>, hops: seq<Hop>)
    requires FreshIds(used, hops) && fewer <= used
    ensures FreshIds(fewer, hops)
    decreases |hops|
  {
    if hops != [] {
      FreshForFewer(used + {hops[0].accept.id}, fewer + {hops[0].accept.id}, hops[1..]);
    }
  }

  /** Whether B accepts A's request: its policy for the anonymous caller and its skill map. */
  predicate BAccepts(b: Platform, skill: string) {
    Permits(Get(b.store.policies, ("", b.settings.defaultTenant)), skill) && skill in b.settings.definitions
  }

  /** The task B creates for A's request. */
  function MirrorTask(b: Platform, skill: string, msg: Json, env: AcceptEnv): Task {
    Apply(NewTask(env.id, b.settings.defaultTenant, Inbound, "", skill, msg, env.createdAt),
      WorkflowOutcome(env.workflow))
  }

  /** One served request, exactly: rejected with B unchanged, or one mirror task gained. */
  lemma ServeOutcome(b: Platform, skill: string, msg: Json, rpcId: Json, env: AcceptEnv)
    ensures
      var (b', r) := Serve(b, skill, msg, rpcId, env);
      && b'.settings == b.settings && b'.store.policies == b.store.policies && r.id == rpcId
      && (if BAccepts(b, skill) then
            b'.store == b.store.(tasks := b.store.tasks[env.id := MirrorTask(b, skill, msg, env)])
            && r.error.None? && r.result == Some(TaskToResult(MirrorTask(b, skill, msg, env)))
          else b' == b && r.error.Some? && r.result.None?)
  {
  }

  /** What A makes of a task result: B's status and artifacts, and no error. */
  lemma ResultOutcome(t: Task)
    requires t.artifacts != Null
    ensures PeerOutcome(PeerResult(Obj(TaskToResult(t)))) == Some(Outcome(t.status, Some(t.artifacts), None))
  {
    StatusRoundTrip(t.status, Null);
  }

  /** What B served, A got the answer to. */
  predicate AnswerKept(h: Hop) { h.fate == Through || !ReachesB(h) }

  /** No reply is lost on its way back; requests may be. */
  predicate NoReplyLost(hops: seq<Hop>) {
    hops == [] || (AnswerKept(hops[0]) && NoReplyLost(hops[1..]))
  }

  /** B served hop number `k` and A got that answer; or none, when `k` is |hops|. */
  predicate ServedAt(
    b: Platform, sent: (Platform, B.State, PeerReply), skill: string, msg: Json, rpcId: Json, hops: seq<Hop>, k: nat)
    requires k <= |hops|
  {
    if k == |hops| then sent.0 == b && sent.2.PeerRaised?
    else
      var served := Serve(b, skill, msg, rpcId, hops[k].accept);
      hops[k].fate == Through && sent.0 == served.0 && sent.2 == ReadReply(served.1)
  }

  lemma FirstHopServed(u: R.Setup, s: B.State, b: Platform, skill: string, msg: Json, rpcId: Json, hops: seq<Hop>)
    requires hops != [] && AnswerKept(hops[0]) && !GoesOn(u, s, hops)
    ensures
      var k := if hops[0].fate == Through && B.Admits(u.breaker, s, hops[0].begin) then 0 else |hops|;
      ServedAt(b, SendMessage(u, s, b, skill, msg, rpcId, hops), skill, msg, rpcId, hops, k)
  {
  }

  /** Without a lost reply B serves at most one attempt, the last one made. */
  lemma {:induction false} ServedOnce(
    u: R.Setup, s: B.State, b: Platform, skill: string, msg: Json, rpcId: Json, used: set<string>, hops: seq<Hop>)
    returns (k: nat)
    requires hops != [] && NoReplyLost(hops) && FreshIds(used, hops)
    ensures k <= |hops| && (k < |hops| ==> hops[k].accept.id !in used)
    ensures ServedAt(b, SendMessage(u, s, b, skill, msg, rpcId, hops), skill, msg, rpcId, hops, k)
    ensures hops[0].fate == Through && B.Admits(u.breaker, s, hops[0].begin) ==> k == 0
    decreases |hops|
  {
    if GoesOn(u, s, hops) {
      var s1 := R.GuardedCall(u, s, TryOf(hops[0])).state;
      var j := ServedOnce(u, s1, b, skill, msg, rpcId, used + {hops[0].accept.id}, hops[1..]);
      k := j + 1;
      assert SendMessage(u, s, b, skill, msg, rpcId, hops) == SendMessage(u, s1, b, skill, msg, rpcId, hops[1..]);
    } else {
      k := if hops[0].fate == Through && B.Admits(u.breaker, s, hops[0].begin) then 0 else |hops|;
      FirstHopServed(u, s, b, skill, msg, rpcId, hops);
    }
  }

  /** What one delegation leaves on both sides when B served it with `env`: a rejection, B
      unchanged and A's task FAILED with B's message; or one mirror task at B, and A's task with
      that task's status and artifacts and no error of its own. */
  ghost predicate Mirrored(b: Platform, b': Platform, d: DelegateArgs, t: Task, rpcId: Json, env: AcceptEnv) {
    var m := MirrorTask(b, d.skill, d.msg, env);
    if BAccepts(b, d.skill) then
      && b'.store == b.store.(tasks := b.store.tasks[m.id := m]) && m.id !in b.store.tasks
      && m.skill == t.skill && m.input == t.input && m.direction == Inbound
      && t.status == m.status && t.artifacts == m.artifacts && t.error == None
    else
      && b' == b && t.status == Failed && t.artifacts == NO_ARTIFACTS
      && Serve(b, d.skill, d.msg, rpcId, env).1.error.Some?
      && t.error == Some(Serve(b, d.skill, d.msg, rpcId, env).1.error.value.message)
  }

  lemma MirroredOnce(b: Platform, d: DelegateArgs, t: Task, rpcId: Json, env: AcceptEnv)
    requires env.id !in b.store.tasks
    requires
      var o := PeerOutcome(ReadReply(Serve(b, d.skill, d.msg, rpcId, env).1));
      o.Some? && t == Apply(NewTask(t.id, d.tenant, Outbound, d.url, d.skill, d.msg, t.createdAt), o.value)
    ensures Mirrored(b, Serve(b, d.skill, d.msg, rpcId, env).0, d, t, rpcId, env)
  {
    ServeOutcome(b, d.skill, d.msg, rpcId, env);
    if BAccepts(b, d.skill) {
      ResultOutcome(MirrorTask(b, d.skill, d.msg, env));
    }
  }

  lemma ServedReplyIsUsable(b: Platform, skill: string, msg: Json, rpcId: Json, env: AcceptEnv)
    ensures PeerOutcome(ReadReply(Serve(b, skill, msg, rpcId, env).1)).Some?
  {
    ServeOutcome(b, skill, msg, rpcId, env);
    if BAccepts(b, skill) {
      ResultOutcome(MirrorTask(b, skill, msg, env));
    }
  }

  /** What A makes of a delegation past its card check, for any usable reply. */
  lemma DelegatedTask(ttl: nat, a: Store, d: DelegateArgs, env: DelegateEnv)
    requires var card := GetCard(ttl, a, d.url, env).1; card.Some? && CardSupports(card.value, d.skill) == Some(true)
    requires PeerOutcome(env.peer).Some?
    ensures
      var t := Apply(NewTask(env.id, d.tenant, Outbound, d.url, d.skill, d.msg, env.createdAt),
        PeerOutcome(env.peer).value);
      Delegate(ttl, a, d, env).1 == Returned(t) && Delegate(ttl, a, d, env).0.tasks == a.tasks[env.id := t]
  {
  }

  /** MIRROR THEOREM, no reply lost. A's delegation past its card check, sent through A's breaker
      and retry loop. Either B never served it, B is unchanged and A's task is FAILED without
      artifacts; or B served exactly one attempt, and the two stores mirror each other: which
      way is decided by B's policy row for the anonymous caller and its skill map. An attempt
      that A's breaker admits and the network carries is served. */
  lemma MirrorExact(
    ttl: nat, a: Store, d: DelegateArgs, env: DelegateEnv, u: R.Setup, s: B.State, b: Platform, rpcId: Json,
    hops: seq<Hop>)
    returns (k: nat)
    requires hops != [] && NoReplyLost(hops) && FreshIds(b.store.tasks.Keys, hops)
    requires env.peer == SendMessage(u, s, b, d.skill, d.msg, rpcId, hops).2
    requires var card := GetCard(ttl, a, d.url, env).1; card.Some? && CardSupports(card.value, d.skill) == Some(true)
    ensures Delegate(ttl, a, d, env).1.Returned?
    ensures Delegate(ttl, a, d, env).0.tasks == a.tasks[env.id := Delegate(ttl, a, d, env).1.task]
    ensures
      var b' := SendMessage(u, s, b, d.skill, d.msg, rpcId, hops).0;
      var t := Delegate(ttl, a, d, env).1.task;
      if k >= |hops| then b' == b && t.status == Failed && t.artifacts == NO_ARTIFACTS && t.error.Some?
      else hops[k].fate == Through && Mirrored(b, b', d, t, rpcId, hops[k].accept)
    ensures hops[0].fate == Through && B.Admits(u.breaker, s, hops[0].begin) ==> k == 0
  {
    k := ServedOnce(u, s, b, d.skill, d.msg, rpcId, b.store.tasks.Keys, hops);
    if k < |hops| {
      ServedReplyIsUsable(b, d.skill, d.msg, rpcId, hops[k].accept);
      DelegatedTask(ttl, a, d, env);
      MirroredOnce(b, d, Delegate(ttl, a, d, env).1.task, rpcId, hops[k].accept);
    } else {
      DelegatedTask(ttl, a, d, env);
    }
  }

  /** Every attempt that reached B and was accepted left one task; `Reached` counts them. */
  function Reached(u: R.Setup, s: B.State, hops: seq<Hop>): nat
    decreases |hops|
  {
    if hops == [] then 0
    else
      var g := R.GuardedCall(u, s, TryOf(hops[0]));
      if !g.network then 0
      else
        (if ReachesB(hops[0]) then 1 else 0)
        + (if GoesOn(u, s, hops) then Reached(u, g.state, hops[1..]) else 0)
  }

  /** From `b` to `b2` the platform gained `n` inbound tasks with this skill and message and
      changed nothing else. */
  ghost predicate Gains(b: Platform, b2: Platform, skill: string, msg: Json, n: nat) {
    && b2.settings == b.settings && b2.store.policies == b.store.policies && b2.store.cards == b.store.cards
    && (forall id :: id in b.store.tasks ==> id in b2.store.tasks && b2.store.tasks[id] == b.store.tasks[id])
    && (forall id :: id in b2.store.tasks && id !in b.store.tasks ==> IsMirror(b2.store.tasks[id], skill, msg))
    && |b2.store.tasks| == |b.store.tasks| + n
  }

  predicate IsMirror(t: Task, skill: string, msg: Json) {
    t.skill == skill && t.input == msg && t.direction == Inbound
  }

  lemma OneMore(tasks: map<string, Task>, id: string, t: Task)
    requires id !in tasks
    ensures |tasks[id := t]| == |tasks| + 1
  {
    assert tasks[id := t].Keys == tasks.Keys + {id};
  }

  lemma ServeGains(b: Platform, skill: string, msg: Json, rpcId: Json, env: AcceptEnv)
    requires env.id !in b.store.tasks
    ensures Gains(b, Serve(b, skill, msg, rpcId, env).0, skill, msg, if BAccepts(b, skill) then 1 else 0)
    ensures forall id :: id in Serve(b, skill, msg, rpcId, env).0.store.tasks ==> id in b.store.tasks || id == env.id
  {
    ServeOutcome(b, skill, msg, rpcId, env);
    var b' := Serve(b, skill, msg, rpcId, env).0;
    if BAccepts(b, skill) {
      OneMore(b.store.tasks, env.id, MirrorTask(b, skill, msg, env));
    }
  }

  lemma GainsTwice(b: Platform, b1: Platform, b2: Platform, skill: string, msg: Json, m: nat, n: nat)
    requires Gains(b, b1, skill, msg, m) && Gains(b1, b2, skill, msg, n)
    ensures Gains(b, b2, skill, msg, m + n)
  {
    forall id | id in b2.store.tasks && id !in b.store.tasks
      ensures IsMirror(b2.store.tasks[id], skill, msg)
    {
      if id in b1.store.tasks {
        assert b2.store.tasks[id] == b1.store.tasks[id];
      }
    }
  }

  /** How many tasks one attempt leaves at B. */
  function HopCount(b: Platform, skill: string, h: Hop): nat {
    if ReachesB(h) && BAccepts(b, skill) then 1 else 0
  }

  lemma HopGains(b: Platform, skill: string, msg: Json, rpcId: Json, hops: seq<Hop>)
    requires hops != [] && FreshIds(b.store.tasks.Keys, hops)
    ensures var b1 := AfterHop(b, skill, msg, rpcId, hops[0]);
      Gains(b, b1, skill, msg, HopCount(b, skill, hops[0])) && FreshIds(b1.store.tasks.Keys, hops[1..])
  {
    var id := hops[0].accept.id;
    ServeGains(b, skill, msg, rpcId, hops[0].accept);
    FreshForFewer(b.store.tasks.Keys + {id}, AfterHop(b, skill, msg, rpcId, hops[0]).store.tasks.Keys, hops[1..]);
  }

  /** Whether the retry loop goes on to the next hop. */
  predicate GoesOn(u: R.Setup, s: B.State, hops: seq<Hop>)
    requires hops != []
  {
    var g := R.GuardedCall(u, s, TryOf(hops[0]));
    g.network && g.result.Raised? && R.IsRetryable(g.result.failure) && |hops| > 1
  }

  lemma {:induction false} ReachedAtMostAll(u: R.Setup, s: B.State, hops: seq<Hop>)
    ensures Reached(u, s, hops) <= |hops|
    decreases |hops|
  {
    if hops != [] {
      ReachedAtMostAll(u, R.GuardedCall(u, s, TryOf(hops[0])).state, hops[1..]);
    }
  }

  /** How many tasks a request leaves at B. */
  function LeftBehind(u: R.Setup, s: B.State, b: Platform, skill: string, hops: seq<Hop>): nat {
    if BAccepts(b, skill) then Reached(u, s, hops) else 0
  }

  lemma LastHopGains(u: R.Setup, s: B.State, b: Platform, skill: string, msg: Json, rpcId: Json, hops: seq<Hop>)
    requires hops != [] && FreshIds(b.store.tasks.Keys, hops) && !GoesOn(u, s, hops)
    ensures Gains(b, SendMessage(u, s, b, skill, msg, rpcId, hops).0, skill, msg, LeftBehind(u, s, b, skill, hops))
  {
    HopGains(b, skill, msg, rpcId, hops);
  }

  lemma NextHopGains(
    u: R.Setup, s: B.State, b: Platform, b1: Platform, skill: string, msg: Json, rpcId: Json, hops: seq<Hop>)
    requires hops != [] && GoesOn(u, s, hops)
    requires b1 == AfterHop(b, skill, msg, rpcId, hops[0]) && Gains(b, b1, skill, msg, HopCount(b, skill, hops[0]))
    requires
      var s1 := R.GuardedCall(u, s, TryOf(hops[0])).state;
      Gains(b1, SendMessage(u, s1, b1, skill, msg, rpcId, hops[1..]).0, skill, msg,
        LeftBehind(u, s1, b1, skill, hops[1..]))
    ensures Gains(b, SendMessage(u, s, b, skill, msg, rpcId, hops).0, skill, msg, LeftBehind(u, s, b, skill, hops))
  {
    var s1, rest := R.GuardedCall(u, s, TryOf(hops[0])).state, hops[1..];
    GainsTwice(b, b1, SendMessage(u, s1, b1, skill, msg, rpcId, rest).0, skill, msg, HopCount(b, skill, hops[0]),
      LeftBehind(u, s1, b1, skill, rest));
  }

  /** MIRROR UNDER LOSS. Whatever is lost and whatever the breaker does, B keeps what it had and
      gains tasks with A's skill and message only; their number is exactly the number of attempts
      that reached B if B accepts, else zero. */
  lemma {:induction false} MirrorUnderLoss(
    u: R.Setup, s: B.State, b: Platform, skill: string, msg: Json, rpcId: Json, hops: seq<Hop>)
    requires hops != [] && FreshIds(b.store.tasks.Keys, hops)
    ensures Gains(b, SendMessage(u, s, b, skill, msg, rpcId, hops).0, skill, msg,
                  if BAccepts(b, skill) then Reached(u, s, hops) else 0)
    decreases |hops|
  {
    if GoesOn(u, s, hops) {
      var b1 := AfterHop(b, skill, msg, rpcId, hops[0]);
      HopGains(b, skill, msg, rpcId, hops);
      MirrorUnderLoss(u, R.GuardedCall(u, s, TryOf(hops[0])).state, b1, skill, msg, rpcId, hops[1..]);
      NextHopGains(u, s, b, b1, skill, msg, rpcId, hops);
    } else {
      LastHopGains(u, s, b, skill, msg, rpcId, hops);
    }
  }

  lemma {:induction false} HopsKeepPolicies(b: Platform, skill: string, msg: Json, rpcId: Json, hops: seq<Hop>, n: nat)
    requires n <= |hops|
    ensures
      var b' := AfterHops(b, skill, msg, rpcId, hops, n);
      b'.settings == b.settings && b'.store.policies == b.store.policies
    decreases n
  {
    if n > 0 {
      ServeOutcome(b, skill, msg, rpcId, hops[0].accept);
      HopsKeepPolicies(AfterHop(b, skill, msg, rpcId, hops[0]), skill, msg, rpcId, hops[1..], n - 1);
    }
  }

  lemma {:induction false} LastOfHops(b: Platform, skill: string, msg: Json, rpcId: Json, hops: seq<Hop>, n: nat)
    requires 0 < n <= |hops|
    ensures AfterHops(b, skill, msg, rpcId, hops, n)
      == AfterHop(AfterHops(b, skill, msg, rpcId, hops, n - 1), skill, msg, rpcId, hops[n - 1])
    decreases n
  {
    var b1 := AfterHop(b, skill, msg, rpcId, hops[0]);
    assert AfterHops(b, skill, msg, rpcId, hops, n) == AfterHops(b1, skill, msg, rpcId, hops[1..], n - 1);
    if n > 1 {
      LastOfHops(b1, skill, msg, rpcId, hops[1..], n - 1);
      assert AfterHops(b, skill, msg, rpcId, hops, n - 1) == AfterHops(b1, skill, msg, rpcId, hops[1..], n - 2);
    }
  }

  /** A's outcome for the reply read at the end of a request. */
  lemma EndOutcome(
    b: Platform, sent: (Platform, B.State, PeerReply), skill: string, msg: Json, rpcId: Json, hops: seq<Hop>,
    o: R.Outcome)
    requires SentAs(b, sent, skill, msg, rpcId, hops, o)
    ensures
      var (p, n) := (PeerOutcome(sent.2), |o.made|);
      && p.Some?
      && (p.value.error.Some? <==> o.result.Raised? || !BAccepts(b, skill))
      && (p.value.error.Some? ==> p.value.status == Failed && p.value.artifacts == None)
      && (p.value.error.None? ==>
            && n > 0
            && var m := MirrorTask(b, skill, msg, hops[n - 1].accept);
               m.id in sent.0.store.tasks && sent.0.store.tasks[m.id] == m
               && p.value.status == m.status && p.value.artifacts == Some(m.artifacts))
  {
    var n := |o.made|;
    if o.result.Response? {
      var last := AfterHops(b, skill, msg, rpcId, hops, n - 1);
      HopsKeepPolicies(b, skill, msg, rpcId, hops, n - 1);
      LastOfHops(b, skill, msg, rpcId, hops, n);
      ServedTwice(b, last, skill, msg, rpcId, hops[n - 1].accept);
    }
  }

  /** B's answer to one request, by the policies it started with. */
  lemma ServedTwice(b: Platform, last: Platform, skill: string, msg: Json, rpcId: Json, env: AcceptEnv)
    requires last.settings == b.settings && last.store.policies == b.store.policies
    ensures
      var (b', r) := Serve(last, skill, msg, rpcId, env);
      var (p, m) := (PeerOutcome(ReadReply(r)), MirrorTask(b, skill, msg, env));
      && p.Some? && (p.value.error.Some? <==> !BAccepts(b, skill))
      && (p.value.error.Some? ==> p.value.status == Failed && p.value.artifacts == None)
      && (p.value.error.None? ==>
            m.id in b'.store.tasks && b'.store.tasks[m.id] == m
            && p.value.status == m.status && p.value.artifacts == Some(m.artifacts))
  {
    ServeOutcome(last, skill, msg, rpcId, env);
    if BAccepts(b, skill) {
      ResultOutcome(MirrorTask(b, skill, msg, env));
    }
  }

  /** A AND B UNDER LOSS, exactly. Whatever is lost, refused or answered with a bad status: A's task
      ends with the status and artifacts of the task B made of the last attempt if the request ended
      in a response and B accepts, and otherwise it is FAILED with an error of A's own. The two
      platforms part ways, A's task FAILED with an error while B holds tasks for it, if and only if B
      accepts, some attempt reached it, and the request still ended in an exception. */
  lemma PartedExactly(
    ttl: nat, a: Store, d: DelegateArgs, env: DelegateEnv, u: R.Setup, s: B.State, b: Platform, rpcId: Json,
    hops: seq<Hop>)
    requires hops != [] && FreshIds(b.store.tasks.Keys, hops)
    requires env.peer == SendMessage(u, s, b, d.skill, d.msg, rpcId, hops).2
    requires var card := GetCard(ttl, a, d.url, env).1; card.Some? && CardSupports(card.value, d.skill) == Some(true)
    ensures Delegate(ttl, a, d, env).1.Returned? && Tries(hops) != []
    ensures
      var (t, b') := (Delegate(ttl, a, d, env).1.task, SendMessage(u, s, b, d.skill, d.msg, rpcId, hops).0);
      var o := R.Request(u, s, Tries(hops));
      var accepts := BAccepts(b, d.skill);
      && (t.error.Some? <==> o.result.Raised? || !accepts)
      && (t.error.Some? ==> t.status == Failed && t.artifacts == NO_ARTIFACTS)
      && (t.error.None? ==> EndsAs(t, b, b', d, hops, |o.made|))
      && (t.error.Some? && |b'.store.tasks| > |b.store.tasks| <==>
            accepts && o.result.Raised? && Reached(u, s, hops) > 0)
  {
    SendMessageIsRequest(u, s, b, d.skill, d.msg, rpcId, hops);
    var sent := SendMessage(u, s, b, d.skill, d.msg, rpcId, hops);
    EndOutcome(b, sent, d.skill, d.msg, rpcId, hops, R.Request(u, s, Tries(hops)));
    DelegatedTask(ttl, a, d, env);
    MirrorUnderLoss(u, s, b, d.skill, d.msg, rpcId, hops);
  }

  /** A's task ends as the task that B made of attempt number `n - 1`, which B holds. */
  ghost predicate EndsAs(t: Task, b: Platform, b': Platform, d: DelegateArgs, hops: seq<Hop>, n: nat) {
    && 0 < n <= |hops|
    && var m := MirrorTask(b, d.skill, d.msg, hops[n - 1].accept);
       m.id in b'.store.tasks && b'.store.tasks[m.id] == m && t.status == m.status && t.artifacts == m.artifacts
  }

  /** AT MOST THREE. The retry loop of the peer client offers three attempts. */
  lemma AtMostThree(u: R.Setup, s: B.State, b: Platform, skill: string, msg: Json, rpcId: Json, hops: seq<Hop>)
    requires |hops| == R.MAX_ATTEMPTS && FreshIds(b.store.tasks.Keys, hops)
    ensures |SendMessage(u, s, b, skill, msg, rpcId, hops).0.store.tasks| <= |b.store.tasks| + 3
  {
    MirrorUnderLoss(u, s, b, skill, msg, rpcId, hops);
    ReachedAtMostAll(u, s, hops);
  }

  /** Three is reached: replies lost on the way back make B run the same request three times. */
  lemma ThreeIsReached(u: R.Setup, b: Platform, skill: string, msg: Json, rpcId: Json, hops: seq<Hop>)
    requires |hops| == R.MAX_ATTEMPTS && FreshIds(b.store.tasks.Keys, hops) && BAccepts(b, skill)
      && u.breaker.failMax > 3
    requires hops[0].fate == hops[1].fate == hops[2].fate == ReplyLost
    ensures |SendMessage(u, B.INITIAL, b, skill, msg, rpcId, hops).0.store.tasks| == |b.store.tasks| + 3
  {
    MirrorUnderLoss(u, B.INITIAL, b, skill, msg, rpcId, hops);
    AllReached(u, hops);
  }

  lemma AllReached(u: R.Setup, hops: seq<Hop>)
    requires |hops| == 3 && u.breaker.failMax > 3
    requires hops[0].fate == hops[1].fate == hops[2].fate == ReplyLost
    ensures Reached(u, B.INITIAL, hops) == 3
  {
    var s1 := R.GuardedCall(u, B.INITIAL, TryOf(hops[0])).state;
    assert s1 == B.Closed(1);
    var s2 := R.GuardedCall(u, s1, TryOf(hops[1])).state;
    assert s2 == B.Closed(2);
    assert hops[1..][1..] == [hops[2]];
    assert Reached(u, s2, [hops[2]]) == 1;
    assert Reached(u, s1, hops[1..]) == 2;
  }

  /** HANDSHAKE. When A works from the card B publishes, a message it sends is never answered
      with "unknown skill": B rejects it only for want of a policy. */
  lemma HandshakeExcludesUnknownSkill(
    ttl: nat, a: Store, d: DelegateArgs, env: DelegateEnv, b: Platform, rpcId: Json, accept: AcceptEnv)
    requires b.settings.Valid()
    requires GetCard(ttl, a, d.url, env).1 == Some(CardToDict(BuildLocalCard(b.settings)))
    ensures Delegate(ttl, a, d, env).1 == SkillNotAdvertised <==> d.skill !in b.settings.definitions
    ensures !Delegate(ttl, a, d, env).1.SkillNotAdvertised? ==>
      var r := Serve(b, d.skill, d.msg, rpcId, accept).1;
      r.error.Some? ==>
        && r.error.value.code == ACCESS_DENIED
        && !Permits(Get(b.store.policies, ("", b.settings.defaultTenant)), d.skill)
  {
    AdvertisedEqualsAccepted(b.settings, d.skill);
  }
}
