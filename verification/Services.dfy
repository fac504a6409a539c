/** What one uninterrupted call of each service does to the store, as functions. */
module ServiceSpec {
  import opened Prelude
  import opened Domain
  import opened Protocol

  // ---- Outbound ----

  /** The environment one delegation meets: the instants it reads the clock, the fetched card,
      the new task's id, and the peer's answer. */
  datatype DelegateEnv = DelegateEnv(
    readAt: int, fetchedAt: int, createdAt: int, fetched: Option<Dict>, id: string, peer: PeerReply)

  /** The store after `_get_card`, and the card body it parses; None when the fetch raised. */
  function GetCard(ttl: nat, s: Store, url: string, env: DelegateEnv): (Store, Option<Dict>) {
    var e := Get(s.cards, url);
    if e.Some? && e.value.expiresAt > env.readAt then (s, Some(e.value.raw))
    else if env.fetched.None? then (s, None)
    else (s.(cards := s.cards[url := CardEntry(env.fetched.value, env.fetchedAt, env.fetchedAt + ttl)]), env.fetched)
  }

  function Delegate(ttl: nat, s: Store, d: DelegateArgs, env: DelegateEnv): (Store, DelegateResult) {
    var (s1, raw) := GetCard(ttl, s, d.url, env);
    if raw.None? then (s1, FetchRaised)
    else
      var supports := CardSupports(raw.value, d.skill);
      if supports.None? then (s1, MalformedCard)
      else if !supports.value then (s1, SkillNotAdvertised)
      else
        var t := NewTask(env.id, d.tenant, Outbound, d.url, d.skill, d.msg, env.createdAt);
        var o := PeerOutcome(env.peer);
        if o.None? then (s1.(tasks := s1.tasks[t.id := t]), ReplyUnusable)
        else (s1.(tasks := s1.tasks[t.id := Apply(t, o.value)]), Returned(Apply(t, o.value)))
  }

  /** DELEGATIONS, exactly. The card in hand is the cached one while it has not expired and the fetched
      one otherwise; the ending is decided by it and by the answer alone, and a task is filed if and
      only if the card supports the skill. */
  lemma DelegateExactly(ttl: nat, s: Store, d: DelegateArgs, env: DelegateEnv)
    ensures
      var (s', r) := Delegate(ttl, s, d, env);
      var hit := d.url in s.cards && env.readAt < s.cards[d.url].expiresAt;
      var card := if hit then ParseAgentCard(s.cards[d.url].raw)
                  else if env.fetched.Some? then ParseAgentCard(env.fetched.value) else None;
      var supported := card.Some? && card.value.Supports(d.skill);
      && (r.FetchRaised? <==> !hit && env.fetched.None?)
      && (r.MalformedCard? <==> card.None? && (hit || env.fetched.Some?))
      && (r.SkillNotAdvertised? <==> card.Some? && !supported)
      && (r.ReplyUnusable? <==> supported && PeerOutcome(env.peer).None?)
      && (r.Returned? <==> supported && PeerOutcome(env.peer).Some?)
      && (!supported ==> s'.tasks == s.tasks)
      && (supported ==>
            && s'.tasks.Keys == s.tasks.Keys + {env.id} && FiledFor(s'.tasks[env.id], d, env)
            && s'.tasks - {env.id} == s.tasks - {env.id})
      && (r.Returned? ==> r.task == s'.tasks[env.id])
      && (hit || env.fetched.None? ==> s'.cards == s.cards)
      && (!hit && env.fetched.Some? ==>
            s'.cards == s.cards[d.url := CardEntry(env.fetched.value, env.fetchedAt, env.fetchedAt + ttl)])
  {
  }

  /** The task of a delegation: its own id, tenant, skill, message, peer and instant. */
  predicate FiledFor(t: Task, d: DelegateArgs, env: DelegateEnv) {
    && t.id == env.id && t.createdAt == env.createdAt && t.direction == Outbound
    && t.tenant == d.tenant && t.peerUrl == d.url && t.skill == d.skill && t.input == d.msg
  }

  /** A MALFORMED CARD STICKS, exactly. A fetched card that does not parse is cached all the same.
      While the entry is unexpired every delegation to that URL raises again, whatever a new fetch
      would bring, and creates no task; and only then. Once it has expired, a delegation ends and
      files tasks just as if nothing had been cached. */
  lemma MalformedCardSticks(ttl: nat, s: Store, d: DelegateArgs, env: DelegateEnv, d2: DelegateArgs, env2: DelegateEnv)
    requires Delegate(ttl, s, d, env).1.MalformedCard? && d2.url == d.url
    requires d.url in s.cards ==> s.cards[d.url].expiresAt <= env.readAt
    ensures
      var s' := Delegate(ttl, s, d, env).0;
      && s'.tasks == s.tasks
      && ((forall f :: Delegate(ttl, s', d2, env2.(fetched := f)) == (s', MalformedCard)) <==>
          env2.readAt < env.fetchedAt + ttl)
      && (env2.readAt >= env.fetchedAt + ttl
         ==> SameEnd(Delegate(ttl, s', d2, env2), Delegate(ttl, Without(s', d.url), d2, env2)))
  {
    assert ParseAgentCard(env.fetched.value).None?;
    var s' := Delegate(ttl, s, d, env).0;
    if env2.readAt >= env.fetchedAt + ttl {
      assert Delegate(ttl, s', d2, env2.(fetched := None)).1 == FetchRaised;
    }
  }

  /** A card that does not parse can be received: one whose `skills` is null. From the empty store,
      every delegation that fetches it leaves its URL unusable for the TTL. */
  lemma NullSkillsStick(ttl: nat, d: DelegateArgs, env: DelegateEnv, d2: DelegateArgs, env2: DelegateEnv)
    requires env.fetched == Some(map["skills" := Null]) && d2.url == d.url
    ensures
      var (s', result) := Delegate(ttl, EMPTY_STORE, d, env);
      && result == MalformedCard
      && (env2.readAt < env.fetchedAt + ttl ==> Delegate(ttl, s', d2, env2) == (s', MalformedCard))
  {
    assert ParseAgentCard(map["skills" := Null]).None?;
  }

  /** The store with nothing cached for `url`. */
  function Without(s: Store, url: string): Store {
    s.(cards := s.cards - {url})
  }

  predicate SameEnd(a: (Store, DelegateResult), b: (Store, DelegateResult)) {
    a.0.tasks == b.0.tasks && a.1 == b.1
  }

  // ---- Inbound ----

  datatype AcceptEnv = AcceptEnv(id: string, createdAt: int, workflow: WorkflowReply)

  function Accept(definitions: map<string, string>, s: Store, a: AcceptArgs, env: AcceptEnv): (Store, AcceptResult) {
    var row := Get(s.policies, (a.caller, a.tenant));
    match Decide(definitions, row, a.skill)
    case Denied => (s, AccessDenied(DenialReason(row, a)))
    case Unknown => (s, UnknownSkill(UnknownSkillMessage(a)))
    case Accepted(_) =>
      var t := Apply(NewTask(env.id, a.tenant, Inbound, a.peerUrl, a.skill, a.msg, env.createdAt),
        WorkflowOutcome(env.workflow));
      (s.(tasks := s.tasks[t.id := t]), Tracked(t))
  }

  // ---- The RPC surface ----

  /** The request parameters a method reads, each with its default when absent. */
  datatype Params = Params(skillId: Option<string>, message: Option<Json>, taskId: Option<string>)

  const NO_PARAMS := Params(None, None, None)

  /** What the request headers resolve to. */
  datatype Caller = Caller(tenant: string, agentId: string, agentUrl: string)

  function Handle(
    definitions: map<string, string>, s: Store, rpcMethod: string, params: Option<Params>, id: Json, c: Caller,
    env: AcceptEnv): (Store, RpcResponse)
  {
    var p := params.GetOr(NO_PARAMS);
    if rpcMethod == "message/send" then
      var a := AcceptArgs(c.tenant, c.agentId, c.agentUrl, p.skillId.GetOr(""), p.message.GetOr(Obj(map[])));
      var (s', r) := Accept(definitions, s, a, env);
      (match r
       case AccessDenied(reason) => (s', RpcResponse(id, None, Some(RpcError(ACCESS_DENIED, reason))))
       case UnknownSkill(message) => (s', RpcResponse(id, None, Some(RpcError(UNKNOWN_SKILL, message))))
       case Tracked(t) => (s', RpcResponse(id, Some(TaskToResult(t)), None)))
    else if rpcMethod == "tasks/get" then
      var t := Get(s.tasks, p.taskId.GetOr(""));
      (s, if t.None? then RpcResponse(id, None, Some(RpcError(TASK_NOT_FOUND, "task not found")))
          else RpcResponse(id, Some(TaskToResult(t.value)), None))
    else if rpcMethod == "tasks/cancel" then
      var t := Get(s.tasks, p.taskId.GetOr(""));
      if t.None? then (s, RpcResponse(id, None, Some(RpcError(TASK_NOT_FOUND, "task not found"))))
      else
        var t' := Apply(t.value, CANCEL_OUTCOME);
        (s.(tasks := s.tasks[p.taskId.GetOr("") := t']), RpcResponse(id, Some(TaskToResult(t')), None))
    else (s, RpcResponse(id, None, Some(RpcError(METHOD_NOT_FOUND, "Method not found"))))
  }

  /** JSON-RPC SHAPE (JSON-RPC 2.0, section 5): the reply echoes the request id and carries
      exactly one of result and error; an error reply leaves the store as it was. */
  lemma ReplyShape(
    definitions: map<string, string>, s: Store, rpcMethod: string, params: Option<Params>, id: Json, c: Caller,
    env: AcceptEnv)
    ensures
      var (s', r) := Handle(definitions, s, rpcMethod, params, id, c, env);
      && r.id == id && (r.result.Some? <==> r.error.None?)
      && (r.error.Some? ==> s' == s)
      && (r.error.Some? ==> r.error.value.code in {ACCESS_DENIED, UNKNOWN_SKILL, TASK_NOT_FOUND, METHOD_NOT_FOUND})
  {
  }

  /** ACCEPTANCE, exactly. Without a policy row a request is denied, published skill or not; with one,
      it is denied if and only if the row's list is not null and lacks the skill. A rejected request
      leaves the store as it was; a permitted one for a published skill is tracked. */
  lemma AcceptExactly(definitions: map<string, string>, s: Store, a: AcceptArgs, env: AcceptEnv)
    ensures
      var (s', r) := Accept(definitions, s, a, env);
      var key := (a.caller, a.tenant);
      var permitted := key in s.policies && (s.policies[key] == None || a.skill in s.policies[key].value);
      && (r.AccessDenied? <==> !permitted)
      && (r.UnknownSkill? <==> permitted && a.skill !in definitions)
      && (r.Tracked? <==> permitted && a.skill in definitions)
      && (!r.Tracked? ==> s' == s)
      && (r.Tracked? ==>
            && s' == s.(tasks := s.tasks[env.id := r.task]) && r.task.id == env.id && r.task.createdAt == env.createdAt
            && r.task.tenant == a.tenant && r.task.peerUrl == a.peerUrl && r.task.skill == a.skill
            && r.task.input == a.msg && r.task.direction == Inbound
            && r.task.status == if env.workflow.InstanceStarted? then Working else Failed)
  {
  }

  /** The reasons name the caller and, as the case may be, its tenant or the skill. */
  lemma RejectionTexts(definitions: map<string, string>, s: Store, a: AcceptArgs, env: AcceptEnv)
    ensures (a.caller, a.tenant) !in s.policies ==>
      Accept(definitions, s, a, env).1
      == AccessDenied("caller '" + a.caller + "' has no access policy for tenant '" + a.tenant + "'")
    ensures Accept(definitions, s, a, env).1.AccessDenied? && (a.caller, a.tenant) in s.policies ==>
      Accept(definitions, s, a, env).1.reason
      == "caller '" + a.caller + "' is not authorized to invoke skill '" + a.skill + "'"
    ensures Accept(definitions, s, a, env).1.UnknownSkill? ==>
      Accept(definitions, s, a, env).1.message == "skill '" + a.skill + "' is not published by this agent"
  {
  }

  /** REJECTION CODES, exactly: -32001 without permission, published skill or not; -32002 for an
      unpublished skill with permission; otherwise the request is tracked. */
  lemma RejectionCodes(
    definitions: map<string, string>, s: Store, params: Option<Params>, id: Json, c: Caller, env: AcceptEnv)
    ensures
      var r := Handle(definitions, s, "message/send", params, id, c, env).1;
      var skill := params.GetOr(NO_PARAMS).skillId.GetOr("");
      var key := (c.agentId, c.tenant);
      var permitted := key in s.policies && (s.policies[key] == None || skill in s.policies[key].value);
      && (Fails(r, -32001) <==> !permitted)
      && (Fails(r, -32002) <==> permitted && skill !in definitions)
      && (r.result.Some? <==> permitted && skill in definitions)
  {
    var p := params.GetOr(NO_PARAMS);
    var a := AcceptArgs(c.tenant, c.agentId, c.agentUrl, p.skillId.GetOr(""), p.message.GetOr(Obj(map[])));
    AcceptExactly(definitions, s, a, env);
  }

  /** The other errors, exactly: -32601 for a method that is none of the three, -32003 for a task that
      is not there. */
  lemma TaskErrorCodes(
    definitions: map<string, string>, s: Store, rpcMethod: string, params: Option<Params>, id: Json, c: Caller,
    env: AcceptEnv)
    requires rpcMethod != "message/send"
    ensures
      var r := Handle(definitions, s, rpcMethod, params, id, c, env).1;
      && (Fails(r, -32601) <==> rpcMethod != "tasks/get" && rpcMethod != "tasks/cancel")
      && (Fails(r, -32003) <==>
            (rpcMethod == "tasks/get" || rpcMethod == "tasks/cancel")
            && params.GetOr(NO_PARAMS).taskId.GetOr("") !in s.tasks)
  {
  }

  /** Absent parameters are the empty skill, message and task id. */
  lemma DefaultsAreEmpty(
    definitions: map<string, string>, s: Store, rpcMethod: string, id: Json, c: Caller, env: AcceptEnv)
    ensures Handle(definitions, s, rpcMethod, None, id, c, env)
      == Handle(definitions, s, rpcMethod, Some(Params(Some(""), Some(Obj(map[])), Some(""))), id, c, env)
  {
  }

  predicate Fails(r: RpcResponse, code: int) {
    r.error.Some? && r.error.value.code == code
  }

  /** DENIALS TELL NOTHING: two platforms with the same policies and tasks answer a caller without
      permission alike, whatever skills each of them publishes. */
  lemma DenialHidesSkillMap(
    mine: map<string, string>, yours: map<string, string>, s: Store, params: Option<Params>, id: Json, c: Caller,
    env: AcceptEnv, env2: AcceptEnv)
    requires
      var (key, skill) := ((c.agentId, c.tenant), params.GetOr(NO_PARAMS).skillId.GetOr(""));
      key in s.policies ==> s.policies[key] != None && skill !in s.policies[key].value
    ensures Handle(mine, s, "message/send", params, id, c, env) == Handle(yours, s, "message/send", params, id, c, env2)
  {
  }

  /** SEND, THEN GET OR CANCEL. The task id that a reply to message/send carries fetches the very same
      result, and cancels that task and no other. */
  lemma SendThenGet(
    definitions: map<string, string>, s: Store, p: Params, id: Json, c: Caller, env: AcceptEnv, id2: Json,
    env2: AcceptEnv)
    ensures
      var (s', r) := Handle(definitions, s, "message/send", Some(p), id, c, env);
      r.result.Some? ==>
        && "task_id" in r.result.value && r.result.value["task_id"].Str?
        && var named := Some(Params(None, None, Some(r.result.value["task_id"].s)));
           && Handle(definitions, s', "tasks/get", named, id2, c, env2) == (s', RpcResponse(id2, r.result, None))
           && var canceled := Handle(definitions, s', "tasks/cancel", named, id2, c, env2).0;
              CancelsOnly(s, canceled, r.result.value["task_id"].s)
  {
    assert "message/send"[0] != "tasks/get"[0] == "tasks/cancel"[0];
    assert |"tasks/get"| != |"tasks/cancel"|;
  }

  predicate CancelsOnly(before: Store, now: Store, id: string) {
    && id in now.tasks && now.tasks[id].status == Canceled && now.tasks - {id} == before.tasks - {id}
  }
}

/** The services themselves, working step by step on the store. */
module Services {
  import opened Prelude
  import opened Domain
  import opened Protocol
  import opened InMemory
  import S = ServiceSpec

  lemma Overwritten(tasks: map<string, Task>, id: string, first: Task, last: Task)
    ensures tasks[id := first][id := last] == tasks[id := last]
  {
  }

  class DelegationService {
    const repository: InMemoryA2AGatewayRepository
    const cardTtl: nat

    constructor (repository: InMemoryA2AGatewayRepository, cardTtl: nat)
      ensures this.repository == repository && this.cardTtl == cardTtl
    {
      this.repository := repository;
      this.cardTtl := cardTtl;
    }

    /** None when fetching the card raised. */
    method GetCard(url: string, env: S.DelegateEnv) returns (raw: Option<Dict>)
      requires repository.Valid()
      modifies repository
      ensures repository.Valid() && repository.tasks == old(repository.tasks)
      ensures (repository.Contents(), raw) == S.GetCard(cardTtl, old(repository.Contents()), url, env)
    {
      var cached := repository.GetCachedCard(url);
      if cached.Some? && cached.value.expiresAt > env.readAt {
        return Some(cached.value.raw);
      }
      if env.fetched.None? {
        return None;
      }
      repository.UpsertCachedCard("", url, CardEntry(env.fetched.value, env.fetchedAt, env.fetchedAt + cardTtl));
      raw := env.fetched;
    }

    method Delegate(d: DelegateArgs, env: S.DelegateEnv) returns (r: DelegateResult)
      requires repository.Valid()
      modifies repository
      ensures repository.Valid()
      ensures (repository.Contents(), r) == S.Delegate(cardTtl, old(repository.Contents()), d, env)
    {
      var raw := GetCard(d.url, env);
      if raw.None? {
        return FetchRaised;
      }
      var card := ParseAgentCard(raw.value);
      if card.None? {
        return MalformedCard;
      }
      if !card.value.Supports(d.skill) {
        return SkillNotAdvertised;
      }
      var task := NewTask(env.id, d.tenant, Outbound, d.url, d.skill, d.msg, env.createdAt);
      ghost var before := repository.Contents();
      repository.CreateTask(task);
      var t: Option<Task>;
      match env.peer {
        case PeerRaised(message) =>
          t := repository.UpdateTaskStatus(task.id, Failed, None, Some(message));
        case PeerResult(result) =>
          if !result.Obj? {
            return ReplyUnusable;
          }
          var status := ParseStatus(Field(result.fields, "status", Str(Working.Value())));
          if status.None? {
            return ReplyUnusable;
          }
          var artifacts := Field(result.fields, "artifacts", Arr([]));
          var given := if artifacts == Null then None else Some(artifacts);
          t := repository.UpdateTaskStatus(task.id, status.value, given, None);
      }
      Overwritten(before.tasks, task.id, task, t.value);
      r := Returned(t.value);
    }
  }

  class InboundGateway {
    const repository: InMemoryA2AGatewayRepository
    const definitions: map<string, string>

    constructor (repository: InMemoryA2AGatewayRepository, definitions: map<string, string>)
      ensures this.repository == repository && this.definitions == definitions
    {
      this.repository := repository;
      this.definitions := definitions;
    }

    method Accept(a: AcceptArgs, env: S.AcceptEnv) returns (r: AcceptResult)
      requires repository.Valid()
      modifies repository
      ensures repository.Valid()
      ensures (repository.Contents(), r) == S.Accept(definitions, old(repository.Contents()), a, env)
    {
      var row := repository.GetAccessPolicy(a.caller, a.tenant);
      if row.None? {
        return AccessDenied(DenialReason(row, a));
      }
      if row.value.Some? && a.skill !in row.value.value {
        return AccessDenied(DenialReason(row, a));
      }
      if a.skill !in definitions {
        return UnknownSkill(UnknownSkillMessage(a));
      }
      var task := NewTask(env.id, a.tenant, Inbound, a.peerUrl, a.skill, a.msg, env.createdAt);
      ghost var before := repository.Contents();
      repository.CreateTask(task);
      var t: Option<Task>;
      match env.workflow {
        case StartRaised(message) =>
          t := repository.UpdateTaskStatus(task.id, Failed, None, Some(message));
        case InstanceStarted(body) =>
          var started := Obj(map["workflow_instance_id" := Field(body, "id", Null),
                                 "trace_id" := Field(body, "trace_id", Null)]);
          t := repository.UpdateTaskStatus(task.id, Working, Some(Arr([started])), None);
      }
      Overwritten(before.tasks, task.id, task, t.value);
      r := Tracked(t.value);
    }
  }

  class A2ARpcGateway {
    const gateway: InboundGateway

    constructor (gateway: InboundGateway)
      ensures this.gateway == gateway
    {
      this.gateway := gateway;
    }

    method Handle(
      rpcMethod: string, params: Option<S.Params>, id: Json, c: S.Caller, env: S.AcceptEnv) returns (r: RpcResponse)
      requires gateway.repository.Valid()
      modifies gateway.repository
      ensures gateway.repository.Valid()
      ensures (gateway.repository.Contents(), r)
        == S.Handle(gateway.definitions, old(gateway.repository.Contents()), rpcMethod, params, id, c, env)
    {
      var p := params.GetOr(S.NO_PARAMS);
      if rpcMethod == "message/send" {
        var a := AcceptArgs(c.tenant, c.agentId, c.agentUrl, p.skillId.GetOr(""), p.message.GetOr(Obj(map[])));
        var accepted := gateway.Accept(a, env);
        match accepted {
          case AccessDenied(reason) => return RpcResponse(id, None, Some(RpcError(ACCESS_DENIED, reason)));
          case UnknownSkill(message) => return RpcResponse(id, None, Some(RpcError(UNKNOWN_SKILL, message)));
          case Tracked(t) => return RpcResponse(id, Some(TaskToResult(t)), None);
        }
      }
      if rpcMethod == "tasks/get" {
        var t := gateway.repository.GetTask(p.taskId.GetOr(""));
        if t.None? {
          return RpcResponse(id, None, Some(RpcError(TASK_NOT_FOUND, "task not found")));
        }
        return RpcResponse(id, Some(TaskToResult(t.value)), None);
      }
      if rpcMethod == "tasks/cancel" {
        var known := gateway.repository.GetTask(p.taskId.GetOr(""));
        if known.None? {
          return RpcResponse(id, None, Some(RpcError(TASK_NOT_FOUND, "task not found")));
        }
        var t := gateway.repository.UpdateTaskStatus(p.taskId.GetOr(""), Canceled, None, None);
        return RpcResponse(id, Some(TaskToResult(t.value)), None);
      }
      r := RpcResponse(id, None, Some(RpcError(METHOD_NOT_FOUND, "Method not found")));
    }
  }
}

/** A call that nobody interrupts does in the step machine what the service does. */
module ServicesAreSteps {
  import opened Prelude
  import opened Domain
  import opened Protocol
  import S = ServiceSpec

  /** One wake-up of a call: how long it waited, and what it finds. */
  datatype Wake = Wake(wait: nat, input: Input)

  function Woken(cfg: Config, s: State, call: nat, w: Wake): State {
    Step(cfg, Step(cfg, s, Tick(w.wait)), Resume(call, w.input))
  }

  /** The call is resumed again and again, time passing in between. */
  function Resumes(call: nat, wakes: seq<Wake>): seq<Action> {
    if wakes == [] then [] else [Tick(wakes[0].wait), Resume(call, wakes[0].input)] + Resumes(call, wakes[1..])
  }

  function WokenBy(cfg: Config, s: State, call: nat, wakes: seq<Wake>): State
    decreases |wakes|
  {
    if wakes == [] then s else WokenBy(cfg, Woken(cfg, s, call, wakes[0]), call, wakes[1..])
  }

  lemma {:induction false} ResumesWake(cfg: Config, s: State, call: nat, wakes: seq<Wake>)
    ensures Run(cfg, s, Resumes(call, wakes)) == WokenBy(cfg, s, call, wakes)
    decreases |wakes|
  {
    if wakes != [] {
      var first, acts := [Tick(wakes[0].wait), Resume(call, wakes[0].input)], Resumes(call, wakes);
      var s1 := Step(cfg, s, first[0]);
      assert acts[1..][1..] == Resumes(call, wakes[1..]);
      assert Run(cfg, s, acts) == Run(cfg, s1, acts[1..]) == Run(cfg, Step(cfg, s1, first[1]), acts[1..][1..]);
      ResumesWake(cfg, Woken(cfg, s, call, wakes[0]), call, wakes[1..]);
    }
  }

  lemma WokenThree(cfg: Config, s: State, call: nat, a: Wake, b: Wake, c: Wake)
    ensures WokenBy(cfg, s, call, [a, b, c]) == Woken(cfg, Woken(cfg, Woken(cfg, s, call, a), call, b), call, c)
  {
    assert [a, b, c][1..] == [b, c] && [b, c][1..] == [c] && [c][1..] == [];
    var s2 := Woken(cfg, Woken(cfg, s, call, a), call, b);
    assert WokenBy(cfg, s2, call, [c]) == WokenBy(cfg, Woken(cfg, s2, call, c), call, []);
  }

  lemma WokenFour(cfg: Config, s: State, call: nat, a: Wake, b: Wake, c: Wake, d: Wake)
    ensures WokenBy(cfg, s, call, [a, b, c, d])
      == Woken(cfg, Woken(cfg, Woken(cfg, Woken(cfg, s, call, a), call, b), call, c), call, d)
  {
    assert [a, b, c, d][1..] == [b, c, d];
    WokenThree(cfg, Woken(cfg, s, call, a), call, b, c, d);
  }

  ghost predicate EndedAs(s: State, call: nat, store: Store, result: CallResult) {
    call in s.calls && s.calls[call] == Over(result) && s.store == store
  }

  lemma {:induction false} OverIsOver(
    cfg: Config, s: State, call: nat, wakes: seq<Wake>, store: Store, result: CallResult)
    requires EndedAs(s, call, store, result)
    ensures EndedAs(WokenBy(cfg, s, call, wakes), call, store, result)
    decreases |wakes|
  {
    if wakes != [] {
      OverIsOver(cfg, Woken(cfg, s, call, wakes[0]), call, wakes[1..], store, result);
    }
  }

  // ---- Delegations ----

  predicate CacheHit(d: DelegateArgs, s: Store, env: S.DelegateEnv) {
    var cached := Get(s.cards, d.url);
    cached.Some? && cached.value.expiresAt > env.readAt
  }

  /** How long a delegation waits before each of its wake-ups. */
  datatype Waits = Waits(read: nat, fetch: nat, store: nat, use: nat, create: nat, send: nat, answer: nat, finish: nat)

  function CardWakes(w: Waits, env: S.DelegateEnv, hit: bool): seq<Wake> {
    [Wake(w.read, Nothing)]
    + if hit then [] else [Wake(w.fetch, Fetched(env.fetched)), Wake(w.store, Nothing), Wake(w.use, Nothing)]
  }

  function TaskWakes(w: Waits, env: S.DelegateEnv): seq<Wake> {
    [Wake(w.create, FreshId(env.id)), Wake(w.send, Nothing), Wake(w.answer, Peer(env.peer)), Wake(w.finish, Nothing)]
  }

  /** The instants a delegation reads the clock, when it begins at `now` and waits so. */
  predicate Timed(now: int, w: Waits, env: S.DelegateEnv, hit: bool) {
    && env.readAt == now + w.read
    && (!hit ==> env.fetchedAt == env.readAt + w.fetch)
    && env.createdAt == (if hit then env.readAt else env.fetchedAt + w.store + w.use) + w.create
  }

  function DelegateActions(call: nat, d: DelegateArgs, w: Waits, env: S.DelegateEnv, hit: bool): seq<Action> {
    [BeginDelegate(call, d)] + (Resumes(call, CardWakes(w, env, hit)) + Resumes(call, TaskWakes(w, env)))
  }

  /** The state after the card check of a delegation: refused with a result, or about to create. */
  ghost predicate CardChecked(s: State, call: nat, d: DelegateArgs, store: Store, raw: Option<Dict>) {
    && call in s.calls && s.store == store
    && s.calls[call] ==
       if raw.None? then Over(Delegated(FetchRaised))
       else if CardSupports(raw.value, d.skill) == Some(true) then CreateOutbound(d)
       else Over(Delegated(if CardSupports(raw.value, d.skill).None? then MalformedCard else SkillNotAdvertised))
  }

  /** From a fetched card to its check. */
  lemma StoreThenUse(cfg: Config, s: State, call: nat, d: DelegateArgs, entry: CardEntry, w: Waits)
    requires call in s.calls && s.calls[call] == StoreCard(d, entry)
    ensures
      var s' := Woken(cfg, Woken(cfg, s, call, Wake(w.store, Nothing)), call, Wake(w.use, Nothing));
      && CardChecked(s', call, d, s.store.(cards := s.store.cards[d.url := entry]), Some(entry.raw))
      && s'.now == s.now + w.store + w.use
  {
  }

  /** From the moment the entry was missing or had expired. */
  lemma FetchToCheck(cfg: Config, s: State, call: nat, d: DelegateArgs, w: Waits, env: S.DelegateEnv)
    requires call in s.calls && s.calls[call] == FetchCard(d) && env.fetchedAt == s.now + w.fetch
    ensures
      var s' := WokenBy(cfg, s, call,
        [Wake(w.fetch, Fetched(env.fetched)), Wake(w.store, Nothing), Wake(w.use, Nothing)]);
      var entry := CardEntry(env.fetched.GetOr(map[]), env.fetchedAt, env.fetchedAt + cfg.cardTtl);
      var store := if env.fetched.None? then s.store else s.store.(cards := s.store.cards[d.url := entry]);
      CardChecked(s', call, d, store, env.fetched) && s'.now == s.now + w.fetch + w.store + w.use
  {
    WokenThree(cfg, s, call, Wake(w.fetch, Fetched(env.fetched)), Wake(w.store, Nothing), Wake(w.use, Nothing));
    if env.fetched.Some? {
      var entry := CardEntry(env.fetched.value, env.fetchedAt, env.fetchedAt + cfg.cardTtl);
      StoreThenUse(cfg, Woken(cfg, s, call, Wake(w.fetch, Fetched(env.fetched))), call, d, entry, w);
    }
  }

  /** From the beginning to the card check. */
  lemma CardPart(cfg: Config, s: State, call: nat, d: DelegateArgs, w: Waits, env: S.DelegateEnv)
    requires call in s.calls && s.calls[call] == ReadCard(d) && Timed(s.now, w, env, CacheHit(d, s.store, env))
    ensures
      var s' := WokenBy(cfg, s, call, CardWakes(w, env, CacheHit(d, s.store, env)));
      var (store, raw) := S.GetCard(cfg.cardTtl, s.store, d.url, env);
      CardChecked(s', call, d, store, raw) && s'.now + w.create == env.createdAt
  {
    var hit := CacheHit(d, s.store, env);
    var wakes, s1 := CardWakes(w, env, hit), Woken(cfg, s, call, Wake(w.read, Nothing));
    assert WokenBy(cfg, s, call, wakes) == WokenBy(cfg, s1, call, wakes[1..]);
    if !hit {
      assert wakes[1..] == [Wake(w.fetch, Fetched(env.fetched)), Wake(w.store, Nothing), Wake(w.use, Nothing)];
      FetchToCheck(cfg, s1, call, d, w, env);
    }
  }

  /** From the moment the message was sent. */
  lemma AnswerThenFinish(cfg: Config, s: State, call: nat, d: DelegateArgs, w: Waits, env: S.DelegateEnv)
    requires call in s.calls && s.calls[call] == AwaitPeer(d, env.id)
    requires env.id in s.store.tasks && s.store.tasks[env.id].direction == Outbound
    ensures
      var (t, o) := (s.store.tasks[env.id], PeerOutcome(env.peer));
      var t' := if o.None? then t else Apply(t, o.value);
      var s' := Woken(cfg, Woken(cfg, s, call, Wake(w.answer, Peer(env.peer))), call, Wake(w.finish, Nothing));
      EndedAs(s', call, s.store.(tasks := s.store.tasks[env.id := t']),
              Delegated(if o.None? then ReplyUnusable else Returned(t')))
  {
  }

  /** From the moment the card is known to advertise the skill. */
  lemma TaskPart(cfg: Config, s: State, call: nat, d: DelegateArgs, w: Waits, env: S.DelegateEnv)
    requires call in s.calls && s.calls[call] == CreateOutbound(d)
    requires env.id !in s.store.tasks && env.createdAt == s.now + w.create
    ensures
      var t := NewTask(env.id, d.tenant, Outbound, d.url, d.skill, d.msg, env.createdAt);
      var o := PeerOutcome(env.peer);
      var t' := if o.None? then t else Apply(t, o.value);
      EndedAs(WokenBy(cfg, s, call, TaskWakes(w, env)), call, s.store.(tasks := s.store.tasks[t.id := t']),
              Delegated(if o.None? then ReplyUnusable else Returned(t')))
  {
    WokenFour(cfg, s, call,
              Wake(w.create, FreshId(env.id)), Wake(w.send, Nothing),
              Wake(w.answer, Peer(env.peer)), Wake(w.finish, Nothing));
    var s2 := Woken(cfg, Woken(cfg, s, call, Wake(w.create, FreshId(env.id))), call, Wake(w.send, Nothing));
    AnswerThenFinish(cfg, s2, call, d, w, env);
  }

  lemma DelegateRun(cfg: Config, s: State, call: nat, d: DelegateArgs, w: Waits, env: S.DelegateEnv, hit: bool)
    ensures
      Run(cfg, s, DelegateActions(call, d, w, env, hit))
      == WokenBy(cfg, WokenBy(cfg, Step(cfg, s, BeginDelegate(call, d)), call, CardWakes(w, env, hit)), call,
        TaskWakes(w, env))
  {
    var acts, s0 := DelegateActions(call, d, w, env, hit), Step(cfg, s, BeginDelegate(call, d));
    assert acts[1..] == Resumes(call, CardWakes(w, env, hit)) + Resumes(call, TaskWakes(w, env));
    RunConcat(cfg, s0, Resumes(call, CardWakes(w, env, hit)), Resumes(call, TaskWakes(w, env)));
    ResumesWake(cfg, s0, call, CardWakes(w, env, hit));
    ResumesWake(cfg, WokenBy(cfg, s0, call, CardWakes(w, env, hit)), call, TaskWakes(w, env));
  }

  /** DELEGATE IS ITS STEPS. A delegation that no other call interrupts, however long it waits at
      each of its awaits, leaves the store and ends with the result that the service computes,
      from every state of the machine. */
  lemma DelegateIsItsSteps(cfg: Config, s: State, call: nat, d: DelegateArgs, w: Waits, env: S.DelegateEnv)
    requires call !in s.calls && env.id !in s.store.tasks && Timed(s.now, w, env, CacheHit(d, s.store, env))
    ensures
      var s' := Run(cfg, s, DelegateActions(call, d, w, env, CacheHit(d, s.store, env)));
      var (store, result) := S.Delegate(cfg.cardTtl, s.store, d, env);
      EndedAs(s', call, store, Delegated(result))
  {
    var hit, s0 := CacheHit(d, s.store, env), Step(cfg, s, BeginDelegate(call, d));
    DelegateRun(cfg, s, call, d, w, env, hit);
    CardPart(cfg, s0, call, d, w, env);
    var s1 := WokenBy(cfg, s0, call, CardWakes(w, env, hit));
    if s1.calls[call] == CreateOutbound(d) {
      TaskPart(cfg, s1, call, d, w, env);
    } else {
      OverIsOver(cfg, s1, call, TaskWakes(w, env), s1.store, s1.calls[call].result);
    }
  }

  // ---- Inbound requests ----

  /** How long an inbound request waits before each of its wake-ups. */
  datatype AcceptWaits = AcceptWaits(authorize: nat, create: nat, start: nat, answer: nat, finish: nat)

  function TrackWakes(w: AcceptWaits, env: S.AcceptEnv): seq<Wake> {
    [Wake(w.create, FreshId(env.id)), Wake(w.start, Nothing),
     Wake(w.answer, Workflow(env.workflow)), Wake(w.finish, Nothing)]
  }

  function AcceptActions(call: nat, a: AcceptArgs, w: AcceptWaits, env: S.AcceptEnv): seq<Action> {
    [BeginAccept(call, a)] + Resumes(call, [Wake(w.authorize, Nothing)] + TrackWakes(w, env))
  }

  /** From the moment a request is accepted. */
  lemma TrackPart(cfg: Config, s: State, call: nat, a: AcceptArgs, definition: string, w: AcceptWaits, env: S.AcceptEnv)
    requires call in s.calls && s.calls[call] == CreateInbound(a, definition)
    requires env.id !in s.store.tasks && env.createdAt == s.now + w.create
    ensures
      var t := NewTask(env.id, a.tenant, Inbound, a.peerUrl, a.skill, a.msg, env.createdAt);
      var t' := Apply(t, WorkflowOutcome(env.workflow));
      EndedAs(WokenBy(cfg, s, call, TrackWakes(w, env)), call, s.store.(tasks := s.store.tasks[t.id := t']),
        Handled(Tracked(t')))
  {
    WokenFour(cfg, s, call,
              Wake(w.create, FreshId(env.id)), Wake(w.start, Nothing),
              Wake(w.answer, Workflow(env.workflow)), Wake(w.finish, Nothing));
  }

  /** ACCEPT IS ITS STEPS, likewise. */
  lemma AcceptIsItsSteps(cfg: Config, s: State, call: nat, a: AcceptArgs, w: AcceptWaits, env: S.AcceptEnv)
    requires call !in s.calls && env.id !in s.store.tasks && env.createdAt == s.now + w.authorize + w.create
    ensures
      var s' := Run(cfg, s, AcceptActions(call, a, w, env));
      var (store, result) := S.Accept(cfg.definitions, s.store, a, env);
      EndedAs(s', call, store, Handled(result))
  {
    var wakes, s0 := [Wake(w.authorize, Nothing)] + TrackWakes(w, env), Step(cfg, s, BeginAccept(call, a));
    assert AcceptActions(call, a, w, env)[1..] == Resumes(call, wakes);
    ResumesWake(cfg, s0, call, wakes);
    assert wakes[1..] == TrackWakes(w, env);
    var s1 := Woken(cfg, s0, call, wakes[0]);
    match Decide(cfg.definitions, Get(s.store.policies, (a.caller, a.tenant)), a.skill)
    case Accepted(definition) => TrackPart(cfg, s1, call, a, definition, w, env);
    case _ => OverIsOver(cfg, s1, call, TrackWakes(w, env), s1.store, s1.calls[call].result);
  }

  /** CANCEL IS ITS STEPS: `tasks/cancel` reads, then writes without looking again. */
  lemma CancelIsItsSteps(
    cfg: Config, s: State, call: nat, id: string, read: nat, write: nat, rpcId: Json, c: S.Caller, env: S.AcceptEnv)
    requires call !in s.calls
    ensures
      var wakes := [Wake(read, Nothing), Wake(write, Nothing)];
      var s' := Run(cfg, s, [BeginCancel(call, id)] + Resumes(call, wakes));
      var (store, reply) := S.Handle(cfg.definitions, s.store, "tasks/cancel", Some(S.Params(None, None, Some(id))),
        rpcId, c, env);
      && EndedAs(s', call, store, CancelEnded(Get(store.tasks, id)))
      && (reply.result.Some? <==> id in store.tasks)
      && (reply.result.Some? ==> reply.result == Some(TaskToResult(store.tasks[id])))
  {
    var wakes, s0 := [Wake(read, Nothing), Wake(write, Nothing)], Step(cfg, s, BeginCancel(call, id));
    assert ([BeginCancel(call, id)] + Resumes(call, wakes))[1..] == Resumes(call, wakes);
    ResumesWake(cfg, s0, call, wakes);
    assert wakes[1..] == [Wake(write, Nothing)] && wakes[1..][1..] == [];
    var s1 := Woken(cfg, s0, call, wakes[0]);
    assert WokenBy(cfg, s1, call, wakes[1..]) == WokenBy(cfg, Woken(cfg, s1, call, wakes[1]), call, []);
    CancelReply(cfg.definitions, s.store, id, rpcId, c, env);
  }

  lemma CancelReply(definitions: map<string, string>, s: Store, id: string, rpcId: Json, c: S.Caller, env: S.AcceptEnv)
    ensures
      var (store, reply) := S.Handle(definitions, s, "tasks/cancel", Some(S.Params(None, None, Some(id))), rpcId, c,
        env);
      && store == (if id in s.tasks then s.(tasks := s.tasks[id := Apply(s.tasks[id], CANCEL_OUTCOME)]) else s)
      && (reply.result.Some? <==> id in s.tasks)
      && (reply.result.Some? ==> reply.result == Some(TaskToResult(store.tasks[id])))
  {
    assert |"tasks/cancel"| != |"tasks/get"| && "tasks/cancel"[0] != "message/send"[0];
  }
}
