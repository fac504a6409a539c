/**
 The A2A task protocol as a machine of interleaved calls. Every `await` of the services is a
 step boundary, so delegations, inbound sends, cancellations and policy updates of any number
 of callers interleave freely. Peers, Workflow Engine, ids and the clock are inputs. A log
 records what happened; the store never depends on it.
 */
module Protocol {
  import opened Prelude
  import opened Domain

  datatype DelegateArgs = DelegateArgs(tenant: string, url: string, skill: string, msg: Json)

  datatype AcceptArgs = AcceptArgs(tenant: string, caller: string, peerUrl: string, skill: string, msg: Json)

  /** What `send_message` comes back with: an exception, or whatever the peer's `result` is. */
  datatype PeerReply = PeerRaised(message: string) | PeerResult(result: Json)

  /** What `start_instance` comes back with. */
  datatype WorkflowReply = StartRaised(message: string) | InstanceStarted(body: Dict)

  /** The arguments of the final `update_task_status` of a call. */
  datatype Outcome = Outcome(status: Status, artifacts: Option<Json>, error: Option<string>)

  /** How a delegation, an inbound request and a cancellation end: what they return or raise. */
  datatype DelegateResult = Returned(task: Task) | SkillNotAdvertised | FetchRaised | MalformedCard | ReplyUnusable

  datatype AcceptResult = Tracked(task: Task) | AccessDenied(reason: string) | UnknownSkill(message: string)

  datatype CallResult =
    | Delegated(delegated: DelegateResult)
    | Handled(handled: AcceptResult)
    | CancelEnded(task: Option<Task>)

  /** Where a call is waiting. */
  datatype Phase =
    | ReadCard(d: DelegateArgs)
    | FetchCard(d: DelegateArgs)
    | StoreCard(d: DelegateArgs, entry: CardEntry)
    | UseCard(d: DelegateArgs, entry: CardEntry)
    | CreateOutbound(d: DelegateArgs)
    | SendToPeer(d: DelegateArgs, id: string)
    | AwaitPeer(d: DelegateArgs, id: string)
    | Authorize(a: AcceptArgs)
    | CreateInbound(a: AcceptArgs, definition: string)
    | StartWorkflow(a: AcceptArgs, definition: string, id: string)
    | AwaitWorkflow(a: AcceptArgs, id: string)
    | Finish(id: string, outcome: Outcome)
    | ReadForCancel(id: string)
    | WriteCancel(id: string)
    | Over(result: CallResult)

  datatype Verdict = Accepted(definition: string) | Denied | Unknown

  datatype Event =
    | CardFetched(call: nat, url: string, raw: Dict, at: int)
    | CardStored(call: nat, url: string, entry: CardEntry)
    | CardChecked(call: nat, d: DelegateArgs, entry: CardEntry, at: int, cached: bool, ok: bool)
    | Created(call: nat, task: Task)
    | Sent(call: nat, d: DelegateArgs, id: string)
    | PolicySet(caller: string, tenant: string, allowed: AllowList)
    | PolicyRead(call: nat, a: AcceptArgs, row: Option<AllowList>, verdict: Verdict)
    | Dispatched(call: nat, a: AcceptArgs, definition: string, id: string)
    | PeerAnswered(call: nat, id: string, reply: PeerReply)
    | WorkflowAnswered(call: nat, id: string, started: WorkflowReply)
    | Finalised(call: nat, id: string, outcome: Outcome)
    | CanceledBy(call: nat, id: string)

  datatype Config = Config(definitions: map<string, string>, cardTtl: nat)

  datatype State = State(now: int, store: Store, calls: map<nat, Phase>, log: seq<Event>)

  const START := State(0, EMPTY_STORE, map[], [])

  /** What a resumed call finds when it wakes up. */
  datatype Input =
    | Nothing
    | Fetched(raw: Option<Dict>)
    | FreshId(id: string)
    | Peer(peer: PeerReply)
    | Workflow(workflow: WorkflowReply)

  datatype Action =
    | Tick(dt: nat)
    | BeginDelegate(call: nat, d: DelegateArgs)
    | BeginAccept(call: nat, a: AcceptArgs)
    | BeginCancel(call: nat, id: string)
    | SetPolicy(caller: string, tenant: string, allowed: AllowList)
    | Resume(call: nat, input: Input)

  // ---- The decisions of the services ----

  /** `authorize` followed by the skill-map lookup. */
  function Decide(definitions: map<string, string>, row: Option<AllowList>, skill: string): Verdict {
    if !Permits(row, skill) then Denied
    else if skill in definitions then Accepted(definitions[skill]) else Unknown
  }

  function DenialReason(row: Option<AllowList>, a: AcceptArgs): string {
    if row.None? then "caller '" + a.caller + "' has no access policy for tenant '" + a.tenant + "'"
    else "caller '" + a.caller + "' is not authorized to invoke skill '" + a.skill + "'"
  }

  function UnknownSkillMessage(a: AcceptArgs): string {
    "skill '" + a.skill + "' is not published by this agent"
  }

  /** Whether the card in hand advertises the skill; None when parsing it raises. */
  function CardSupports(raw: Dict, skill: string): Option<bool> {
    var card := ParseAgentCard(raw);
    if card.Some? then Some(card.value.Supports(skill)) else None
  }

  /** What becomes of a delegated task; None when the result is no object or its status no
      TaskStatus, which raises and leaves the task alone. */
  function PeerOutcome(r: PeerReply): Option<Outcome> {
    match r
    case PeerRaised(message) => Some(Outcome(Failed, None, Some(message)))
    case PeerResult(Obj(result)) =>
      var status := ParseStatus(Field(result, "status", Str(Working.Value())));
      var artifacts := Field(result, "artifacts", Arr([]));
      if status.None? then None
      else Some(Outcome(status.value, if artifacts == Null then None else Some(artifacts), None))
    case PeerResult(_) => None
  }

  function WorkflowOutcome(r: WorkflowReply): Outcome {
    match r
    case StartRaised(message) => Outcome(Failed, None, Some(message))
    case InstanceStarted(body) =>
      Outcome(Working,
              Some(Arr([Obj(map["workflow_instance_id" := Field(body, "id", Null),
                "trace_id" := Field(body, "trace_id", Null)])])),
              None)
  }

  function Apply(t: Task, o: Outcome): Task {
    Updated(t, o.status, o.artifacts, o.error)
  }

  // ---- The steps ----

  function Moved(s: State, call: nat, p: Phase): State {
    s.(calls := s.calls[call := p])
  }

  function Emit(s: State, call: nat, p: Phase, store: Store, e: Event): State {
    State(s.now, store, s.calls[call := p], s.log + [e])
  }

  function CheckCard(s: State, call: nat, d: DelegateArgs, entry: CardEntry, cached: bool): State {
    var supports := CardSupports(entry.raw, d.skill);
    var ok := supports == Some(true);
    var refusal := if supports.None? then MalformedCard else SkillNotAdvertised;
    Emit(s, call, if ok then CreateOutbound(d) else Over(Delegated(refusal)), s.store,
         CardChecked(call, d, entry, s.now, cached, ok))
  }

  function Create(s: State, call: nat, t: Task, next: Phase): State {
    Emit(s, call, next, s.store.(tasks := s.store.tasks[t.id := t]), Created(call, t))
  }

  function Update(s: State, call: nat, id: string, o: Outcome, e: Event, result: CallResult): State
    requires id in s.store.tasks
  {
    Emit(s, call, Over(result), s.store.(tasks := s.store.tasks[id := Apply(s.store.tasks[id], o)]), e)
  }

  /** What the creating call returns once its task is finalised. */
  function Concluded(t: Task): CallResult {
    if t.direction == Outbound then Delegated(Returned(t)) else Handled(Tracked(t))
  }

  const CANCEL_OUTCOME := Outcome(Canceled, None, None)

  function AfterVerdict(a: AcceptArgs, row: Option<AllowList>, v: Verdict): Phase {
    match v
    case Accepted(definition) => CreateInbound(a, definition)
    case Denied => Over(Handled(AccessDenied(DenialReason(row, a))))
    case Unknown => Over(Handled(UnknownSkill(UnknownSkillMessage(a))))
  }

  function ResumeCall(cfg: Config, s: State, call: nat, p: Phase, input: Input): State {
    match p
    case ReadCard(d) =>
      var e := Get(s.store.cards, d.url);
      if e.Some? && e.value.expiresAt > s.now then CheckCard(s, call, d, e.value, true)
      else Moved(s, call, FetchCard(d))
    case FetchCard(d) =>
      if !input.Fetched? then s
      else if input.raw.None? then Moved(s, call, Over(Delegated(FetchRaised)))
      else
        Emit(s, call, StoreCard(d, CardEntry(input.raw.value, s.now, s.now + cfg.cardTtl)), s.store,
             CardFetched(call, d.url, input.raw.value, s.now))
    case StoreCard(d, entry) =>
      Emit(s, call, UseCard(d, entry), s.store.(cards := s.store.cards[d.url := entry]), CardStored(call, d.url, entry))
    case UseCard(d, entry) => CheckCard(s, call, d, entry, false)
    case CreateOutbound(d) =>
      if !input.FreshId? || input.id in s.store.tasks then s
      else Create(s, call, NewTask(input.id, d.tenant, Outbound, d.url, d.skill, d.msg, s.now), SendToPeer(d, input.id))
    case SendToPeer(d, id) => Emit(s, call, AwaitPeer(d, id), s.store, Sent(call, d, id))
    case AwaitPeer(d, id) =>
      if !input.Peer? then s
      else
        var o := PeerOutcome(input.peer);
        Emit(s, call, if o.Some? then Finish(id, o.value) else Over(Delegated(ReplyUnusable)), s.store,
             PeerAnswered(call, id, input.peer))
    case Authorize(a) =>
      var row := Get(s.store.policies, (a.caller, a.tenant));
      var v := Decide(cfg.definitions, row, a.skill);
      Emit(s, call, AfterVerdict(a, row, v), s.store, PolicyRead(call, a, row, v))
    case CreateInbound(a, definition) =>
      if !input.FreshId? || input.id in s.store.tasks then s
      else
        Create(s, call, NewTask(input.id, a.tenant, Inbound, a.peerUrl, a.skill, a.msg, s.now),
               StartWorkflow(a, definition, input.id))
    case StartWorkflow(a, definition, id) =>
      Emit(s, call, AwaitWorkflow(a, id), s.store, Dispatched(call, a, definition, id))
    case AwaitWorkflow(a, id) =>
      if !input.Workflow? then s
      else
        Emit(s, call, Finish(id, WorkflowOutcome(input.workflow)), s.store, WorkflowAnswered(call, id, input.workflow))
    case Finish(id, o) =>
      if id in s.store.tasks then
        Update(s, call, id, o, Finalised(call, id, o), Concluded(Apply(s.store.tasks[id], o)))
      else s
    case ReadForCancel(id) =>
      Moved(s, call, if id in s.store.tasks then WriteCancel(id) else Over(CancelEnded(None)))
    case WriteCancel(id) =>
      if id in s.store.tasks then
        Update(s, call, id, CANCEL_OUTCOME, CanceledBy(call, id),
               CancelEnded(Some(Apply(s.store.tasks[id], CANCEL_OUTCOME))))
      else s
    case Over(_) => s
  }

  /** One atomic step; an action the state does not enable changes nothing. */
  function Step(cfg: Config, s: State, act: Action): State {
    match act
    case Tick(dt) => s.(now := s.now + dt)
    case BeginDelegate(call, d) => if call in s.calls then s else Moved(s, call, ReadCard(d))
    case BeginAccept(call, a) => if call in s.calls then s else Moved(s, call, Authorize(a))
    case BeginCancel(call, id) => if call in s.calls then s else Moved(s, call, ReadForCancel(id))
    case SetPolicy(caller, tenant, allowed) =>
      s.(store := s.store.(policies := s.store.policies[(caller, tenant) := allowed]),
         log := s.log + [PolicySet(caller, tenant, allowed)])
    case Resume(call, input) => if call in s.calls then ResumeCall(cfg, s, call, s.calls[call], input) else s
  }

  function Run(cfg: Config, s: State, acts: seq<Action>): State
    decreases |acts|
  {
    if acts == [] then s else Run(cfg, Step(cfg, s, acts[0]), acts[1..])
  }

  lemma {:induction false} RunConcat(cfg: Config, s: State, a: seq<Action>, b: seq<Action>)
    ensures Run(cfg, s, a + b) == Run(cfg, Run(cfg, s, a), b)
    decreases |a|
  {
    if a == [] {
      assert a + b == b;
    } else {
      assert (a + b)[1..] == a[1..] + b;
      RunConcat(cfg, Step(cfg, s, a[0]), a[1..], b);
    }
  }
}

/** What the log of every run looks like, and that the store is exactly what the log says. */
module ProtocolInvariant {
  import opened Prelude
  import opened Domain
  import opened Protocol

  predicate By(e: Event, call: nat) {
    match e
    case PolicySet(_, _, _) => false
    case CardFetched(c, _, _, _) => c == call
    case CardStored(c, _, _) => c == call
    case CardChecked(c, _, _, _, _, _) => c == call
    case Created(c, _) => c == call
    case Sent(c, _, _) => c == call
    case PolicyRead(c, _, _, _) => c == call
    case Dispatched(c, _, _, _) => c == call
    case PeerAnswered(c, _, _) => c == call
    case WorkflowAnswered(c, _, _) => c == call
    case Finalised(c, _, _) => c == call
    case CanceledBy(c, _) => c == call
  }

  datatype Kind = KFetch | KStore | KCheck | KCreate | KSend | KPolicy | KRead | KDispatch | KAnswer | KFinal | KCancel

  function KindOf(e: Event): Kind {
    match e
    case CardFetched(_, _, _, _) => KFetch
    case CardStored(_, _, _) => KStore
    case CardChecked(_, _, _, _, _, _) => KCheck
    case Created(_, _) => KCreate
    case Sent(_, _, _) => KSend
    case PolicySet(_, _, _) => KPolicy
    case PolicyRead(_, _, _, _) => KRead
    case Dispatched(_, _, _, _) => KDispatch
    case PeerAnswered(_, _, _) => KAnswer
    case WorkflowAnswered(_, _, _) => KAnswer
    case Finalised(_, _, _) => KFinal
    case CanceledBy(_, _) => KCancel
  }

  // ---- The store as a function of the log ----

  /** What one event does to the store. */
  function Effect(s: Store, e: Event): Store {
    match e
    case CardStored(_, url, entry) => s.(cards := s.cards[url := entry])
    case PolicySet(caller, tenant, allowed) => s.(policies := s.policies[(caller, tenant) := allowed])
    case Created(_, t) => s.(tasks := s.tasks[t.id := t])
    case Finalised(_, id, o) => if id in s.tasks then s.(tasks := s.tasks[id := Apply(s.tasks[id], o)]) else s
    case CanceledBy(_, id) =>
      if id in s.tasks then s.(tasks := s.tasks[id := Apply(s.tasks[id], CANCEL_OUTCOME)]) else s
    case _ => s
  }

  function Replay(log: seq<Event>): Store
    decreases |log|
  {
    if log == [] then EMPTY_STORE else Effect(Replay(log[..|log| - 1]), log[|log| - 1])
  }

  function TaskAt(log: seq<Event>, id: string): Option<Task> { Get(Replay(log).tasks, id) }

  /** The allow-list last set for (caller, tenant). */
  function PolicyAt(log: seq<Event>, caller: string, tenant: string): Option<AllowList> {
    Get(Replay(log).policies, (caller, tenant))
  }

  function CardAt(log: seq<Event>, url: string): Option<CardEntry> { Get(Replay(log).cards, url) }

  lemma ReplayAppend(log: seq<Event>, e: Event)
    ensures Replay(log + [e]) == Effect(Replay(log), e)
  {
    assert (log + [e])[..|log|] == log;
  }

  // ---- What justifies each event ----

  /** No event of this kind by this call. */
  ghost predicate NoneOf(log: seq<Event>, call: nat, k: Kind) {
    forall i :: 0 <= i < |log| && By(log[i], call) ==> KindOf(log[i]) != k
  }

  /** The call checked a card of the agent at `d.url` and found the skill advertised. */
  ghost predicate CheckedOk(log: seq<Event>, call: nat, d: DelegateArgs) {
    exists i :: 0 <= i < |log| && log[i].CardChecked? && log[i].call == call && log[i].d == d && log[i].ok
  }

  /** The call fetched this entry's body from `url` at the instant the entry is stamped with. */
  ghost predicate FetchedBy(log: seq<Event>, call: nat, url: string, entry: CardEntry) {
    exists i :: 0 <= i < |log| && log[i] == CardFetched(call, url, entry.raw, entry.fetchedAt)
  }

  ghost predicate Stored(log: seq<Event>, call: nat, url: string, entry: CardEntry) {
    exists i :: 0 <= i < |log| && log[i] == CardStored(call, url, entry)
  }

  /** The call read a policy row that, with the skill map, accepts its request. */
  ghost predicate ReadAccepts(log: seq<Event>, call: nat, a: AcceptArgs, definition: string) {
    exists i :: 0 <= i < |log| && log[i].PolicyRead? && log[i].call == call && log[i].a == a
      && log[i].verdict == Accepted(definition)
  }

  /** The same, from the task's side: the call read a row that accepts what became the task. */
  ghost predicate TaskAccepted(log: seq<Event>, call: nat, t: Task) {
    exists i :: 0 <= i < |log| && log[i].PolicyRead? && log[i].call == call && log[i].verdict.Accepted?
      && log[i].a == AcceptArgs(t.tenant, log[i].a.caller, t.peerUrl, t.skill, t.input)
  }

  ghost predicate CreatedFor(log: seq<Event>, call: nat, id: string) {
    exists i :: 0 <= i < |log| && log[i].Created? && log[i].call == call && log[i].task.id == id
  }

  ghost predicate CreatedAs(log: seq<Event>, call: nat, id: string, direction: Direction) {
    exists i :: 0 <= i < |log| && log[i].Created? && log[i].call == call && log[i].task.id == id
      && log[i].task.direction == direction
  }

  ghost predicate CreatedOut(log: seq<Event>, call: nat, d: DelegateArgs, id: string) {
    exists i :: 0 <= i < |log| && log[i].Created? && log[i].call == call
      && log[i].task == NewTask(id, d.tenant, Outbound, d.url, d.skill, d.msg, log[i].task.createdAt)
  }

  ghost predicate CreatedIn(log: seq<Event>, call: nat, a: AcceptArgs, id: string) {
    exists i :: 0 <= i < |log| && log[i].Created? && log[i].call == call
      && log[i].task == NewTask(id, a.tenant, Inbound, a.peerUrl, a.skill, a.msg, log[i].task.createdAt)
  }

  /** The event is an answer of the peer or of Workflow Engine to `call` that means outcome `o`. */
  predicate AnswerMeans(e: Event, call: nat, id: string, o: Outcome) {
    || (e.PeerAnswered? && e.call == call && e.id == id && PeerOutcome(e.reply) == Some(o))
    || (e.WorkflowAnswered? && e.call == call && e.id == id && WorkflowOutcome(e.started) == o)
  }

  /** The call received an answer that means `o`. */
  ghost predicate AnsweredWith(log: seq<Event>, call: nat, id: string, o: Outcome) {
    exists i :: 0 <= i < |log| && AnswerMeans(log[i], call, id, o)
  }

  ghost predicate IsNewTask(t: Task) {
    t == NewTask(t.id, t.tenant, t.direction, t.peerUrl, t.skill, t.input, t.createdAt)
  }

  /** Event `e`, coming right after the events `log`, has its reasons in them. */
  ghost predicate Justified(cfg: Config, log: seq<Event>, e: Event) {
    match e
    case PolicySet(_, _, _) => true
    case CardFetched(_, _, _, _) => true
    case CardStored(c, url, entry) =>
      entry.expiresAt == entry.fetchedAt + cfg.cardTtl && FetchedBy(log, c, url, entry)
    case CardChecked(c, d, entry, at, cached, ok) =>
      && NoneOf(log, c, KCheck) && entry.fetchedAt <= at
      && ok == (CardSupports(entry.raw, d.skill) == Some(true))
      && (if cached then CardAt(log, d.url) == Some(entry) && at < entry.expiresAt else Stored(log, c, d.url, entry))
    case Created(c, t) =>
      && NoneOf(log, c, KCreate) && TaskAt(log, t.id) == None && IsNewTask(t)
      && (if t.direction == Outbound then CheckedOk(log, c, DelegateArgs(t.tenant, t.peerUrl, t.skill, t.input))
          else TaskAccepted(log, c, t))
    case Sent(c, d, id) =>
      NoneOf(log, c, KSend) && CheckedOk(log, c, d) && CreatedOut(log, c, d, id)
    case PolicyRead(c, a, row, v) =>
      NoneOf(log, c, KRead) && row == PolicyAt(log, a.caller, a.tenant) && v == Decide(cfg.definitions, row, a.skill)
    case Dispatched(c, a, definition, id) =>
      NoneOf(log, c, KDispatch) && ReadAccepts(log, c, a, definition) && CreatedIn(log, c, a, id)
    case PeerAnswered(c, id, _) => NoneOf(log, c, KAnswer) && CreatedAs(log, c, id, Outbound)
    case WorkflowAnswered(c, id, _) => NoneOf(log, c, KAnswer) && CreatedAs(log, c, id, Inbound)
    case Finalised(c, id, o) => NoneOf(log, c, KFinal) && CreatedFor(log, c, id) && AnsweredWith(log, c, id, o)
    case CanceledBy(c, id) => TaskAt(log, id).Some?
  }

  ghost predicate AllJustified(cfg: Config, log: seq<Event>) {
    forall i {:trigger Justified(cfg, log[..i], log[i])} :: 0 <= i < |log| ==> Justified(cfg, log[..i], log[i])
  }

  // ---- The invariant ----

  ghost predicate Quiet(log: seq<Event>, call: nat) {
    forall i :: 0 <= i < |log| ==> !By(log[i], call)
  }

  /** What a call waiting at `p` has done so far. */
  ghost predicate PhaseOk(cfg: Config, log: seq<Event>, call: nat, p: Phase) {
    match p
    case ReadCard(_) => Quiet(log, call)
    case FetchCard(_) => Quiet(log, call)
    case StoreCard(d, entry) =>
      && NoneOf(log, call, KCheck) && Unstarted(log, call)
      && FetchedBy(log, call, d.url, entry) && entry.expiresAt == entry.fetchedAt + cfg.cardTtl
    case UseCard(d, entry) => NoneOf(log, call, KCheck) && Unstarted(log, call) && Stored(log, call, d.url, entry)
    case CreateOutbound(d) => Unstarted(log, call) && CheckedOk(log, call, d)
    case SendToPeer(d, id) =>
      NoneOf(log, call, KSend) && Unanswered(log, call) && CheckedOk(log, call, d) && CreatedOut(log, call, d, id)
    case AwaitPeer(d, id) => Unanswered(log, call) && CreatedOut(log, call, d, id)
    case Authorize(_) => Quiet(log, call)
    case CreateInbound(a, definition) => Unstarted(log, call) && ReadAccepts(log, call, a, definition)
    case StartWorkflow(a, definition, id) =>
      && NoneOf(log, call, KDispatch) && Unanswered(log, call)
      && ReadAccepts(log, call, a, definition) && CreatedIn(log, call, a, id)
    case AwaitWorkflow(a, id) => Unanswered(log, call) && CreatedIn(log, call, a, id)
    case Finish(id, o) => NoneOf(log, call, KFinal) && CreatedFor(log, call, id) && AnsweredWith(log, call, id, o)
    case ReadForCancel(_) => Quiet(log, call)
    case WriteCancel(id) => TaskAt(log, id).Some?
    case Over(_) => true
  }

  /** Neither peer nor Workflow Engine has answered, and nothing is finalised yet. */
  ghost predicate Unanswered(log: seq<Event>, call: nat) {
    NoneOf(log, call, KAnswer) && NoneOf(log, call, KFinal)
  }

  /** Nothing created, sent, dispatched or answered yet. */
  ghost predicate Unstarted(log: seq<Event>, call: nat) {
    NoneOf(log, call, KCreate) && NoneOf(log, call, KSend) && NoneOf(log, call, KDispatch) && Unanswered(log, call)
  }

  ghost predicate CallsOk(cfg: Config, s: State) {
    && (forall c :: c in s.calls ==> PhaseOk(cfg, s.log, c, s.calls[c]))
    && (forall c :: c !in s.calls ==> Quiet(s.log, c))
  }

  /** No card was fetched in the future. */
  ghost predicate PastFetches(log: seq<Event>, now: int) {
    forall i :: 0 <= i < |log| && log[i].CardFetched? ==> log[i].at <= now
  }

  ghost predicate Inv(cfg: Config, s: State) {
    s.store == Replay(s.log) && AllJustified(cfg, s.log) && PastFetches(s.log, s.now) && CallsOk(cfg, s)
  }

  // ---- Preservation ----

  lemma TaskStays(log: seq<Event>, e: Event, id: string)
    requires TaskAt(log, id).Some?
    ensures TaskAt(log + [e], id).Some?
  {
    ReplayAppend(log, e);
  }

  lemma ReasonsStay(log: seq<Event>, e: Event, call: nat)
    ensures forall d :: CheckedOk(log, call, d) ==> CheckedOk(log + [e], call, d)
    ensures forall url, entry :: FetchedBy(log, call, url, entry) ==> FetchedBy(log + [e], call, url, entry)
    ensures forall url, entry :: Stored(log, call, url, entry) ==> Stored(log + [e], call, url, entry)
    ensures forall id, o :: AnsweredWith(log, call, id, o) ==> AnsweredWith(log + [e], call, id, o)
    ensures forall a, def :: ReadAccepts(log, call, a, def) ==> ReadAccepts(log + [e], call, a, def)
    ensures forall id :: CreatedFor(log, call, id) ==> CreatedFor(log + [e], call, id)
    ensures forall d, id :: CreatedOut(log, call, d, id) ==> CreatedOut(log + [e], call, d, id)
    ensures forall a, id :: CreatedIn(log, call, a, id) ==> CreatedIn(log + [e], call, a, id)
    ensures forall k :: NoneOf(log, call, k) && (By(e, call) ==> KindOf(e) != k) ==> NoneOf(log + [e], call, k)
    ensures Quiet(log, call) && !By(e, call) ==> Quiet(log + [e], call)
  {
    var all := log + [e];
    assert forall i :: 0 <= i < |log| ==> all[i] == log[i];
  }

  lemma PhaseStays(cfg: Config, log: seq<Event>, e: Event, call: nat, p: Phase)
    requires PhaseOk(cfg, log, call, p) && !By(e, call)
    ensures PhaseOk(cfg, log + [e], call, p)
  {
    ReasonsStay(log, e, call);
    if p.WriteCancel? {
      TaskStays(log, e, p.id);
    }
  }

  lemma JustifiedStays(cfg: Config, log: seq<Event>, e: Event)
    requires AllJustified(cfg, log) && Justified(cfg, log, e)
    ensures AllJustified(cfg, log + [e])
  {
    var all := log + [e];
    forall i | 0 <= i < |all|
      ensures Justified(cfg, all[..i], all[i])
    {
      assert all[..i] == if i < |log| then log[..i] else log;
    }
  }

  /** A step that emits a justified event and leaves its call in a proper phase. */
  lemma EmitKeeps(cfg: Config, s: State, s': State, call: nat, e: Event)
    requires Inv(cfg, s) && call in s'.calls && s'.calls == s.calls[call := s'.calls[call]]
    requires s'.log == s.log + [e] && forall c :: By(e, c) ==> c == call
    requires s'.now == s.now && (e.CardFetched? ==> e.at <= s.now)
    requires Justified(cfg, s.log, e) && PhaseOk(cfg, s'.log, call, s'.calls[call]) && s'.store == Effect(s.store, e)
    ensures Inv(cfg, s')
  {
    ReplayAppend(s.log, e);
    JustifiedStays(cfg, s.log, e);
    forall c | c in s'.calls
      ensures PhaseOk(cfg, s'.log, c, s'.calls[c])
    {
      if c != call {
        PhaseStays(cfg, s.log, e, c, s.calls[c]);
      }
    }
    forall c | c !in s'.calls
      ensures Quiet(s'.log, c)
    {
      ReasonsStay(s.log, e, c);
    }
  }

  lemma MoveKeeps(cfg: Config, s: State, call: nat, p: Phase)
    requires Inv(cfg, s) && PhaseOk(cfg, s.log, call, p)
    ensures Inv(cfg, Moved(s, call, p))
  {
  }

  lemma {:induction false} CardWasStored(log: seq<Event>, url: string)
    requires CardAt(log, url).Some?
    ensures exists i ::
      0 <= i < |log| && log[i].CardStored? && log[i].url == url && log[i].entry == CardAt(log, url).value
    decreases |log|
  {
    var n := |log| - 1;
    if log[n].CardStored? && log[n].url == url {
      assert log[n].entry == CardAt(log, url).value;
    } else {
      CardWasStored(log[..n], url);
    }
  }

  lemma CheckKeeps(cfg: Config, s: State, call: nat, d: DelegateArgs, entry: CardEntry, cached: bool)
    requires Inv(cfg, s) && NoneOf(s.log, call, KCheck) && Unstarted(s.log, call)
    requires if cached then CardAt(s.log, d.url) == Some(entry) && s.now < entry.expiresAt
             else Stored(s.log, call, d.url, entry)
    ensures Inv(cfg, CheckCard(s, call, d, entry, cached))
  {
    var s' := CheckCard(s, call, d, entry, cached);
    var e := s'.log[|s.log|];
    if cached {
      CardWasStored(s.log, d.url);
    }
    var i :| 0 <= i < |s.log| && s.log[i].CardStored? && s.log[i].entry == entry;
    StoredIsPast(cfg, s, i);
    ReasonsStay(s.log, e, call);
    EmitKeeps(cfg, s, s', call, e);
  }

  /** A stored card was fetched, from that URL, no later than now. */
  lemma StoredIsPast(cfg: Config, s: State, i: nat)
    requires Inv(cfg, s) && i < |s.log| && s.log[i].CardStored?
    ensures s.log[i].entry.fetchedAt <= s.now
  {
    var e := s.log[i];
    assert Justified(cfg, s.log[..i], e);
    var k :| 0 <= k < i && s.log[..i][k] == CardFetched(e.call, e.url, e.entry.raw, e.entry.fetchedAt);
    assert s.log[k].at <= s.now;
  }

  lemma CreateKeeps(cfg: Config, s: State, call: nat, t: Task, next: Phase)
    requires Inv(cfg, s) && Justified(cfg, s.log, Created(call, t))
    requires PhaseOk(cfg, s.log + [Created(call, t)], call, next)
    ensures Inv(cfg, Create(s, call, t, next))
  {
    EmitKeeps(cfg, s, Create(s, call, t, next), call, Created(call, t));
  }

  lemma ReadCardKeeps(cfg: Config, s: State, call: nat, d: DelegateArgs, input: Input)
    requires Inv(cfg, s) && Quiet(s.log, call)
    ensures Inv(cfg, ResumeCall(cfg, s, call, ReadCard(d), input))
  {
    var e := Get(s.store.cards, d.url);
    if e.Some? && e.value.expiresAt > s.now {
      CheckKeeps(cfg, s, call, d, e.value, true);
    }
  }

  lemma StoreCardKeeps(cfg: Config, s: State, call: nat, d: DelegateArgs, entry: CardEntry, input: Input)
    requires Inv(cfg, s) && PhaseOk(cfg, s.log, call, StoreCard(d, entry))
    ensures Inv(cfg, ResumeCall(cfg, s, call, StoreCard(d, entry), input))
  {
    var s' := ResumeCall(cfg, s, call, StoreCard(d, entry), input);
    var e := CardStored(call, d.url, entry);
    ReasonsStay(s.log, e, call);
    assert s'.log[|s.log|] == e;
    assert Stored(s'.log, call, d.url, entry);
    EmitKeeps(cfg, s, s', call, e);
  }

  lemma CreateOutboundKeeps(cfg: Config, s: State, call: nat, d: DelegateArgs, id: string)
    requires Inv(cfg, s) && PhaseOk(cfg, s.log, call, CreateOutbound(d)) && id !in s.store.tasks
    ensures Inv(cfg, ResumeCall(cfg, s, call, CreateOutbound(d), FreshId(id)))
  {
    var t := NewTask(id, d.tenant, Outbound, d.url, d.skill, d.msg, s.now);
    var e := Created(call, t);
    ReasonsStay(s.log, e, call);
    assert (s.log + [e])[|s.log|] == e;
    assert CreatedOut(s.log + [e], call, d, id);
    CreateKeeps(cfg, s, call, t, SendToPeer(d, id));
  }

  lemma AcceptedIsTask(log: seq<Event>, call: nat, a: AcceptArgs, definition: string, id: string, now: int)
    requires ReadAccepts(log, call, a, definition)
    ensures TaskAccepted(log, call, NewTask(id, a.tenant, Inbound, a.peerUrl, a.skill, a.msg, now))
  {
  }

  lemma NewInboundPhase(
    cfg: Config, log: seq<Event>, call: nat, a: AcceptArgs, definition: string, id: string, now: int)
    requires PhaseOk(cfg, log, call, CreateInbound(a, definition))
    ensures PhaseOk(cfg, log + [Created(call, NewTask(id, a.tenant, Inbound, a.peerUrl, a.skill, a.msg, now))], call,
      StartWorkflow(a, definition, id))
  {
    var e := Created(call, NewTask(id, a.tenant, Inbound, a.peerUrl, a.skill, a.msg, now));
    ReasonsStay(log, e, call);
    assert (log + [e])[|log|] == e;
  }

  lemma InboundJustified(cfg: Config, s: State, call: nat, a: AcceptArgs, definition: string, id: string)
    requires s.store == Replay(s.log) && id !in s.store.tasks
    requires PhaseOk(cfg, s.log, call, CreateInbound(a, definition))
    ensures Justified(
      cfg, s.log, Created(call, NewTask(id, a.tenant, Inbound, a.peerUrl, a.skill, a.msg, s.now)))
  {
    AcceptedIsTask(s.log, call, a, definition, id, s.now);
  }

  lemma CreateInboundKeeps(cfg: Config, s: State, call: nat, a: AcceptArgs, definition: string, id: string)
    requires Inv(cfg, s) && PhaseOk(cfg, s.log, call, CreateInbound(a, definition)) && id !in s.store.tasks
    ensures Inv(cfg, ResumeCall(cfg, s, call, CreateInbound(a, definition), FreshId(id)))
  {
    var t := NewTask(id, a.tenant, Inbound, a.peerUrl, a.skill, a.msg, s.now);
    InboundJustified(cfg, s, call, a, definition, id);
    NewInboundPhase(cfg, s.log, call, a, definition, id, s.now);
    CreateKeeps(cfg, s, call, t, StartWorkflow(a, definition, id));
  }

  /** A finished create knows its task, whatever the direction. */
  lemma OutIsCreated(log: seq<Event>, call: nat, d: DelegateArgs, id: string)
    requires CreatedOut(log, call, d, id)
    ensures CreatedFor(log, call, id) && CreatedAs(log, call, id, Outbound)
  {
  }

  lemma InIsCreated(log: seq<Event>, call: nat, a: AcceptArgs, id: string)
    requires CreatedIn(log, call, a, id)
    ensures CreatedFor(log, call, id) && CreatedAs(log, call, id, Inbound)
  {
  }

  lemma SendKeeps(cfg: Config, s: State, call: nat, d: DelegateArgs, id: string, input: Input)
    requires Inv(cfg, s) && PhaseOk(cfg, s.log, call, SendToPeer(d, id))
    ensures Inv(cfg, ResumeCall(cfg, s, call, SendToPeer(d, id), input))
  {
    var e := Sent(call, d, id);
    OutIsCreated(s.log, call, d, id);
    ReasonsStay(s.log, e, call);
    EmitKeeps(cfg, s, ResumeCall(cfg, s, call, SendToPeer(d, id), input), call, e);
  }

  lemma DispatchKeeps(cfg: Config, s: State, call: nat, a: AcceptArgs, definition: string, id: string, input: Input)
    requires Inv(cfg, s) && PhaseOk(cfg, s.log, call, StartWorkflow(a, definition, id))
    ensures Inv(cfg, ResumeCall(cfg, s, call, StartWorkflow(a, definition, id), input))
  {
    var e := Dispatched(call, a, definition, id);
    InIsCreated(s.log, call, a, id);
    ReasonsStay(s.log, e, call);
    EmitKeeps(cfg, s, ResumeCall(cfg, s, call, StartWorkflow(a, definition, id), input), call, e);
  }

  lemma AwaitPeerKeeps(cfg: Config, s: State, call: nat, d: DelegateArgs, id: string, r: PeerReply)
    requires Inv(cfg, s) && PhaseOk(cfg, s.log, call, AwaitPeer(d, id))
    ensures Inv(cfg, ResumeCall(cfg, s, call, AwaitPeer(d, id), Peer(r)))
  {
    var s' := ResumeCall(cfg, s, call, AwaitPeer(d, id), Peer(r));
    var e := PeerAnswered(call, id, r);
    OutIsCreated(s.log, call, d, id);
    ReasonsStay(s.log, e, call);
    assert s'.log[|s.log|] == e;
    EmitKeeps(cfg, s, s', call, e);
  }

  lemma AuthorizeKeeps(cfg: Config, s: State, call: nat, a: AcceptArgs, input: Input)
    requires Inv(cfg, s) && Quiet(s.log, call)
    ensures Inv(cfg, ResumeCall(cfg, s, call, Authorize(a), input))
  {
    var row := Get(s.store.policies, (a.caller, a.tenant));
    var e := PolicyRead(call, a, row, Decide(cfg.definitions, row, a.skill));
    VerdictPhase(cfg, s.log, call, a, row, e.verdict);
    EmitKeeps(cfg, s, ResumeCall(cfg, s, call, Authorize(a), input), call, e);
  }

  lemma VerdictPhase(cfg: Config, log: seq<Event>, call: nat, a: AcceptArgs, row: Option<AllowList>, v: Verdict)
    requires Quiet(log, call)
    ensures PhaseOk(cfg, log + [PolicyRead(call, a, row, v)], call, AfterVerdict(a, row, v))
  {
    var e := PolicyRead(call, a, row, v);
    ReasonsStay(log, e, call);
    assert (log + [e])[|log|] == e;
  }

  lemma UpdateKeeps(cfg: Config, s: State, call: nat, id: string, o: Outcome, e: Event, result: CallResult)
    requires Inv(cfg, s) && id in s.store.tasks && Justified(cfg, s.log, e)
    requires e == Finalised(call, id, o) || (e == CanceledBy(call, id) && o == CANCEL_OUTCOME)
    ensures Inv(cfg, Update(s, call, id, o, e, result))
  {
    EmitKeeps(cfg, s, Update(s, call, id, o, e, result), call, e);
  }

  lemma AwaitWorkflowKeeps(cfg: Config, s: State, call: nat, a: AcceptArgs, id: string, r: WorkflowReply)
    requires Inv(cfg, s) && PhaseOk(cfg, s.log, call, AwaitWorkflow(a, id))
    ensures Inv(cfg, ResumeCall(cfg, s, call, AwaitWorkflow(a, id), Workflow(r)))
  {
    var s' := ResumeCall(cfg, s, call, AwaitWorkflow(a, id), Workflow(r));
    var e := WorkflowAnswered(call, id, r);
    InIsCreated(s.log, call, a, id);
    ReasonsStay(s.log, e, call);
    assert s'.log[|s.log|] == e;
    EmitKeeps(cfg, s, s', call, e);
  }

  lemma FetchCardKeeps(cfg: Config, s: State, call: nat, d: DelegateArgs, raw: Option<Dict>)
    requires Inv(cfg, s) && PhaseOk(cfg, s.log, call, FetchCard(d))
    ensures Inv(cfg, ResumeCall(cfg, s, call, FetchCard(d), Fetched(raw)))
  {
    var s' := ResumeCall(cfg, s, call, FetchCard(d), Fetched(raw));
    if raw.None? {
      MoveKeeps(cfg, s, call, Over(Delegated(FetchRaised)));
    } else {
      var e := CardFetched(call, d.url, raw.value, s.now);
      ReasonsStay(s.log, e, call);
      assert s'.log[|s.log|] == e;
      EmitKeeps(cfg, s, s', call, e);
    }
  }

  /** The calls of a delegation up to the send. */
  predicate IsCardPhase(p: Phase) { p.ReadCard? || p.FetchCard? || p.StoreCard? || p.UseCard? || p.CreateOutbound? }

  predicate IsAcceptPhase(p: Phase) { p.Authorize? || p.CreateInbound? || p.StartWorkflow? || p.AwaitWorkflow? }

  lemma CardPhaseKeeps(cfg: Config, s: State, call: nat, p: Phase, input: Input)
    requires Inv(cfg, s) && PhaseOk(cfg, s.log, call, p) && IsCardPhase(p) && call in s.calls && s.calls[call] == p
    ensures Inv(cfg, ResumeCall(cfg, s, call, p, input))
  {
    match p
    case ReadCard(d) => ReadCardKeeps(cfg, s, call, d, input);
    case FetchCard(d) => if input.Fetched? { FetchCardKeeps(cfg, s, call, d, input.raw); }
    case StoreCard(d, entry) => StoreCardKeeps(cfg, s, call, d, entry, input);
    case UseCard(d, entry) => CheckKeeps(cfg, s, call, d, entry, false);
    case CreateOutbound(d) =>
      if input.FreshId? && input.id !in s.store.tasks { CreateOutboundKeeps(cfg, s, call, d, input.id); }
  }

  lemma AcceptPhaseKeeps(cfg: Config, s: State, call: nat, p: Phase, input: Input)
    requires Inv(cfg, s) && PhaseOk(cfg, s.log, call, p) && IsAcceptPhase(p) && call in s.calls && s.calls[call] == p
    ensures Inv(cfg, ResumeCall(cfg, s, call, p, input))
  {
    match p
    case Authorize(a) => AuthorizeKeeps(cfg, s, call, a, input);
    case CreateInbound(a, definition) =>
      if input.FreshId? && input.id !in s.store.tasks { CreateInboundKeeps(cfg, s, call, a, definition, input.id); }
    case StartWorkflow(a, definition, id) => DispatchKeeps(cfg, s, call, a, definition, id, input);
    case AwaitWorkflow(a, id) => if input.Workflow? { AwaitWorkflowKeeps(cfg, s, call, a, id, input.workflow); }
  }

  lemma TaskPhaseKeeps(cfg: Config, s: State, call: nat, p: Phase, input: Input)
    requires Inv(cfg, s) && PhaseOk(cfg, s.log, call, p) && call in s.calls && s.calls[call] == p
    requires !IsCardPhase(p) && !IsAcceptPhase(p)
    ensures Inv(cfg, ResumeCall(cfg, s, call, p, input))
  {
    match p
    case SendToPeer(d, id) => SendKeeps(cfg, s, call, d, id, input);
    case AwaitPeer(d, id) => if input.Peer? { AwaitPeerKeeps(cfg, s, call, d, id, input.peer); }
    case Finish(id, o) =>
      if id in s.store.tasks {
        UpdateKeeps(cfg, s, call, id, o, Finalised(call, id, o), Concluded(Apply(s.store.tasks[id], o)));
      }
    case ReadForCancel(id) =>
      MoveKeeps(cfg, s, call, if id in s.store.tasks then WriteCancel(id) else Over(CancelEnded(None)));
    case WriteCancel(id) =>
      if id in s.store.tasks {
        var result := CancelEnded(Some(Apply(s.store.tasks[id], CANCEL_OUTCOME)));
        UpdateKeeps(cfg, s, call, id, CANCEL_OUTCOME, CanceledBy(call, id), result);
      }
    case Over(_) =>
  }

  lemma ResumeKeeps(cfg: Config, s: State, call: nat, input: Input)
    requires Inv(cfg, s) && call in s.calls
    ensures Inv(cfg, ResumeCall(cfg, s, call, s.calls[call], input))
  {
    var p := s.calls[call];
    if IsCardPhase(p) {
      CardPhaseKeeps(cfg, s, call, p, input);
    } else if IsAcceptPhase(p) {
      AcceptPhaseKeeps(cfg, s, call, p, input);
    } else {
      TaskPhaseKeeps(cfg, s, call, p, input);
    }
  }

  lemma SetPolicyKeeps(cfg: Config, s: State, caller: string, tenant: string, allowed: AllowList)
    requires Inv(cfg, s)
    ensures Inv(cfg, Step(cfg, s, SetPolicy(caller, tenant, allowed)))
  {
    var s' := Step(cfg, s, SetPolicy(caller, tenant, allowed));
    var e := PolicySet(caller, tenant, allowed);
    ReplayAppend(s.log, e);
    JustifiedStays(cfg, s.log, e);
    forall c | c in s.calls
      ensures PhaseOk(cfg, s'.log, c, s'.calls[c])
    {
      PhaseStays(cfg, s.log, e, c, s.calls[c]);
    }
    forall c | c !in s.calls
      ensures Quiet(s'.log, c)
    {
      ReasonsStay(s.log, e, c);
    }
  }

  lemma StepKeeps(cfg: Config, s: State, act: Action)
    requires Inv(cfg, s)
    ensures Inv(cfg, Step(cfg, s, act))
  {
    match act
    case Tick(_) =>
    case BeginDelegate(call, d) => if call !in s.calls { MoveKeeps(cfg, s, call, ReadCard(d)); }
    case BeginAccept(call, a) => if call !in s.calls { MoveKeeps(cfg, s, call, Authorize(a)); }
    case BeginCancel(call, id) => if call !in s.calls { MoveKeeps(cfg, s, call, ReadForCancel(id)); }
    case SetPolicy(caller, tenant, allowed) => SetPolicyKeeps(cfg, s, caller, tenant, allowed);
    case Resume(call, input) => if call in s.calls { ResumeKeeps(cfg, s, call, input); }
  }

  /** EVENT SOURCING. In every run, under any interleaving, the store is the replay of the log
      and every event is justified by the events before it. */
  lemma {:induction false} RunKeeps(cfg: Config, s: State, acts: seq<Action>)
    requires Inv(cfg, s)
    ensures Inv(cfg, Run(cfg, s, acts))
    decreases |acts|
  {
    if acts != [] {
      StepKeeps(cfg, s, acts[0]);
      RunKeeps(cfg, Step(cfg, s, acts[0]), acts[1..]);
    }
  }

  lemma Reachable(cfg: Config, acts: seq<Action>)
    ensures Inv(cfg, Run(cfg, START, acts))
  {
    RunKeeps(cfg, START, acts);
  }
}
