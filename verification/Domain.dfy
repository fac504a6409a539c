/** The A2A gateway's domain objects: tasks, access policies, agent cards, JSON-RPC replies. */
module Domain {
  import opened Prelude

  datatype Json =
    | Null
    | Bool(b: bool)
    | Num(n: int)
    | Str(s: string)
    | Arr(items: seq<Json>)
    | Obj(fields: map<string, Json>)

  type Dict = map<string, Json>

  /** `d.get(key, default)` on a JSON object. */
  function Field(d: Dict, key: string, default: Json): Json {
    if key in d then d[key] else default
  }

  // ---- Tasks ----

  datatype Direction = Outbound | Inbound

  datatype Status = Submitted | Working | InputRequired | Completed | Failed | Canceled {
    function Value(): string {
      match this
      case Submitted => "submitted"
      case Working => "working"
      case InputRequired => "input_required"
      case Completed => "completed"
      case Failed => "failed"
      case Canceled => "canceled"
    }
  }

  /** `TaskStatus(x)`: None stands for the ValueError. */
  function ParseStatus(x: Json): Option<Status> {
    if x == Str("submitted") then Some(Submitted)
    else if x == Str("working") then Some(Working)
    else if x == Str("input_required") then Some(InputRequired)
    else if x == Str("completed") then Some(Completed)
    else if x == Str("failed") then Some(Failed)
    else if x == Str("canceled") then Some(Canceled)
    else None
  }

  /** Parsing inverts printing, and only printed statuses parse. */
  lemma StatusRoundTrip(s: Status, x: Json)
    ensures ParseStatus(Str(s.Value())) == Some(s)
    ensures ParseStatus(x) == Some(s) <==> x == Str(s.Value())
  {
    var words := [Submitted.Value(), Working.Value(), InputRequired.Value(), Completed.Value(), Failed.Value(),
      Canceled.Value()];
    assert words[0][0] == 's' && words[1][0] == 'w' && words[2][0] == 'i';
    assert |words[3]| == 9 && |words[4]| == 6 && |words[5]| == 8;
  }

  /** The words on the wire. */
  lemma StatusWords(s: Status)
    ensures s.Submitted? <==> s.Value() == "submitted"
    ensures s.Working? <==> s.Value() == "working"
    ensures s.InputRequired? <==> s.Value() == "input_required"
    ensures s.Completed? <==> s.Value() == "completed"
    ensures s.Failed? <==> s.Value() == "failed"
    ensures s.Canceled? <==> s.Value() == "canceled"
  {
    StatusRoundTrip(Submitted, Str(s.Value()));
    StatusRoundTrip(Working, Str(s.Value()));
    StatusRoundTrip(InputRequired, Str(s.Value()));
    StatusRoundTrip(Completed, Str(s.Value()));
    StatusRoundTrip(Failed, Str(s.Value()));
    StatusRoundTrip(Canceled, Str(s.Value()));
  }

  datatype Task = Task(
    id: string, tenant: string, direction: Direction, peerUrl: string, skill: string,
    status: Status, input: Json, artifacts: Json, error: Option<string>, createdAt: int)

  const NO_ARTIFACTS := Arr([])

  /** A record as the services construct it: submitted, no artifacts, no error. */
  function NewTask(
    id: string, tenant: string, direction: Direction, peerUrl: string, skill: string, input: Json, now: int): Task
  {
    Task(id, tenant, direction, peerUrl, skill, Submitted, input, NO_ARTIFACTS, None, now)
  }

  /** `update_task_status`: an omitted argument leaves its field alone. */
  function Updated(t: Task, status: Status, artifacts: Option<Json>, error: Option<string>): Task {
    t.(status := status, artifacts := artifacts.GetOr(t.artifacts), error := if error.Some? then error else t.error)
  }

  // ---- Access policies ----

  /** The allow-list of a policy row; None permits every published skill. */
  type AllowList = Option<seq<string>>

  /** Deny by default: no row means no access. */
  predicate Permits(row: Option<AllowList>, skill: string) {
    row.Some? && (row.value.None? || skill in row.value.value)
  }

  // ---- Agent cards ----

  datatype AgentSkill = AgentSkill(id: Json, name: Json, description: Json)

  predicate Advertises(skills: seq<AgentSkill>, skill: string) {
    exists i :: 0 <= i < |skills| && skills[i].id == Str(skill)
  }

  datatype AgentCard = AgentCard(name: Json, description: Json, url: Json, skills: seq<AgentSkill>) {
    predicate Supports(skill: string) { Advertises(skills, skill) }
  }

  datatype CardEntry = CardEntry(raw: Dict, fetchedAt: int, expiresAt: int)

  /** None stands for the AttributeError of calling `.get` on something that is no object. */
  function ParseSkill(s: Json): Option<AgentSkill> {
    if s.Obj? then
      Some(AgentSkill(Field(s.fields, "id", Str("")), Field(s.fields, "name", Str("")),
        Field(s.fields, "description", Str(""))))
    else None
  }

  function ParseSkills(items: seq<Json>): Option<seq<AgentSkill>> {
    if items == [] then Some([])
    else
      var head, rest := ParseSkill(items[0]), ParseSkills(items[1..]);
      if head.Some? && rest.Some? then Some([head.value] + rest.value) else None
  }

  /** The tolerant card parser. An empty string or object iterates like an empty list; any
      other `skills` that is not a list raises. */
  function ParseAgentCard(raw: Dict): Option<AgentCard> {
    var skills := Field(raw, "skills", Arr([]));
    var parsed :=
      if skills.Arr? then ParseSkills(skills.items)
      else if skills == Str("") || skills == Obj(map[]) then Some([])
      else None;
    if parsed.Some? then
      Some(AgentCard(Field(raw, "name", Str("")), Field(raw, "description", Str("")), Field(raw, "url", Str("")),
        parsed.value))
    else None
  }

  function SkillToDict(s: AgentSkill): Json {
    Obj(map["id" := s.id, "name" := s.name, "description" := s.description])
  }

  function SkillsToList(skills: seq<AgentSkill>): seq<Json> {
    if skills == [] then [] else [SkillToDict(skills[0])] + SkillsToList(skills[1..])
  }

  function CardToDict(c: AgentCard): Dict {
    map["name" := c.name, "description" := c.description, "url" := c.url, "skills" := Arr(SkillsToList(c.skills))]
  }

  lemma {:induction false} SkillsRoundTrip(skills: seq<AgentSkill>)
    ensures ParseSkills(SkillsToList(skills)) == Some(skills)
    decreases |skills|
  {
    if skills != [] {
      SkillsRoundTrip(skills[1..]);
      var items := SkillsToList(skills);
      assert items[0] == SkillToDict(skills[0]) && items[1..] == SkillsToList(skills[1..]);
      assert ParseSkill(items[0]) == Some(skills[0]);
      assert skills == [skills[0]] + skills[1..];
    }
  }

  /** CARD ROUND TRIP: parsing a printed card gives the card back. */
  lemma CardRoundTrip(c: AgentCard)
    ensures ParseAgentCard(CardToDict(c)) == Some(c)
  {
    SkillsRoundTrip(c.skills);
  }

  /** The id a skill entry goes by; a missing one reads as the empty string. */
  predicate Names(item: Json, skill: string) {
    item.Obj? && if "id" in item.fields then item.fields["id"] == Str(skill) else skill == ""
  }

  lemma {:induction false} SkillsParseExactly(items: seq<Json>, skill: string)
    ensures ParseSkills(items).Some? <==> forall i :: 0 <= i < |items| ==> items[i].Obj?
    ensures ParseSkills(items).Some? ==>
      (Advertises(ParseSkills(items).value, skill) <==> exists i :: 0 <= i < |items| && Names(items[i], skill))
    decreases |items|
  {
    if items != [] {
      var rest := items[1..];
      SkillsParseExactly(rest, skill);
      assert forall i :: 0 <= i < |rest| ==> rest[i] == items[i + 1];
      assert forall i :: 0 < i < |items| ==> items[i] == rest[i - 1];
      if ParseSkills(items).Some? {
        AdvertisesFirst(ParseSkill(items[0]).value, ParseSkills(rest).value, skill);
        if i :| 0 <= i < |items| && Names(items[i], skill) {
          assert i == 0 || rest[i - 1] == items[i];
        }
        if i :| 0 <= i < |rest| && Names(rest[i], skill) {
          assert items[i + 1] == rest[i];
        }
      }
    }
  }

  lemma AdvertisesFirst(head: AgentSkill, rest: seq<AgentSkill>, skill: string)
    ensures Advertises([head] + rest, skill) <==> head.id == Str(skill) || Advertises(rest, skill)
  {
    var all := [head] + rest;
    assert all[0] == head;
    if i :| 0 <= i < |rest| && rest[i].id == Str(skill) {
      assert all[i + 1].id == Str(skill);
    }
    if i :| 0 <= i < |all| && all[i].id == Str(skill) {
      assert i == 0 || rest[i - 1] == all[i];
    }
  }

  /** CARDS, exactly. A fetched card parses if and only if its `skills`, when present, is a list of
      objects or an empty string or object; it then supports a skill if and only if an entry of the
      list has that id, or the skill is "" and an entry has none; and the other fields default to "". */
  lemma CardParsesExactly(raw: Dict, skill: string)
    ensures
      var items := if "skills" in raw && raw["skills"].Arr? then raw["skills"].items else [];
      && (ParseAgentCard(raw).Some? <==>
            && ("skills" in raw ==> raw["skills"].Arr? || raw["skills"] == Str("") || raw["skills"] == Obj(map[]))
            && (forall i :: 0 <= i < |items| ==> items[i].Obj?))
      && (ParseAgentCard(raw).Some? ==>
            var card := ParseAgentCard(raw).value;
            && (card.Supports(skill) <==> exists i :: 0 <= i < |items| && Names(items[i], skill))
            && card.name == (if "name" in raw then raw["name"] else Str(""))
            && card.description == (if "description" in raw then raw["description"] else Str(""))
            && card.url == (if "url" in raw then raw["url"] else Str("")))
  {
    SkillsParseExactly(if "skills" in raw && raw["skills"].Arr? then raw["skills"].items else [], skill);
  }

  /** Fields this module does not know never change what is parsed. */
  lemma ExtraFieldsIgnored(raw: Dict, key: string, value: Json)
    requires key !in {"name", "description", "url", "skills"}
    ensures ParseAgentCard(raw[key := value]) == ParseAgentCard(raw)
  {
    assert forall k, d ::
      k in {"name", "description", "url", "skills"} ==> Field(raw[key := value], k, d) == Field(raw, k, d);
  }

  // ---- This platform's own card ----

  /** The part of the settings the gateway uses; `skillOrder` lists the keys of the skill map
      in the order the configuration gives them. */
  datatype Settings = Settings(
    agentName: string, agentDescription: string, selfUrl: string, defaultTenant: string,
    definitions: map<string, string>, skillOrder: seq<string>)
  {
    ghost predicate Valid() {
      forall k :: k in definitions <==> k in skillOrder
    }
  }

  function LocalSkills(order: seq<string>): seq<AgentSkill> {
    if order == [] then [] else [AgentSkill(Str(order[0]), Str(order[0]), Str(""))] + LocalSkills(order[1..])
  }

  function BuildLocalCard(s: Settings): AgentCard {
    AgentCard(Str(s.agentName), Str(s.agentDescription), Str(s.selfUrl), LocalSkills(s.skillOrder))
  }

  lemma {:induction false} LocalSkillsAt(order: seq<string>, k: string)
    ensures Advertises(LocalSkills(order), k) <==> k in order
    decreases |order|
  {
    if order != [] {
      LocalSkillsAt(order[1..], k);
      var all, rest := LocalSkills(order), LocalSkills(order[1..]);
      assert all[0].id == Str(order[0]);
      if Advertises(rest, k) {
        var i :| 0 <= i < |rest| && rest[i].id == Str(k);
        assert all[i + 1].id == Str(k);
      }
      if Advertises(all, k) && order[0] != k {
        var i :| 0 <= i < |all| && all[i].id == Str(k);
        assert rest[i - 1].id == Str(k);
      }
    }
  }

  /** ADVERTISED EQUALS ACCEPTED: what a peer reads off the published card supports `k`
      exactly when this platform has a definition for `k`. */
  lemma AdvertisedEqualsAccepted(s: Settings, k: string)
    requires s.Valid()
    ensures var card := ParseAgentCard(CardToDict(BuildLocalCard(s)));
      card.Some? && (card.value.Supports(k) <==> k in s.definitions)
  {
    CardRoundTrip(BuildLocalCard(s));
    LocalSkillsAt(s.skillOrder, k);
  }

  /** The published card carries the configured name, description and URL and, for each skill, its
      id as id and name. */
  lemma PublishedCard(s: Settings, i: nat)
    requires i < |s.skillOrder|
    ensures
      var raw := CardToDict(BuildLocalCard(s));
      && raw.Keys == {"name", "description", "url", "skills"}
      && raw["name"] == Str(s.agentName) && raw["description"] == Str(s.agentDescription)
      && raw["url"] == Str(s.selfUrl)
      && raw["skills"].Arr? && |raw["skills"].items| == |s.skillOrder|
      && raw["skills"].items[i]
         == Obj(map["id" := Str(s.skillOrder[i]), "name" := Str(s.skillOrder[i]), "description" := Str("")])
  {
    PublishedSkill(s.skillOrder, i);
  }

  lemma {:induction false} PublishedSkill(order: seq<string>, i: nat)
    requires i < |order|
    ensures
      var items := SkillsToList(LocalSkills(order));
      && |items| == |order|
      && items[i] == Obj(map["id" := Str(order[i]), "name" := Str(order[i]), "description" := Str("")])
    decreases |order|
  {
    var skills := LocalSkills(order);
    assert skills[1..] == LocalSkills(order[1..]);
    if i > 0 {
      PublishedSkill(order[1..], i - 1);
    } else if |order| > 1 {
      PublishedSkill(order[1..], 0);
    }
  }

  // ---- JSON-RPC ----

  datatype RpcError = RpcError(code: int, message: string)

  datatype RpcResponse = RpcResponse(id: Json, result: Option<Dict>, error: Option<RpcError>)

  const ACCESS_DENIED := -32001
  const UNKNOWN_SKILL := -32002
  const TASK_NOT_FOUND := -32003
  const METHOD_NOT_FOUND := -32601

  /** `_task_to_result`. */
  function TaskToResult(t: Task): Dict {
    map["task_id" := Str(t.id), "status" := Str(t.status.Value()), "artifacts" := t.artifacts,
        "error" := if t.error.Some? then Str(t.error.value) else Null]
  }

  /** THE RESULT OBJECT, exactly: the task's own id, its status word, its artifacts, and its error,
      null if and only if it has none. */
  lemma ResultFields(t: Task)
    ensures TaskToResult(t).Keys == {"task_id", "status", "artifacts", "error"}
    ensures TaskToResult(t)["task_id"] == Str(t.id)
    ensures ParseStatus(TaskToResult(t)["status"]) == Some(t.status)
    ensures TaskToResult(t)["artifacts"] == t.artifacts
    ensures TaskToResult(t)["error"] == Null <==> t.error.None?
    ensures t.error.Some? ==> TaskToResult(t)["error"] == Str(t.error.value)
  {
    StatusRoundTrip(t.status, Null);
  }

  // ---- The store, as its port sees it ----

  datatype Store = Store(
    tasks: map<string, Task>,
    policies: map<(string, string), AllowList>,
    cards: map<string, CardEntry>)

  const EMPTY_STORE := Store(map[], map[], map[])
}
