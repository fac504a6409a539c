/** Listing tasks: filter, sort by creation time, slice one page. */
module TaskListing {
  import opened Prelude
  import opened Domain

  predicate Matches(t: Task, tenant: Option<string>, direction: Option<Direction>) {
    (tenant.None? || t.tenant == tenant.value) && (direction.None? || t.direction == direction.value)
  }

  function Matching(tasks: seq<Task>, tenant: Option<string>, direction: Option<Direction>): seq<Task> {
    if tasks == [] then []
    else (if Matches(tasks[0], tenant, direction) then [tasks[0]] else []) + Matching(tasks[1..], tenant, direction)
  }

  function Insert(t: Task, s: seq<Task>): seq<Task> {
    if s == [] || t.createdAt <= s[0].createdAt then [t] + s else [s[0]] + Insert(t, s[1..])
  }

  /** `sorted(tasks, key=created_at)`, which is stable. */
  function SortByCreated(tasks: seq<Task>): seq<Task> {
    if tasks == [] then [] else Insert(tasks[0], SortByCreated(tasks[1..]))
  }

  /** `s[offset:offset + limit]`. */
  function Slice<T>(s: seq<T>, offset: nat, limit: nat): seq<T> {
    if offset >= |s| then [] else if offset + limit >= |s| then s[offset..] else s[offset..offset + limit]
  }

  /** The slices at `offset`, `offset + limit`, ... one after another. */
  function Slices<T>(s: seq<T>, limit: nat, offset: nat): seq<T>
    requires limit >= 1
    decreases |s| - offset
  {
    if offset >= |s| then [] else Slice(s, offset, limit) + Slices(s, limit, offset + limit)
  }

  lemma {:induction false} SlicesCover<T>(s: seq<T>, limit: nat, offset: nat)
    requires limit >= 1
    ensures Slices(s, limit, offset) == if offset >= |s| then [] else s[offset..]
    decreases |s| - offset
  {
    if offset < |s| {
      SlicesCover(s, limit, offset + limit);
      if offset + limit < |s| {
        assert s[offset..] == s[offset..offset + limit] + s[offset + limit..];
      } else {
        assert s[offset..] + [] == s[offset..];
      }
    }
  }

  function List(
    tasks: seq<Task>, tenant: Option<string>, direction: Option<Direction>, limit: nat, offset: nat): (seq<Task>, nat)
  {
    var results := SortByCreated(Matching(tasks, tenant, direction));
    (Slice(results, offset, limit), |results|)
  }

  /** The pages at `offset`, `offset + limit`, ... one after another. */
  function AllPages(
    tasks: seq<Task>, tenant: Option<string>, direction: Option<Direction>, limit: nat, offset: nat): seq<Task>
    requires limit >= 1
  {
    Slices(SortByCreated(Matching(tasks, tenant, direction)), limit, offset)
  }

  /** They are the pages that `List` serves, up to the total it reports. */
  lemma PagesAreListed(
    tasks: seq<Task>, tenant: Option<string>, direction: Option<Direction>, limit: nat, offset: nat)
    requires limit >= 1
    ensures
      var (page, total) := List(tasks, tenant, direction, limit, offset);
      AllPages(tasks, tenant, direction, limit, offset)
      == if offset >= total then [] else page + AllPages(tasks, tenant, direction, limit, offset + limit)
  {
  }

  ghost predicate SortedByCreated(s: seq<Task>) {
    forall i, j :: 0 <= i < j < |s| ==> s[i].createdAt <= s[j].createdAt
  }

  ghost predicate Stepwise(s: seq<Task>) {
    forall i :: 0 < i < |s| ==> s[i - 1].createdAt <= s[i].createdAt
  }

  lemma {:induction false} StepwiseIsSorted(s: seq<Task>, i: nat, j: nat)
    requires Stepwise(s) && i <= j < |s|
    ensures s[i].createdAt <= s[j].createdAt
    decreases j
  {
    if i < j {
      StepwiseIsSorted(s, i, j - 1);
    }
  }

  lemma {:induction false} InsertSteps(t: Task, s: seq<Task>)
    requires Stepwise(s)
    ensures Stepwise(Insert(t, s)) && Insert(t, s) != []
    ensures Insert(t, s)[0] == t || (s != [] && Insert(t, s)[0] == s[0])
    ensures s != [] && Insert(t, s)[0] == t ==> t.createdAt <= s[0].createdAt || t == s[0]
    decreases |s|
  {
    if s != [] && t.createdAt > s[0].createdAt {
      var rest := s[1..];
      assert forall i :: 0 < i < |rest| ==> rest[i] == s[i + 1] && rest[i - 1] == s[i];
      InsertSteps(t, rest);
      var r := Insert(t, s);
      var tail := Insert(t, rest);
      assert r == [s[0]] + tail;
      forall i | 0 < i < |r|
        ensures r[i - 1].createdAt <= r[i].createdAt
      {
        assert r[i] == tail[i - 1];
        if i > 1 {
          assert r[i - 1] == tail[i - 2];
        }
      }
    }
  }

  lemma {:induction false} InsertCounts(t: Task, s: seq<Task>)
    ensures multiset(Insert(t, s)) == multiset(s) + multiset{t}
    decreases |s|
  {
    if s != [] {
      InsertCounts(t, s[1..]);
      assert s == [s[0]] + s[1..];
    }
  }

  lemma {:induction false} SortSorts(tasks: seq<Task>)
    ensures Stepwise(SortByCreated(tasks)) && multiset(SortByCreated(tasks)) == multiset(tasks)
    decreases |tasks|
  {
    if tasks != [] {
      SortSorts(tasks[1..]);
      InsertSteps(tasks[0], SortByCreated(tasks[1..]));
      InsertCounts(tasks[0], SortByCreated(tasks[1..]));
      assert tasks == [tasks[0]] + tasks[1..];
    }
  }

  /** The tasks created at one instant, in the order they come. */
  function CreatedAt(s: seq<Task>, instant: int): seq<Task> {
    if s == [] then []
    else (if s[0].createdAt == instant then [s[0]] else []) + CreatedAt(s[1..], instant)
  }

  lemma {:induction false} InsertIsStable(t: Task, s: seq<Task>, instant: int)
    requires Stepwise(s)
    ensures CreatedAt(Insert(t, s), instant) == (if t.createdAt == instant then [t] else []) + CreatedAt(s, instant)
    decreases |s|
  {
    if s != [] && t.createdAt > s[0].createdAt {
      var rest := s[1..];
      assert forall i :: 0 < i < |rest| ==> rest[i] == s[i + 1] && rest[i - 1] == s[i];
      InsertIsStable(t, rest, instant);
      assert Insert(t, s)[1..] == Insert(t, rest);
      if s[0].createdAt == instant {
        NoneCreatedBefore(t, s, instant);
      } else {
        assert [] + CreatedAt(rest, instant) == CreatedAt(rest, instant);
      }
    } else {
      assert Insert(t, s)[1..] == s;
    }
  }

  lemma NoneCreatedBefore(t: Task, s: seq<Task>, instant: int)
    requires s != [] && s[0].createdAt == instant && t.createdAt > instant
    ensures (if t.createdAt == instant then [t] else []) + CreatedAt(s, instant) == [s[0]] + CreatedAt(s[1..], instant)
    ensures (if t.createdAt == instant then [t] else []) + CreatedAt(s[1..], instant) == CreatedAt(s[1..], instant)
  {
  }

  /** THE SORT IS STABLE: tasks created at one instant keep the order they were filed in. */
  lemma {:induction false} SortIsStable(tasks: seq<Task>, instant: int)
    ensures CreatedAt(SortByCreated(tasks), instant) == CreatedAt(tasks, instant)
    decreases |tasks|
  {
    if tasks != [] {
      SortIsStable(tasks[1..], instant);
      SortSorts(tasks[1..]);
      InsertIsStable(tasks[0], SortByCreated(tasks[1..]), instant);
    }
  }

  lemma {:induction false} MatchingCounts(
    tasks: seq<Task>, tenant: Option<string>, direction: Option<Direction>, t: Task)
    ensures multiset(Matching(tasks, tenant, direction))[t]
      == if Matches(t, tenant, direction) then multiset(tasks)[t] else 0
    decreases |tasks|
  {
    if tasks != [] {
      MatchingCounts(tasks[1..], tenant, direction, t);
      assert tasks == [tasks[0]] + tasks[1..];
      assert multiset(tasks) == multiset{tasks[0]} + multiset(tasks[1..]);
      if Matches(tasks[0], tenant, direction) {
        var rest := Matching(tasks[1..], tenant, direction);
        assert multiset([tasks[0]] + rest) == multiset{tasks[0]} + multiset(rest);
      }
    }
  }

  /** Every page is the matching stretch of the whole, and reports the length of the whole. */
  lemma PageIsStretch(tasks: seq<Task>, tenant: Option<string>, direction: Option<Direction>, limit: nat, offset: nat)
    requires limit >= 1
    ensures
      var all := AllPages(tasks, tenant, direction, limit, 0);
      List(tasks, tenant, direction, limit, offset) == (Slice(all, offset, limit), |all|)
  {
    var results := SortByCreated(Matching(tasks, tenant, direction));
    SlicesCover(results, limit, 0);
    assert results[0..] == results;
  }

  /** PAGING PARTITION. For any filters and any page size, the pages laid end to end are sorted
      by creation time and hold each matching task as often as the store does and nothing else. */
  lemma PagingPartition(tasks: seq<Task>, tenant: Option<string>, direction: Option<Direction>, limit: nat)
    requires limit >= 1
    ensures SortedByCreated(AllPages(tasks, tenant, direction, limit, 0))
    ensures forall t ::
      multiset(AllPages(tasks, tenant, direction, limit, 0))[t]
      == if Matches(t, tenant, direction) then multiset(tasks)[t] else 0
  {
    var some := Matching(tasks, tenant, direction);
    var results := SortByCreated(some);
    SlicesCover(results, limit, 0);
    assert results[0..] == results && AllPages(tasks, tenant, direction, limit, 0) == results;
    SortSorts(some);
    forall i, j | 0 <= i < j < |results|
      ensures results[i].createdAt <= results[j].createdAt
    {
      StepwiseIsSorted(results, i, j);
    }
    forall t
      ensures multiset(results)[t] == if Matches(t, tenant, direction) then multiset(tasks)[t] else 0
    {
      assert multiset(results)[t] == multiset(some)[t];
      MatchingCounts(tasks, tenant, direction, t);
    }
  }
}

/** The calls of the store's port, what they show their caller, and their meaning on three
    dictionaries and on three tables of rows. */
module StoreCalls {
  import opened Prelude
  import opened Domain
  import opened TaskListing

  /** A row: its own id, the columns it is selected by, and the columns an upsert assigns. */
  datatype Row<K, V> = Row(id: string, key: K, value: V)

  function FirstIndex<K(==), V>(rows: seq<Row<K, V>>, key: K): (i: nat)
    ensures i <= |rows|
    ensures i < |rows| ==> rows[i].key == key
    ensures forall j :: 0 <= j < i ==> rows[j].key != key
  {
    if rows == [] then 0 else if rows[0].key == key then 0 else 1 + FirstIndex(rows[1..], key)
  }

  function Select<K(==), V>(rows: seq<Row<K, V>>, key: K): Option<V> {
    var i := FirstIndex(rows, key);
    if i < |rows| then Some(rows[i].value) else None
  }

  function Upsert<K(==), V>(rows: seq<Row<K, V>>, id: string, key: K, value: V): seq<Row<K, V>> {
    var i := FirstIndex(rows, key);
    if i < |rows| then rows[i := rows[i].(value := value)] else rows + [Row(id, key, value)]
  }

  /** The unique constraint on the selecting columns. */
  ghost predicate KeysUnique<K, V>(rows: seq<Row<K, V>>) {
    forall i, j :: 0 <= i < j < |rows| ==> rows[i].key != rows[j].key
  }

  lemma UpsertSpec<K, V>(rows: seq<Row<K, V>>, id: string, key: K, value: V)
    requires KeysUnique(rows)
    ensures
      var rows' := Upsert(rows, id, key, value);
      && KeysUnique(rows')
      && |rows| <= |rows'| <= |rows| + 1
      && (forall j :: 0 <= j < |rows| ==> rows'[j].id == rows[j].id && rows'[j].key == rows[j].key)
      && (forall k :: Select(rows', k) == if k == key then Some(value) else Select(rows, k))
  {
    forall k
      ensures Select(Upsert(rows, id, key, value), k) == if k == key then Some(value) else Select(rows, k)
    {
      SelectUpserted(rows, id, key, value, k);
    }
  }

  /** The first row with the key is the one at `i`, if no earlier row has it. */
  lemma FirstIndexIs<K, V>(rows: seq<Row<K, V>>, key: K, i: nat)
    requires i <= |rows| && (i < |rows| ==> rows[i].key == key)
    requires forall j :: 0 <= j < i ==> rows[j].key != key
    ensures FirstIndex(rows, key) == i
  {
    var n := FirstIndex(rows, key);
    assert !(n < i) && !(i < n);
  }

  lemma SelectUpserted<K, V>(rows: seq<Row<K, V>>, id: string, key: K, value: V, k: K)
    ensures Select(Upsert(rows, id, key, value), k) == if k == key then Some(value) else Select(rows, k)
  {
    var rows' := Upsert(rows, id, key, value);
    var m, i := FirstIndex(rows, key), FirstIndex(rows, k);
    if k != key && i == |rows| && m == |rows| {
      FirstIndexIs(rows', k, i + 1);
    } else {
      FirstIndexIs(rows', k, i);
    }
  }

  /** The columns of a task row besides its primary key; enumerations are stored as text. */
  datatype TaskColumns = TaskColumns(
    tenant: string, direction: Direction, peerUrl: string, skill: string,
    status: string, input: Json, artifacts: Json, error: Option<string>, createdAt: int)

  /** What a task looks like to a caller; timestamps are the database's own. */
  datatype TaskView = TaskView(
    tenant: string, direction: Direction, peerUrl: string, skill: string,
    status: Status, input: Seen, artifacts: Seen, error: Option<string>)

  /** A JSON value as stored, or what a conversion to another JSON type makes of it: characters of
      a string, keys of an object, or an exception, but never the value itself. */
  datatype Seen = Same(json: Json) | Coerced

  /** Python's truth value. */
  predicate Falsy(x: Json) {
    x in {Null, Bool(false), Num(0), Str(""), Arr([]), Obj(map[])}
  }

  /** `list(x or [])`. */
  function AsList(x: Json): Seen {
    if x.Arr? then Same(x) else if Falsy(x) then Same(Arr([])) else Coerced
  }

  /** `dict(x or {})`. */
  function AsDict(x: Json): Seen {
    if x.Obj? then Same(x) else if Falsy(x) then Same(Obj(map[])) else Coerced
  }

  /** `_task_to_domain`; None when the stored status is no TaskStatus. */
  function ToDomain(c: TaskColumns): Option<TaskView> {
    var status := ParseStatus(Str(c.status));
    if status.None? then None
    else Some(TaskView(c.tenant, c.direction, c.peerUrl, c.skill, status.value, AsDict(c.input), AsList(c.artifacts),
      c.error))
  }

  /** The row of a created task; the database stamps it itself. */
  function FromDomain(t: Task, storedAt: int): TaskColumns {
    // create_task copies every column but `error`
    TaskColumns(t.tenant, t.direction, t.peerUrl, t.skill, t.status.Value(), t.input, t.artifacts, None, storedAt)
  }

  type PolicyRow = Row<(string, string), AllowList>
  type CardRow = Row<string, CardEntry>
  type TaskRow = Row<string, TaskColumns>

  datatype Tables = Tables(tasks: seq<TaskRow>, policies: seq<PolicyRow>, cards: seq<CardRow>)

  const NO_ROWS := Tables([], [], [])

  function AssignColumns(c: TaskColumns, status: Status, artifacts: Option<Json>, error: Option<string>): TaskColumns {
    c.(status := status.Value(), artifacts := artifacts.GetOr(c.artifacts),
       error := if error.Some? then error else c.error)
  }

  datatype Op =
    | CreateTask(record: Task, storedAt: int)
    | GetTask(id: string)
    | UpdateTask(id: string, status: Status, artifacts: Option<Json>, error: Option<string>)
    | ListTasks(ofTenant: Option<string>, direction: Option<Direction>)
    | UpsertPolicy(rowId: string, caller: string, tenant: string, allowed: AllowList)
    | GetPolicy(caller: string, tenant: string)
    | UpsertCard(rowId: string, url: string, entry: CardEntry)
    | GetCard(url: string)

  /** What a call lets its caller observe. */
  datatype Obs =
    | SawTask(task: Option<TaskView>)
    | SawList(total: nat, ids: set<string>)   // the reported total, and the ids on all pages together
    | SawPolicy(row: Option<AllowList>)
    | SawCard(entry: Option<CardEntry>)
    | Raised

  function View(t: Task): TaskView {
    TaskView(t.tenant, t.direction, t.peerUrl, t.skill, t.status, Same(t.input), Same(t.artifacts), t.error)
  }

  function MatchingIds(tasks: map<string, Task>, tenant: Option<string>, direction: Option<Direction>): set<string> {
    set id | id in tasks && Matches(tasks[id], tenant, direction)
  }

  /** `ORDER BY created_at DESC`, which leaves the order of ties open. */
  ghost predicate Ranking(ranked: seq<TaskRow>, rows: seq<TaskRow>) {
    multiset(ranked) == multiset(rows) && Descending(ranked)
  }

  ghost predicate Descending(rows: seq<TaskRow>) {
    forall i, j :: 0 <= i < j < |rows| ==> rows[i].value.createdAt >= rows[j].value.createdAt
  }

  lemma RankingLength(ranked: seq<TaskRow>, rows: seq<TaskRow>)
    requires Ranking(ranked, rows)
    ensures |ranked| == |rows|
  {
    assert |multiset(ranked)| == |ranked| && |multiset(rows)| == |rows|;
  }

  predicate RowMatches(c: TaskColumns, tenant: Option<string>, direction: Option<Direction>) {
    (tenant.None? || c.tenant == tenant.value) && (direction.None? || c.direction == direction.value)
  }

  /** `SELECT ... WHERE` the given filters. */
  function MatchingRows(rows: seq<TaskRow>, tenant: Option<string>, direction: Option<Direction>): seq<TaskRow> {
    if rows == [] then []
    else
      (if RowMatches(rows[0].value, tenant, direction) then [rows[0]] else [])
      + MatchingRows(rows[1..], tenant, direction)
  }

  function RowIds(rows: seq<TaskRow>): set<string> {
    if rows == [] then {} else {rows[0].key} + RowIds(rows[1..])
  }

  function MapStep(s: Store, op: Op): (Store, Obs) {
    match op
    case CreateTask(r, _) => (s.(tasks := s.tasks[r.id := r]), SawTask(Some(View(r))))
    case GetTask(id) => (s, SawTask(if id in s.tasks then Some(View(s.tasks[id])) else None))
    case UpdateTask(id, status, artifacts, error) =>
      if id !in s.tasks then (s, Raised)
      else
        var t := Updated(s.tasks[id], status, artifacts, error);
        (s.(tasks := s.tasks[id := t]), SawTask(Some(View(t))))
    case ListTasks(tenant, direction) =>
      (s, SawList(|MatchingIds(s.tasks, tenant, direction)|, MatchingIds(s.tasks, tenant, direction)))
    case UpsertPolicy(_, caller, tenant, allowed) =>
      (s.(policies := s.policies[(caller, tenant) := allowed]), SawPolicy(Some(allowed)))
    case GetPolicy(caller, tenant) => (s, SawPolicy(Get(s.policies, (caller, tenant))))
    case UpsertCard(_, url, entry) => (s.(cards := s.cards[url := entry]), SawCard(Some(entry)))
    case GetCard(url) => (s, SawCard(Get(s.cards, url)))
  }

  /** READS SEE WRITES: what was written last under a key is read back under it, and a write under one
      key is not seen under another. */
  lemma ReadsSeeWrites(s: Store, rowId: string, caller: string, tenant: string, caller2: string, tenant2: string,
                       allowed: AllowList, url: string, url2: string, entry: CardEntry, t: Task, id2: string)
    ensures
      MapStep(MapStep(s, UpsertPolicy(rowId, caller, tenant, allowed)).0, GetPolicy(caller2, tenant2)).1
      == if caller2 == caller && tenant2 == tenant then SawPolicy(Some(allowed))
         else MapStep(s, GetPolicy(caller2, tenant2)).1
    ensures
      MapStep(MapStep(s, UpsertCard(rowId, url, entry)).0, GetCard(url2)).1
      == if url2 == url then SawCard(Some(entry)) else MapStep(s, GetCard(url2)).1
    ensures
      MapStep(MapStep(s, CreateTask(t, 0)).0, GetTask(id2)).1
      == if id2 == t.id then SawTask(Some(View(t))) else MapStep(s, GetTask(id2)).1
  {
  }

  function RowStep(r: Tables, op: Op): (Tables, Obs) {
    match op
    case CreateTask(record, storedAt) =>
      if Select(r.tasks, record.id).Some? then (r, Raised)
      else (r.(tasks := r.tasks + [Row(record.id, record.id, FromDomain(record, storedAt))]),
        SawTask(ToDomain(FromDomain(record, storedAt))))
    case GetTask(id) =>
      var c := Select(r.tasks, id);
      (r, SawTask(if c.Some? then ToDomain(c.value) else None))
    case UpdateTask(id, status, artifacts, error) =>
      var c := Select(r.tasks, id);
      if c.None? then (r, Raised)
      else
        var c' := AssignColumns(c.value, status, artifacts, error);
        (r.(tasks := Upsert(r.tasks, id, id, c')), SawTask(ToDomain(c')))
    case ListTasks(tenant, direction) =>
      var rows := MatchingRows(r.tasks, tenant, direction);
      (r, SawList(|rows|, RowIds(rows)))
    case UpsertPolicy(rowId, caller, tenant, allowed) =>
      (r.(policies := Upsert(r.policies, rowId, (caller, tenant), allowed)), SawPolicy(Some(allowed)))
    case GetPolicy(caller, tenant) => (r, SawPolicy(Select(r.policies, (caller, tenant))))
    case UpsertCard(rowId, url, entry) => (r.(cards := Upsert(r.cards, rowId, url, entry)), SawCard(Some(entry)))
    case GetCard(url) => (r, SawCard(Select(r.cards, url)))
  }
}

/** The map-based store: three dictionaries mutated in place. */
module InMemory {
  import opened Prelude
  import opened Domain
  import opened TaskListing
  import opened StoreCalls

  function ValuesInOrder(tasks: map<string, Task>, order: seq<string>): seq<Task>
    requires forall k :: k in order ==> k in tasks
  {
    if order == [] then [] else [tasks[order[0]]] + ValuesInOrder(tasks, order[1..])
  }

  /** Tasks are filed under their own ids, and `order` lists the ids without repetition. */
  ghost predicate Filed(tasks: map<string, Task>, order: seq<string>) {
    && (forall k :: k in tasks <==> k in order)
    && (forall k :: k in tasks ==> tasks[k].id == k)
    && (forall i, j :: 0 <= i < j < |order| ==> order[i] != order[j])
  }

  lemma {:induction false} EachListedOnce(tasks: map<string, Task>, order: seq<string>, t: Task)
    requires forall k :: k in order ==> k in tasks && tasks[k].id == k
    requires forall i, j :: 0 <= i < j < |order| ==> order[i] != order[j]
    ensures multiset(ValuesInOrder(tasks, order))[t] == if t.id in order && tasks[t.id] == t then 1 else 0
    decreases |order|
  {
    if order != [] {
      var head, rest := tasks[order[0]], order[1..];
      EachListedOnce(tasks, rest, t);
      assert order[0] !in rest;
      assert t.id in order <==> t.id == order[0] || t.id in rest;
      var tail := ValuesInOrder(tasks, rest);
      assert multiset([head] + tail)[t] == multiset{head}[t] + multiset(tail)[t];
    }
  }

  /** PAGING PARTITION of the store: laid end to end, the pages hold every stored task that
      matches exactly once, and nothing else. */
  lemma PagesHoldEachTaskOnce(
    tasks: map<string, Task>, order: seq<string>, tenant: Option<string>, direction: Option<Direction>, limit: nat,
    t: Task)
    requires limit >= 1 && Filed(tasks, order)
    ensures multiset(AllPages(ValuesInOrder(tasks, order), tenant, direction, limit, 0))[t]
      == if (tenant == None || tenant == Some(t.tenant)) && (direction == None || direction == Some(t.direction))
            && t.id in tasks && tasks[t.id] == t
         then 1 else 0
  {
    PagingPartition(ValuesInOrder(tasks, order), tenant, direction, limit);
    EachListedOnce(tasks, order, t);
  }

  lemma InsertAddsOne(t: Task, s: seq<Task>)
    ensures |Insert(t, s)| == |s| + 1
  {
  }

  lemma {:induction false} SortKeepsLength(s: seq<Task>)
    ensures |SortByCreated(s)| == |s|
    decreases |s|
  {
    if s != [] {
      SortKeepsLength(s[1..]);
      InsertAddsOne(s[0], SortByCreated(s[1..]));
    }
  }

  /** The ids of the matching tasks among `order`. */
  function IdsAmong(
    tasks: map<string, Task>, order: seq<string>, tenant: Option<string>, direction: Option<Direction>): set<string>
    requires forall k :: k in order ==> k in tasks
  {
    if order == [] then {}
    else
      (if Matches(tasks[order[0]], tenant, direction) then {order[0]} else {})
      + IdsAmong(tasks, order[1..], tenant, direction)
  }

  lemma {:induction false} AmongAt(
    tasks: map<string, Task>, order: seq<string>, tenant: Option<string>, direction: Option<Direction>, id: string)
    requires forall k :: k in order ==> k in tasks
    ensures id in IdsAmong(tasks, order, tenant, direction) <==> id in order && Matches(tasks[id], tenant, direction)
    decreases |order|
  {
    if order != [] {
      AmongAt(tasks, order[1..], tenant, direction, id);
      assert id in order <==> id == order[0] || id in order[1..];
    }
  }

  lemma {:induction false} MatchingCount(
    tasks: map<string, Task>, order: seq<string>, tenant: Option<string>, direction: Option<Direction>)
    requires forall k :: k in order ==> k in tasks
    requires forall i, j :: 0 <= i < j < |order| ==> order[i] != order[j]
    ensures |Matching(ValuesInOrder(tasks, order), tenant, direction)| == |IdsAmong(tasks, order, tenant, direction)|
    decreases |order|
  {
    if order != [] {
      MatchingCount(tasks, order[1..], tenant, direction);
      AmongAt(tasks, order[1..], tenant, direction, order[0]);
      assert ValuesInOrder(tasks, order)[1..] == ValuesInOrder(tasks, order[1..]);
    }
  }

  /** The total that every page reports is the number of stored tasks that match. */
  lemma TotalIsMatchingIds(
    tasks: map<string, Task>, order: seq<string>, tenant: Option<string>, direction: Option<Direction>, limit: nat,
    offset: nat)
    requires Filed(tasks, order)
    ensures List(ValuesInOrder(tasks, order), tenant, direction, limit, offset).1
      == |MatchingIds(tasks, tenant, direction)|
  {
    MatchingCount(tasks, order, tenant, direction);
    SortKeepsLength(Matching(ValuesInOrder(tasks, order), tenant, direction));
    forall id
      ensures id in IdsAmong(tasks, order, tenant, direction) <==> id in MatchingIds(tasks, tenant, direction)
    {
      AmongAt(tasks, order, tenant, direction, id);
    }
    assert IdsAmong(tasks, order, tenant, direction) == MatchingIds(tasks, tenant, direction);
  }

  /** Everything an update leaves alone. */
  predicate SameTask(t: Task, now: Task) {
    && now.id == t.id && now.tenant == t.tenant && now.direction == t.direction && now.peerUrl == t.peerUrl
    && now.skill == t.skill && now.input == t.input && now.createdAt == t.createdAt
  }

  class InMemoryA2AGatewayRepository {
    var tasks: map<string, Task>
    var order: seq<string>   // a Python dictionary iterates in insertion order
    var accessPolicies: map<(string, string), AllowList>
    var cardCache: map<string, CardEntry>

    ghost predicate Valid()
      reads this
    {
      Filed(tasks, order)
    }

    ghost function Contents(): Store
      reads this
    {
      Store(tasks, accessPolicies, cardCache)
    }

    constructor ()
      ensures Valid() && Contents() == EMPTY_STORE && order == []
    {
      tasks, order, accessPolicies, cardCache := map[], [], map[], map[];
    }

    method CreateTask(record: Task, ghost storedAt: int := 0)
      requires Valid()
      modifies this
      ensures Valid()
      ensures Contents() == old(Contents()).(tasks := old(tasks)[record.id := record])
      ensures (Contents(), SawTask(Some(View(record))))
        == MapStep(old(Contents()), StoreCalls.CreateTask(record, storedAt))
      ensures order == if record.id in old(tasks) then old(order) else old(order) + [record.id]
    {
      if record.id !in tasks {
        order := order + [record.id];
      }
      tasks := tasks[record.id := record];
    }

    method GetTask(id: string) returns (t: Option<Task>)
      ensures t == Get(tasks, id)
      ensures MapStep(Contents(), StoreCalls.GetTask(id))
        == (Contents(), SawTask(if t.Some? then Some(View(t.value)) else None))
    {
      t := if id in tasks then Some(tasks[id]) else None;
    }

    /** None stands for the KeyError of an unknown task. */
    method UpdateTaskStatus(
      id: string, status: Status, artifacts: Option<Json>, error: Option<string>) returns (t: Option<Task>)
      requires Valid()
      modifies this
      ensures Valid() && order == old(order)
      ensures (Contents(), if t.Some? then SawTask(Some(View(t.value))) else Raised)
        == MapStep(old(Contents()), UpdateTask(id, status, artifacts, error))
      ensures t == if id in old(tasks) then Some(Updated(old(tasks)[id], status, artifacts, error)) else None
      ensures t.Some? ==>
        && t.value.status == status
        && t.value.artifacts == (if artifacts.Some? then artifacts.value else old(tasks)[id].artifacts)
        && t.value.error == (if error.Some? then error else old(tasks)[id].error)
        && SameTask(old(tasks)[id], t.value)
      ensures Contents() == if t.None? then old(Contents()) else old(Contents()).(tasks := old(tasks)[id := t.value])
    {
      if id !in tasks {
        return None;
      }
      var task := tasks[id].(status := status);
      if artifacts.Some? {
        task := task.(artifacts := artifacts.value);
      }
      if error.Some? {
        task := task.(error := error);
      }
      tasks := tasks[id := task];
      t := Some(task);
    }

    method ListTasks(tenant: Option<string>, direction: Option<Direction>, limit: nat, offset: nat)
      returns (page: seq<Task>, total: nat)
      requires Valid()
      ensures (page, total) == List(ValuesInOrder(tasks, order), tenant, direction, limit, offset)
      ensures MapStep(Contents(), StoreCalls.ListTasks(tenant, direction)).1.total == total
      ensures |page| == (if offset >= total then 0 else if offset + limit >= total then total - offset else limit)
      ensures limit >= 1 ==>
        forall k :: 0 <= k < |page| ==>
          offset + k < |AllPages(ValuesInOrder(tasks, order), tenant, direction, limit, 0)|
          && page[k] == AllPages(ValuesInOrder(tasks, order), tenant, direction, limit, 0)[offset + k]
    {
      if limit >= 1 {
        PageIsStretch(ValuesInOrder(tasks, order), tenant, direction, limit, offset);
      }
      TotalIsMatchingIds(tasks, order, tenant, direction, limit, offset);
      var results := SortByCreated(Matching(ValuesInOrder(tasks, order), tenant, direction));
      page, total := Slice(results, offset, limit), |results|;
    }

    method UpsertAccessPolicy(ghost rowId: string, caller: string, tenant: string, allowed: AllowList)
      requires Valid()
      modifies this
      ensures Valid() && order == old(order)
      ensures (Contents(), SawPolicy(Some(allowed)))
        == MapStep(old(Contents()), UpsertPolicy(rowId, caller, tenant, allowed))
    {
      accessPolicies := accessPolicies[(caller, tenant) := allowed];
    }

    method GetAccessPolicy(caller: string, tenant: string) returns (row: Option<AllowList>)
      ensures MapStep(Contents(), GetPolicy(caller, tenant)) == (Contents(), SawPolicy(row))
    {
      row := if (caller, tenant) in accessPolicies then Some(accessPolicies[(caller, tenant)]) else None;
    }

    method GetCachedCard(url: string) returns (e: Option<CardEntry>)
      ensures MapStep(Contents(), GetCard(url)) == (Contents(), SawCard(e))
    {
      e := if url in cardCache then Some(cardCache[url]) else None;
    }

    method UpsertCachedCard(ghost rowId: string, url: string, entry: CardEntry)
      requires Valid()
      modifies this
      ensures Valid() && order == old(order)
      ensures (Contents(), SawCard(Some(entry))) == MapStep(old(Contents()), UpsertCard(rowId, url, entry))
    {
      cardCache := cardCache[url := entry];
    }
  }
}

/** The row-based repository: an upsert selects the first matching row and then updates it in
    place or inserts a new one. */
module SqlRepository {
  import opened Prelude
  import opened Domain
  import opened TaskListing
  import opened StoreCalls

  class SQLAlchemyA2AGatewayRepository {
    var taskRows: seq<TaskRow>
    var policyRows: seq<PolicyRow>
    var cardRows: seq<CardRow>

    ghost function Rows(): Tables
      reads this
    {
      Tables(taskRows, policyRows, cardRows)
    }

    constructor ()
      ensures Rows() == NO_ROWS
    {
      taskRows, policyRows, cardRows := [], [], [];
    }

    /** False stands for the integrity error of a primary key already taken. */
    method CreateTask(record: Task, storedAt: int) returns (ok: bool)
      modifies this
      ensures (Rows(), if ok then SawTask(ToDomain(FromDomain(record, storedAt))) else Raised)
        == RowStep(old(Rows()), StoreCalls.CreateTask(record, storedAt))
    {
      ok := FirstIndex(taskRows, record.id) == |taskRows|;
      if ok {
        taskRows := taskRows + [Row(record.id, record.id, FromDomain(record, storedAt))];
      }
    }

    method GetTask(id: string) returns (t: Option<TaskView>)
      ensures RowStep(Rows(), StoreCalls.GetTask(id)) == (Rows(), SawTask(t))
    {
      var i := FirstIndex(taskRows, id);
      t := if i < |taskRows| then ToDomain(taskRows[i].value) else None;
    }

    /** `known` is false when the task is unknown and the AttributeError escapes. */
    method UpdateTaskStatus(id: string, status: Status, artifacts: Option<Json>, error: Option<string>)
      returns (known: bool, t: Option<TaskView>)
      modifies this
      ensures (Rows(), if known then SawTask(t) else Raised)
        == RowStep(old(Rows()), UpdateTask(id, status, artifacts, error))
    {
      var i := FirstIndex(taskRows, id);
      if i == |taskRows| {
        return false, None;
      }
      var m := taskRows[i].value.(status := status.Value());
      if artifacts.Some? {
        m := m.(artifacts := artifacts.value);
      }
      if error.Some? {
        m := m.(error := error);
      }
      taskRows := taskRows[i := taskRows[i].(value := m)];
      known, t := true, ToDomain(m);
    }

    /** `ranked` is the order in which the database puts the matching rows for this query: newest
        first, and ties as it likes. A row with no TaskStatus converts to None, which raises. */
    method ListTasks(
      tenant: Option<string>, direction: Option<Direction>, limit: nat, offset: nat, ranked: seq<TaskRow>)
      returns (page: seq<Option<TaskView>>, total: nat)
      requires Ranking(ranked, MatchingRows(taskRows, tenant, direction))
      ensures total == |ranked| && RowStep(Rows(), StoreCalls.ListTasks(tenant, direction)).1.total == total
      ensures |page| == (if offset >= total then 0 else if offset + limit >= total then total - offset else limit)
      ensures forall k :: 0 <= k < |page| ==> page[k] == ToDomain(ranked[offset + k].value)
    {
      RankingLength(ranked, MatchingRows(taskRows, tenant, direction));
      var rows := Slice(ranked, offset, limit);
      total := |MatchingRows(taskRows, tenant, direction)|;
      page := seq(|rows|, k requires 0 <= k < |rows| => ToDomain(rows[k].value));
    }

    method UpsertAccessPolicy(id: string, caller: string, tenant: string, allowed: AllowList)
      modifies this
      ensures (Rows(), SawPolicy(Some(allowed))) == RowStep(old(Rows()), UpsertPolicy(id, caller, tenant, allowed))
    {
      var i := FirstIndex(policyRows, (caller, tenant));
      if i < |policyRows| {
        policyRows := policyRows[i := policyRows[i].(value := allowed)];
      } else {
        policyRows := policyRows + [Row(id, (caller, tenant), allowed)];
      }
    }

    method GetAccessPolicy(caller: string, tenant: string) returns (row: Option<AllowList>)
      ensures RowStep(Rows(), GetPolicy(caller, tenant)) == (Rows(), SawPolicy(row))
    {
      var i := FirstIndex(policyRows, (caller, tenant));
      row := if i < |policyRows| then Some(policyRows[i].value) else None;
    }

    method UpsertCachedCard(id: string, url: string, entry: CardEntry)
      modifies this
      ensures (Rows(), SawCard(Some(entry))) == RowStep(old(Rows()), UpsertCard(id, url, entry))
    {
      var i := FirstIndex(cardRows, url);
      if i < |cardRows| {
        cardRows := cardRows[i := cardRows[i].(value := entry)];
      } else {
        cardRows := cardRows + [Row(id, url, entry)];
      }
    }

    method GetCachedCard(url: string) returns (e: Option<CardEntry>)
      ensures RowStep(Rows(), GetCard(url)) == (Rows(), SawCard(e))
    {
      var i := FirstIndex(cardRows, url);
      e := if i < |cardRows| then Some(cardRows[i].value) else None;
    }
  }
}

/** The row-based repository refines the map-based one. */
module StoreRefinement {
  import opened Prelude
  import opened Domain
  import opened StoreCalls

  ghost predicate Unique(r: Tables) {
    KeysUnique(r.tasks) && KeysUnique(r.policies) && KeysUnique(r.cards)
  }

  /** Rows and maps show the same thing under every key. */
  ghost predicate Agrees(r: Tables, s: Store) {
    TasksAgree(r.tasks, s.tasks) && RowsAgree(r.policies, s.policies) && RowsAgree(r.cards, s.cards)
  }

  ghost predicate RowsAgree<K(!new), V>(rows: seq<Row<K, V>>, m: map<K, V>) {
    forall k :: Select(rows, k) == Get(m, k)
  }

  lemma UpsertAgrees<K(!new), V>(rows: seq<Row<K, V>>, m: map<K, V>, id: string, key: K, value: V)
    requires KeysUnique(rows) && RowsAgree(rows, m)
    ensures KeysUnique(Upsert(rows, id, key, value)) && RowsAgree(Upsert(rows, id, key, value), m[key := value])
  {
    UpsertSpec(rows, id, key, value);
  }

  lemma SelectAgrees<K(!new), V>(rows: seq<Row<K, V>>, m: map<K, V>, key: K)
    requires RowsAgree(rows, m)
    ensures Select(rows, key) == Get(m, key)
  {
  }

  ghost predicate TasksAgree(rows: seq<TaskRow>, tasks: map<string, Task>) {
    forall id :: Shown(Select(rows, id)) == SeenIn(tasks, id)
  }

  function Shown(c: Option<TaskColumns>): Option<Option<TaskView>> {
    if c.Some? then Some(ToDomain(c.value)) else None
  }

  function SeenIn(tasks: map<string, Task>, id: string): Option<Option<TaskView>> {
    if id in tasks then Some(Some(View(tasks[id]))) else None
  }

  /** The calls on which the two stores agree: a created task has a fresh id and no error yet, its
      message is an object and its artifacts a list; artifacts written to a known task are a list. */
  predicate Agreeable(s: Store, op: Op) {
    match op
    case CreateTask(r, _) => r.id !in s.tasks && r.error == None && r.input.Obj? && r.artifacts.Arr?
    case UpdateTask(id, _, artifacts, _) => id in s.tasks && artifacts.Some? ==> artifacts.value.Arr?
    case _ => true
  }

  lemma SelectAppend<K, V>(rows: seq<Row<K, V>>, row: Row<K, V>)
    requires KeysUnique(rows) && Select(rows, row.key).None?
    ensures KeysUnique(rows + [row])
    ensures forall k :: Select(rows + [row], k) == if k == row.key then Some(row.value) else Select(rows, k)
  {
    assert rows + [row] == Upsert(rows, row.id, row.key, row.value);
    UpsertSpec(rows, row.id, row.key, row.value);
  }

  lemma CreateRefines(rows: seq<TaskRow>, tasks: map<string, Task>, t: Task, storedAt: int)
    requires KeysUnique(rows) && TasksAgree(rows, tasks) && t.id !in tasks
    requires t.error == None && t.input.Obj? && t.artifacts.Arr?
    ensures KeysUnique(rows + [Row(t.id, t.id, FromDomain(t, storedAt))])
    ensures TasksAgree(rows + [Row(t.id, t.id, FromDomain(t, storedAt))], tasks[t.id := t])
    ensures Select(rows, t.id).None? && ToDomain(FromDomain(t, storedAt)) == Some(View(t))
  {
    StatusRoundTrip(t.status, Null);
    assert Shown(Select(rows, t.id)) == SeenIn(tasks, t.id);
    SelectAppend(rows, Row(t.id, t.id, FromDomain(t, storedAt)));
  }

  lemma UpdateRefines(
    rows: seq<TaskRow>, tasks: map<string, Task>, id: string, status: Status, artifacts: Option<Json>,
    error: Option<string>)
    requires KeysUnique(rows) && TasksAgree(rows, tasks) && id in tasks && (artifacts.Some? ==> artifacts.value.Arr?)
    ensures Select(rows, id).Some?
    ensures
      var c' := AssignColumns(Select(rows, id).value, status, artifacts, error);
      var t' := Updated(tasks[id], status, artifacts, error);
      ToDomain(c') == Some(View(t')) && KeysUnique(Upsert(rows, id, id, c'))
        && TasksAgree(Upsert(rows, id, id, c'), tasks[id := t'])
  {
    StatusRoundTrip(status, Null);
    assert Shown(Select(rows, id)) == SeenIn(tasks, id);
    UpsertSpec(rows, id, id, AssignColumns(Select(rows, id).value, status, artifacts, error));
  }

  lemma StepRefines(r: Tables, s: Store, op: Op)
    requires Unique(r) && Agrees(r, s) && Agreeable(s, op)
    ensures Unique(RowStep(r, op).0) && Agrees(RowStep(r, op).0, MapStep(s, op).0)
    ensures RowStep(r, op).1 == MapStep(s, op).1
  {
    match op
    case UpsertPolicy(rowId, caller, tenant, allowed) =>
      UpsertAgrees(r.policies, s.policies, rowId, (caller, tenant), allowed);
    case UpsertCard(rowId, url, entry) => UpsertAgrees(r.cards, s.cards, rowId, url, entry);
    case GetPolicy(caller, tenant) => SelectAgrees(r.policies, s.policies, (caller, tenant));
    case GetCard(url) => SelectAgrees(r.cards, s.cards, url);
    case ListTasks(tenant, direction) => ListRefines(r.tasks, s.tasks, tenant, direction);
    case _ => TaskCallRefines(r, s, op);
  }

  lemma {:induction false} SelectRest<K, V>(rows: seq<Row<K, V>>, key: K)
    requires rows != [] && KeysUnique(rows)
    ensures Select(rows, key) == if rows[0].key == key then Some(rows[0].value) else Select(rows[1..], key)
    ensures rows[0].key == key ==> Select(rows[1..], key).None?
  {
  }

  /** Among rows with unique ids, an id is listed if and only if the row it selects matches. */
  lemma {:induction false} RowIdsAt(
    rows: seq<TaskRow>, tenant: Option<string>, direction: Option<Direction>, id: string)
    requires KeysUnique(rows)
    ensures id in RowIds(MatchingRows(rows, tenant, direction)) <==>
      Select(rows, id).Some? && RowMatches(Select(rows, id).value, tenant, direction)
    decreases |rows|
  {
    if rows != [] {
      RowIdsAt(rows[1..], tenant, direction, id);
      SelectRest(rows, id);
      var tail := MatchingRows(rows[1..], tenant, direction);
      assert ([rows[0]] + tail)[1..] == tail && [] + tail == tail;
    }
  }

  lemma {:induction false} RowIdsCount(rows: seq<TaskRow>, tenant: Option<string>, direction: Option<Direction>)
    requires KeysUnique(rows)
    ensures |RowIds(MatchingRows(rows, tenant, direction))| == |MatchingRows(rows, tenant, direction)|
    decreases |rows|
  {
    if rows != [] {
      RowIdsCount(rows[1..], tenant, direction);
      RowIdsAt(rows[1..], tenant, direction, rows[0].key);
      SelectRest(rows, rows[0].key);
      var tail := MatchingRows(rows[1..], tenant, direction);
      assert ([rows[0]] + tail)[1..] == tail && [] + tail == tail;
    }
  }

  lemma ListRefines(rows: seq<TaskRow>, tasks: map<string, Task>, tenant: Option<string>, direction: Option<Direction>)
    requires KeysUnique(rows) && TasksAgree(rows, tasks)
    ensures RowIds(MatchingRows(rows, tenant, direction)) == MatchingIds(tasks, tenant, direction)
    ensures |MatchingRows(rows, tenant, direction)| == |MatchingIds(tasks, tenant, direction)|
  {
    RowIdsCount(rows, tenant, direction);
    forall id
      ensures id in RowIds(MatchingRows(rows, tenant, direction)) <==> id in MatchingIds(tasks, tenant, direction)
    {
      assert Shown(Select(rows, id)) == SeenIn(tasks, id);
      RowIdsAt(rows, tenant, direction, id);
    }
  }

  lemma TaskCallRefines(r: Tables, s: Store, op: Op)
    requires Unique(r) && Agrees(r, s) && Agreeable(s, op)
    requires op.CreateTask? || op.GetTask? || op.UpdateTask?
    ensures
      var (r', s') := (RowStep(r, op).0, MapStep(s, op).0);
      && KeysUnique(r'.tasks) && TasksAgree(r'.tasks, s'.tasks) && RowStep(r, op).1 == MapStep(s, op).1
      && r'.policies == r.policies && r'.cards == r.cards && s'.policies == s.policies && s'.cards == s.cards
  {
    match op
    case CreateTask(t, storedAt) => CreateRefines(r.tasks, s.tasks, t, storedAt);
    case GetTask(id) => assert Shown(Select(r.tasks, id)) == SeenIn(s.tasks, id);
    case UpdateTask(id, status, artifacts, error) =>
      assert Shown(Select(r.tasks, id)) == SeenIn(s.tasks, id);
      if id in s.tasks {
        UpdateRefines(r.tasks, s.tasks, id, status, artifacts, error);
      }
  }

  function RunMaps(s: Store, ops: seq<Op>): (Store, seq<Obs>)
    decreases |ops|
  {
    if ops == [] then (s, [])
    else
      var (s1, o) := MapStep(s, ops[0]);
      var (s2, os) := RunMaps(s1, ops[1..]);
      (s2, [o] + os)
  }

  function RunRows(r: Tables, ops: seq<Op>): (Tables, seq<Obs>)
    decreases |ops|
  {
    if ops == [] then (r, [])
    else
      var (r1, o) := RowStep(r, ops[0]);
      var (r2, os) := RunRows(r1, ops[1..]);
      (r2, [o] + os)
  }

  predicate AllAgreeable(s: Store, ops: seq<Op>)
    decreases |ops|
  {
    ops == [] || (Agreeable(s, ops[0]) && AllAgreeable(MapStep(s, ops[0]).0, ops[1..]))
  }

  lemma {:induction false} RunRefines(r: Tables, s: Store, ops: seq<Op>)
    requires Unique(r) && Agrees(r, s) && AllAgreeable(s, ops)
    ensures Unique(RunRows(r, ops).0) && Agrees(RunRows(r, ops).0, RunMaps(s, ops).0)
    ensures RunRows(r, ops).1 == RunMaps(s, ops).1
    decreases |ops|
  {
    if ops != [] {
      StepRefines(r, s, ops[0]);
      RunRefines(RowStep(r, ops[0]).0, MapStep(s, ops[0]).0, ops[1..]);
    }
  }

  /** From agreeing stores a run shows the same in both if and only if each call is agreeable. */
  lemma {:induction false} RunAgreesExactly(r: Tables, s: Store, ops: seq<Op>)
    requires Unique(r) && Agrees(r, s)
    ensures RunRows(r, ops).1 == RunMaps(s, ops).1 <==> AllAgreeable(s, ops)
    decreases |ops|
  {
    if ops != [] {
      AgreementIsExact(r, s, ops[0]);
      if Agreeable(s, ops[0]) {
        StepRefines(r, s, ops[0]);
        RunAgreesExactly(RowStep(r, ops[0]).0, MapStep(s, ops[0]).0, ops[1..]);
        var (rows, maps) := (RunRows(r, ops).1, RunMaps(s, ops).1);
        assert rows[1..] == RunRows(RowStep(r, ops[0]).0, ops[1..]).1;
        assert maps[1..] == RunMaps(MapStep(s, ops[0]).0, ops[1..]).1;
        assert rows == maps <==> rows[0] == maps[0] && rows[1..] == maps[1..];
      } else {
        assert RunRows(r, ops).1[0] != RunMaps(s, ops).1[0];
      }
    }
  }

  /** STORE REFINEMENT, exactly, over every sequential call sequence from the empty store: the row
      store shows what the map store shows if and only if every call of the sequence is agreeable. */
  lemma StoreRefines(ops: seq<Op>)
    ensures RunRows(NO_ROWS, ops).1 == RunMaps(EMPTY_STORE, ops).1 <==> AllAgreeable(EMPTY_STORE, ops)
    ensures AllAgreeable(EMPTY_STORE, ops) ==> Agrees(RunRows(NO_ROWS, ops).0, RunMaps(EMPTY_STORE, ops).0)
    ensures Unique(RunRows(NO_ROWS, ops).0)
  {
    RunAgreesExactly(NO_ROWS, EMPTY_STORE, ops);
    RowsStayUnique(NO_ROWS, ops);
    if AllAgreeable(EMPTY_STORE, ops) {
      RunRefines(NO_ROWS, EMPTY_STORE, ops);
    }
  }

  /** Stored nulls and other empty values read back as an empty object and an empty list; objects and
      lists read back as they are, and nothing else does. */
  lemma EmptyReadsEmpty(c: TaskColumns, x: Json)
    ensures x in {Null, Bool(false), Num(0), Str(""), Arr([])} ==> AsDict(x) == Same(Obj(map[]))
    ensures x in {Null, Bool(false), Num(0), Str(""), Obj(map[])} ==> AsList(x) == Same(Arr([]))
    ensures AsDict(x) == Same(x) <==> x.Obj?
    ensures AsList(x) == Same(x) <==> x.Arr?
    ensures ToDomain(c).Some? ==>
      ToDomain(c).value.input == AsDict(c.input) && ToDomain(c).value.artifacts == AsList(c.artifacts)
  {
  }

  /** Uniqueness of the selecting columns needs no condition at all. */
  lemma {:induction false} RowsStayUnique(r: Tables, ops: seq<Op>)
    requires Unique(r)
    ensures Unique(RunRows(r, ops).0)
    decreases |ops|
  {
    if ops != [] {
      match ops[0] {
        case CreateTask(t, storedAt) =>
          if Select(r.tasks, t.id).None? {
            SelectAppend(r.tasks, Row(t.id, t.id, FromDomain(t, storedAt)));
          }
        case UpdateTask(id, status, artifacts, error) =>
          if Select(r.tasks, id).Some? {
            UpsertSpec(r.tasks, id, id, AssignColumns(Select(r.tasks, id).value, status, artifacts, error));
          }
        case UpsertPolicy(rowId, caller, tenant, allowed) => UpsertSpec(r.policies, rowId, (caller, tenant), allowed);
        case UpsertCard(rowId, url, entry) => UpsertSpec(r.cards, rowId, url, entry);
        case _ =>
      }
      RowsStayUnique(RowStep(r, ops[0]).0, ops[1..]);
    }
  }

  /** The condition on a call is exact: a call shows its caller the same in both stores if and
      only if it is agreeable. A created error, for one, never reaches its row. */
  lemma AgreementIsExact(r: Tables, s: Store, op: Op)
    requires Unique(r) && Agrees(r, s)
    ensures RowStep(r, op).1 == MapStep(s, op).1 <==> Agreeable(s, op)
  {
    if Agreeable(s, op) {
      StepRefines(r, s, op);
    } else {
      match op
      case CreateTask(t, _) =>
        StatusRoundTrip(t.status, Null);
        assert Shown(Select(r.tasks, t.id)) == SeenIn(s.tasks, t.id);
      case UpdateTask(id, status, artifacts, error) =>
        StatusRoundTrip(status, Null);
        assert Shown(Select(r.tasks, id)) == SeenIn(s.tasks, id);
    }
  }
}
