/**
 Overlapping checks. The cache read and the cache write of one check straddle an `await`, so
 other checks, of the same tenant too, run in between. Nothing is assumed here about when the
 breaker lets a call through: a lookup ends in an answer or in any failure, at any later instant.
 */
module GateOverlap {
  import opened Prelude
  import EntitlementGate
  import GateRuns

  type Entry = EntitlementGate.Entry

  /** How the lookup of one check ended. */
  datatype Outcome = Answered(allowed: bool, reason: string) | Failed {
    predicate Decides(allowed: bool, reason: string) {
      match this
      case Answered(a, r) => allowed == a && reason == r
      case Failed => allowed && reason == ""
    }
  }

  /** A check that missed the cache and is waiting for its lookup. */
  datatype Waiting = Waiting(tenant: string, began: real)

  datatype Record =
    | Looked(tenant: string, began: real, ended: real, outcome: Outcome)
    | Served(tenant: string, at: real, allowed: bool, reason: string, fromCache: bool)

  datatype State = State(clock: real, cache: map<string, Entry>, waiting: map<nat, Waiting>, log: seq<Record>)

  datatype Event =
    | Tick(dt: real)
    | Begin(check: nat, tenant: string)
    | Complete(check: nat, outcome: Outcome)

  const START := State(0.0, map[], map[], [])

  /** One atomic step: everything a check does between two suspension points. An event the
      state does not enable (a reused check number, an unknown check) changes nothing. */
  function Step(ttl: real, s: State, e: Event): State {
    match e
    case Tick(dt) => if dt > 0.0 then s.(clock := s.clock + dt) else s
    case Begin(id, tenant) =>
      (match EntitlementGate.CacheHit(ttl, s.cache, tenant, s.clock)
       case Some(hit) => s.(log := s.log + [Served(tenant, s.clock, hit.allowed, hit.reason, true)])
       case None => if id in s.waiting then s else s.(waiting := s.waiting[id := Waiting(tenant, s.clock)]))
    case Complete(id, outcome) =>
      if id !in s.waiting then s
      else
        var w := s.waiting[id];
        var allowed := if outcome.Answered? then outcome.allowed else true;
        var reason := if outcome.Answered? then outcome.reason else "";
        State(s.clock,
              s.cache[w.tenant := EntitlementGate.Entry(w.began, allowed, reason)],
              s.waiting - {id},
              s.log + [Looked(w.tenant, w.began, s.clock, outcome), Served(w.tenant, s.clock, allowed, reason, false)])
  }

  function Run(ttl: real, s: State, events: seq<Event>): State
    decreases |events|
  {
    if events == [] then s else Run(ttl, Step(ttl, s, events[0]), events[1..])
  }

  /** The lookup `r` justifies the served decision `d`. */
  predicate Backs(ttl: real, r: Record, d: Record) {
    r.Looked? && d.Served? && r.tenant == d.tenant && r.began <= r.ended <= d.at
    && r.outcome.Decides(d.allowed, d.reason) && (d.fromCache ==> d.at - r.began < ttl)
  }

  /** Served decision number `k` is sound: it repeats what an earlier lookup for the same
      tenant decided, and if it came from the cache that lookup began less than `ttl` before. */
  ghost predicate Sound(ttl: real, log: seq<Record>, k: nat)
    requires k < |log| && log[k].Served?
  {
    exists j :: 0 <= j < k && Backs(ttl, log[j], log[k])
  }

  ghost predicate Inv(ttl: real, s: State) {
    && (forall id :: id in s.waiting ==> s.waiting[id].began <= s.clock)
    && (forall k :: 0 <= k < |s.log| && s.log[k].Looked? ==> s.log[k].began <= s.log[k].ended <= s.clock)
    && (forall t :: CacheIsLastEnded(s, t))
    && (forall k :: 0 <= k < |s.log| && s.log[k].Served? ==> Sound(ttl, s.log, k))
  }

  lemma SoundStays(ttl: real, log: seq<Record>, more: seq<Record>, k: nat)
    requires k < |log| && log[k].Served? && Sound(ttl, log, k)
    ensures Sound(ttl, log + more, k)
  {
    var j :| 0 <= j < k && Backs(ttl, log[j], log[k]);
    assert (log + more)[j] == log[j] && (log + more)[k] == log[k];
  }

  lemma HitKeepsInv(ttl: real, s: State, id: nat, tenant: string)
    requires Inv(ttl, s) && EntitlementGate.CacheHit(ttl, s.cache, tenant, s.clock).Some?
    ensures Inv(ttl, Step(ttl, s, Begin(id, tenant)))
  {
    var hit := s.cache[tenant];
    var d := Served(tenant, s.clock, hit.allowed, hit.reason, true);
    var log' := s.log + [d];
    forall t
      ensures CacheIsLastEnded(Step(ttl, s, Begin(id, tenant)), t)
    {
      StepKeepsCache(ttl, s, Begin(id, tenant), t);
    }
    forall k | 0 <= k < |log'| && log'[k].Served?
      ensures Sound(ttl, log', k)
    {
      if k < |s.log| {
        SoundStays(ttl, s.log, [d], k);
      } else {
        assert CacheIsLastEnded(s, tenant);
        var j := LastEndedIs(s.log, tenant);
        assert log'[j] == s.log[j] && Backs(ttl, log'[j], log'[k]);
      }
    }
  }

  lemma CompleteKeepsInv(ttl: real, s: State, id: nat, outcome: Outcome)
    requires Inv(ttl, s) && id in s.waiting
    ensures Inv(ttl, Step(ttl, s, Complete(id, outcome)))
  {
    var s' := Step(ttl, s, Complete(id, outcome));
    var w := s.waiting[id];
    var n := |s.log|;
    var more := [s'.log[n], s'.log[n + 1]];
    assert s'.log == s.log + more;
    forall t
      ensures CacheIsLastEnded(s', t)
    {
      StepKeepsCache(ttl, s, Complete(id, outcome), t);
    }
    forall k | 0 <= k < |s'.log| && s'.log[k].Served?
      ensures Sound(ttl, s'.log, k)
    {
      if k < n {
        SoundStays(ttl, s.log, more, k);
      } else {
        assert Backs(ttl, s'.log[n], s'.log[n + 1]);
      }
    }
  }

  lemma StepKeepsInv(ttl: real, s: State, e: Event)
    requires Inv(ttl, s)
    ensures Inv(ttl, Step(ttl, s, e))
  {
    forall t
      ensures CacheIsLastEnded(Step(ttl, s, e), t)
    {
      StepKeepsCache(ttl, s, e, t);
    }
    match e
    case Tick(_) =>
    case Begin(id, tenant) =>
      if EntitlementGate.CacheHit(ttl, s.cache, tenant, s.clock).Some? {
        HitKeepsInv(ttl, s, id, tenant);
      }
    case Complete(id, outcome) =>
      if id in s.waiting {
        CompleteKeepsInv(ttl, s, id, outcome);
      }
  }

  lemma {:induction false} RunKeepsInv(ttl: real, s: State, events: seq<Event>)
    requires Inv(ttl, s)
    ensures Inv(ttl, Run(ttl, s, events))
    decreases |events|
  {
    if events != [] {
      StepKeepsInv(ttl, s, events[0]);
      RunKeepsInv(ttl, Step(ttl, s, events[0]), events[1..]);
    }
  }

  /** STALENESS SOUNDNESS. In every interleaving of any number of checks, every decision served
      is Multi-tenancy's answer to an earlier lookup for the same tenant or the "allow" of that
      lookup's failure; one served from the cache comes from a lookup begun less than `ttl` before. */
  lemma StalenessSoundness(ttl: real, events: seq<Event>, k: nat)
    requires k < |Run(ttl, START, events).log| && Run(ttl, START, events).log[k].Served?
    ensures Sound(ttl, Run(ttl, START, events).log, k)
  {
    RunKeepsInv(ttl, START, events);
  }

  /** A denial is never invented: it needs an answer that denied. */
  lemma DenialsAreAnswers(ttl: real, events: seq<Event>, k: nat)
    requires
      var log := Run(ttl, START, events).log;
      k < |log| && log[k].Served? && !log[k].allowed
    ensures
      var log := Run(ttl, START, events).log;
      exists j :: 0 <= j < k && log[j].Looked? && log[j].tenant == log[k].tenant
        && log[j].outcome == Answered(false, log[k].reason)
  {
    StalenessSoundness(ttl, events, k);
  }

  /** Of the lookups for `tenant` that have ended, the one that ended last. */
  function LastEnded(log: seq<Record>, tenant: string): Option<Record>
    ensures LastEnded(log, tenant).Some? ==> LastEnded(log, tenant).value.Looked?
    decreases |log|
  {
    if log == [] then None
    else
      var r := log[|log| - 1];
      if r.Looked? && r.tenant == tenant then Some(r) else LastEnded(log[..|log| - 1], tenant)
  }

  lemma LastEndedAppend(log: seq<Record>, r: Record, tenant: string)
    ensures LastEnded(log + [r], tenant) == if r.Looked? && r.tenant == tenant then Some(r) else LastEnded(log, tenant)
  {
    assert (log + [r])[..|log|] == log;
  }

  lemma {:induction false} LastEndedIs(log: seq<Record>, tenant: string) returns (j: nat)
    requires LastEnded(log, tenant).Some?
    ensures j < |log| && LastEnded(log, tenant) == Some(log[j]) && log[j].tenant == tenant
    decreases |log|
  {
    j := |log| - 1;
    if !(log[j].Looked? && log[j].tenant == tenant) {
      j := LastEndedIs(log[..j], tenant);
    }
  }

  /** The entry that an ended lookup writes: stamped with its start, carrying its decision. */
  function EntryOf(r: Record): Entry
    requires r.Looked?
  {
    match r.outcome
    case Answered(allowed, reason) => EntitlementGate.Entry(r.began, allowed, reason)
    case Failed => EntitlementGate.Entry(r.began, true, "")
  }

  /** The cache holds, for each tenant, the stamp and decision of the lookup that ended last, which
      need not be the one that started last. */
  ghost predicate CacheIsLastEnded(s: State, tenant: string) {
    var r := LastEnded(s.log, tenant);
    Get(s.cache, tenant) == if r.Some? then Some(EntryOf(r.value)) else None
  }

  lemma StepKeepsCache(ttl: real, s: State, e: Event, tenant: string)
    requires CacheIsLastEnded(s, tenant)
    ensures CacheIsLastEnded(Step(ttl, s, e), tenant)
  {
    var s' := Step(ttl, s, e);
    if e.Begin? && |s'.log| > |s.log| {
      LastEndedAppend(s.log, s'.log[|s.log|], tenant);
    } else if e.Complete? && e.check in s.waiting {
      var n := |s.log|;
      LastEndedAppend(s.log, s'.log[n], tenant);
      LastEndedAppend(s.log + [s'.log[n]], s'.log[n + 1], tenant);
      assert s'.log == s.log + [s'.log[n]] + [s'.log[n + 1]];
    }
  }

  /** WHEN A CHECK ASKS, exactly. In every interleaving a new check starts a lookup if and only
      if no lookup for its tenant has ended yet or the one that ended last began at least `ttl`
      ago; lookups in flight, and newer ones that ended before an older one, do not count. */
  lemma AsksExactly(ttl: real, events: seq<Event>, check: nat, tenant: string)
    requires check !in Run(ttl, START, events).waiting
    ensures
      var s := Run(ttl, START, events);
      var last := LastEnded(s.log, tenant);
      check in Step(ttl, s, Begin(check, tenant)).waiting <==> last.None? || s.clock - last.value.began >= ttl
  {
    RunKeepsInv(ttl, START, events);
    assert CacheIsLastEnded(Run(ttl, START, events), tenant);
  }

  /** A new check of `tenant` in state `s` is served `allowed` and `reason` at once. */
  predicate ServedAtOnce(ttl: real, s: State, check: nat, tenant: string, allowed: bool, reason: string) {
    Step(ttl, s, Begin(check, tenant)) == s.(log := s.log + [Served(tenant, s.clock, allowed, reason, true)])
  }

  /** WHAT A CHECK IS SERVED, exactly. In every interleaving a new check is served from the cache
      if and only if the lookup of its tenant that ended last began less than `ttl` ago, and what
      it is served is that lookup's decision. */
  lemma ServedExactly(ttl: real, events: seq<Event>, check: nat, tenant: string, allowed: bool, reason: string)
    ensures
      var s := Run(ttl, START, events);
      var last := LastEnded(s.log, tenant);
      ServedAtOnce(ttl, s, check, tenant, allowed, reason) <==>
        last.Some? && s.clock - last.value.began < ttl
          && EntryOf(last.value) == EntitlementGate.Entry(last.value.began, allowed, reason)
  {
    RunKeepsInv(ttl, START, events);
    var s := Run(ttl, START, events);
    assert CacheIsLastEnded(s, tenant);
    assert |s.log + [Served(tenant, s.clock, allowed, reason, true)]| == |s.log| + 1;
    assert (s.log + [Served(tenant, s.clock, allowed, reason, true)])[|s.log|]
      == Served(tenant, s.clock, allowed, reason, true);
  }

  /** Lookup `j` for `tenant` ended, and none for it ended later. */
  ghost predicate EndedLast(log: seq<Record>, tenant: string, j: nat) {
    && j < |log| && log[j].Looked? && log[j].tenant == tenant
    && forall i :: j < i < |log| && log[i].Looked? ==> log[i].tenant != tenant
  }

  lemma {:induction false} LastEndedAt(log: seq<Record>, tenant: string, k: nat) returns (j: nat)
    requires k < |log| && log[k].Looked? && log[k].tenant == tenant
    ensures k <= j && EndedLast(log, tenant, j) && LastEnded(log, tenant) == Some(log[j])
    decreases |log|
  {
    var n := |log| - 1;
    if log[n].Looked? && log[n].tenant == tenant {
      j := n;
    } else {
      j := LastEndedAt(log[..n], tenant, k);
    }
  }

  /** No ended lookup for `tenant` began after number `k`. */
  ghost predicate Newest(log: seq<Record>, tenant: string, k: nat) {
    && k < |log| && log[k].Looked? && log[k].tenant == tenant
    && forall i :: 0 <= i < |log| && log[i].Looked? && log[i].tenant == tenant ==> log[i].began <= log[k].began
  }

  predicate SameDecision(a: Entry, b: Entry) { a.allowed == b.allowed && a.reason == b.reason }

  /** A newer decision is hidden from the next check: it is served another one instead. */
  ghost predicate Hidden(ttl: real, s: State, check: nat, tenant: string, k: nat)
    requires k < |s.log| && s.log[k].Looked?
  {
    exists allowed, reason :: ServedAtOnce(ttl, s, check, tenant, allowed, reason)
      && !(allowed == EntryOf(s.log[k]).allowed && reason == EntryOf(s.log[k]).reason)
  }

  /** WHEN A NEWER DECISION IS HIDDEN, exactly. Take the newest-begun lookup for a tenant that has
      ended, a denial say. The next check is served something else if and only if a lookup begun no
      later ended after it, is the last to have ended, is still within the TTL, and decided
      otherwise. */
  lemma HiddenExactly(ttl: real, events: seq<Event>, check: nat, tenant: string, k: nat)
    requires Newest(Run(ttl, START, events).log, tenant, k)
    ensures
      var s := Run(ttl, START, events);
      Hidden(ttl, s, check, tenant, k) <==>
        exists j :: k < j && EndedLast(s.log, tenant, j) && s.log[j].began <= s.log[k].began
          && s.clock - s.log[j].began < ttl && !SameDecision(EntryOf(s.log[j]), EntryOf(s.log[k]))
  {
    var s := Run(ttl, START, events);
    var j := LastEndedAt(s.log, tenant, k);
    var e := EntryOf(s.log[j]);
    ServedExactly(ttl, events, check, tenant, e.allowed, e.reason);
    if Hidden(ttl, s, check, tenant, k) {
      var allowed, reason :| ServedAtOnce(ttl, s, check, tenant, allowed, reason)
        && !(allowed == EntryOf(s.log[k]).allowed && reason == EntryOf(s.log[k]).reason);
      ServedExactly(ttl, events, check, tenant, allowed, reason);
      assert k < j && EndedLast(s.log, tenant, j);
    }
    if i :| k < i && EndedLast(s.log, tenant, i) && s.clock - s.log[i].began < ttl
            && !SameDecision(EntryOf(s.log[i]), EntryOf(s.log[k])) {
      assert i == j;
    }
  }

  // ---- Load of one tenant whose own checks do not overlap ----

  /** No check of `tenant` begins while a lookup of that tenant is in flight. Checks of other
      tenants overlap with it, and with one another, at will. */
  ghost predicate Alone(ttl: real, s: State, events: seq<Event>, tenant: string)
    decreases |events|
  {
    events == [] ||
    ((events[0].Begin? && events[0].tenant == tenant ==> !InFlight(s, tenant))
     && Alone(ttl, Step(ttl, s, events[0]), events[1..], tenant))
  }

  ghost predicate InFlight(s: State, tenant: string) {
    exists id :: id in s.waiting && s.waiting[id].tenant == tenant
  }

  /** The instants at which checks of `tenant` start a lookup. */
  function Starts(ttl: real, s: State, events: seq<Event>, tenant: string): seq<real>
    decreases |events|
  {
    if events == [] then []
    else
      var e, s1 := events[0], Step(ttl, s, events[0]);
      var asks := e.Begin? && e.tenant == tenant && e.check !in s.waiting && e.check in s1.waiting;
      (if asks then [s.clock] else []) + Starts(ttl, s1, events[1..], tenant)
  }

  /** The last lookup of `tenant` began at `last`: it is the one in flight, or the cached one. */
  ghost predicate Tracks(s: State, tenant: string, last: Option<real>) {
    && (forall id :: id in s.waiting && s.waiting[id].tenant == tenant ==> last == Some(s.waiting[id].began))
    && (forall i, j ::
          i in s.waiting && j in s.waiting && s.waiting[i].tenant == s.waiting[j].tenant == tenant ==> i == j)
    && (last.Some? && !InFlight(s, tenant) ==> tenant in s.cache && s.cache[tenant].stamp == last.value)
  }

  /** What `Tracks` is about after one event. */
  function NextLast(ttl: real, s: State, e: Event, tenant: string, last: Option<real>): Option<real> {
    if e.Begin? && e.tenant == tenant && e.check !in s.waiting && e.check in Step(ttl, s, e).waiting then Some(s.clock)
    else last
  }

  lemma StepTracks(ttl: real, s: State, e: Event, tenant: string, last: Option<real>)
    requires Tracks(s, tenant, last) && (e.Begin? && e.tenant == tenant ==> !InFlight(s, tenant))
    ensures Tracks(Step(ttl, s, e), tenant, NextLast(ttl, s, e, tenant, last))
    ensures NextLast(ttl, s, e, tenant, last) != last && last.Some? ==> s.clock - last.value >= ttl
  {
    var s' := Step(ttl, s, e);
    if e.Complete? && e.check in s.waiting {
      assert s'.waiting.Keys == s.waiting.Keys - {e.check};
      if s.waiting[e.check].tenant != tenant && InFlight(s, tenant) {
        var id :| id in s.waiting && s.waiting[id].tenant == tenant;
        assert id in s'.waiting;
      }
    } else if e.Begin? && e.check in s'.waiting && InFlight(s, tenant) {
      var id :| id in s.waiting && s.waiting[id].tenant == tenant;
      assert id in s'.waiting;
    } else if e.Begin? && e.check !in s.waiting && e.check in s'.waiting && e.tenant == tenant {
      assert s'.waiting[e.check].tenant == tenant;
    }
  }

  lemma {:induction false} StartsSpaced(ttl: real, s: State, events: seq<Event>, tenant: string, last: Option<real>)
    requires Tracks(s, tenant, last) && Alone(ttl, s, events, tenant)
    ensures
      var L := Starts(ttl, s, events, tenant);
      && (L != [] && last.Some? ==> L[0] - last.value >= ttl)
      && (forall k :: 0 <= k < |L| - 1 ==> L[k + 1] - L[k] >= ttl)
    decreases |events|
  {
    if events != [] {
      StepTracks(ttl, s, events[0], tenant, last);
      StartsSpaced(ttl, Step(ttl, s, events[0]), events[1..], tenant, NextLast(ttl, s, events[0], tenant, last));
    }
  }

  /** TENANT LOAD BOUND. If a tenant's own checks do not overlap, whatever those of other tenants
      do, its lookups that start within a window of width `width` number at most
      1 + floor(width / ttl). */
  lemma TenantLoadBound(ttl: real, events: seq<Event>, tenant: string, i: nat, j: nat, width: real)
    requires ttl > 0.0 && Alone(ttl, START, events, tenant)
    requires
      var L := Starts(ttl, START, events, tenant);
      i <= j < |L| && L[j] - L[i] <= width
    ensures j - i + 1 <= 1 + (width / ttl).Floor
  {
    var L := Starts(ttl, START, events, tenant);
    StartsSpaced(ttl, START, events, tenant, None);
    SpacedSpan(L, ttl, i, j);
    FloorBound(j - i, ttl, width);
  }

  /** Two checks of one tenant that overlap both ask Multi-tenancy, however long the TTL: the
      "one live call per tenant per TTL" of the module comment needs checks that do not overlap. */
  lemma OverlapDoublesLookups(ttl: real)
    ensures
      var s := Run(ttl, START, [Begin(0, "t"), Begin(1, "t")]);
      s.waiting == map[0 := Waiting("t", 0.0), 1 := Waiting("t", 0.0)]
  {
    var _ := RunTwo(ttl, START, Begin(0, "t"), Begin(1, "t"));
  }

  /** An older lookup that ends last overwrites a newer one: the denial answered to the check
      begun at 1 is lost, and the check at 3 is served the answer to the lookup begun at 0. */
  lemma OlderAnswerCanOverwriteNewer(ttl: real)
    requires ttl > 3.0
    ensures
      var events := [Begin(0, "t"), Tick(1.0), Begin(1, "t"), Complete(1, Answered(false, "suspended")),
                     Tick(1.0), Complete(0, Answered(true, "")), Tick(1.0), Begin(2, "t")];
      Run(ttl, START, events).log ==
        [Looked("t", 1.0, 1.0, Answered(false, "suspended")), Served("t", 1.0, false, "suspended", false),
         Looked("t", 0.0, 2.0, Answered(true, "")), Served("t", 2.0, true, "", false),
         Served("t", 3.0, true, "", true)]
  {
    var yes, no := Answered(true, ""), Answered(false, "suspended");
    var s1 := RunTwo(ttl, START, Begin(0, "t"), Tick(1.0));
    assert s1 == State(1.0, map[], map[0 := Waiting("t", 0.0)], []);
    var s2 := RunTwo(ttl, s1, Begin(1, "t"), Complete(1, no));
    assert s2.waiting == map[0 := Waiting("t", 0.0)];
    var s3 := RunTwo(ttl, s2, Tick(1.0), Complete(0, yes));
    assert s3.cache["t"] == EntitlementGate.Entry(0.0, true, "");
    var s4 := RunTwo(ttl, s3, Tick(1.0), Begin(2, "t"));
    var e1, e2, e3, e4 := [Begin(0, "t"), Tick(1.0)], [Begin(1, "t"), Complete(1, no)],
                          [Tick(1.0), Complete(0, yes)], [Tick(1.0), Begin(2, "t")];
    RunConcat(ttl, s2, e3, e4);
    RunConcat(ttl, s1, e2, e3 + e4);
    RunConcat(ttl, START, e1, e2 + (e3 + e4));
    assert e1 + (e2 + (e3 + e4)) ==
      [Begin(0, "t"), Tick(1.0), Begin(1, "t"), Complete(1, no), Tick(1.0), Complete(0, yes), Tick(1.0), Begin(2, "t")];
  }

  lemma RunTwo(ttl: real, s: State, e0: Event, e1: Event) returns (s': State)
    ensures s' == Run(ttl, s, [e0, e1]) == Step(ttl, Step(ttl, s, e0), e1)
  {
    s' := Step(ttl, Step(ttl, s, e0), e1);
    assert [e0, e1][1..] == [e1];
    assert Run(ttl, Step(ttl, s, e0), [e1]) == s';
  }

  lemma {:induction false} RunConcat(ttl: real, s: State, a: seq<Event>, b: seq<Event>)
    ensures Run(ttl, s, a + b) == Run(ttl, Run(ttl, s, a), b)
    decreases |a|
  {
    if a == [] {
      assert a + b == b;
    } else {
      assert (a + b)[1..] == a[1..] + b;
      RunConcat(ttl, Step(ttl, s, a[0]), a[1..], b);
    }
  }

  // ---- The middleware object is this machine without overlap ----

  function OutcomeOf(v: EntitlementGate.Verdict, r: EntitlementGate.Reply): Outcome {
    if v.source == EntitlementGate.Asked && r.Answer? then Answered(r.allowed, r.reason) else Failed
  }

  /** One check of the object as events of this machine, which stands at `clock`. */
  function EventsOf(c: EntitlementGate.Check, v: EntitlementGate.Verdict, clock: real): seq<Event> {
    [Tick(c.at - clock), Begin(0, c.tenant)]
    + if v.source == EntitlementGate.Cached then [] else [Tick(c.doneAt - c.at), Complete(0, OutcomeOf(v, c.reply))]
  }

  /** What the machine serves for a verdict of the object. */
  function ServedFor(c: EntitlementGate.Check, v: EntitlementGate.Verdict): Record {
    if v.source == EntitlementGate.Cached then Served(c.tenant, c.at, v.allowed, v.reason, true)
    else Served(c.tenant, c.doneAt, v.allowed, v.reason, false)
  }

  lemma TickThenBegin(ttl: real, s: State, at: real, tenant: string) returns (s': State)
    requires s.clock <= at && s.waiting == map[]
    ensures s' == Run(ttl, s, [Tick(at - s.clock), Begin(0, tenant)]) && s'.clock == at && s'.cache == s.cache
    ensures
      match EntitlementGate.CacheHit(ttl, s.cache, tenant, at)
      case Some(e) => s'.waiting == map[] && s'.log == s.log + [Served(tenant, at, e.allowed, e.reason, true)]
      case None => s'.waiting == map[0 := Waiting(tenant, at)] && s'.log == s.log
  {
    s' := RunTwo(ttl, s, Tick(at - s.clock), Begin(0, tenant));
  }

  lemma TickThenComplete(ttl: real, s: State, doneAt: real, w: Waiting, allowed: bool, reason: string, o: Outcome)
    returns (s': State)
    requires s.clock <= doneAt && s.waiting == map[0 := w] && o.Decides(allowed, reason)
    ensures s' == Run(ttl, s, [Tick(doneAt - s.clock), Complete(0, o)]) && s'.clock == doneAt && s'.waiting == map[]
    ensures s'.cache == s.cache[w.tenant := EntitlementGate.Entry(w.began, allowed, reason)]
    ensures s'.log
      == s.log + [Looked(w.tenant, w.began, doneAt, o)] + [Served(w.tenant, doneAt, allowed, reason, false)]
  {
    s' := RunTwo(ttl, s, Tick(doneAt - s.clock), Complete(0, o));
  }

  /** The decisions served, without the lookups. */
  function OnlyServed(log: seq<Record>): seq<Record>
    decreases |log|
  {
    if log == [] then []
    else OnlyServed(log[..|log| - 1]) + if log[|log| - 1].Served? then [log[|log| - 1]] else []
  }

  lemma OnlyServedAppend(log: seq<Record>, r: Record)
    ensures OnlyServed(log + [r]) == OnlyServed(log) + if r.Served? then [r] else []
  {
    assert (log + [r])[..|log|] == log;
  }

  /** The machine has served `v` and holds the cache of `g`, with nothing in flight. */
  ghost predicate Follows(
    s: State, s': State, g: EntitlementGate.Gate, c: EntitlementGate.Check, v: EntitlementGate.Verdict)
  {
    && s'.cache == g.cache && s'.waiting == map[]
    && s'.clock == (if v.source == EntitlementGate.Cached then c.at else c.doneAt)
    && OnlyServed(s'.log) == OnlyServed(s.log) + [ServedFor(c, v)]
  }

  /** A CHECK IS ITS EVENTS. A check of the middleware object that no other check overlaps serves
      the same verdict and leaves the same cache as its events do in this machine. */
  lemma CheckIsItsEvents(cfg: EntitlementGate.Config, g: EntitlementGate.Gate, c: EntitlementGate.Check, s: State)
    requires s.clock <= c.at <= c.callAt <= c.doneAt && s.waiting == map[] && s.cache == g.cache
    ensures
      var (g', v) := EntitlementGate.CheckStep(cfg, g, c);
      Follows(s, Run(cfg.ttl, s, EventsOf(c, v, s.clock)), g', c, v)
  {
    var (g', v) := EntitlementGate.CheckStep(cfg, g, c);
    if v.source == EntitlementGate.Cached {
      var _ := TickThenBegin(cfg.ttl, s, c.at, c.tenant);
      OnlyServedAppend(s.log, ServedFor(c, v));
      assert EventsOf(c, v, s.clock) == [Tick(c.at - s.clock), Begin(0, c.tenant)];
    } else {
      MissIsItsEvents(cfg.ttl, g', c, v, s);
    }
  }

  lemma MissIsItsEvents(
    ttl: real, g: EntitlementGate.Gate, c: EntitlementGate.Check, v: EntitlementGate.Verdict, s: State)
    requires s.clock <= c.at <= c.doneAt && s.waiting == map[] && v.source != EntitlementGate.Cached
    requires EntitlementGate.CacheHit(ttl, s.cache, c.tenant, c.at).None?
    requires g.cache == s.cache[c.tenant := EntitlementGate.Entry(c.at, v.allowed, v.reason)]
    requires OutcomeOf(v, c.reply).Decides(v.allowed, v.reason)
    ensures Follows(s, Run(ttl, s, EventsOf(c, v, s.clock)), g, c, v)
  {
    var o := OutcomeOf(v, c.reply);
    var s1 := TickThenBegin(ttl, s, c.at, c.tenant);
    RunConcat(ttl, s, [Tick(c.at - s.clock), Begin(0, c.tenant)], [Tick(c.doneAt - c.at), Complete(0, o)]);
    var _ := TickThenComplete(ttl, s1, c.doneAt, Waiting(c.tenant, c.at), v.allowed, v.reason, o);
    OnlyServedAppend(s.log, Looked(c.tenant, c.at, c.doneAt, o));
    OnlyServedAppend(s.log + [Looked(c.tenant, c.at, c.doneAt, o)], ServedFor(c, v));
  }

  /** A whole sequence of checks as events. */
  function RunEvents(
    cfg: EntitlementGate.Config, g: EntitlementGate.Gate, checks: seq<EntitlementGate.Check>, clock: real): seq<Event>
    decreases |checks|
  {
    if checks == [] then []
    else
      var c := checks[0];
      var (g1, v) := EntitlementGate.CheckStep(cfg, g, c);
      EventsOf(c, v, clock)
      + RunEvents(cfg, g1, checks[1..], if v.source == EntitlementGate.Cached then c.at else c.doneAt)
  }

  function AllServed(checks: seq<EntitlementGate.Check>, verdicts: seq<EntitlementGate.Verdict>): seq<Record>
    requires |checks| == |verdicts|
  {
    if checks == [] then [] else [ServedFor(checks[0], verdicts[0])] + AllServed(checks[1..], verdicts[1..])
  }

  lemma {:induction false} AloneConcat(ttl: real, s: State, a: seq<Event>, b: seq<Event>, tenant: string)
    requires Alone(ttl, s, a, tenant) && Alone(ttl, Run(ttl, s, a), b, tenant)
    ensures Alone(ttl, s, a + b, tenant)
    decreases |a|
  {
    if a == [] {
      assert a + b == b;
    } else {
      assert (a + b)[1..] == a[1..] + b;
      AloneConcat(ttl, Step(ttl, s, a[0]), a[1..], b, tenant);
    }
  }

  lemma EventsAreAlone(
    ttl: real, s: State, c: EntitlementGate.Check, v: EntitlementGate.Verdict, clock: real, tenant: string)
    requires s.waiting == map[]
    ensures Alone(ttl, s, EventsOf(c, v, clock), tenant)
  {
    var events := EventsOf(c, v, clock);
    var s1 := Step(ttl, s, events[0]);
    var s2 := Step(ttl, s1, events[1]);
    assert s1.waiting == map[] && Alone(ttl, s2, events[1..][1..], tenant) by {
      if |events| > 2 {
        assert events[1..][1..] == events[2..] && events[2..][1..] == [events[3]] && [events[3]][1..] == [];
        assert Alone(ttl, Step(ttl, s2, events[2]), [events[3]], tenant);
      }
    }
    assert Alone(ttl, s1, events[1..], tenant);
  }

  /** A RUN IS ITS EVENTS. A sequence of checks of the middleware object, one after another, serves
      the same verdicts and leaves the same cache as its events in this machine, in which no check of
      any tenant begins while another is in flight. So every theorem here is about the object too. */
  lemma {:induction false} RunIsItsEvents(
    cfg: EntitlementGate.Config, g: EntitlementGate.Gate, checks: seq<EntitlementGate.Check>, s: State, from: real,
    tenant: string)
    requires GateRuns.Sequential(checks, from) && s.clock <= from && s.waiting == map[] && s.cache == g.cache
    ensures
      var (s', h) := (Run(cfg.ttl, s, RunEvents(cfg, g, checks, s.clock)), GateRuns.Run(cfg, g, checks));
      && s'.cache == h.gate.cache && s'.waiting == map[]
      && OnlyServed(s'.log) == OnlyServed(s.log) + AllServed(checks, h.verdicts)
    ensures Alone(cfg.ttl, s, RunEvents(cfg, g, checks, s.clock), tenant)
    decreases |checks|
  {
    if checks != [] {
      var c := checks[0];
      var (g1, v) := EntitlementGate.CheckStep(cfg, g, c);
      var events := EventsOf(c, v, s.clock);
      var s1 := Run(cfg.ttl, s, events);
      var rest := RunEvents(cfg, g1, checks[1..], s1.clock);
      CheckIsItsEvents(cfg, g, c, s);
      EventsAreAlone(cfg.ttl, s, c, v, s.clock, tenant);
      RunIsItsEvents(cfg, g1, checks[1..], s1, c.doneAt, tenant);
      RunConcat(cfg.ttl, s, events, rest);
      AloneConcat(cfg.ttl, s, events, rest, tenant);
      VerdictsUnfold(cfg, g, checks);
    }
  }

  lemma VerdictsUnfold(cfg: EntitlementGate.Config, g: EntitlementGate.Gate, checks: seq<EntitlementGate.Check>)
    requires checks != []
    ensures
      var (g1, v) := EntitlementGate.CheckStep(cfg, g, checks[0]);
      var h := GateRuns.Run(cfg, g1, checks[1..]);
      && AllServed(checks, GateRuns.Run(cfg, g, checks).verdicts)
         == [ServedFor(checks[0], v)] + AllServed(checks[1..], h.verdicts)
      && GateRuns.Run(cfg, g, checks).gate == h.gate
  {
    var (g1, v) := EntitlementGate.CheckStep(cfg, g, checks[0]);
    assert GateRuns.Run(cfg, g, checks).verdicts[1..] == GateRuns.Run(cfg, g1, checks[1..]).verdicts;
  }
}
