/**
 One breaker under overlapping calls during a total outage: every call let through fails, some
 instants later, while others arrive. A call that began while the breaker was closed may end when it
 is open or half-open, and its failure is recorded then.
 */
module BreakerOverlap {
  import opened Prelude
  import opened Breaker
  import EntitlementGate

  /** The instant the breaker first opened, the calls in flight then, and those let through before. */
  datatype Opening = Opening(at: real, flying: nat, before: nat)

  /** `admitted` holds the instants at which calls were let through to the network. */
  datatype Net = Net(clock: real, state: State, flying: nat, admitted: seq<real>, opening: Option<Opening>)

  datatype Event =
    | Pass(dt: real)
    | Arrive
    | Fail

  function Step(c: Breaker.Config, s: Net, e: Event): Net {
    match e
    case Pass(dt) => if dt > 0.0 then s.(clock := s.clock + dt) else s
    case Arrive =>
      if Admits(c, s.state, s.clock) then
        s.(state := Enter(s.state), flying := s.flying + 1, admitted := s.admitted + [s.clock])
      else s
    case Fail =>
      if s.flying == 0 then s
      else
        var next := Record(c, s.state, false, s.clock);
        var opens := s.opening.None? && next.Open?;
        s.(state := next, flying := s.flying - 1,
           opening := if opens then Some(Opening(s.clock, s.flying - 1, |s.admitted|)) else s.opening)
  }

  function Run(c: Breaker.Config, s: Net, events: seq<Event>): Net
    decreases |events|
  {
    if events == [] then s else Run(c, Step(c, s, events[0]), events[1..])
  }

  /** The outage begins: a closed breaker with some failures counted and some calls in flight. */
  function Outset(clock: real, failures: nat, flying: nat): Net {
    Net(clock, Closed(failures), flying, [], None)
  }

  /** Before the first opening each failure is the end of one call let through. `earlier` counts the
      failures and the calls in flight at the outset. */
  ghost predicate StillClosed(c: Breaker.Config, s: Net, earlier: nat) {
    s.state.Closed? && s.state.failures < c.failMax && |s.admitted| + earlier == s.state.failures + s.flying
  }

  /** After it, calls are let through one timeout apart, the first one timeout after the opening. */
  ghost predicate OnlyProbes(c: Breaker.Config, s: Net, o: Opening, earlier: nat) {
    && o.before <= |s.admitted| && o.before + earlier == c.failMax + o.flying
    && (forall i :: 0 <= i < o.before ==> s.admitted[i] <= o.at)
    && (forall i :: o.before <= i < |s.admitted| ==> s.admitted[i] >= c.timeout + SeenBefore(s.admitted, o, i))
    && (s.state.Open? ==> s.state.openedAt >= LastSeen(s, o))
    && (s.state.HalfOpen? ==> |s.admitted| > o.before)
    && !s.state.Closed?
  }

  /** The probe before number `i`, or the opening. */
  function SeenBefore(admitted: seq<real>, o: Opening, i: nat): real
    requires i <= |admitted|
  {
    if i > o.before then admitted[i - 1] else o.at
  }

  function LastSeen(s: Net, o: Opening): real {
    SeenBefore(s.admitted, o, |s.admitted|)
  }

  ghost predicate Inv(c: Breaker.Config, s: Net, earlier: nat) {
    && (forall i :: 0 <= i < |s.admitted| ==> s.admitted[i] <= s.clock)
    && (match s.opening
        case None => StillClosed(c, s, earlier)
        case Some(o) => o.at <= s.clock && OnlyProbes(c, s, o, earlier))
  }

  lemma ArriveKeepsInv(c: Breaker.Config, s: Net, earlier: nat)
    requires c.Valid() && Inv(c, s, earlier)
    ensures Inv(c, Step(c, s, Arrive), earlier)
  {
    if s.opening.Some? && Admits(c, s.state, s.clock) {
      ProbeAdded(c, s.admitted, s.opening.value, s.clock);
    }
  }

  lemma ProbeAdded(c: Breaker.Config, admitted: seq<real>, o: Opening, now: real)
    requires o.before <= |admitted| && now >= c.timeout + SeenBefore(admitted, o, |admitted|)
    requires forall i :: o.before <= i < |admitted| ==> admitted[i] >= c.timeout + SeenBefore(admitted, o, i)
    ensures
      var more := admitted + [now];
      forall i :: o.before <= i < |more| ==> more[i] >= c.timeout + SeenBefore(more, o, i)
  {
    var more := admitted + [now];
    forall i | o.before <= i < |more|
      ensures more[i] >= c.timeout + SeenBefore(more, o, i)
    {
      assert SeenBefore(more, o, i) == SeenBefore(admitted, o, i);
    }
  }

  lemma StepKeepsInv(c: Breaker.Config, s: Net, e: Event, earlier: nat)
    requires c.Valid() && Inv(c, s, earlier)
    ensures Inv(c, Step(c, s, e), earlier)
  {
    if e.Arrive? {
      ArriveKeepsInv(c, s, earlier);
    }
  }

  lemma {:induction false} RunKeepsInv(c: Breaker.Config, s: Net, events: seq<Event>, earlier: nat)
    requires c.Valid() && Inv(c, s, earlier)
    ensures Inv(c, Run(c, s, events), earlier)
    decreases |events|
  {
    if events != [] {
      StepKeepsInv(c, s, events[0], earlier);
      RunKeepsInv(c, Step(c, s, events[0]), events[1..], earlier);
    }
  }

  /** Each probe costs a timeout, counted from the opening or from an earlier probe. */
  lemma {:induction false} ProbesCost(c: Breaker.Config, s: Net, o: Opening, earlier: nat, i: nat, j: nat)
    requires OnlyProbes(c, s, o, earlier) && o.before <= i <= j < |s.admitted|
    ensures Span(j - i, c.timeout) <= s.admitted[j] - s.admitted[i]
    ensures Span(j - o.before + 1, c.timeout) <= s.admitted[j] - o.at
    decreases j
  {
    SpanSucc(j - o.before, c.timeout);
    assert s.admitted[j] >= c.timeout + SeenBefore(s.admitted, o, j);
    if j > o.before {
      ProbesCost(c, s, o, earlier, if i < j then i else j - 1, j - 1);
      if i < j {
        SpanSucc(j - 1 - i, c.timeout);
      }
    }
  }

  lemma WindowBound(c: Breaker.Config, s: Net, o: Opening, earlier: nat, i: nat, j: nat, width: real)
    requires c.Valid() && OnlyProbes(c, s, o, earlier) && width >= 0.0
    requires i <= j < |s.admitted| && s.admitted[j] - s.admitted[i] <= width
    ensures j - i + 1 <= c.failMax + o.flying + (width / c.timeout).Floor
  {
    FloorBound(0, c.timeout, width);
    if i >= o.before {
      ProbesCost(c, s, o, earlier, i, j);
      FloorBound(j - i, c.timeout, width);
    } else if j >= o.before {
      ProbesCost(c, s, o, earlier, o.before, j);
      FloorBound(j - o.before + 1, c.timeout, width);
    }
  }

  /** LOAD BOUND UNDER OVERLAP. However many calls arrive and overlap while every call fails, the calls
      let through within a window of width `width` number at most failMax, plus those in flight when
      the breaker first opens, plus floor(width / timeout). Until it opens, those in flight now take
      the place of the latter two. */
  lemma OverlapOutageBound(
    c: Breaker.Config, clock: real, failures: nat, flying: nat, events: seq<Event>, i: nat, j: nat, width: real)
    requires c.Valid() && failures < c.failMax && width >= 0.0
    requires
      var L := Run(c, Outset(clock, failures, flying), events).admitted;
      i <= j < |L| && L[j] - L[i] <= width
    ensures
      var s := Run(c, Outset(clock, failures, flying), events);
      j - i + 1 <= match s.opening
                   case None => c.failMax + s.flying
                   case Some(o) => c.failMax + o.flying + (width / c.timeout).Floor
  {
    var s, earlier := Run(c, Outset(clock, failures, flying), events), failures + flying;
    RunKeepsInv(c, Outset(clock, failures, flying), events, earlier);
    if s.opening.Some? {
      WindowBound(c, s, s.opening.value, earlier, i, j, width);
    }
  }

  /** The same for the entitlement gate's breaker: 5 plus the calls in flight plus whole half-minutes. */
  lemma GateOverlapBound(clock: real, events: seq<Event>, i: nat, j: nat, width: real)
    requires width >= 0.0
    requires
      var s := Run(EntitlementGate.GATE_BREAKER, Outset(clock, 0, 0), events);
      s.opening.Some? && i <= j < |s.admitted| && s.admitted[j] - s.admitted[i] <= width
    ensures
      var o := Run(EntitlementGate.GATE_BREAKER, Outset(clock, 0, 0), events).opening.value;
      j - i + 1 <= 5 + o.flying + (width / 30.0).Floor
  {
    OverlapOutageBound(EntitlementGate.GATE_BREAKER, clock, 0, 0, events, i, j, width);
  }
}
