/** What callers of the gateway can rely on, whatever the interleaving. */
module ProtocolTheorems {
  import opened Prelude
  import opened Domain
  import opened Protocol
  import opened ProtocolInvariant

  function LogOf(cfg: Config, acts: seq<Action>): seq<Event> { Run(cfg, START, acts).log }

  function TasksOf(cfg: Config, acts: seq<Action>): map<string, Task> { Run(cfg, START, acts).store.tasks }

  // ---- Reading justified logs ----

  lemma {:induction false} CreatedStays(log: seq<Event>, i: nat, n: nat)
    requires i < n <= |log| && log[i].Created?
    ensures TaskAt(log[..n], log[i].task.id).Some?
    decreases n
  {
    assert log[..n][..n - 1] == log[..n - 1];
    if i < n - 1 {
      CreatedStays(log, i, n - 1);
    }
  }

  lemma NoEarlierCreation(cfg: Config, log: seq<Event>, i: nat, j: nat)
    requires AllJustified(cfg, log) && i < j < |log|
    ensures !(log[i].Created? && log[j].Created? && log[i].task.id == log[j].task.id)
  {
    assert Justified(cfg, log[..j], log[j]);
    if log[i].Created? && log[j].Created? && log[i].task.id == log[j].task.id {
      CreatedStays(log, i, j);
    }
  }

  /** Two creations of one task are one event. */
  lemma CreatorIsUnique(cfg: Config, log: seq<Event>, i: nat, j: nat)
    requires AllJustified(cfg, log) && i < |log| && j < |log|
    requires log[i].Created? && log[j].Created? && log[i].task.id == log[j].task.id
    ensures i == j
  {
    if i < j {
      NoEarlierCreation(cfg, log, i, j);
    } else if j < i {
      NoEarlierCreation(cfg, log, j, i);
    }
  }

  lemma CreatorOf(cfg: Config, log: seq<Event>, i: nat, id: string) returns (k: nat)
    requires AllJustified(cfg, log) && i < |log|
    requires log[i].Finalised? || log[i].PeerAnswered? || log[i].Dispatched? || log[i].Sent?
    requires log[i].id == id
    ensures k < i && log[k].Created? && log[k].call == log[i].call && log[k].task.id == id
  {
    assert Justified(cfg, log[..i], log[i]);
    if log[i].PeerAnswered? {
      assert CreatedAs(log[..i], log[i].call, id, Outbound);
      k :| 0 <= k < i && log[..i][k].Created? && log[..i][k].call == log[i].call && log[..i][k].task.id == id;
    } else if log[i].Finalised? {
      assert CreatedFor(log[..i], log[i].call, id);
      k :| 0 <= k < i && log[..i][k].Created? && log[..i][k].call == log[i].call && log[..i][k].task.id == id;
    } else if log[i].Sent? {
      assert CreatedOut(log[..i], log[i].call, log[i].d, id);
      k :| 0 <= k < i && log[..i][k].Created? && log[..i][k].call == log[i].call && log[..i][k].task.id == id;
    } else {
      assert CreatedIn(log[..i], log[i].call, log[i].a, id);
      k :| 0 <= k < i && log[..i][k].Created? && log[..i][k].call == log[i].call && log[..i][k].task.id == id;
    }
  }

  /** The events a call causes at most once. */
  predicate IsSingle(k: Kind) { k in {KCheck, KCreate, KSend, KRead, KDispatch, KAnswer, KFinal} }

  lemma NoEarlierSingle(cfg: Config, log: seq<Event>, i: nat, j: nat, call: nat)
    requires AllJustified(cfg, log) && i < j < |log| && By(log[j], call) && IsSingle(KindOf(log[j]))
    ensures !(By(log[i], call) && KindOf(log[i]) == KindOf(log[j]))
  {
    assert Justified(cfg, log[..j], log[j]);
    assert log[..j][i] == log[i];
  }

  lemma OncePerCall(cfg: Config, log: seq<Event>, i: nat, j: nat, call: nat)
    requires AllJustified(cfg, log) && i < |log| && j < |log| && By(log[i], call) && By(log[j], call)
    requires KindOf(log[i]) == KindOf(log[j]) && IsSingle(KindOf(log[i]))
    ensures i == j
  {
    if i < j {
      NoEarlierSingle(cfg, log, i, j, call);
    } else if j < i {
      NoEarlierSingle(cfg, log, j, i, call);
    }
  }

  // ---- Task lifecycle ----

  /** FINALISED AT MOST ONCE, by the call that created the task. */
  lemma FinalisedOnce(cfg: Config, acts: seq<Action>, i: nat, j: nat)
    requires
      var log := LogOf(cfg, acts);
      i < |log| && j < |log| && log[i].Finalised? && log[j].Finalised? && log[i].id == log[j].id
    ensures i == j
  {
    Reachable(cfg, acts);
    OnceFinalised(cfg, LogOf(cfg, acts), i, j);
  }

  lemma FinalisedByCreator(cfg: Config, acts: seq<Action>, i: nat) returns (k: nat)
    requires i < |LogOf(cfg, acts)| && LogOf(cfg, acts)[i].Finalised?
    ensures var log := LogOf(cfg, acts);
      && k < i && log[k].Created? && log[k].task.id == log[i].id && log[k].call == log[i].call
      && (forall m :: 0 <= m < |log| && log[m].Created? && log[m].task.id == log[i].id ==> m == k)
  {
    Reachable(cfg, acts);
    var log := LogOf(cfg, acts);
    k := CreatorOf(cfg, log, i, log[i].id);
    forall m | 0 <= m < |log| && log[m].Created? && log[m].task.id == log[i].id
      ensures m == k
    {
      CreatorIsUnique(cfg, log, k, m);
    }
  }

  // ---- What a finalisation records ----

  /** The answer a finalised outcome comes from, received by the finalising call itself. */
  lemma AnswerOf(cfg: Config, log: seq<Event>, i: nat) returns (k: nat)
    requires AllJustified(cfg, log) && i < |log| && log[i].Finalised?
    ensures k < i && AnswerMeans(log[k], log[i].call, log[i].id, log[i].outcome)
  {
    assert Justified(cfg, log[..i], log[i]);
    k :| 0 <= k < i && AnswerMeans(log[..i][k], log[i].call, log[i].id, log[i].outcome);
  }

  /** An answer that means no outcome: the task is finalised neither before nor after it. */
  lemma UnusableIsNeverFinalised(cfg: Config, log: seq<Event>, i: nat)
    requires AllJustified(cfg, log)
    requires i < |log| && log[i].PeerAnswered? && PeerOutcome(log[i].reply).None?
    ensures !FinalisedWithin(log, log[i].id, 0, |log|)
  {
    if FinalisedWithin(log, log[i].id, 0, |log|) {
      var j :| 0 <= j < |log| && log[j].Finalised? && log[j].id == log[i].id;
      var k := CreatorOf(cfg, log, i, log[i].id);
      var m := CreatorOf(cfg, log, j, log[j].id);
      CreatorIsUnique(cfg, log, k, m);
      var n := AnswerOf(cfg, log, j);
      OncePerCall(cfg, log, i, n, log[i].call);
    }
  }

  /** No continuation of the run ever finalises the task. */
  ghost predicate NeverFinalised(cfg: Config, acts: seq<Action>, id: string) {
    forall more: seq<Action> :: !FinalisedWithin(LogOf(cfg, acts + more), id, 0, |LogOf(cfg, acts + more)|)
  }

  /** STRANDED, exactly. Whenever a call waits for its peer, the answer it then gets strands its
      task, so that no continuation of any run finalises it, if and only if the answer is no
      object with a recognised status. Every other answer, and every exception, still can land
      on the task. */
  lemma StrandedExactly(cfg: Config, acts: seq<Action>, call: nat, d: DelegateArgs, id: string, r: PeerReply)
    requires
      var calls := Run(cfg, START, acts).calls;
      call in calls && calls[call] == AwaitPeer(d, id)
    ensures NeverFinalised(cfg, acts + [Resume(call, Peer(r))], id) <==> PeerOutcome(r).None?
  {
    var acts1 := acts + [Resume(call, Peer(r))];
    if PeerOutcome(r).None? {
      forall more: seq<Action>
        ensures !FinalisedWithin(LogOf(cfg, acts1 + more), id, 0, |LogOf(cfg, acts1 + more)|)
      {
        AnswerIsLogged(cfg, acts, call, d, id, r, more);
        Reachable(cfg, acts1 + more);
        UnusableIsNeverFinalised(cfg, LogOf(cfg, acts1 + more), |LogOf(cfg, acts)|);
      }
    } else {
      UsableIsFinalised(cfg, acts, call, d, id, r);
    }
  }

  lemma RunThen(cfg: Config, acts: seq<Action>, act: Action)
    ensures Run(cfg, START, acts + [act]) == Step(cfg, Run(cfg, START, acts), act)
  {
    RunConcat(cfg, START, acts, [act]);
    var s := Run(cfg, START, acts);
    assert Run(cfg, s, [act]) == Run(cfg, Step(cfg, s, act), []);
  }

  lemma AnswerIsLogged(
    cfg: Config, acts: seq<Action>, call: nat, d: DelegateArgs, id: string, r: PeerReply, more: seq<Action>)
    requires
      var calls := Run(cfg, START, acts).calls;
      call in calls && calls[call] == AwaitPeer(d, id)
    ensures
      var (n, log) := (|LogOf(cfg, acts)|, LogOf(cfg, acts + [Resume(call, Peer(r))] + more));
      n < |log| && log[n] == PeerAnswered(call, id, r)
  {
    var acts1 := acts + [Resume(call, Peer(r))];
    RunThen(cfg, acts, Resume(call, Peer(r)));
    RunConcat(cfg, START, acts1, more);
    LogExtends(cfg, Run(cfg, START, acts1), more);
  }

  /** A usable answer is recorded by the very next step of its call. */
  lemma UsableIsFinalised(cfg: Config, acts: seq<Action>, call: nat, d: DelegateArgs, id: string, r: PeerReply)
    requires
      var calls := Run(cfg, START, acts).calls;
      call in calls && calls[call] == AwaitPeer(d, id)
    requires PeerOutcome(r).Some?
    ensures !NeverFinalised(cfg, acts + [Resume(call, Peer(r))], id)
  {
    var acts1, more, s := acts + [Resume(call, Peer(r))], [Resume(call, Nothing)], Run(cfg, START, acts);
    AwaitedTaskExists(cfg, acts, call, d, id);
    RunThen(cfg, acts, Resume(call, Peer(r)));
    RunThen(cfg, acts1, Resume(call, Nothing));
    AnswerThenFinish(cfg, s, call, d, id, r);
    var log := LogOf(cfg, acts1 + more);
    assert log[|s.log| + 1].Finalised?;
    assert FinalisedWithin(log, id, 0, |log|);
  }

  lemma AwaitedTaskExists(cfg: Config, acts: seq<Action>, call: nat, d: DelegateArgs, id: string)
    requires
      var calls := Run(cfg, START, acts).calls;
      call in calls && calls[call] == AwaitPeer(d, id)
    ensures id in TasksOf(cfg, acts)
  {
    var log := LogOf(cfg, acts);
    Reachable(cfg, acts);
    assert CreatedOut(log, call, d, id);
    var k :| 0 <= k < |log| && log[k].Created? && log[k].task.id == id;
    assert log[..|log|] == log;
    CreatedStays(log, k, |log|);
  }

  lemma AnswerThenFinish(cfg: Config, s: State, call: nat, d: DelegateArgs, id: string, r: PeerReply)
    requires call in s.calls && s.calls[call] == AwaitPeer(d, id) && id in s.store.tasks && PeerOutcome(r).Some?
    ensures
      Step(cfg, Step(cfg, s, Resume(call, Peer(r))), Resume(call, Nothing)).log
      == s.log + [PeerAnswered(call, id, r), Finalised(call, id, PeerOutcome(r).value)]
  {
  }

  // ---- Every task is accounted for ----

  /** The call at `p` has `id` in its hands. */
  predicate Holds(p: Phase, id: string) {
    || (p.SendToPeer? && p.id == id) || (p.AwaitPeer? && p.id == id)
    || (p.StartWorkflow? && p.id == id) || (p.AwaitWorkflow? && p.id == id)
    || (p.Finish? && p.id == id)
  }

  /** The call recorded an outcome of the task, or got an answer that means none. */
  predicate EndsTask(e: Event, call: nat, id: string) {
    || (e.Finalised? && e.call == call && e.id == id)
    || (e.PeerAnswered? && e.call == call && e.id == id && PeerOutcome(e.reply).None?)
  }

  ghost predicate Accounted(s: State, call: nat, id: string) {
    || (call in s.calls && Holds(s.calls[call], id))
    || exists j :: 0 <= j < |s.log| && EndsTask(s.log[j], call, id)
  }

  lemma AccountedStays(cfg: Config, s: State, act: Action, call: nat, id: string)
    requires Accounted(s, call, id)
    ensures Accounted(Step(cfg, s, act), call, id)
  {
    var s' := Step(cfg, s, act);
    StepExtends(cfg, s, act);
    if j :| 0 <= j < |s.log| && EndsTask(s.log[j], call, id) {
      assert EndsTask(s'.log[j], call, id);
    } else if act.Resume? && act.call == call && !Holds(s'.calls[call], id) {
      assert EndsTask(s'.log[|s.log|], call, id);
    }
  }

  lemma StepExtends(cfg: Config, s: State, act: Action)
    ensures s.log <= Step(cfg, s, act).log && |Step(cfg, s, act).log| <= |s.log| + 1
  {
  }

  ghost predicate AllAccounted(s: State) {
    forall i :: 0 <= i < |s.log| && s.log[i].Created? ==> Accounted(s, s.log[i].call, s.log[i].task.id)
  }

  lemma StepAccounts(cfg: Config, s: State, act: Action)
    requires AllAccounted(s)
    ensures AllAccounted(Step(cfg, s, act))
  {
    var s' := Step(cfg, s, act);
    StepExtends(cfg, s, act);
    forall i | 0 <= i < |s'.log| && s'.log[i].Created?
      ensures Accounted(s', s'.log[i].call, s'.log[i].task.id)
    {
      if i < |s.log| {
        AccountedStays(cfg, s, act, s.log[i].call, s.log[i].task.id);
      }
    }
  }

  lemma {:induction false} RunAccounts(cfg: Config, s: State, acts: seq<Action>)
    requires AllAccounted(s)
    ensures AllAccounted(Run(cfg, s, acts))
    decreases |acts|
  {
    if acts != [] {
      StepAccounts(cfg, s, acts[0]);
      RunAccounts(cfg, Step(cfg, s, acts[0]), acts[1..]);
    }
  }

  /** EVERY TASK IS ACCOUNTED FOR. In every run each created task is finalised, or its call got
      an unusable answer, or its creating call still holds it: no call drops a task silently. */
  lemma TasksAreAccountedFor(cfg: Config, acts: seq<Action>, i: nat)
    requires i < |LogOf(cfg, acts)| && LogOf(cfg, acts)[i].Created?
    ensures Accounted(Run(cfg, START, acts), LogOf(cfg, acts)[i].call, LogOf(cfg, acts)[i].task.id)
  {
    RunAccounts(cfg, START, acts);
  }

  lemma {:induction false} TaskWasCreated(log: seq<Event>, id: string) returns (k: nat)
    requires TaskAt(log, id).Some?
    ensures k < |log| && log[k].Created? && log[k].task.id == id
    decreases |log|
  {
    var n := |log| - 1;
    if log[n].Created? && log[n].task.id == id {
      k := n;
    } else {
      k := TaskWasCreated(log[..n], id);
    }
  }

  /** Only status, artifacts and error of a task ever change, and no task disappears. */
  lemma IdentityKept(cfg: Config, acts: seq<Action>, i: nat)
    requires i < |LogOf(cfg, acts)| && LogOf(cfg, acts)[i].Created?
    ensures var (t, tasks) := (LogOf(cfg, acts)[i].task, TasksOf(cfg, acts));
      t.id in tasks && SameIdentity(t, tasks[t.id])
  {
    Reachable(cfg, acts);
    var log := LogOf(cfg, acts);
    assert log[..|log|] == log;
    IdentityUpTo(cfg, log, i, |log|);
  }

  predicate SameIdentity(t: Task, now: Task) {
    now == t.(status := now.status, artifacts := now.artifacts, error := now.error)
  }

  lemma {:induction false} IdentityUpTo(cfg: Config, log: seq<Event>, i: nat, n: nat)
    requires AllJustified(cfg, log) && i < n <= |log| && log[i].Created?
    ensures TaskAt(log[..n], log[i].task.id).Some? && SameIdentity(log[i].task, TaskAt(log[..n], log[i].task.id).value)
    decreases n
  {
    assert log[..n] == log[..n - 1] + [log[n - 1]];
    ReplayAppend(log[..n - 1], log[n - 1]);
    if i < n - 1 {
      IdentityUpTo(cfg, log, i, n - 1);
      NoEarlierCreation(cfg, log, i, n - 1);
      EffectKeepsIdentity(Replay(log[..n - 1]), log[n - 1], log[i].task.id);
    }
  }

  lemma EffectKeepsIdentity(s: Store, e: Event, id: string)
    requires id in s.tasks && (e.Created? ==> e.task.id != id)
    ensures id in Effect(s, e).tasks && SameIdentity(s.tasks[id], Effect(s, e).tasks[id])
  {
  }

  lemma OnceFinalised(cfg: Config, log: seq<Event>, i: nat, j: nat)
    requires AllJustified(cfg, log) && i < |log| && j < |log| && log[i].Finalised? && log[j].Finalised?
      && log[i].id == log[j].id
    ensures i == j
  {
    var k := CreatorOf(cfg, log, i, log[i].id);
    var m := CreatorOf(cfg, log, j, log[j].id);
    CreatorIsUnique(cfg, log, k, m);
    OncePerCall(cfg, log, i, j, log[i].call);
  }

  ghost predicate CanceledWithin(log: seq<Event>, id: string, from: int, to: int) {
    exists j :: 0 <= from <= j < to <= |log| && log[j].CanceledBy? && log[j].id == id
  }

  ghost predicate FinalisedWithin(log: seq<Event>, id: string, from: int, to: int) {
    exists j :: 0 <= from <= j < to <= |log| && log[j].Finalised? && log[j].id == id
  }

  /** A task no call has finalised is as it was created, but for a cancellation. */
  lemma {:induction false} BeforeFinalised(cfg: Config, log: seq<Event>, n: nat, id: string)
    requires AllJustified(cfg, log) && n <= |log| && TaskAt(log[..n], id).Some? && !FinalisedWithin(log, id, 0, n)
    ensures var t := TaskAt(log[..n], id).value;
      t.artifacts == NO_ARTIFACTS && t.error == None
        && t.status == if CanceledWithin(log, id, 0, n) then Canceled else Submitted
    decreases n
  {
    if n > 0 {
      var e := log[n - 1];
      assert log[..n][..n - 1] == log[..n - 1] && log[..n][n - 1] == e;
      assert Justified(cfg, log[..n - 1], e);
      assert e.Finalised? ==> e.id != id;
      assert e.CanceledBy? && e.id == id ==> CanceledWithin(log, id, 0, n);
      if e.Created? && e.task.id == id {
        NeverCanceledYet(cfg, log, n - 1, id);
      } else {
        FinalisedWidens(log, id, n);
        BeforeFinalised(cfg, log, n - 1, id);
        CanceledSplit(log, id, 0, n);
      }
    }
  }

  lemma FinalisedWidens(log: seq<Event>, id: string, n: nat)
    requires 0 < n <= |log|
    ensures FinalisedWithin(log, id, 0, n - 1) ==> FinalisedWithin(log, id, 0, n)
  {
  }

  lemma CanceledSplit(log: seq<Event>, id: string, from: nat, n: nat)
    requires from < n <= |log|
    ensures CanceledWithin(log, id, from, n)
      <==> CanceledWithin(log, id, from, n - 1) || (log[n - 1].CanceledBy? && log[n - 1].id == id)
  {
    if CanceledWithin(log, id, from, n) && !(log[n - 1].CanceledBy? && log[n - 1].id == id) {
      var j :| from <= j < n && log[j].CanceledBy? && log[j].id == id;
      assert j < n - 1;
    }
    if CanceledWithin(log, id, from, n - 1) {
      var j :| from <= j < n - 1 && log[j].CanceledBy? && log[j].id == id;
    }
  }

  /** A task that does not exist yet has not been cancelled. */
  lemma NeverCanceledYet(cfg: Config, log: seq<Event>, n: nat, id: string)
    requires AllJustified(cfg, log) && n < |log| && log[n].Created? && log[n].task.id == id
    ensures !CanceledWithin(log, id, 0, n + 1)
  {
    assert Justified(cfg, log[..n], log[n]);
    if CanceledWithin(log, id, 0, n + 1) {
      var j :| 0 <= j < n + 1 && log[j].CanceledBy? && log[j].id == id;
      assert Justified(cfg, log[..j], log[j]);
      TaskGrows(log, id, j, n);
    }
  }

  lemma {:induction false} TaskGrows(log: seq<Event>, id: string, m: nat, n: nat)
    requires m <= n <= |log| && TaskAt(log[..m], id).Some?
    ensures TaskAt(log[..n], id).Some?
    decreases n
  {
    if m < n {
      TaskGrows(log, id, m, n - 1);
      assert log[..n][..n - 1] == log[..n - 1];
    }
  }

  /** After `n` events the task is the outcome recorded at `i`, CANCELED if cancelled since. */
  ghost predicate IsOutcome(log: seq<Event>, i: nat, n: nat)
    requires i < n <= |log| && log[i].Finalised?
  {
    Shows(TaskAt(log[..n], log[i].id), log[i].outcome, CanceledWithin(log, log[i].id, i + 1, n))
  }

  predicate Shows(t: Option<Task>, o: Outcome, canceled: bool) {
    && t.Some?
    && t.value.artifacts == o.artifacts.GetOr(NO_ARTIFACTS) && t.value.error == o.error
    && t.value.status == if canceled then Canceled else o.status
  }

  lemma FinalisingShows(s: Store, call: nat, id: string, o: Outcome)
    requires id in s.tasks && s.tasks[id].artifacts == NO_ARTIFACTS && s.tasks[id].error == None
    ensures Shows(Get(Effect(s, Finalised(call, id, o)).tasks, id), o, false)
  {
  }

  lemma WhenFinalised(cfg: Config, log: seq<Event>, i: nat)
    requires AllJustified(cfg, log) && i < |log| && log[i].Finalised?
    ensures IsOutcome(log, i, i + 1)
  {
    var id := log[i].id;
    var k := CreatorOf(cfg, log, i, id);
    CreatedStays(log, k, i);
    FirstFinalisation(cfg, log, i);
    BeforeFinalised(cfg, log, i, id);
    assert log[..i + 1] == log[..i] + [log[i]];
    ReplayAppend(log[..i], log[i]);
    FinalisingShows(Replay(log[..i]), log[i].call, id, log[i].outcome);
  }

  lemma FirstFinalisation(cfg: Config, log: seq<Event>, i: nat)
    requires AllJustified(cfg, log) && i < |log| && log[i].Finalised?
    ensures !FinalisedWithin(log, log[i].id, 0, i)
  {
    if FinalisedWithin(log, log[i].id, 0, i) {
      var j :| 0 <= j < i && log[j].Finalised? && log[j].id == log[i].id;
      OnceFinalised(cfg, log, j, i);
    }
  }

  lemma {:induction false} AfterFinalised(cfg: Config, log: seq<Event>, i: nat, n: nat)
    requires AllJustified(cfg, log) && i < n <= |log| && log[i].Finalised?
    ensures IsOutcome(log, i, n)
    decreases n
  {
    if n - 1 == i {
      WhenFinalised(cfg, log, i);
    } else {
      AfterFinalised(cfg, log, i, n - 1);
      OtherEvent(cfg, log, i, n - 1);
      OutcomeStep(log, i, n - 1);
    }
  }

  /** An event that neither creates nor finalises a task cancels it or leaves it alone. */
  lemma EffectOnOther(s: Store, e: Event, id: string)
    requires (e.Finalised? ==> e.id != id) && (e.Created? ==> e.task.id != id) && id in s.tasks
    ensures id in Effect(s, e).tasks
    ensures Effect(s, e).tasks[id]
      == if e.CanceledBy? && e.id == id then s.tasks[id].(status := Canceled) else s.tasks[id]
  {
  }

  lemma OutcomeStep(log: seq<Event>, i: nat, m: nat)
    requires i < m < |log| && log[i].Finalised? && IsOutcome(log, i, m)
    requires (log[m].Finalised? ==> log[m].id != log[i].id) && (log[m].Created? ==> log[m].task.id != log[i].id)
    ensures IsOutcome(log, i, m + 1)
  {
    var id := log[i].id;
    CanceledSplit(log, id, i + 1, m + 1);
    assert log[..m + 1] == log[..m] + [log[m]];
    ReplayAppend(log[..m], log[m]);
    EffectOnOther(Replay(log[..m]), log[m], id);
  }

  /** After its finalisation nothing but cancellations touches a task. */
  lemma OtherEvent(cfg: Config, log: seq<Event>, i: nat, m: nat)
    requires AllJustified(cfg, log) && i < m < |log| && log[i].Finalised?
    ensures log[m].Finalised? ==> log[m].id != log[i].id
    ensures log[m].Created? ==> log[m].task.id != log[i].id
  {
    var k := CreatorOf(cfg, log, i, log[i].id);
    if log[m].Finalised? && log[m].id == log[i].id {
      OnceFinalised(cfg, log, i, m);
    }
    if log[m].Created? && log[m].task.id == log[i].id {
      CreatorIsUnique(cfg, log, k, m);
    }
  }

  /** TASK LIFECYCLE, exactly. If some call finalised the task, the recorded outcome is what the
      answer number `k`, received by that call, means. The task's status is the outcome's, or
      CANCELED when and only when a cancellation was written afterwards; its error and artifacts
      are the outcome's. A cancellation written earlier leaves no trace. */
  lemma Lifecycle(cfg: Config, acts: seq<Action>, i: nat) returns (k: nat)
    requires i < |LogOf(cfg, acts)| && LogOf(cfg, acts)[i].Finalised?
    ensures
      var (log, tasks) := (LogOf(cfg, acts), TasksOf(cfg, acts));
      var (id, o) := (log[i].id, log[i].outcome);
      && k < i && AnswerMeans(log[k], log[i].call, id, o)
      && id in tasks
      && tasks[id].status == (if CanceledWithin(log, id, i + 1, |log|) then Canceled else o.status)
      && tasks[id].artifacts == o.artifacts.GetOr(NO_ARTIFACTS)
      && tasks[id].error == o.error
  {
    Reachable(cfg, acts);
    var log := LogOf(cfg, acts);
    assert log[..|log|] == log;
    AfterFinalised(cfg, log, i, |log|);
    k := AnswerOf(cfg, log, i);
  }

  /** The other half: a task no call finalised is SUBMITTED, or CANCELED when and only when
      someone cancelled it, with no error and no artifacts; and its creating call still holds it
      or got an answer that means no outcome. */
  lemma UnfinalisedLifecycle(cfg: Config, acts: seq<Action>, id: string) returns (k: nat)
    requires id in TasksOf(cfg, acts) && !FinalisedWithin(LogOf(cfg, acts), id, 0, |LogOf(cfg, acts)|)
    ensures
      var (log, t) := (LogOf(cfg, acts), TasksOf(cfg, acts)[id]);
      && t.status == (if CanceledWithin(log, id, 0, |log|) then Canceled else Submitted)
      && t.artifacts == NO_ARTIFACTS && t.error == None
    ensures
      var s := Run(cfg, START, acts);
      && k < |s.log| && s.log[k].Created? && s.log[k].task.id == id
      && ((s.log[k].call in s.calls && Holds(s.calls[s.log[k].call], id)) || AnsweredUnusably(s.log, s.log[k].call, id))
  {
    Reachable(cfg, acts);
    var log := LogOf(cfg, acts);
    assert log[..|log|] == log;
    BeforeFinalised(cfg, log, |log|, id);
    k := TaskWasCreated(log, id);
    TasksAreAccountedFor(cfg, acts, k);
  }

  /** The call's peer answered with no usable result or status. */
  ghost predicate AnsweredUnusably(log: seq<Event>, call: nat, id: string) {
    exists j :: 0 <= j < |log| && log[j].PeerAnswered? && log[j].call == call && log[j].id == id
      && PeerOutcome(log[j].reply).None?
  }

  /** In every reachable state an error means FAILED or CANCELED, and no artifacts. */
  lemma ErrorShape(cfg: Config, acts: seq<Action>, id: string)
    requires id in TasksOf(cfg, acts) && TasksOf(cfg, acts)[id].error.Some?
    ensures TasksOf(cfg, acts)[id].status in {Failed, Canceled} && TasksOf(cfg, acts)[id].artifacts == NO_ARTIFACTS
  {
    var log := LogOf(cfg, acts);
    Reachable(cfg, acts);
    if FinalisedWithin(log, id, 0, |log|) {
      var i :| 0 <= i < |log| && log[i].Finalised? && log[i].id == id;
      var _ := Lifecycle(cfg, acts, i);
    } else {
      var _ := UnfinalisedLifecycle(cfg, acts, id);
    }
  }

  lemma {:induction false} LogExtends(cfg: Config, s: State, acts: seq<Action>)
    ensures s.log <= Run(cfg, s, acts).log
    decreases |acts|
  {
    if acts != [] {
      LogExtends(cfg, Step(cfg, s, acts[0]), acts[1..]);
    }
  }

  /** CANCELED IS ABSORBING once a task is finalised: no continuation of the run leaves it. */
  lemma CanceledIsAbsorbing(cfg: Config, acts: seq<Action>, more: seq<Action>, i: nat)
    requires i < |LogOf(cfg, acts)| && LogOf(cfg, acts)[i].Finalised?
    requires LogOf(cfg, acts)[i].id in TasksOf(cfg, acts)
      && TasksOf(cfg, acts)[LogOf(cfg, acts)[i].id].status == Canceled
    ensures LogOf(cfg, acts)[i].id in TasksOf(cfg, acts + more)
    ensures TasksOf(cfg, acts + more)[LogOf(cfg, acts)[i].id].status == Canceled
  {
    var log, log' := LogOf(cfg, acts), LogOf(cfg, acts + more);
    RunConcat(cfg, START, acts, more);
    LogExtends(cfg, Run(cfg, START, acts), more);
    assert log'[i] == log[i];
    var _ := Lifecycle(cfg, acts, i);
    var _ := Lifecycle(cfg, acts + more, i);
    if CanceledWithin(log, log[i].id, i + 1, |log|) {
      var j :| i + 1 <= j < |log| && log[j].CanceledBy? && log[j].id == log[i].id;
      assert log'[j] == log[j];
    }
  }

  // ---- Runs that show the two failures ----

  /** A card that advertises `skill`. */
  function CardFor(skill: string): AgentCard {
    AgentCard(Str("peer"), Str(""), Str(""), [AgentSkill(Str(skill), Str(skill), Str(""))])
  }

  /** One more action of a run from the start. */
  lemma Next(cfg: Config, acts: seq<Action>, s: State, act: Action) returns (acts': seq<Action>, s': State)
    requires Run(cfg, START, acts) == s
    ensures acts' == acts + [act] && s' == Step(cfg, s, act) == Run(cfg, START, acts')
  {
    RunThen(cfg, acts, act);
    acts', s' := acts + [act], Step(cfg, s, act);
  }

  /** Every delegation can come to wait for its peer. */
  lemma ReachesAwait(cfg: Config, call: nat, d: DelegateArgs, id: string) returns (acts: seq<Action>, s: State)
    ensures s == Run(cfg, START, acts) && s.calls == map[call := AwaitPeer(d, id)]
    ensures s.store.tasks == map[id := NewTask(id, d.tenant, Outbound, d.url, d.skill, d.msg, 0)]
  {
    CardRoundTrip(CardFor(d.skill));
    assert CardFor(d.skill).skills[0].id == Str(d.skill);
    acts, s := [], START;
    acts, s := Next(cfg, acts, s, BeginDelegate(call, d));
    acts, s := Next(cfg, acts, s, Resume(call, Nothing));
    assert s.calls == map[call := FetchCard(d)];
    acts, s := Next(cfg, acts, s, Resume(call, Fetched(Some(CardToDict(CardFor(d.skill))))));
    acts, s := Next(cfg, acts, s, Resume(call, Nothing));
    acts, s := Next(cfg, acts, s, Resume(call, Nothing));
    assert s.calls == map[call := CreateOutbound(d)];
    acts, s := Next(cfg, acts, s, Resume(call, FreshId(id)));
    acts, s := Next(cfg, acts, s, Resume(call, Nothing));
  }

  /** A run from the start strands a task: for every delegation and every unusable answer. */
  lemma StrandedRun(cfg: Config, call: nat, d: DelegateArgs, id: string, r: PeerReply) returns (acts: seq<Action>)
    requires PeerOutcome(r).None?
    ensures NeverFinalised(cfg, acts, id)
    ensures id in TasksOf(cfg, acts) && TasksOf(cfg, acts)[id].status == Submitted
    ensures Run(cfg, START, acts).calls == map[call := Over(Delegated(ReplyUnusable))]
  {
    var before, s := ReachesAwait(cfg, call, d, id);
    StrandedExactly(cfg, before, call, d, id, r);
    acts, s := Next(cfg, before, s, Resume(call, Peer(r)));
  }

  /** A usable answer and a cancellation can both be about to be written. */
  lemma ReachesBothWrites(cfg: Config, worker: nat, canceller: nat, d: DelegateArgs, id: string, r: PeerReply)
    returns (acts: seq<Action>, s: State)
    requires worker != canceller && PeerOutcome(r).Some?
    ensures s == Run(cfg, START, acts) && id in s.store.tasks && worker in s.calls && canceller in s.calls
    ensures s.calls[worker] == Finish(id, PeerOutcome(r).value) && s.calls[canceller] == WriteCancel(id)
  {
    acts, s := ReachesAwait(cfg, worker, d, id);
    acts, s := Next(cfg, acts, s, Resume(worker, Peer(r)));
    acts, s := Next(cfg, acts, s, BeginCancel(canceller, id));
    acts, s := Next(cfg, acts, s, Resume(canceller, Nothing));
  }

  /** A run from the start loses a cancellation: for every delegation and every usable answer. */
  lemma CancelLostRun(
    cfg: Config, worker: nat, canceller: nat, d: DelegateArgs, id: string, r: PeerReply) returns (acts: seq<Action>)
    requires worker != canceller && PeerOutcome(r).Some?
    ensures
      var canceled, final := TasksOf(cfg, acts), TasksOf(cfg, acts + [Resume(worker, Nothing)]);
      && id in canceled && canceled[id].status == Canceled
      && id in final && final[id].status == PeerOutcome(r).value.status
      && CanceledWithin(LogOf(cfg, acts), id, 0, |LogOf(cfg, acts)|)
  {
    var s: State;
    acts, s := ReachesBothWrites(cfg, worker, canceller, d, id, r);
    EarlyCancelIsLost(cfg, s, worker, canceller, id, PeerOutcome(r).value);
    acts, s := Next(cfg, acts, s, Resume(canceller, Nothing));
    assert s.log[|s.log| - 1] == CanceledBy(canceller, id);
    var _, _ := Next(cfg, acts, s, Resume(worker, Nothing));
  }

  /** A cancellation written while the creating call is about to record its outcome is lost:
      the outcome overwrites it, from every state the machine can be in. */
  lemma EarlyCancelIsLost(cfg: Config, s: State, worker: nat, canceller: nat, id: string, o: Outcome)
    requires worker in s.calls && canceller in s.calls && id in s.store.tasks
    requires s.calls[worker] == Finish(id, o) && s.calls[canceller] == WriteCancel(id)
    ensures
      var s1 := Step(cfg, s, Resume(canceller, Nothing));
      var s2 := Step(cfg, s1, Resume(worker, Nothing));
      && s1.store.tasks[id].status == Canceled
      && s2.store.tasks[id].status == o.status
      && s2.log == s.log + [CanceledBy(canceller, id), Finalised(worker, id, o)]
  {
    var s1 := Step(cfg, s, Resume(canceller, Nothing));
    assert s1.calls[worker] == Finish(id, o);
  }

  /** CANCELLATIONS STICK, exactly. A logged cancellation shows at the end of the run if and only
      if no finalisation overwrote it: each one that came after it recorded CANCELED itself or was
      followed by another cancellation. */
  lemma CancelSticksExactly(cfg: Config, acts: seq<Action>, j: nat)
    requires j < |LogOf(cfg, acts)| && LogOf(cfg, acts)[j].CanceledBy?
    requires LogOf(cfg, acts)[j].id in TasksOf(cfg, acts)
    ensures
      var (log, id) := (LogOf(cfg, acts), LogOf(cfg, acts)[j].id);
      TasksOf(cfg, acts)[id].status == Canceled <==>
        forall i :: j < i < |log| && log[i].Finalised? && log[i].id == id ==>
          log[i].outcome.status == Canceled || CanceledWithin(log, id, i + 1, |log|)
  {
    var log, id := LogOf(cfg, acts), LogOf(cfg, acts)[j].id;
    if FinalisedWithin(log, id, 0, |log|) {
      var i :| 0 <= i < |log| && log[i].Finalised? && log[i].id == id;
      var _ := Lifecycle(cfg, acts, i);
      assert i < j ==> CanceledWithin(log, id, i + 1, |log|);
      forall i' | 0 <= i' < |log| && log[i'].Finalised? && log[i'].id == id
        ensures i' == i
      {
        FinalisedOnce(cfg, acts, i, i');
      }
    } else {
      var _ := UnfinalisedLifecycle(cfg, acts, id);
    }
  }

  /** Nothing that will be written to the task is anything but CANCELED: no call holds it, apart
      from one about to record CANCELED itself. A canceller can see this before it writes. */
  ghost predicate NoOtherOutcomeDue(s: State, id: string) {
    forall c :: c in s.calls && Holds(s.calls[c], id) ==>
      s.calls[c].Finish? && s.calls[c].outcome.status == Canceled
  }

  ghost predicate CanceledForGood(s: State, id: string) {
    id in s.store.tasks && s.store.tasks[id].status == Canceled && NoOtherOutcomeDue(s, id)
  }

  /** A step that leaves the task and its holders alone, apart from the call it moves. */
  lemma OneCallMoves(s: State, s': State, call: nat, id: string)
    requires CanceledForGood(s, id) && call in s'.calls && s'.calls == s.calls[call := s'.calls[call]]
    requires Holds(s'.calls[call], id) ==>
      s'.calls[call].Finish? && s'.calls[call].outcome.status == Canceled
    requires id in s'.store.tasks && s'.store.tasks[id].status == Canceled
    ensures CanceledForGood(s', id)
  {
  }

  lemma ResumeKeepsCanceled(cfg: Config, s: State, call: nat, input: Input, id: string)
    requires CanceledForGood(s, id) && call in s.calls
    ensures CanceledForGood(ResumeCall(cfg, s, call, s.calls[call], input), id)
  {
    var p, s' := s.calls[call], ResumeCall(cfg, s, call, s.calls[call], input);
    assert Holds(p, id) ==> p.Finish? && p.outcome.status == Canceled;
    if IsCardPhase(p) {
      OneCallMoves(s, s', call, id);
    } else if IsAcceptPhase(p) {
      OneCallMoves(s, s', call, id);
    } else {
      OneCallMoves(s, s', call, id);
    }
  }

  lemma StepKeepsCanceled(cfg: Config, s: State, act: Action, id: string)
    requires CanceledForGood(s, id)
    ensures CanceledForGood(Step(cfg, s, act), id)
  {
    if act.Resume? && act.call in s.calls {
      ResumeKeepsCanceled(cfg, s, act.call, act.input, id);
    }
  }

  lemma {:induction false} RunKeepsCanceled(cfg: Config, s: State, acts: seq<Action>, id: string)
    requires CanceledForGood(s, id)
    ensures CanceledForGood(Run(cfg, s, acts), id)
    decreases |acts|
  {
    if acts != [] {
      StepKeepsCanceled(cfg, s, acts[0], id);
      RunKeepsCanceled(cfg, Step(cfg, s, acts[0]), acts[1..], id);
    }
  }

  /** How a call that holds a task can go on to record an outcome other than CANCELED. */
  function OtherOutcome(call: nat, p: Phase): seq<Action> {
    var wake := Resume(call, Nothing);
    match p
    case SendToPeer(_, _) => [wake, Resume(call, Peer(PeerRaised(""))), wake]
    case AwaitPeer(_, _) => [Resume(call, Peer(PeerRaised(""))), wake]
    case StartWorkflow(_, _, _) => [wake, Resume(call, Workflow(StartRaised(""))), wake]
    case AwaitWorkflow(_, _) => [Resume(call, Workflow(StartRaised(""))), wake]
    case _ => [wake]
  }

  ghost predicate Overwritten(s: State, id: string) {
    id in s.store.tasks && s.store.tasks[id].status != Canceled
  }

  lemma FinishOverwrites(cfg: Config, s: State, call: nat, id: string)
    requires call in s.calls && s.calls[call].Finish? && s.calls[call].id == id && id in s.store.tasks
    requires s.calls[call].outcome.status != Canceled
    ensures Overwritten(Run(cfg, s, [Resume(call, Nothing)]), id)
  {
    assert Run(cfg, s, [Resume(call, Nothing)]) == Run(cfg, Step(cfg, s, Resume(call, Nothing)), []);
  }

  lemma AnswerOverwrites(cfg: Config, s: State, call: nat, p: Phase, id: string)
    requires call in s.calls && s.calls[call] == p && Holds(p, id) && id in s.store.tasks
    requires p.AwaitPeer? || p.AwaitWorkflow?
    ensures Overwritten(Run(cfg, s, OtherOutcome(call, p)), id)
  {
    var acts := OtherOutcome(call, p);
    assert acts[1..] == [Resume(call, Nothing)];
    FinishOverwrites(cfg, Step(cfg, s, acts[0]), call, id);
  }

  lemma HolderOverwrites(cfg: Config, s: State, call: nat, id: string)
    requires call in s.calls && Holds(s.calls[call], id) && id in s.store.tasks
    requires s.calls[call].Finish? ==> s.calls[call].outcome.status != Canceled
    ensures Overwritten(Run(cfg, s, OtherOutcome(call, s.calls[call])), id)
  {
    var p := s.calls[call];
    if p.Finish? {
      FinishOverwrites(cfg, s, call, id);
    } else if p.SendToPeer? || p.StartWorkflow? {
      var acts, s1 := OtherOutcome(call, p), Step(cfg, s, Resume(call, Nothing));
      assert acts[1..] == OtherOutcome(call, s1.calls[call]);
      AnswerOverwrites(cfg, s1, call, s1.calls[call], id);
    } else {
      AnswerOverwrites(cfg, s, call, p, id);
    }
  }

  /** In every continuation of the run the task is CANCELED. */
  ghost predicate StaysCanceled(cfg: Config, acts: seq<Action>, id: string) {
    forall more: seq<Action> ::
      id in TasksOf(cfg, acts + more) && TasksOf(cfg, acts + more)[id].status == Canceled
  }

  lemma WriteKeepsHolders(cfg: Config, s: State, canceller: nat, id: string)
    requires canceller in s.calls && s.calls[canceller] == WriteCancel(id) && id in s.store.tasks
    ensures
      var s1 := Step(cfg, s, Resume(canceller, Nothing));
      && s1.calls == s.calls[canceller := s1.calls[canceller]] && !Holds(s1.calls[canceller], id)
      && id in s1.store.tasks && s1.store.tasks[id].status == Canceled
  {
  }

  /** A CANCELLATION STAYS, exactly. Whenever a call is about to write a cancellation, writing it
      makes the task CANCELED for good, in every continuation of any run, if and only if at that
      moment no call holds the task, apart from one about to record CANCELED itself: not while it is
      being sent or started, not while its answer is awaited, and not while another outcome is due. */
  lemma CancelStaysExactly(cfg: Config, acts: seq<Action>, canceller: nat, id: string)
    requires
      var calls := Run(cfg, START, acts).calls;
      canceller in calls && calls[canceller] == WriteCancel(id)
    ensures StaysCanceled(cfg, acts + [Resume(canceller, Nothing)], id)
      <==> NoOtherOutcomeDue(Run(cfg, START, acts), id)
  {
    var s, acts1 := Run(cfg, START, acts), acts + [Resume(canceller, Nothing)];
    Reachable(cfg, acts);
    assert PhaseOk(cfg, s.log, canceller, s.calls[canceller]);
    RunThen(cfg, acts, Resume(canceller, Nothing));
    WriteKeepsHolders(cfg, s, canceller, id);
    var s1 := Run(cfg, START, acts1);
    if NoOtherOutcomeDue(s, id) {
      forall more: seq<Action>
        ensures id in TasksOf(cfg, acts1 + more) && TasksOf(cfg, acts1 + more)[id].status == Canceled
      {
        RunConcat(cfg, START, acts1, more);
        RunKeepsCanceled(cfg, s1, more, id);
      }
    } else {
      var c :| c in s.calls && Holds(s.calls[c], id)
        && !(s.calls[c].Finish? && s.calls[c].outcome.status == Canceled);
      var more := OtherOutcome(c, s1.calls[c]);
      HolderOverwrites(cfg, s1, c, id);
      RunConcat(cfg, START, acts1, more);
      assert Overwritten(Run(cfg, START, acts1 + more), id);
    }
  }

  // ---- Outbound: card freshness ----

  /** A check of a card that advertised the skill. Event number `f` fetched that very card from
      `d.url`, no later than the check; either this call fetched it itself, or less than the TTL
      had gone by. */
  ghost predicate FreshCheck(cfg: Config, log: seq<Event>, f: nat, j: nat, call: nat, d: DelegateArgs) {
    && f < j < |log| && log[j].CardChecked? && log[j].call == call && log[j].d == d && log[j].ok
    && CardSupports(log[j].entry.raw, d.skill) == Some(true)
    && log[f].CardFetched? && log[f].url == d.url && log[f].raw == log[j].entry.raw && log[f].at <= log[j].at
    && (if log[j].cached then log[j].at < log[f].at + cfg.cardTtl else log[f].call == call)
  }

  lemma CheckIsFresh(cfg: Config, log: seq<Event>, j: nat) returns (f: nat)
    requires AllJustified(cfg, log) && j < |log| && log[j].CardChecked? && log[j].ok
    ensures FreshCheck(cfg, log, f, j, log[j].call, log[j].d)
  {
    var e := log[j];
    assert Justified(cfg, log[..j], e);
    var k: nat;
    if e.cached {
      CardWasStored(log[..j], e.d.url);
      k :| 0 <= k < j && log[..j][k].CardStored? && log[..j][k].url == e.d.url && log[..j][k].entry == e.entry;
    } else {
      k :| 0 <= k < j && log[..j][k] == CardStored(e.call, e.d.url, e.entry);
    }
    assert log[k] == log[..j][k];
    assert Justified(cfg, log[..k], log[k]);
    f :| 0 <= f < k && log[..k][f] == CardFetched(log[k].call, e.d.url, e.entry.raw, e.entry.fetchedAt);
    assert log[f] == log[..k][f];
  }

  /** CARD FRESHNESS. Every outbound task created and every message sent follows a fresh check,
      by the same call, of a card fetched from that same URL that advertises that same skill. */
  lemma CardFreshness(cfg: Config, acts: seq<Action>, i: nat) returns (f: nat, j: nat)
    requires
      var log := LogOf(cfg, acts);
      i < |log| && (log[i].Sent? || (log[i].Created? && log[i].task.direction == Outbound))
    ensures
      var log := LogOf(cfg, acts);
      var d := if log[i].Sent? then log[i].d
        else DelegateArgs(log[i].task.tenant, log[i].task.peerUrl, log[i].task.skill, log[i].task.input);
      j < i && FreshCheck(cfg, log, f, j, log[i].call, d)
  {
    Reachable(cfg, acts);
    var log := LogOf(cfg, acts);
    var d := if log[i].Sent? then log[i].d
      else DelegateArgs(log[i].task.tenant, log[i].task.peerUrl, log[i].task.skill, log[i].task.input);
    assert Justified(cfg, log[..i], log[i]);
    assert CheckedOk(log[..i], log[i].call, d);
    j :| 0 <= j < i && log[..i][j].CardChecked? && log[..i][j].call == log[i].call
      && log[..i][j].d == d && log[..i][j].ok;
    f := CheckIsFresh(cfg, log, j);
  }

  /** A call whose card check failed, or that never got as far as a check because the fetch
      failed or the card did not parse, creates no outbound task and sends nothing. */
  lemma NoSkillNoTask(cfg: Config, acts: seq<Action>, i: nat)
    requires
      var log := LogOf(cfg, acts);
      i < |log| && (log[i].Sent? || (log[i].Created? && log[i].task.direction == Outbound))
    ensures
      var log := LogOf(cfg, acts);
      forall k :: 0 <= k < |log| && log[k].CardChecked? && log[k].call == log[i].call ==> log[k].ok
    ensures
      var log := LogOf(cfg, acts);
      exists k :: 0 <= k < |log| && log[k].CardChecked? && log[k].call == log[i].call
  {
    var _, j := CardFreshness(cfg, acts, i);
    Reachable(cfg, acts);
    var log := LogOf(cfg, acts);
    forall k | 0 <= k < |log| && log[k].CardChecked? && log[k].call == log[i].call
      ensures log[k].ok
    {
      OncePerCall(cfg, log, j, k, log[i].call);
    }
  }

  // ---- Inbound: authorised history ----

  /** Event `p` set the allow-list of (caller, tenant), and no event between it and `n` set it anew. */
  ghost predicate InForce(log: seq<Event>, p: nat, n: nat, caller: string, tenant: string, allowed: AllowList) {
    && p < n <= |log| && log[p] == PolicySet(caller, tenant, allowed)
    && forall i :: p < i < n && log[i].PolicySet? ==> !(log[i].caller == caller && log[i].tenant == tenant)
  }

  lemma {:induction false} PolicyWasSet(log: seq<Event>, n: nat, caller: string, tenant: string) returns (p: nat)
    requires n <= |log| && PolicyAt(log[..n], caller, tenant).Some?
    ensures InForce(log, p, n, caller, tenant, PolicyAt(log[..n], caller, tenant).value)
    decreases n
  {
    var e := log[n - 1];
    assert log[..n][..n - 1] == log[..n - 1] && log[..n][n - 1] == e;
    if e.PolicySet? && e.caller == caller && e.tenant == tenant {
      p := n - 1;
    } else {
      p := PolicyWasSet(log, n - 1, caller, tenant);
    }
  }

  lemma {:induction false} PolicyIsSet(
    log: seq<Event>, p: nat, n: nat, caller: string, tenant: string, allowed: AllowList)
    requires InForce(log, p, n, caller, tenant, allowed)
    ensures PolicyAt(log[..n], caller, tenant) == Some(allowed)
    decreases n
  {
    assert log[..n][..n - 1] == log[..n - 1] && log[..n][n - 1] == log[n - 1];
    if p < n - 1 {
      PolicyIsSet(log, p, n - 1, caller, tenant, allowed);
    }
  }

  /** The allow-list in force at `n` is null or lists the skill. */
  ghost predicate PermittedAt(log: seq<Event>, n: nat, caller: string, tenant: string, skill: string) {
    exists p: nat, allowed: AllowList ::
      InForce(log, p, n, caller, tenant, allowed) && (allowed == None || skill in allowed.value)
  }

  /** A policy row read by `call` at `j`: event `p` had set its allow-list last, and it is null or
      lists the skill; with the definition the skill map gives it. */
  ghost predicate Authorised(
    cfg: Config, log: seq<Event>, p: nat, j: nat, call: nat, a: AcceptArgs, definition: string)
  {
    && j < |log| && log[j].PolicyRead? && log[j].call == call && log[j].a == a
    && log[j].verdict == Accepted(definition)
    && p < j && log[p].PolicySet? && InForce(log, p, j, a.caller, a.tenant, log[p].allowed)
    && (log[p].allowed == None || a.skill in log[p].allowed.value)
    && a.skill in cfg.definitions && definition == cfg.definitions[a.skill]
  }

  lemma ReadIsAuthorised(cfg: Config, log: seq<Event>, j: nat) returns (p: nat)
    requires AllJustified(cfg, log) && j < |log| && log[j].PolicyRead? && log[j].verdict.Accepted?
    ensures Authorised(cfg, log, p, j, log[j].call, log[j].a, log[j].verdict.definition)
  {
    assert Justified(cfg, log[..j], log[j]);
    p := PolicyWasSet(log, j, log[j].a.caller, log[j].a.tenant);
  }

  /** DENY BY DEFAULT, exactly. In every run a request is denied if and only if no policy in force for
      its caller and tenant at that moment permits the skill: none was set, or its list lacks it. */
  lemma DeniedExactly(cfg: Config, acts: seq<Action>, j: nat)
    requires j < |LogOf(cfg, acts)| && LogOf(cfg, acts)[j].PolicyRead?
    ensures
      var (log, a) := (LogOf(cfg, acts), LogOf(cfg, acts)[j].a);
      log[j].verdict.Denied? <==> !PermittedAt(log, j, a.caller, a.tenant, a.skill)
  {
    Reachable(cfg, acts);
    var log, a := LogOf(cfg, acts), LogOf(cfg, acts)[j].a;
    assert Justified(cfg, log[..j], log[j]);
    if PermittedAt(log, j, a.caller, a.tenant, a.skill) {
      var p: nat, allowed: AllowList :|
        InForce(log, p, j, a.caller, a.tenant, allowed) && (allowed == None || a.skill in allowed.value);
      PolicyIsSet(log, p, j, a.caller, a.tenant, allowed);
    }
    if PolicyAt(log[..j], a.caller, a.tenant).Some? {
      var p := PolicyWasSet(log, j, a.caller, a.tenant);
    }
  }

  /** AUTHORISED HISTORY, tasks: every inbound task traces to one accepted request of its creating
      call and to the policy update, the last one for its caller and tenant, that permitted the skill. */
  lemma InboundTaskIsAuthorised(cfg: Config, acts: seq<Action>, i: nat)
    returns (p: nat, j: nat, a: AcceptArgs, definition: string)
    requires i < |LogOf(cfg, acts)| && LogOf(cfg, acts)[i].Created? && LogOf(cfg, acts)[i].task.direction == Inbound
    ensures
      var (log, t) := (LogOf(cfg, acts), LogOf(cfg, acts)[i].task);
      && j < i && Authorised(cfg, log, p, j, log[i].call, a, definition)
      && a == AcceptArgs(t.tenant, a.caller, t.peerUrl, t.skill, t.input)
  {
    Reachable(cfg, acts);
    var log := LogOf(cfg, acts);
    var t := log[i].task;
    assert Justified(cfg, log[..i], log[i]);
    assert TaskAccepted(log[..i], log[i].call, t);
    j :| 0 <= j < i && log[..i][j].PolicyRead? && log[..i][j].call == log[i].call && log[..i][j].verdict.Accepted?
      && log[..i][j].a == AcceptArgs(t.tenant, log[..i][j].a.caller, t.peerUrl, t.skill, t.input);
    a, definition := log[j].a, log[j].verdict.definition;
    p := ReadIsAuthorised(cfg, log, j);
  }

  /** AUTHORISED HISTORY, workflow starts: every start belongs to an inbound task its own call
      created, carries that task's tenant, skill and message and the definition the skill map
      gives the skill, and traces to a policy read of the same call and to the policy update, the last
      one for its caller and tenant, that permitted the skill. */
  lemma StartIsAuthorised(cfg: Config, acts: seq<Action>, i: nat) returns (p: nat, j: nat, k: nat)
    requires i < |LogOf(cfg, acts)| && LogOf(cfg, acts)[i].Dispatched?
    ensures
      var (log, e) := (LogOf(cfg, acts), LogOf(cfg, acts)[i]);
      && j < i && Authorised(cfg, log, p, j, e.call, e.a, e.definition)
      && k < i && log[k].Created? && log[k].call == e.call
      && log[k].task == NewTask(e.id, e.a.tenant, Inbound, e.a.peerUrl, e.a.skill, e.a.msg, log[k].task.createdAt)
  {
    Reachable(cfg, acts);
    var log := LogOf(cfg, acts);
    j, k := StartIsJustified(cfg, log, i);
    p := ReadIsAuthorised(cfg, log, j);
  }

  lemma StartIsJustified(cfg: Config, log: seq<Event>, i: nat) returns (j: nat, k: nat)
    requires AllJustified(cfg, log) && i < |log| && log[i].Dispatched?
    ensures j < i && log[j].PolicyRead? && log[j].call == log[i].call && log[j].a == log[i].a
    ensures log[j].verdict == Accepted(log[i].definition)
    ensures
      var a := log[i].a;
      && k < i && log[k].Created? && log[k].call == log[i].call
      && log[k].task == NewTask(log[i].id, a.tenant, Inbound, a.peerUrl, a.skill, a.msg, log[k].task.createdAt)
  {
    var e := log[i];
    assert Justified(cfg, log[..i], e);
    assert ReadAccepts(log[..i], e.call, e.a, e.definition) && CreatedIn(log[..i], e.call, e.a, e.id);
    j :| 0 <= j < i && log[..i][j].PolicyRead? && log[..i][j].call == e.call && log[..i][j].a == e.a
      && log[..i][j].verdict == Accepted(e.definition);
    k :| 0 <= k < i && log[..i][k].Created? && log[..i][k].call == e.call
      && log[..i][k].task
         == NewTask(e.id, e.a.tenant, Inbound, e.a.peerUrl, e.a.skill, e.a.msg, log[..i][k].task.createdAt);
  }

  // ---- What becomes of tasks, by the answers themselves ----

  /** The task of an answer: created by its call, in the answer's direction, and still filed. */
  lemma AnsweredTask(cfg: Config, acts: seq<Action>, k: nat)
    requires k < |LogOf(cfg, acts)| && (LogOf(cfg, acts)[k].PeerAnswered? || LogOf(cfg, acts)[k].WorkflowAnswered?)
    ensures LogOf(cfg, acts)[k].id in TasksOf(cfg, acts)
    ensures TasksOf(cfg, acts)[LogOf(cfg, acts)[k].id].direction
      == if LogOf(cfg, acts)[k].PeerAnswered? then Outbound else Inbound
  {
    Reachable(cfg, acts);
    var log := LogOf(cfg, acts);
    var e := log[k];
    assert Justified(cfg, log[..k], e);
    var direction := if e.PeerAnswered? then Outbound else Inbound;
    assert CreatedAs(log[..k], e.call, e.id, direction);
    var i :| 0 <= i < k && log[..k][i].Created? && log[..k][i].task.id == e.id
      && log[..k][i].task.direction == direction;
    IdentityKept(cfg, acts, i);
  }

  /** One answer per finalised task: the outcome recorded is the one this answer means. */
  lemma OutcomeOfAnswer(cfg: Config, acts: seq<Action>, k: nat, i: nat)
    requires
      var log := LogOf(cfg, acts);
      k < |log| && (log[k].PeerAnswered? || log[k].WorkflowAnswered?)
      && i < |log| && log[i].Finalised? && log[i].id == log[k].id
    ensures var log := LogOf(cfg, acts); AnswerMeans(log[k], log[i].call, log[i].id, log[i].outcome)
  {
    Reachable(cfg, acts);
    var log := LogOf(cfg, acts);
    var m := AnswerOf(cfg, log, i);
    var c := CreatorOf(cfg, log, i, log[i].id);
    var c' := AnsweredCreator(cfg, log, k);
    CreatorIsUnique(cfg, log, c, c');
    OncePerCall(cfg, log, k, m, log[i].call);
  }

  lemma AnsweredCreator(cfg: Config, log: seq<Event>, k: nat) returns (c: nat)
    requires AllJustified(cfg, log) && k < |log| && (log[k].PeerAnswered? || log[k].WorkflowAnswered?)
    ensures c < k && log[c].Created? && log[c].call == log[k].call && log[c].task.id == log[k].id
  {
    var e := log[k];
    assert Justified(cfg, log[..k], e);
    assert CreatedAs(log[..k], e.call, e.id, if e.PeerAnswered? then Outbound else Inbound);
    c :| 0 <= c < k && log[..k][c].Created? && log[..k][c].call == e.call && log[..k][c].task.id == e.id;
  }

  /** DISPATCHED TASKS. Once the start of an inbound task was answered and recorded: if the workflow
      started, the task is WORKING, with one artifact that holds the instance's id and trace id, null
      where the answer has none; if the start raised, it is FAILED with that message and no artifacts;
      and CANCELED instead when and only when a cancellation was written afterwards. */
  lemma DispatchedTask(cfg: Config, acts: seq<Action>, k: nat, i: nat)
    requires
      var log := LogOf(cfg, acts);
      k < |log| && log[k].WorkflowAnswered? && i < |log| && log[i].Finalised? && log[i].id == log[k].id
    ensures
      var (log, tasks) := (LogOf(cfg, acts), TasksOf(cfg, acts));
      && log[k].id in tasks
      && var (t, canceled) := (tasks[log[k].id], CanceledWithin(log, log[k].id, i + 1, |log|));
         match log[k].started
         case InstanceStarted(body) =>
           && t.status == (if canceled then Canceled else Working) && t.error == None
           && t.artifacts == Arr([Obj(map[
                "workflow_instance_id" := if "id" in body then body["id"] else Null,
                "trace_id" := if "trace_id" in body then body["trace_id"] else Null])])
         case StartRaised(message) =>
           t.status == (if canceled then Canceled else Failed) && t.error == Some(message) && t.artifacts == Arr([])
  {
    OutcomeOfAnswer(cfg, acts, k, i);
    var _ := Lifecycle(cfg, acts, i);
  }

  /** INBOUND STATUSES. In every run an inbound task is SUBMITTED, WORKING, FAILED or CANCELED. */
  lemma InboundStatuses(cfg: Config, acts: seq<Action>, id: string)
    requires id in TasksOf(cfg, acts) && TasksOf(cfg, acts)[id].direction == Inbound
    ensures TasksOf(cfg, acts)[id].status in {Submitted, Working, Failed, Canceled}
  {
    var log := LogOf(cfg, acts);
    if FinalisedWithin(log, id, 0, |log|) {
      var i :| 0 <= i < |log| && log[i].Finalised? && log[i].id == id;
      Reachable(cfg, acts);
      var k := AnswerOf(cfg, log, i);
      AnsweredTask(cfg, acts, k);
      DispatchedTask(cfg, acts, k, i);
    } else {
      var _ := UnfinalisedLifecycle(cfg, acts, id);
    }
  }

  /** DELEGATED TASKS. Once the answer to a delegation was recorded: if sending raised, the task is
      FAILED with that message and no artifacts; if the peer's result is an object, the task has the
      status its "status" names, WORKING if it has none, and its "artifacts", empty if it has none or
      null, and no error; and CANCELED when and only when a cancellation was written afterwards. */
  lemma DelegatedTaskOutcome(cfg: Config, acts: seq<Action>, k: nat, i: nat)
    requires
      var log := LogOf(cfg, acts);
      k < |log| && log[k].PeerAnswered? && i < |log| && log[i].Finalised? && log[i].id == log[k].id
    ensures
      var (log, tasks) := (LogOf(cfg, acts), TasksOf(cfg, acts));
      && log[k].id in tasks
      && var (t, canceled) := (tasks[log[k].id], CanceledWithin(log, log[k].id, i + 1, |log|));
         match log[k].reply
         case PeerRaised(message) =>
           t.status == (if canceled then Canceled else Failed) && t.error == Some(message) && t.artifacts == Arr([])
         case PeerResult(result) =>
           && result.Obj? && t.error == None
           && (canceled ==> t.status == Canceled)
           && (!canceled ==>
                 Str(t.status.Value()) == if "status" in result.fields then result.fields["status"] else Str("working"))
           && t.artifacts == (if "artifacts" in result.fields && result.fields["artifacts"] != Null
                              then result.fields["artifacts"] else Arr([]))
  {
    OutcomeOfAnswer(cfg, acts, k, i);
    var _ := Lifecycle(cfg, acts, i);
    PeerOutcomeExactly(LogOf(cfg, acts)[k].reply);
  }

  /** PEER ANSWERS, exactly. An answer means no outcome if and only if its result is no object, or has
      a "status" that is none of the six words. */
  lemma PeerOutcomeExactly(r: PeerReply)
    ensures PeerOutcome(r).None? <==>
      r.PeerResult? &&
      (!r.result.Obj? ||
       ("status" in r.result.fields && r.result.fields["status"] !in
          {Str("submitted"), Str("working"), Str("input_required"), Str("completed"), Str("failed"), Str("canceled")}))
    ensures r.PeerResult? && PeerOutcome(r).Some? ==>
      (if "status" in r.result.fields then r.result.fields["status"] else Str("working"))
        == Str(PeerOutcome(r).value.status.Value())
  {
    if r.PeerResult? && r.result.Obj? {
      var x := if "status" in r.result.fields then r.result.fields["status"] else Str("working");
      StatusWordsExactly(x);
      if ParseStatus(x).Some? {
        StatusRoundTrip(ParseStatus(x).value, x);
      }
    }
  }

  lemma StatusWordsExactly(x: Json)
    ensures
      ParseStatus(x).Some? <==>
      x in {Str("submitted"), Str("working"), Str("input_required"), Str("completed"), Str("failed"), Str("canceled")}
  {
  }

  /** Each inbound task is started at most once. */
  lemma StartedOnce(cfg: Config, acts: seq<Action>, i: nat, j: nat)
    requires
      var log := LogOf(cfg, acts);
      i < |log| && j < |log| && log[i].Dispatched? && log[j].Dispatched? && log[i].id == log[j].id
    ensures i == j
  {
    Reachable(cfg, acts);
    var log := LogOf(cfg, acts);
    var k := CreatorOf(cfg, log, i, log[i].id);
    var m := CreatorOf(cfg, log, j, log[j].id);
    CreatorIsUnique(cfg, log, k, m);
    OncePerCall(cfg, log, i, j, log[i].call);
  }

  /** A denied or unknown-skill request leaves nothing behind: the deciding step keeps the store
      and ends the call, and that call creates no inbound task and starts no workflow, ever. */
  lemma RejectionLeavesNothing(cfg: Config, acts: seq<Action>, j: nat)
    requires
      var log := LogOf(cfg, acts);
      j < |log| && log[j].PolicyRead? && !log[j].verdict.Accepted?
    ensures Replay(LogOf(cfg, acts)[..j + 1]) == Replay(LogOf(cfg, acts)[..j])
    ensures
      var log := LogOf(cfg, acts);
      forall i :: 0 <= i < |log| && By(log[i], log[j].call) ==>
        !log[i].Dispatched? && !(log[i].Created? && log[i].task.direction == Inbound)
  {
    Reachable(cfg, acts);
    var log := LogOf(cfg, acts);
    assert log[..j + 1][..j] == log[..j];
    forall i | 0 <= i < |log| && By(log[i], log[j].call)
      ensures !log[i].Dispatched? && !(log[i].Created? && log[i].task.direction == Inbound)
    {
      if log[i].Dispatched? || (log[i].Created? && log[i].task.direction == Inbound) {
        var k: nat;
        if log[i].Dispatched? {
          var _, k', _ := StartIsAuthorised(cfg, acts, i);
          k := k';
        } else {
          var _, k', _, _ := InboundTaskIsAuthorised(cfg, acts, i);
          k := k';
        }
        assert Justified(cfg, log[..k], log[k]) && Justified(cfg, log[..j], log[j]);
        OncePerCall(cfg, log, j, k, log[j].call);
      }
    }
  }
}
