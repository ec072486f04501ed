/**
 Which loaded epochs stay reported.  After a reconnect the worker reports the epochs that are Active; a new
 assignment of such an epoch overwrites its phase, and its load fails because the engine still has the epoch.
 */
module LifecycleReported {
  import opened Common
  import opened Lifecycle
  import opened LifecycleEviction
  import opened LifecycleKeys
  import opened LifecycleReturn

  /** In the engine and in the report. */
  predicate Reported(s: State, k: Key) { k in LoadedEpochs(s) && k in s.committed }

  predicate EvictsNot(trace: seq<Action>, k: Key)
  {
    forall i :: 0 <= i < |trace| ==> !(trace[i].Evict? && trace[i].key == k)
  }

  /** Some command of the run replaces the phase of the epoch by Loading. */
  predicate Reinserts(cfg: Config, s: State, trace: seq<Action>, k: Key)
  {
    exists i :: 0 <= i < |trace| && trace[i].InsertLoading? && Run(cfg, s, trace[..i]).handler == Inserting(k)
  }

  // ---------------------------------------------------------------------------
  // The machine of the epoch
  // ---------------------------------------------------------------------------

  predicate Assigning(h: Hand) { h.NoHand? || h.ToCheck? || h.ToInsert? }

  predicate Untouched(l: Local) { l.phase == Some(Active) && l.committed && !Pending(l) && Assigning(l.hand) }

  /** The epoch is committed, not Active, and every load of it is bound to fail. */
  ghost predicate Overwritten(l: Local)
  {
    && l.phase != Some(Active) && l.phase != Some(Evicting) && l.committed
    && (Assigning(l.hand) || l.hand.ToConvert?)
    && forall i :: i in l.tasks && Outstanding(l.tasks[i]) ==>
         l.tasks[i].Waiting? || l.tasks[i].Fetching? || l.tasks[i].Failing?
  }

  lemma UntouchedStep(exclusive: bool, l: Local, a: Action)
    requires Untouched(l) && LocalEnabled(exclusive, l, a) && !a.Evict?
    ensures if a.InsertLoading? then Overwritten(LocalStep(exclusive, l, a)) else Untouched(LocalStep(exclusive, l, a))
  {
  }

  lemma OverwrittenStep(exclusive: bool, l: Local, a: Action)
    requires Overwritten(l) && LocalEnabled(exclusive, l, a) && !a.Evict?
    ensures Overwritten(LocalStep(exclusive, l, a))
  {
  }

  /** One action, as far as it concerns the epoch. */
  lemma ReportStep(cfg: Config, s: State, a: Action, k: Key)
    requires !(a.Evict? && a.key == k)
    ensures Overwritten(LocalOf(s, k)) ==> Overwritten(LocalOf(Step(cfg, s, a), k))
    ensures Untouched(LocalOf(s, k)) ==>
              if a.InsertLoading? && s.handler == Inserting(k) then Overwritten(LocalOf(Step(cfg, s, a), k))
              else Untouched(LocalOf(Step(cfg, s, a), k))
  {
    var l := LocalOf(s, k);
    StepRefines(cfg, s, a, k);
    if Enabled(cfg, s, a) && Subject(s, a) == Some(k) {
      if Overwritten(l) {
        OverwrittenStep(cfg.exclusive, l, a);
      } else if Untouched(l) {
        UntouchedStep(cfg.exclusive, l, a);
      }
    }
  }

  lemma ReinsertsLast(cfg: Config, s: State, trace: seq<Action>, k: Key)
    requires trace != []
    ensures var n := |trace| - 1;
            Reinserts(cfg, s, trace, k)
            <==> Reinserts(cfg, s, trace[..n], k)
                 || (trace[n].InsertLoading? && Run(cfg, s, trace[..n]).handler == Inserting(k))
  {
    var n := |trace| - 1;
    var init := trace[..n];
    forall i | 0 <= i < n ensures init[..i] == trace[..i] && init[i] == trace[i] {
    }
    if Reinserts(cfg, s, init, k) {
      var i :| 0 <= i < |init| && init[i].InsertLoading? && Run(cfg, s, init[..i]).handler == Inserting(k);
      assert trace[i].InsertLoading? && Run(cfg, s, trace[..i]).handler == Inserting(k);
    }
    if Reinserts(cfg, s, trace, k) && !(trace[n].InsertLoading? && Run(cfg, s, init).handler == Inserting(k)) {
      var i :| 0 <= i < |trace| && trace[i].InsertLoading? && Run(cfg, s, trace[..i]).handler == Inserting(k);
      assert i != n && init[i].InsertLoading? && Run(cfg, s, init[..i]).handler == Inserting(k);
    }
  }

  lemma {:induction false} ReportRun(cfg: Config, s: State, trace: seq<Action>, k: Key)
    requires Untouched(LocalOf(s, k)) && EvictsNot(trace, k)
    ensures var l := LocalOf(Run(cfg, s, trace), k);
            if Reinserts(cfg, s, trace, k) then Overwritten(l) else Untouched(l)
  {
    if trace != [] {
      var n := |trace| - 1;
      ReportRun(cfg, s, trace[..n], k);
      ReinsertsLast(cfg, s, trace, k);
      ReportStep(cfg, Run(cfg, s, trace[..n]), trace[n], k);
    }
  }

  lemma ReportedIsUntouched(cfg: Config, s: State, k: Key)
    requires cfg.exclusive && Reachable(cfg, s) && Reported(s, k)
    ensures LocalInv(LocalOf(s, k)) && !Pending(LocalOf(s, k))
    ensures HandOf(s.handler, k).NoHand? ==> Untouched(LocalOf(s, k))
  {
    var trace :| Run(cfg, Initial(cfg), trace) == s;
    EpochInvariant(cfg, trace, k);
  }

  /**
   While it is not evicted, a reported epoch stays in the engine; it is reported at the end of a run exactly when
   no assignment in the run has overwritten its phase.
   */
  lemma ReportedAfterIff(cfg: Config, s: State, trace: seq<Action>, k: Key)
    requires cfg.exclusive && Reachable(cfg, s) && Reported(s, k) && HandOf(s.handler, k).NoHand?
    requires EvictsNot(trace, k)
    ensures k in Run(cfg, s, trace).committed
    ensures Reported(Run(cfg, s, trace), k) <==> !Reinserts(cfg, s, trace, k)
  {
    ReportedIsUntouched(cfg, s, k);
    ReportRun(cfg, s, trace, k);
    var l := LocalOf(Run(cfg, s, trace), k);
    assert l.committed <==> k in Run(cfg, s, trace).committed;
    assert l.phase == Some(Active) <==> IsPhase(Run(cfg, s, trace), k, Active);
  }

  // ---------------------------------------------------------------------------
  // In all runs
  // ---------------------------------------------------------------------------

  predicate SafelyReported(s: State, k: Key)
  {
    s.draining && Untouched(LocalOf(s, k)) && HandOf(s.handler, k).NoHand?
  }

  lemma SafeStep(cfg: Config, s: State, a: Action, k: Key)
    requires SafelyReported(s, k) && !(a.Evict? && a.key == k)
    ensures SafelyReported(Step(cfg, s, a), k)
  {
    StepRefines(cfg, s, a, k);
    StaysDraining(cfg, s, a);
    if Enabled(cfg, s, a) && Subject(s, a) == Some(k) {
      UntouchedStep(cfg.exclusive, LocalOf(s, k), a);
      QuietTask(cfg.exclusive, LocalOf(s, k), a);
    }
  }

  lemma StaysDraining(cfg: Config, s: State, a: Action)
    requires s.draining
    ensures Step(cfg, s, a).draining
  {
  }

  lemma QuietTask(exclusive: bool, l: Local, a: Action)
    requires Untouched(l) && l.hand.NoHand? && LocalEnabled(exclusive, l, a) && !a.Evict? && !a.Assign?
    ensures LocalStep(exclusive, l, a).hand.NoHand? && !a.InsertLoading?
  {
  }

  lemma {:induction false} SafeRun(cfg: Config, s: State, trace: seq<Action>, k: Key)
    requires SafelyReported(s, k) && EvictsNot(trace, k)
    ensures SafelyReported(Run(cfg, s, trace), k)
  {
    if trace != [] {
      SafeRun(cfg, s, trace[..|trace| - 1], k);
      SafeStep(cfg, Run(cfg, s, trace[..|trace| - 1]), trace[|trace| - 1], k);
    }
  }

  lemma {:induction false} FreshId(ids: set<nat>) returns (id: nat)
    ensures forall i :: i in ids ==> i < id
  {
    if i :| i in ids {
      var rest := FreshId(ids - {i});
      id := if rest <= i then i + 1 else rest;
      assert forall j :: j in ids ==> j == i || j in ids - {i};
    } else {
      id := 0;
    }
  }

  function StepsLeft(h: Handler): nat
  {
    match h
    case Idle => 0
    case Checking(_) => 3
    case Inserting(_) => 2
    case Removing(_) => 2
    case _ => 1
  }

  /** The next step of the command being handled. */
  lemma HandlerCanMove(cfg: Config, s: State) returns (a: Action)
    requires !s.handler.Idle?
    ensures ContinuesCommand(a) && Enabled(cfg, s, a) && Step(cfg, s, a).draining == s.draining
    ensures StepsLeft(Step(cfg, s, a).handler) < StepsLeft(s.handler)
  {
    match s.handler
    case Checking(_) => a := CheckPhase;
    case Inserting(_) => a := InsertLoading;
    case Converting(_) =>
      var id := FreshId(s.tasks.Keys);
      a := Convert(id, false);
    case Marking(_) => a := Mark;
    case Removing(_) => a := Remove;
    case DroppingTable(_) => a := DropTable(true);
  }

  /** A command about another epoch comes to its end without touching this one. */
  lemma {:induction false} HandlerGoesIdle(cfg: Config, s0: State, s: State, k: Key) returns (t: State)
    requires Leads(cfg, s0, s) && HandOf(s.handler, k).NoHand?
    ensures Leads(cfg, s0, t) && t.handler.Idle? && t.draining == s.draining && LocalOf(t, k) == LocalOf(s, k)
    decreases StepsLeft(s.handler)
  {
    if s.handler.Idle? {
      t := s;
    } else {
      var a := HandlerCanMove(cfg, s);
      LeadsOn(cfg, s0, s, a);
      StepRefines(cfg, s, a, k);
      t := HandlerGoesIdle(cfg, s0, Step(cfg, s, a), k);
    }
  }

  lemma InsertLoses(cfg: Config, s0: State, s: State, k: Key) returns (t: State)
    requires Leads(cfg, s0, s) && s.handler == Inserting(k)
    ensures Leads(cfg, s0, t) && !Reported(t, k)
  {
    LeadsOn(cfg, s0, s, InsertLoading);
    t := Step(cfg, s, InsertLoading);
  }

  lemma CheckLoses(cfg: Config, s0: State, s: State, k: Key) returns (t: State)
    requires Leads(cfg, s0, s) && s.handler == Checking(k) && IsPhase(s, k, Active)
    ensures Leads(cfg, s0, t) && !Reported(t, k)
  {
    LeadsOn(cfg, s0, s, CheckPhase);
    t := InsertLoses(cfg, s0, Step(cfg, s, CheckPhase), k);
  }

  lemma AssignLoses(cfg: Config, s: State, k: Key) returns (t: State)
    requires IsPhase(s, k, Active) && !Pending(LocalOf(s, k)) && HandOf(s.handler, k).NoHand? && !s.draining
    ensures Leads(cfg, s, t) && !Reported(t, k)
  {
    LeadsNowhere(cfg, s);
    var idle := HandlerGoesIdle(cfg, s, s, k);
    BusyIffPending(idle, k);
    assert LocalOf(idle, k).phase == Some(Active);
    LeadsOn(cfg, s, idle, Assign(k));
    t := CheckLoses(cfg, s, Step(cfg, idle, Assign(k)), k);
  }

  lemma ReportCanBeLost(cfg: Config, s: State, k: Key) returns (t: State)
    requires cfg.exclusive && Reachable(cfg, s) && Reported(s, k)
    requires !s.draining || !HandOf(s.handler, k).NoHand?
    ensures Leads(cfg, s, t) && !Reported(t, k)
  {
    ReportedIsUntouched(cfg, s, k);
    LeadsNowhere(cfg, s);
    match HandOf(s.handler, k)
    case ToMark =>
      LeadsOn(cfg, s, s, Mark);
      t := Step(cfg, s, Mark);
    case ToRemove =>
      LeadsOn(cfg, s, s, Remove);
      t := Step(cfg, s, Remove);
    case ToCheck => t := CheckLoses(cfg, s, s, k);
    case ToInsert => t := InsertLoses(cfg, s, s, k);
    case NoHand => t := AssignLoses(cfg, s, k);
  }

  /**
   A reported epoch stays reported in every run that does not evict it exactly when drain mode is active and no
   command about the epoch is under way: otherwise an assignment can take it out of the report.
   */
  lemma StaysReportedIff(cfg: Config, s: State, k: Key)
    requires cfg.exclusive && Reachable(cfg, s) && Reported(s, k)
    ensures (forall trace :: EvictsNot(trace, k) ==> Reported(Run(cfg, s, trace), k))
            <==> s.draining && HandOf(s.handler, k).NoHand?
  {
    if s.draining && HandOf(s.handler, k).NoHand? {
      ReportedIsUntouched(cfg, s, k);
      forall trace | EvictsNot(trace, k) ensures Reported(Run(cfg, s, trace), k) {
        SafeRun(cfg, s, trace, k);
        assert LocalOf(Run(cfg, s, trace), k).phase == Some(Active);
      }
    } else {
      var t := ReportCanBeLost(cfg, s, k);
      var trace :| NoEvict(trace) && Run(cfg, s, trace) == t;
      assert EvictsNot(trace, k);
    }
  }
}
