/** Whole-run guarantees about approvals, and what in-flight name reuse does to them. */
module ExecutorApprovals {
  import opened Types
  import opened Framing
  import opened Discovery
  import opened Policy
  import opened JsonPatch
  import opened Executor
  import opened ExecutorSafety
  import opened ExecutorRuns
  import opened ExecutorLifecycle
  import Incidents

  // ---- One act of a thread ----

  /** What a thread's act may assume. */
  ghost predicate Ready(cfg: Config, s: State, name: string) {
    && ValidConfig(cfg) && s.hist != [] && name in s.threads
    && Knows(cfg, s.hist, name, s.threads[name])
    && ThreadLive(cfg, s.hist, s.calm, Now(s), name, s.threads[name])
    && (name in Now(s).approvals ==> ApprovalOk(cfg, s, name, Now(s).approvals[name]))
  }

  ghost predicate Onward(cfg: Config, s: State, name: string, inp: Input)
    requires s.hist != [] && name in s.threads
  {
    var e := Taken(cfg, s.hist, name, s.threads[name], inp);
    ThreadLive(cfg, s.hist + [e.w], s.calm, e.w, name, e.pc)
  }

  /** Only taking the lock, a status write and the mutation change anything outside the thread. */
  lemma ReadsKeepWorld(cfg: Config, h: seq<World>, name: string, pc: Pc, inp: Input)
    requires h != [] && !pc.Acquire? && !pc.UpdateWrite? && !pc.ExecMutate?
    ensures Taken(cfg, h, name, pc, inp).w == h[|h| - 1] && Taken(cfg, h, name, pc, inp).wrote.None?
  {
    hide FindAction, BelongsToIncident, Incidents.EvidenceCurrent, RevisionIs, GoalReached, NextDecide, NextCheckPolicy,
      NextCheckExpiry, NextCheckEvidence, NextRecheckPolicy, NextExecRead, NextExecResolve, NextExecIncidentTarget,
      NextExecNamespace, NextBackoff, FinishAs, ReplaySucceed;
  }

  lemma AgreesUnderLock(cfg: Config, w: World, name: string, l: Locked)
    requires LockedLive(cfg, l) && Agrees(w, name, l.v.a0.val)
    ensures Agrees(w, name, l.a1.val)
  {
  }

  lemma OpeningOnward(cfg: Config, s: State, name: string, inp: Input)
    requires Ready(cfg, s, name)
    requires var pc := s.threads[name];
             pc.ReadApproval? || pc.ReadIncident? || pc.EnsureOwner? || pc.Decide? || pc.ReadPolicy? || pc.CheckPolicy?
    ensures Onward(cfg, s, name, inp)
  {
    hide NextReadApproval, NextReadIncident, NextDecide, NextReadPolicy, NextCheckPolicy, MeOk, ApprovalOk, Opened,
      Drafted, Agrees, CalmFrom, SawApproval, SawRevision;
    var h, w, n := s.hist + [Now(s)], Now(s), |s.hist| - 1;
    ReadsKeepWorld(cfg, s.hist, name, s.threads[name], inp);
    match s.threads[name]
    case ReadApproval => ReadApprovalLive(cfg, s, name, inp);
    case ReadIncident(a0) => ReadIncidentLive(cfg, h, s.calm, w, name, n, a0, inp);
    case EnsureOwner(a0, inc0) =>
    case Decide(a0, inc0) => DecideLive(cfg, h, s.calm, w, name, a0, inc0);
    case ReadPolicy(a0, inc0, action, ref) => ReadPolicyLive(cfg, h, s.calm, w, name, n, a0, inc0, action, ref, inp);
    case CheckPolicy(a0, inc0, action, ref, polAt) =>
      CheckPolicyLive(cfg, h, s.calm, w, name, n, a0, inc0, action, ref, polAt);
  }

  lemma LockedOnward(cfg: Config, s: State, name: string, inp: Input)
    requires Ready(cfg, s, name)
    requires var pc := s.threads[name];
             pc.Acquire? || pc.LockedReadApproval? || pc.LockedReadIncident? || pc.ReplayRead?
    ensures Onward(cfg, s, name, inp)
  {
    hide NextLockedReadApproval, NextLockedReadIncident, NextReplayRead, MeOk, ApprovalOk, VettedOk, LockedOk,
      LockedLive, Agrees, CalmFrom, ReplayReady, TargetKey;
    var h, w, n := s.hist + [Now(s)], Now(s), |s.hist| - 1;
    if !s.threads[name].Acquire? { ReadsKeepWorld(cfg, s.hist, name, s.threads[name], inp); }
    match s.threads[name]
    case Acquire(v) =>
      SameApprovals(w, w.(locks := w.locks[TargetKey(v.action.target) := name]), name, v.a0.val);
    case LockedReadApproval(v, since) => LockedReadApprovalLive(cfg, h, s.calm, w, name, n, v, since, inp);
    case LockedReadIncident(l) =>
      AgreesUnderLock(cfg, w, name, l);
      LockedReadIncidentLive(cfg, h, s.calm, w, name, n, l, inp);
    case ReplayRead(l) =>
      AgreesUnderLock(cfg, w, name, l);
      ReplayReadLive(cfg, s.hist, s.calm, name, l, inp);
  }

  lemma SameApprovals(w: World, w': World, name: string, me: Approval)
    requires w.approvals == w'.approvals && Agrees(w, name, me)
    ensures Agrees(w', name, me)
  {
  }

  lemma RecheckOnward(cfg: Config, s: State, name: string, inp: Input)
    requires Ready(cfg, s, name)
    requires var pc := s.threads[name]; pc.CheckExpiry? || pc.CheckEvidence? || pc.RereadPolicy? || pc.RecheckPolicy?
    ensures Onward(cfg, s, name, inp)
  {
    hide NextCheckExpiry, NextCheckEvidence, NextRereadPolicy, NextRecheckPolicy, ApprovalOk, LockedOk, LockedLive,
      Agrees, CalmFrom, EvidenceOk, SawIncident, SawRevision;
    var h, w, n := s.hist + [Now(s)], Now(s), |s.hist| - 1;
    ReadsKeepWorld(cfg, s.hist, name, s.threads[name], inp);
    AgreesUnderLock(cfg, w, name, s.threads[name].l);
    match s.threads[name]
    case CheckExpiry(l, found) => CheckExpiryLive(cfg, h, s.calm, w, name, l, found);
    case CheckEvidence(l, inc1) => CheckEvidenceLive(cfg, h, s.calm, w, name, n, l, inc1);
    case RereadPolicy(l, inc1, evAt) => RereadPolicyLive(cfg, h, s.calm, w, name, n, l, inc1, evAt, inp);
    case RecheckPolicy(l, inc1, evAt, polAt) =>
      FreshActionAgrees(cfg, s.hist, name, l);
      RecheckPolicyLive(cfg, h, s.calm, w, name, n, l, inc1, evAt, polAt);
  }

  lemma UpdateOnward(cfg: Config, s: State, name: string, inp: Input)
    requires Ready(cfg, s, name)
    requires var pc := s.threads[name]; pc.UpdateRead? || pc.UpdateWrite? || pc.Backoff?
    ensures Onward(cfg, s, name, inp)
  {
    hide NextUpdateRead, NextUpdateWrite, NextBackoff, ApprovalOk, UpdateLive, BackoffLive, Agrees, CalmFrom, KontOk,
      ExecOk, SameApproval;
    var h, w := s.hist + [Now(s)], Now(s);
    match s.threads[name]
    case UpdateRead(u) =>
      UpdateStable(cfg, s.hist, w, u);
      UpdateReadLive(cfg, h, s.calm, w, name, u, inp);
      ReadsKeepWorld(cfg, s.hist, name, s.threads[name], inp);
    case UpdateWrite(u, seen) => UpdateWriteLive(cfg, s.hist, s.calm, name, u, seen, inp);
    case Backoff(x, delay) => BackoffStepLive(cfg, h, s.calm, w, name, x, delay);
  }

  lemma ExecKnowledge(cfg: Config, h: seq<World>, name: string, x: Exec)
    requires ExecOk(cfg, h, name, x)
    ensures LockedOk(cfg, h, name, x.l) && x.l.v.a0.at < x.compAt
  {
    hide Compiled, Eligible, FindAction, BelongsToIncident;
  }

  lemma ExecOnward(cfg: Config, s: State, name: string, inp: Input)
    requires Ready(cfg, s, name)
    requires var pc := s.threads[name];
             pc.ExecRead? || pc.ExecResolve? || pc.ExecIncidentTarget? || pc.ExecNamespace?
    ensures Onward(cfg, s, name, inp)
  {
    hide NextExecRead, NextExecResolve, NextExecIncidentTarget, NextExecNamespace, ApprovalOk, ExecOk, ExecLive, Agrees,
      CalmFrom, LockedOk, ScopeOk, ChosenOk;
    var h, w, n := s.hist + [Now(s)], Now(s), |s.hist| - 1;
    ExecKnowledge(cfg, s.hist, name, s.threads[name].x);
    match s.threads[name]
    case ExecRead(x) => ExecReadLive(cfg, s.hist, s.calm, name, x, inp);
    case ExecResolve(x, cur) => ExecResolveLive(cfg, h, s.calm, w, name, n, x, cur);
    case ExecIncidentTarget(x, cur, catAt, namespaced) =>
      ExecIncidentTargetLive(cfg, h, s.calm, w, name, n, x, cur, catAt, namespaced, inp);
    case ExecNamespace(x, cur, catAt, chosen) =>
      ExecNamespaceLive(cfg, h, s.calm, w, name, n, x, cur, catAt, chosen, inp);
  }

  lemma MutateOnward(cfg: Config, s: State, name: string, inp: Input)
    requires Ready(cfg, s, name) && s.threads[name].ExecMutate?
    ensures Onward(cfg, s, name, inp)
  {
    hide NextExecMutate, ApprovalOk, ExecOk, ExecLive, Agrees, CalmFrom, LockedOk, SelectionOk, RequestOk;
    var pc := s.threads[name];
    ExecKnowledge(cfg, s.hist, name, pc.x);
    ExecMutateLive(cfg, s.hist, s.calm, name, pc.x, pc.sel, pc.req, inp);
  }

  lemma TakenOnward(cfg: Config, s: State, name: string, inp: Input)
    requires s.hist != [] && name in s.threads && Ready(cfg, s, name) && !s.threads[name].Returning?
    ensures Onward(cfg, s, name, inp)
  {
    hide Ready, Onward;
    var pc := s.threads[name];
    if pc.ReadApproval? || pc.ReadIncident? || pc.EnsureOwner? || pc.Decide? || pc.ReadPolicy? || pc.CheckPolicy? {
      OpeningOnward(cfg, s, name, inp);
    } else if pc.Acquire? || pc.LockedReadApproval? || pc.LockedReadIncident? || pc.ReplayRead? {
      LockedOnward(cfg, s, name, inp);
    } else if pc.CheckExpiry? || pc.CheckEvidence? || pc.RereadPolicy? || pc.RecheckPolicy? {
      RecheckOnward(cfg, s, name, inp);
    } else if pc.UpdateRead? || pc.UpdateWrite? || pc.Backoff? {
      UpdateOnward(cfg, s, name, inp);
    } else if pc.ExecMutate? {
      MutateOnward(cfg, s, name, inp);
    } else {
      ExecOnward(cfg, s, name, inp);
    }
  }

  // ---- The invariant ----

  ghost predicate UidsOnRecord(h: seq<World>) {
    h != [] && forall i, name :: 0 <= i < |h| && name in h[i].approvals ==> h[i].approvals[name].uid in h[|h| - 1].uids
  }

  /** Whatever an approval recorded at any time, it still has, as long as it exists. */
  ghost predicate NothingLost(h: seq<World>) {
    h != [] && forall i, name :: 0 <= i < |h| && name in h[i].approvals && name in h[|h| - 1].approvals ==>
      (h[i].approvals[name].uid == h[|h| - 1].approvals[name].uid ==>
         Kept(h[i].approvals[name], h[|h| - 1].approvals[name]))
  }

  ghost predicate ApprovalsOk(cfg: Config, s: State)
    requires s.hist != []
  {
    forall name :: name in Now(s).approvals ==> ApprovalOk(cfg, s, name, Now(s).approvals[name])
  }

  ghost predicate AllLive(cfg: Config, s: State)
    requires s.hist != []
  {
    forall name :: name in s.threads ==> ThreadLive(cfg, s.hist, s.calm, Now(s), name, s.threads[name])
  }

  /** Every status write reached the approval its reconcile had validated. */
  ghost predicate Attributed(s: State) {
    forall k :: 0 <= k < |s.writes| ==> s.writes[k].uid == s.writes[k].validated
  }

  ghost predicate CalmOnRecord(s: State)
    requires s.hist != []
  {
    forall k :: k in s.calm ==> k.1 in Now(s).uids
  }

  ghost predicate Live(cfg: Config, s: State) {
    && s.hist != [] && CalmOnRecord(s)
    && UidsOnRecord(s.hist) && NothingLost(s.hist)
    && ApprovalsOk(cfg, s) && AllLive(cfg, s) && Attributed(s)
  }

  lemma InitialLive(cfg: Config, s: State)
    requires Initial(s)
    ensures Live(cfg, s)
  {
  }

  // ---- How one act changes the approvals ----

  /** Approvals stay, lose nothing, vanish, or are new with an unused UID. */
  ghost predicate ApprovalsEvolve(w: World, w': World) {
    && w.uids <= w'.uids
    && forall name :: name in w'.approvals ==>
         || (name in w.approvals && w.approvals[name].uid == w'.approvals[name].uid
             && Kept(w.approvals[name], w'.approvals[name]))
         || (w'.approvals[name].uid !in w.uids && w'.approvals[name].uid in w'.uids)
  }

  lemma KeptTransitive(a: Approval, b: Approval, c: Approval)
    requires Kept(a, b) && Kept(b, c)
    ensures Kept(a, c)
  {
  }

  lemma KeptReflexive(a: Approval, rv: string)
    ensures Kept(a, a.(rv := rv))
  {
  }

  lemma NothingLostOneMore(h: seq<World>, w: World)
    requires UidsOnRecord(h) && NothingLost(h) && ApprovalsEvolve(h[|h| - 1], w)
    ensures UidsOnRecord(h + [w]) && NothingLost(h + [w])
  {
    var last, h' := h[|h| - 1], h + [w];
    forall i, name | 0 <= i < |h'| && name in h'[i].approvals ensures h'[i].approvals[name].uid in w.uids {
      if i < |h| { assert h'[i] == h[i]; }
      else if name in last.approvals { assert last.approvals[name].uid in last.uids; }
    }
    forall i, name | 0 <= i < |h'| && name in h'[i].approvals && name in w.approvals
        && h'[i].approvals[name].uid == w.approvals[name].uid
      ensures Kept(h'[i].approvals[name], w.approvals[name])
    {
      if i < |h| {
        assert h'[i] == h[i];
        assert h[i].approvals[name].uid in last.uids;
        KeptTransitive(h[i].approvals[name], last.approvals[name], w.approvals[name]);
      } else {
        KeptReflexive(w.approvals[name], w.approvals[name].rv);
      }
    }
  }

  lemma ProvenStable(h: seq<World>, w: World, writes: seq<StatusWrite>, more: seq<StatusWrite>, a: Approval)
    requires Proven(h, writes, a)
    ensures Proven(h + [w], writes + more, a)
  {
    hide GoalSeen;
    var k :| 0 <= k < |writes| && Proof(h, writes[k], a);
    GoalStable(h, w, writes[k].goalAt, a.status.action.value);
    assert Proof(h + [w], (writes + more)[k], a);
  }

  lemma ApprovalStable(cfg: Config, s: State, s': State, w: World, more: seq<StatusWrite>, name: string, a: Approval,
                       rv: string)
    requires ApprovalOk(cfg, s, name, a) && s'.hist == s.hist + [w] && s'.writes == s.writes + more
    requires Calm(s'.calm, name, a.uid) == Calm(s.calm, name, a.uid)
    ensures ApprovalOk(cfg, s', name, a.(rv := rv))
  {
    hide GoalSeen;
    if a.status.phase.Succeeded? {
      ProvenStable(s.hist, w, s.writes, more, a);
      var k :| 0 <= k < |s'.writes| && Proof(s'.hist, s'.writes[k], a);
      assert Proof(s'.hist, s'.writes[k], a.(rv := rv));
    }
  }

  /** A thread is not disturbed as long as its approval is the same or gone. */
  lemma BystanderLive(cfg: Config, h: seq<World>, calm: map<(string, string), nat>, calm': map<(string, string), nat>,
                      w: World, w': World, name: string, pc: Pc)
    requires ThreadLive(cfg, h, calm, w, name, pc)
    requires name in w'.approvals ==> name in w.approvals && SameApproval(w.approvals[name], w'.approvals[name])
    requires forall uid :: Calm(calm', name, uid) == Calm(calm, name, uid)
    ensures ThreadLive(cfg, h + [w'], calm', w', name, pc)
  {
    hide ExecLive, LockedLive, BackoffLive, UpdateLive, MeOk, ReplayReady;
    if pc.UpdateRead? || pc.UpdateWrite? {
      UpdateStable(cfg, h, w', pc.u);
    }
  }

  // ---- Preservation ----

  lemma EnvironmentApprovals(cfg: Config, s: State, act: Act)
    requires ValidConfig(cfg) && Live(cfg, s) && Legal(cfg, s, act) && !act.Step?
    ensures ApprovalsEvolve(Now(s), Environment(cfg, Now(s), act))
    ensures ApprovalsOk(cfg, Do(cfg, s, act))
  {
    hide Incidents.Apply, ScannerWrite, Kept, ApprovalOk, NothingLost, UidsOnRecord, AllLive, Attributed;
    var w, s' := Now(s), Do(cfg, s, act);
    var w' := Now(s');
    forall name | name in w'.approvals && name in w.approvals
      && w'.approvals[name] == w.approvals[name].(rv := w'.approvals[name].rv)
      ensures Kept(w.approvals[name], w'.approvals[name]) && ApprovalOk(cfg, s', name, w'.approvals[name])
    {
      KeptReflexive(w.approvals[name], w'.approvals[name].rv);
      ApprovalStable(cfg, s, s', w', [], name, w.approvals[name], w'.approvals[name].rv);
    }
    if act.CreateApproval? {
      NewApprovalOk(cfg, s', act.approval, w'.approvals[act.approval]);
    }
  }

  lemma NewApprovalOk(cfg: Config, s: State, name: string, a: Approval)
    requires ValidConfig(cfg) && a.status == NEW_STATUS && (name, a.uid) !in s.calm
    ensures ApprovalOk(cfg, s, name, a)
  {
  }

  lemma EnvironmentLive(cfg: Config, s: State, act: Act)
    requires ValidConfig(cfg) && !cfg.reuse && Live(cfg, s) && Legal(cfg, s, act) && !act.Step?
    ensures Live(cfg, Do(cfg, s, act))
  {
    var w, s' := Now(s), Do(cfg, s, act);
    var w' := Now(s');
    EnvironmentApprovals(cfg, s, act);
    NothingLostOneMore(s.hist, w');
    EnvironmentThreads(cfg, s, act);
    assert w.uids <= w'.uids;
    hide NothingLost, UidsOnRecord, ApprovalsEvolve, ApprovalsOk, AllLive, Environment, Legal;
  }

  lemma EnvironmentThreads(cfg: Config, s: State, act: Act)
    requires !cfg.reuse && Live(cfg, s) && Legal(cfg, s, act) && !act.Step?
    ensures AllLive(cfg, Do(cfg, s, act))
  {
    hide Incidents.Apply, ScannerWrite, ThreadLive, ApprovalsOk, NothingLost, UidsOnRecord, Attributed;
    var w, s' := Now(s), Do(cfg, s, act);
    var w' := Now(s');
    forall name | name in s'.threads ensures ThreadLive(cfg, s'.hist, s'.calm, w', name, s'.threads[name]) {
      if act.Begin? && name == act.approval {
        FirstPositionLive(cfg, s'.hist, s'.calm, w', name);
      } else {
        BystanderLive(cfg, s.hist, s.calm, s'.calm, w, w', name, s.threads[name]);
      }
    }
  }

  lemma FirstPositionLive(cfg: Config, h: seq<World>, calm: map<(string, string), nat>, w: World, name: string)
    ensures ThreadLive(cfg, h, calm, w, name, ReadApproval)
  {
  }

  lemma LeaveApprovals(cfg: Config, s: State, name: string)
    requires Live(cfg, s) && name in s.threads && s.threads[name].Returning?
    ensures var s' := Leave(s, name, s.threads[name].failed);
            ApprovalsEvolve(Now(s), Now(s')) && ApprovalsOk(cfg, s') && CalmOnRecord(s')
  {
    hide Kept, NothingLost, Attributed, GoalSeen, Proven, Proof;
    var pc, w := s.threads[name], Now(s);
    var s' := Leave(s, name, pc.failed);
    assert ThreadLive(cfg, s.hist, s.calm, w, name, pc);
    forall other | other in w.approvals
      ensures Kept(w.approvals[other], w.approvals[other]) && ApprovalOk(cfg, s', other, w.approvals[other])
    {
      KeptReflexive(w.approvals[other], w.approvals[other].rv);
      var a := w.approvals[other];
      assert a == a.(rv := a.rv);
      if Calm(s'.calm, other, a.uid) == Calm(s.calm, other, a.uid) {
        ApprovalStable(cfg, s, s', Now(s'), [], other, a, a.rv);
      } else {
        var t := s'.(calm := s.calm);
        ApprovalStable(cfg, s, t, Now(s'), [], other, a, a.rv);
      }
    }
  }

  lemma LeaveThreads(cfg: Config, s: State, name: string)
    requires Live(cfg, s) && name in s.threads && s.threads[name].Returning?
    ensures AllLive(cfg, Leave(s, name, s.threads[name].failed))
  {
    hide ThreadLive, ApprovalsOk, NothingLost, UidsOnRecord, Attributed;
    var s' := Leave(s, name, s.threads[name].failed);
    forall other | other in s'.threads ensures ThreadLive(cfg, s'.hist, s'.calm, Now(s'), other, s'.threads[other]) {
      BystanderLive(cfg, s.hist, s.calm, s'.calm, Now(s), Now(s'), other, s.threads[other]);
    }
  }

  /** What an UpdateWrite act does to the stored approvals. */
  lemma WriteEffect(cfg: Config, s: State, name: string, inp: Input)
    requires s.hist != [] && name in s.threads && s.threads[name].UpdateWrite?
    ensures var w, u, seen := Now(s), s.threads[name].u, s.threads[name].seen;
            var e := Taken(cfg, s.hist, name, s.threads[name], inp);
            && e.w.uids == w.uids
            && (e.wrote.None? ==> e.w.approvals == w.approvals)
            && (e.wrote.Some? ==>
                  && name in w.approvals
                  && var after := w.approvals[name].(status := Mutate(u.mut, seen.status, w.clock), rv := inp.rv);
                  && e.w.approvals == w.approvals[name := after]
                  && e.wrote.value == StatusWrite(name, w.approvals[name].uid, u.me.uid, u.start, u.goalAt,
                                                  |s.hist| - 1, Mutate(u.mut, seen.status, w.clock)))
  {
    hide Mutate, Continue;
  }

  lemma WrittenApproval(cfg: Config, s: State, s': State, w': World, name: string, u: Update, a: Approval,
                        sw: StatusWrite, rv: string)
    requires ValidConfig(cfg) && s.hist != [] && ApprovalOk(cfg, s, name, a) && UpdateLive(cfg, s.hist, u)
    requires SameApproval(a, u.me)
    requires s'.hist == s.hist + [w'] && s'.writes == s.writes + [sw] && s'.calm == s.calm
    requires sw == StatusWrite(name, a.uid, u.me.uid, u.start, u.goalAt, |s.hist| - 1,
                               Mutate(u.mut, a.status, Now(s).clock))
    ensures var b := a.(status := Mutate(u.mut, a.status, Now(s).clock), rv := rv);
            Kept(a, b) && ApprovalOk(cfg, s', name, b)
  {
    hide GoalSeen, UpdateLive, Mutate;
    var b := a.(status := Mutate(u.mut, a.status, Now(s).clock), rv := rv);
    WrittenOk(cfg, s.hist, u, a, Now(s).clock);
    if b.status.phase.Succeeded? {
      GoalStable(s.hist, w', u.goalAt, b.status.action.value);
      GoalIndex(s.hist, u.goalAt, b.status.action.value);
      assert Proof(s'.hist, s'.writes[|s.writes|], b);
    }
  }

  lemma GoalIndex(h: seq<World>, g: nat, a: Action)
    requires GoalSeen(h, g, a)
    ensures g < |h|
  {
  }

  ghost predicate Advances(cfg: Config, s: State, s': State, name: string, e: Effect) {
    && s'.hist == s.hist + [e.w] && s'.threads == s.threads[name := e.pc] && s'.calm == s.calm
    && s'.writes == if e.wrote.Some? then s.writes + [e.wrote.value] else s.writes
  }

  lemma StepApprovals(cfg: Config, s: State, s': State, name: string, inp: Input)
    requires ValidConfig(cfg) && Live(cfg, s) && Safe(cfg, s) && name in s.threads
    requires Advances(cfg, s, s', name, Taken(cfg, s.hist, name, s.threads[name], inp))
    ensures ApprovalsEvolve(Now(s), Now(s')) && ApprovalsOk(cfg, s') && Attributed(s')
    ensures forall other :: other in Now(s').approvals && other != name ==>
              other in Now(s).approvals && Now(s').approvals[other] == Now(s).approvals[other]
  {
    hide Taken, NothingLost, UidsOnRecord, HistoryOk, ThreadsOk, LogOk, Spent, Mutate, Kept, ApprovalOk, UpdateLive;
    var w, pc, e := Now(s), s.threads[name], Taken(cfg, s.hist, name, s.threads[name], inp);
    assert ThreadLive(cfg, s.hist, s.calm, w, name, pc);
    if pc.UpdateWrite? {
      WriteEffect(cfg, s, name, inp);
      if e.wrote.Some? {
        WrittenApproval(cfg, s, s', e.w, name, pc.u, w.approvals[name], e.wrote.value, inp.rv);
      }
    } else {
      QuietApprovals(cfg, s.hist, name, pc, inp);
    }
    forall other | other in w.approvals && (other != name || e.wrote.None?)
      ensures Kept(w.approvals[other], w.approvals[other]) && ApprovalOk(cfg, s', other, w.approvals[other])
    {
      KeptReflexive(w.approvals[other], w.approvals[other].rv);
      ApprovalStable(cfg, s, s', e.w, if e.wrote.Some? then [e.wrote.value] else [], other, w.approvals[other],
                     w.approvals[other].rv);
    }
  }

  lemma QuietApprovals(cfg: Config, h: seq<World>, name: string, pc: Pc, inp: Input)
    requires h != [] && !pc.UpdateWrite?
    ensures var e := Taken(cfg, h, name, pc, inp);
            e.w.approvals == h[|h| - 1].approvals && e.w.uids == h[|h| - 1].uids && e.wrote.None?
  {
    if pc.ExecMutate? || pc.Acquire? {
      hide Serve, Retry, Succeed, Vanishes, TargetKey;
    } else {
      hide Taken;
      ReadsKeepWorld(cfg, h, name, pc, inp);
    }
  }

  lemma StepThreadsLive(cfg: Config, s: State, s': State, name: string, inp: Input)
    requires ValidConfig(cfg) && Live(cfg, s) && Safe(cfg, s) && name in s.threads && !s.threads[name].Returning?
    requires Advances(cfg, s, s', name, Taken(cfg, s.hist, name, s.threads[name], inp))
    requires forall other :: other in Now(s').approvals && other != name ==>
               other in Now(s).approvals && Now(s').approvals[other] == Now(s).approvals[other]
    ensures AllLive(cfg, s')
  {
    hide Taken, NothingLost, UidsOnRecord, HistoryOk, LogOk, Spent, ApprovalOk, ThreadLive, Knows, HoldsLock,
      Attributed;
    assert Ready(cfg, s, name);
    TakenOnward(cfg, s, name, inp);
    forall other | other in s'.threads ensures ThreadLive(cfg, s'.hist, s'.calm, Now(s'), other, s'.threads[other]) {
      if other != name {
        BystanderLive(cfg, s.hist, s.calm, s'.calm, Now(s), Now(s'), other, s.threads[other]);
      }
    }
  }

  lemma StepLive(cfg: Config, s: State, act: Act)
    requires ValidConfig(cfg) && Live(cfg, s) && Safe(cfg, s) && Legal(cfg, s, act) && act.Step?
    ensures Live(cfg, Do(cfg, s, act))
  {
    hide Next, Taken, ApprovalsOk, AllLive, NothingLost, UidsOnRecord, Attributed, Safe, Blocked, ApprovalsEvolve;
    var name, s' := act.approval, Do(cfg, s, act);
    if s.threads[name].Returning? {
      LeaveApprovals(cfg, s, name);
      LeaveThreads(cfg, s, name);
      NothingLostOneMore(s.hist, Now(s'));
      SameWrites(s, s');
    } else {
      DoTakes(cfg, s, act);
      StepApprovals(cfg, s, s', name, act.inp);
      StepThreadsLive(cfg, s, s', name, act.inp);
      NothingLostOneMore(s.hist, Now(s'));
      MoreUids(Now(s), Now(s'));
    }
  }

  lemma SameWrites(s: State, s': State)
    requires Attributed(s) && s'.writes == s.writes
    ensures Attributed(s')
  {
  }

  lemma MoreUids(w: World, w': World)
    requires ApprovalsEvolve(w, w')
    ensures w.uids <= w'.uids
  {
  }

  lemma {:induction false} RunLive(cfg: Config, s0: State, acts: seq<Act>, s: State)
    requires ValidConfig(cfg) && !cfg.reuse && Initial(s0) && Run(cfg, s0, acts, s)
    ensures Live(cfg, s)
    decreases |acts|
  {
    hide Safe, Live, Do, Legal;
    if acts == [] {
      InitialLive(cfg, s0);
    } else {
      var mid :| Run(cfg, s0, acts[..|acts| - 1], mid) && mid.hist != []
                 && Legal(cfg, mid, acts[|acts| - 1]) && s == Do(cfg, mid, acts[|acts| - 1]);
      RunLive(cfg, s0, acts[..|acts| - 1], mid);
      RunSafe(cfg, s0, acts[..|acts| - 1], mid);
      if acts[|acts| - 1].Step? {
        StepLive(cfg, mid, acts[|acts| - 1]);
      } else {
        EnvironmentLive(cfg, mid, acts[|acts| - 1]);
      }
    }
  }

  lemma ReachableLive(cfg: Config, s: State)
    requires ValidConfig(cfg) && !cfg.reuse && Reachable(cfg, s)
    ensures Live(cfg, s)
  {
    hide Live, Run, Initial;
    var s0, acts :| Initial(s0) && Run(cfg, s0, acts, s);
    RunLive(cfg, s0, acts, s);
  }

  // ---- Theorems ----

  /** In every run without in-flight name reuse, every stored approval: records at most the approved
      action, and one while Running; is never Succeeded when it asked for a dry run; when Succeeded, was
      so written by a reconcile that saw the goal reached while it ran; and holds at most
      `maxAttempts + 1` audit entries, so the 20-entry bound never drops one. */
  lemma ApprovalGuarantees(cfg: Config, s: State, name: string)
    requires ValidConfig(cfg) && !cfg.reuse && Reachable(cfg, s) && name in Now(s).approvals
    ensures var a := Now(s).approvals[name];
            && (a.status.action.Some? ==> a.status.action.value.id == a.spec.actionID)
            && (a.status.phase.Running? ==> a.status.action.Some?)
            && (a.spec.dryRun ==> !a.status.phase.Succeeded?)
            && (a.status.phase.Succeeded? ==> Proven(s.hist, s.writes, a))
            && |a.status.attempts| <= cfg.maxAttempts + 1 < MAX_AUDIT_ATTEMPTS
  {
    hide NothingLost, UidsOnRecord, AllLive, Attributed, Reachable, Proven;
    ReachableLive(cfg, s);
    assert ApprovalOk(cfg, s, name, Now(s).approvals[name]);
  }

  /** Terminal phases are never left, the recorded action never changes and no audit entry is lost:
      whatever the approval had at any earlier moment, it still has. */
  lemma ApprovalsLoseNothing(cfg: Config, s: State, i: nat, name: string)
    requires ValidConfig(cfg) && !cfg.reuse && Reachable(cfg, s) && i < |s.hist|
    requires name in s.hist[i].approvals && name in Now(s).approvals
    requires s.hist[i].approvals[name].uid == Now(s).approvals[name].uid
    ensures Kept(s.hist[i].approvals[name], Now(s).approvals[name])
  {
    hide Kept, UidsOnRecord, AllLive, Attributed, Reachable, ApprovalsOk;
    ReachableLive(cfg, s);
  }

  /** A reconcile about to return without error leaves its approval deleted, finished, or Running with
      exactly one more attempt and still fewer than `maxAttempts`. */
  lemma ErrorFreeReturnProgresses(cfg: Config, s: State, name: string)
    requires ValidConfig(cfg) && !cfg.reuse && Reachable(cfg, s) && name in s.threads
    requires s.threads[name].Returning? && !s.threads[name].failed
    ensures var pc, w := s.threads[name], Now(s);
            || name !in w.approvals
            || Terminal(w.approvals[name].status.phase)
            || (w.approvals[name].status.phase.Running? && pc.requeue.Some?
                && |w.approvals[name].status.attempts| == pc.before + 1 < cfg.maxAttempts)
  {
    hide NothingLost, UidsOnRecord, ApprovalsOk, Attributed, Reachable;
    ReachableLive(cfg, s);
    assert ThreadLive(cfg, s.hist, s.calm, Now(s), name, s.threads[name]);
  }

  /** Fewer than `maxAttempts` error-free reconciles leave an approval unfinished, over its whole life;
      the next error-free one finishes it. */
  lemma FewUnfinishedReturns(cfg: Config, s: State, name: string)
    requires ValidConfig(cfg) && !cfg.reuse && Reachable(cfg, s) && name in Now(s).approvals
    ensures Calm(s.calm, name, Now(s).approvals[name].uid) < cfg.maxAttempts
    ensures Calm(s.calm, name, Now(s).approvals[name].uid) <= |Now(s).approvals[name].status.attempts|
  {
    hide NothingLost, UidsOnRecord, AllLive, Attributed, Reachable, Proven;
    ReachableLive(cfg, s);
    assert ApprovalOk(cfg, s, name, Now(s).approvals[name]);
  }

  // ---- Name reuse ----

  lemma RunOneMore(cfg: Config, s0: State, acts: seq<Act>, s: State, act: Act)
    requires Run(cfg, s0, acts, s) && s.hist != [] && Legal(cfg, s, act)
    ensures Run(cfg, s0, acts + [act], Do(cfg, s, act))
  {
    hide Legal, Do;
    assert (acts + [act])[..|acts|] == acts;
  }

  function Plain(rv: string): Input { Input(Fine, false, None, rv, false, false) }

  ghost predicate ReachedBy(cfg: Config, s0: State, acts: seq<Act>, s: State) {
    Initial(s0) && Run(cfg, s0, acts, s) && s.hist != []
  }

  lemma ActOn(cfg: Config, s0: State, acts: seq<Act>, s: State, act: Act)
    requires ReachedBy(cfg, s0, acts, s) && Legal(cfg, s, act)
    ensures ReachedBy(cfg, s0, acts + [act], Do(cfg, s, act))
  {
    hide Initial, Run, Legal, Do;
    RunOneMore(cfg, s0, acts, s, act);
  }

  /** A fresh approval named "a" exists in an otherwise empty cluster and its reconcile begins. */
  lemma ReuseOpening(cfg: Config, spec: ApprovalSpec) returns (s0: State, acts: seq<Act>, s: State)
    ensures ReachedBy(cfg, s0, acts, s) && s.threads == map["a" := ReadApproval] && s.writes == []
    ensures var w := Now(s);
            && w.approvals == map["a" := Approval("u1", "r1", 0, spec, NEW_STATUS)] && w.incidents == map[]
            && w.uids == {"u1"} && w.rvs == {"r1"}
  {
    hide Run, Next;
    var w := World(0, map[], map[], map[], map[], Snapshot(map[], []), map[], {}, {});
    s0 := State([w], map[], [], [], map[]);
    assert ReachedBy(cfg, s0, [], s0) by { RunNothing(cfg, s0); }
    var create := CreateApproval("a", "u1", "r1", spec);
    ActOn(cfg, s0, [], s0, create);
    var s1 := Do(cfg, s0, create);
    ActOn(cfg, s0, [] + [create], s1, Begin("a"));
    acts, s := [] + [create] + [Begin("a")], Do(cfg, s1, Begin("a"));
  }

  lemma RunNothing(cfg: Config, s0: State)
    ensures Run(cfg, s0, [], s0)
  {
  }

  lemma ReuseReads(cfg: Config, s: State, a: Approval)
    requires s.hist != [] && s.threads == map["a" := ReadApproval] && Now(s).approvals == map["a" := a]
    requires !Terminal(a.status.phase) && Now(s).incidents == map[]
    ensures var s' := Do(cfg, s, Step("a", Plain("xy")));
            && s'.hist != [] && s'.threads == map["a" := ReadIncident(Seen(|s.hist| - 1, a))]
            && Now(s') == Now(s) && s'.writes == s.writes
  {
    hide Next;
    DoTakes(cfg, s, Step("a", Plain("xy")));
    assert Taken(cfg, s.hist, "a", ReadApproval, Plain("xy")) ==
           NextReadApproval(Now(s), |s.hist| - 1, "a", Plain("xy")) by {
      DispatchRead(cfg, Now(s), |s.hist| - 1, "a", Plain("xy"));
    }
  }

  lemma DispatchRead(cfg: Config, w: World, n: nat, name: string, inp: Input)
    ensures Next(cfg, w, n, name, ReadApproval, inp) == NextReadApproval(w, n, name, inp)
    ensures forall a0 :: Next(cfg, w, n, name, ReadIncident(a0), inp) == NextReadIncident(w, n, a0, inp)
    ensures forall u :: Next(cfg, w, n, name, UpdateRead(u), inp) == NextUpdateRead(w, name, u, inp)
    ensures forall u, seen ::
              Next(cfg, w, n, name, UpdateWrite(u, seen), inp) == NextUpdateWrite(cfg, w, n, name, u, seen, inp)
  {
    hide NextReadApproval, NextReadIncident, NextUpdateRead, NextUpdateWrite;
  }

  lemma ReuseDecides(cfg: Config, s: State, a0: Seen<Approval>)
    requires s.hist != [] && s.threads == map["a" := ReadIncident(a0)] && Now(s).incidents == map[]
    ensures var s' := Do(cfg, s, Step("a", Plain("xy")));
            && s'.hist != [] && s'.threads == map["a" := FinishAs(a0.val, a0.at, Superseded, TargetChanged)]
            && Now(s') == Now(s) && s'.writes == s.writes
  {
    hide Next;
    DoTakes(cfg, s, Step("a", Plain("xy")));
    DispatchRead(cfg, Now(s), |s.hist| - 1, "a", Plain("xy"));
  }

  lemma ReuseSwaps(cfg: Config, s0: State, acts: seq<Act>, s: State, spec: ApprovalSpec)
    returns (acts': seq<Act>, s': State)
    requires cfg.reuse && ReachedBy(cfg, s0, acts, s) && Now(s).uids == {"u1"} && Now(s).rvs == {"r1"}
    ensures ReachedBy(cfg, s0, acts', s') && s'.threads == s.threads && s'.writes == s.writes
    ensures "a" in Now(s').approvals && Now(s').approvals["a"] == Approval("u2", "r2", Now(s).clock, spec, NEW_STATUS)
    ensures Now(s').rvs == {"r1", "r2"}
  {
    hide Next, Initial, Run;
    ActOn(cfg, s0, acts, s, DeleteApproval("a"));
    var mid := Do(cfg, s, DeleteApproval("a"));
    var create := CreateApproval("a", "u2", "r2", spec);
    assert "u2"[1] != "u1"[1] && "r2"[1] != "r1"[1];
    ActOn(cfg, s0, acts + [DeleteApproval("a")], mid, create);
    acts', s' := acts + [DeleteApproval("a")] + [create], Do(cfg, mid, create);
  }

  lemma ReuseRereads(cfg: Config, s: State, u: Update, a: Approval)
    requires s.hist != [] && s.threads == map["a" := UpdateRead(u)] && "a" in Now(s).approvals
    requires Now(s).approvals["a"] == a
    ensures var s' := Do(cfg, s, Step("a", Plain("xy")));
            && s'.hist != [] && s'.threads == map["a" := UpdateWrite(u, a)] && Now(s') == Now(s)
            && s'.writes == s.writes
  {
    hide Next;
    DoTakes(cfg, s, Step("a", Plain("xy")));
    DispatchRead(cfg, Now(s), |s.hist| - 1, "a", Plain("xy"));
  }

  lemma ReuseWrites(cfg: Config, s: State, u: Update, a: Approval)
    requires s.hist != [] && s.threads == map["a" := UpdateWrite(u, a)] && "a" in Now(s).approvals
    requires Now(s).approvals["a"] == a
    requires u.mut == Finish(Superseded, TargetChanged) && a.uid != u.me.uid && s.writes == []
    ensures var s' := Do(cfg, s, Step("a", Plain("xy")));
            && s'.hist != [] && !Attributed(s') && "a" in Now(s').approvals
            && Now(s').approvals["a"].uid == a.uid && Now(s').approvals["a"].spec == a.spec
            && Now(s').approvals["a"].status.phase.Superseded?
  {
    hide Next, Continue;
    DoTakes(cfg, s, Step("a", Plain("xy")));
    DispatchRead(cfg, Now(s), |s.hist| - 1, "a", Plain("xy"));
    var s' := Do(cfg, s, Step("a", Plain("xy")));
    assert s'.writes[0].uid == a.uid && s'.writes[0].validated == u.me.uid;
  }

  /** With reuse: the reconcile of the first "a" decides to supersede it, the user deletes it and
      creates another "a" for a different incident, and the pending write lands on the newcomer, which
      no reconcile ever validated. */
  lemma ReuseMisdirectsAWrite(cfg: Config) returns (s: State)
    requires cfg.reuse
    ensures Reachable(cfg, s) && s.hist != [] && !Attributed(s)
    ensures "a" in Now(s).approvals && Now(s).approvals["a"].uid == "u2"
    ensures Now(s).approvals["a"].status.phase.Superseded?
    ensures Now(s).approvals["a"].spec.incidentName == "j"
  {
    hide Next, Initial, Run, Do;
    var step := Step("a", Plain("xy"));
    assert "xy"[0] != "r1"[0] && "xy"[0] != "r2"[0] && "u2"[1] != "u1"[1];
    var s0, acts, s2 := ReuseOpening(cfg, ApprovalSpec("i", "iu", "id", false));
    var a1 := Now(s2).approvals["a"];
    ReuseReads(cfg, s2, a1);
    ActOn(cfg, s0, acts, s2, step);
    var s3 := Do(cfg, s2, step);
    ReuseDecides(cfg, s3, Seen(|s2.hist| - 1, a1));
    ActOn(cfg, s0, acts + [step], s3, step);
    var acts', s6 := ReuseSwaps(cfg, s0, acts + [step] + [step], Do(cfg, s3, step),
                                ApprovalSpec("j", "ju", "id2", false));
    var u, a2 := s6.threads["a"].u, Now(s6).approvals["a"];
    ReuseRereads(cfg, s6, u, a2);
    ActOn(cfg, s0, acts', s6, step);
    var s7 := Do(cfg, s6, step);
    ReuseWrites(cfg, s7, u, a2);
    ActOn(cfg, s0, acts' + [step], s7, step);
    s := Do(cfg, s7, step);
  }

  /** Status writes reach the approval that was validated, in every run, exactly when users do not
      recreate an approval under a name whose reconcile is still running. */
  lemma AttributedExactlyWithoutReuse(cfg: Config)
    requires ValidConfig(cfg)
    ensures (forall s :: Reachable(cfg, s) ==> Attributed(s)) <==> !cfg.reuse
  {
    hide Reachable, Attributed;
    if cfg.reuse {
      var s := ReuseMisdirectsAWrite(cfg);
    } else {
      forall s | Reachable(cfg, s) ensures Attributed(s) { ReachableLive(cfg, s); }
    }
  }
}
