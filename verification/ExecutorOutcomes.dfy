/** What comes of whole runs of the executor: whose approval stands behind a mutation, and when an unfinished
    approval is looked at again. */
module ExecutorOutcomes {
  import opened Types
  import opened Framing
  import opened Discovery
  import opened Policy
  import opened JsonPatch
  import opened Executor
  import opened ExecutorSafety
  import opened ExecutorRuns
  import opened ExecutorLifecycle
  import opened ExecutorApprovals
  import Incidents

  // ---- One approval behind each mutation ----

  /** The approval re-read under the lock is the one that was read and checked first. */
  ghost predicate OneApproval(m: Mutation) { SameApproval(m.x.l.a1.val, m.x.l.v.a0.val) }

  ghost predicate AllOneApproval(s: State) { forall k :: 0 <= k < |s.log| ==> OneApproval(s.log[k]) }

  lemma MutatesWhatItHolds(cfg: Config, s: State, name: string, inp: Input)
    requires Live(cfg, s) && name in s.threads
    ensures var e := Taken(cfg, s.hist, name, s.threads[name], inp);
            e.mutation.Some? ==> OneApproval(e.mutation.value)
  {
    hide CalmOnRecord, UidsOnRecord, NothingLost, ApprovalsOk, Attributed, SameApproval;
    var pc := s.threads[name];
    if Taken(cfg, s.hist, name, pc, inp).mutation.Some? {
      OnlyMutateMutates(cfg, s.hist, name, pc, inp);
      MutationCarries(Now(s), |s.hist| - 1, name, pc.x, pc.sel, pc.req, inp);
      assert ThreadLive(cfg, s.hist, s.calm, Now(s), name, pc);
      LiveLocked(cfg, s.hist, s.calm, Now(s), name, pc);
    }
  }

  lemma MutationCarries(w: World, n: nat, name: string, x: Exec, sel: Selection, req: Request, inp: Input)
    ensures var e := NextExecMutate(w, n, name, x, sel, req, inp); e.mutation.Some? ==> e.mutation.value.x == x
  {
    hide Serve, Retry, Succeed, Vanishes;
  }

  lemma LiveLocked(cfg: Config, h: seq<World>, calm: map<(string, string), nat>, w: World, name: string, pc: Pc)
    requires pc.ExecMutate? && ThreadLive(cfg, h, calm, w, name, pc)
    ensures SameApproval(pc.x.l.a1.val, pc.x.l.v.a0.val)
  {
  }

  lemma OneApprovalMore(cfg: Config, s: State, act: Act)
    requires s.hist != [] && Live(cfg, s) && Legal(cfg, s, act) && AllOneApproval(s)
    ensures AllOneApproval(Do(cfg, s, act))
  {
    hide Live, OneApproval, Taken, Next;
    if act.Step? && !s.threads[act.approval].Returning? {
      MutatesWhatItHolds(cfg, s, act.approval, act.inp);
      DoTakes(cfg, s, act);
      hide Do;
    }
  }

  lemma {:induction false} RunOneApproval(cfg: Config, s0: State, acts: seq<Act>, s: State)
    requires ValidConfig(cfg) && !cfg.reuse && Initial(s0) && Run(cfg, s0, acts, s)
    ensures AllOneApproval(s)
    decreases |acts|
  {
    hide Live, Do, Legal, OneApproval;
    if acts != [] {
      var mid :| Run(cfg, s0, acts[..|acts| - 1], mid) && mid.hist != []
                 && Legal(cfg, mid, acts[|acts| - 1]) && s == Do(cfg, mid, acts[|acts| - 1]);
      RunOneApproval(cfg, s0, acts[..|acts| - 1], mid);
      RunLive(cfg, s0, acts[..|acts| - 1], mid);
      OneApprovalMore(cfg, mid, acts[|acts| - 1]);
    }
  }

  /** Without in-flight name reuse a mutation has one approval behind it, which names the UID of the Active
      incident that holds the action, the action's ID, and no dry run. */
  lemma MutationsOfOneApproval(cfg: Config, s: State, k: nat)
    requires ValidConfig(cfg) && !cfg.reuse && Reachable(cfg, s) && k < |s.log|
    ensures var l, inc := s.log[k].x.l, s.log[k].x.inc1;
            && SameApproval(l.a1.val, l.v.a0.val)
            && l.a1.val.spec.incidentUid == inc.val.uid && inc.at < |s.hist|
            && l.a1.val.spec.incidentName in s.hist[inc.at].incidents
            && s.hist[inc.at].incidents[l.a1.val.spec.incidentName] == inc.val
            && l.a1.val.spec.actionID == s.log[k].x.Act().id && !l.a1.val.spec.dryRun
  {
    hide Run, Initial, PermittedByPolicy, ChangeOk, Incidents.Signed, Incidents.EvidenceCurrent, Terminal;
    var s0, acts :| Initial(s0) && Run(cfg, s0, acts, s);
    EveryMutationJustified(cfg, s, k);
    RunOneApproval(cfg, s0, acts, s);
  }

  // ---- When an unfinished approval is looked at again ----

  lemma OpeningNoRequeue(cfg: Config, w: World, n: nat, name: string, pc: Pc, inp: Input)
    requires pc.ReadApproval? || pc.ReadIncident? || pc.EnsureOwner? || pc.Decide? || pc.ReadPolicy? || pc.CheckPolicy?
             || pc.Acquire?
    ensures var next := Next(cfg, w, n, name, pc, inp).pc; next.Returning? ==> next.requeue.None?
  {
    hide Compiled, FindAction, BelongsToIncident, Eligible, Incidents.EvidenceCurrent, RevisionIs, Terminal;
  }

  lemma LockedNoRequeue(cfg: Config, w: World, n: nat, name: string, pc: Pc, inp: Input)
    requires pc.LockedReadApproval? || pc.LockedReadIncident? || pc.ReplayRead? || pc.CheckExpiry? || pc.CheckEvidence?
             || pc.RereadPolicy? || pc.RecheckPolicy?
    ensures var next := Next(cfg, w, n, name, pc, inp).pc; next.Returning? ==> next.requeue.None?
  {
    hide Compiled, FindAction, Incidents.EvidenceCurrent, RevisionIs, GoalReached, Terminal;
  }

  lemma ExecutingNoRequeue(cfg: Config, w: World, n: nat, name: string, pc: Pc, inp: Input)
    requires pc.UpdateRead? || pc.UpdateWrite? || pc.ExecRead? || pc.ExecResolve? || pc.ExecIncidentTarget?
             || pc.ExecNamespace? || pc.ExecMutate?
    ensures var next := Next(cfg, w, n, name, pc, inp).pc; next.Returning? ==> next.requeue.None?
  {
    hide Match, PolicyTarget, SameTargetIdentity, Serve, Vanishes, Mutate, IndexOf, FinalizerPatch;
  }

  lemma OnlyBackoffRequeues(cfg: Config, w: World, n: nat, name: string, pc: Pc, inp: Input)
    requires !pc.Returning?
    ensures var next := Next(cfg, w, n, name, pc, inp).pc; next.Returning? && next.requeue.Some? ==> pc.Backoff?
  {
    hide Next;
    match pc
    case ReadApproval => OpeningNoRequeue(cfg, w, n, name, pc, inp);
    case ReadIncident(_) => OpeningNoRequeue(cfg, w, n, name, pc, inp);
    case EnsureOwner(_, _) => OpeningNoRequeue(cfg, w, n, name, pc, inp);
    case Decide(_, _) => OpeningNoRequeue(cfg, w, n, name, pc, inp);
    case ReadPolicy(_, _, _, _) => OpeningNoRequeue(cfg, w, n, name, pc, inp);
    case CheckPolicy(_, _, _, _, _) => OpeningNoRequeue(cfg, w, n, name, pc, inp);
    case Acquire(_) => OpeningNoRequeue(cfg, w, n, name, pc, inp);
    case Backoff(_, _) =>
    case _ =>
      if pc.LockedReadApproval? || pc.LockedReadIncident? || pc.ReplayRead? || pc.CheckExpiry? || pc.CheckEvidence?
         || pc.RereadPolicy? || pc.RecheckPolicy? {
        LockedNoRequeue(cfg, w, n, name, pc, inp);
      } else {
        ExecutingNoRequeue(cfg, w, n, name, pc, inp);
      }
  }

  /** At moment `i`, after everything was checked again under the lock, a delay is positive and ends no later
      than the approval: its creation plus the time that the re-validated policy allows. */
  ghost predicate InTime(cfg: Config, h: seq<World>, name: string, i: nat, x: Exec, delay: int) {
    && ExecOk(cfg, h, name, x) && x.compAt < i < |h|
    && 0 < delay && h[i].clock + delay <= x.l.a1.val.created + x.policy.settings.approvalTTL
  }

  /** The act by which a reconcile decides to return with a requeue is the end of a failed attempt, and the
      requeue is in time. */
  lemma RequeuesInTime(cfg: Config, s: State, act: Act)
    requires Reachable(cfg, s) && s.hist != [] && Legal(cfg, s, act) && act.Step?
    requires !s.threads[act.approval].Returning?
    ensures var name, s' := act.approval, Do(cfg, s, act);
            var pc, next := s.threads[name], s'.threads[name];
            next.Returning? && next.requeue.Some? ==>
              pc.Backoff? && !next.failed && InTime(cfg, s'.hist, name, |s.hist|, pc.x, next.requeue.value)
  {
    hide Reachable, HistoryOk, LogOk, Spent, Next, NextBackoff, ExecOk, HoldsLock, Blocked;
    ReachableSafe(cfg, s);
    var name, pc, w := act.approval, s.threads[act.approval], Now(s);
    DoTakes(cfg, s, act);
    hide Do;
    OnlyBackoffRequeues(cfg, w, |s.hist| - 1, name, pc, act.inp);
    if pc.Backoff? {
      BackoffStays(cfg, s.hist, name, pc, act.inp);
      RequeueBounded(w, pc.x, pc.delay);
      ExecStable(cfg, s.hist, w, name, pc.x);
      Expires(cfg, s.hist, name, pc.x);
    }
  }

  lemma BackoffStays(cfg: Config, h: seq<World>, name: string, pc: Pc, inp: Input)
    requires h != [] && pc.Backoff?
    ensures Taken(cfg, h, name, pc, inp) == Quiet(h[|h| - 1], NextBackoff(h[|h| - 1], pc.x, pc.delay))
  {
    hide NextBackoff;
  }

  lemma Expires(cfg: Config, h: seq<World>, name: string, x: Exec)
    requires ExecOk(cfg, h, name, x)
    ensures x.expires == x.l.a1.val.created + x.policy.settings.approvalTTL && x.compAt + 1 < |h|
  {
    hide LockedOk, IncidentOk, EvidenceOk, SawRevision, Compiled;
  }

  ghost predicate RequeueOk(cfg: Config, h: seq<World>, name: string, pc: Pc) {
    pc.Returning? && pc.requeue.Some? ==> exists i: nat, x :: InTime(cfg, h, name, i, x, pc.requeue.value)
  }

  ghost predicate RequeuesOk(cfg: Config, s: State) {
    forall name :: name in s.threads ==> RequeueOk(cfg, s.hist, name, s.threads[name])
  }

  lemma RequeueStays(cfg: Config, h: seq<World>, w: World, name: string, pc: Pc)
    requires RequeueOk(cfg, h, name, pc)
    ensures RequeueOk(cfg, h + [w], name, pc)
  {
    hide ExecOk;
    if pc.Returning? && pc.requeue.Some? {
      var i: nat, x :| InTime(cfg, h, name, i, x, pc.requeue.value);
      ExecStable(cfg, h, w, name, x);
      assert (h + [w])[i] == h[i];
      assert InTime(cfg, h + [w], name, i, x, pc.requeue.value);
    }
  }

  lemma RequeuesMore(cfg: Config, s: State, act: Act)
    requires Reachable(cfg, s) && s.hist != [] && Legal(cfg, s, act) && RequeuesOk(cfg, s)
    ensures RequeuesOk(cfg, Do(cfg, s, act))
  {
    hide Reachable, RequeueOk, InTime, Next, Environment;
    var s' := Do(cfg, s, act);
    assert s'.hist == s.hist + [Now(s')];
    forall name | name in s'.threads ensures RequeueOk(cfg, s'.hist, name, s'.threads[name]) {
      if act.Step? && name == act.approval {
        OwnRequeue(cfg, s, act);
      } else if act.Begin? && name == act.approval {
        NoRequeue(cfg, s'.hist, name, s'.threads[name]);
      } else {
        assert s'.threads[name] == s.threads[name];
        RequeueStays(cfg, s.hist, Now(s'), name, s.threads[name]);
      }
    }
  }

  lemma NoRequeue(cfg: Config, h: seq<World>, name: string, pc: Pc)
    requires !pc.Returning?
    ensures RequeueOk(cfg, h, name, pc)
  {
  }

  lemma OwnRequeue(cfg: Config, s: State, act: Act)
    requires Reachable(cfg, s) && s.hist != [] && Legal(cfg, s, act) && act.Step?
    requires !s.threads[act.approval].Returning?
    ensures RequeueOk(cfg, Do(cfg, s, act).hist, act.approval, Do(cfg, s, act).threads[act.approval])
  {
    hide Reachable, InTime, Next;
    RequeuesInTime(cfg, s, act);
  }

  lemma {:induction false} RunRequeues(cfg: Config, s0: State, acts: seq<Act>, s: State)
    requires Initial(s0) && Run(cfg, s0, acts, s)
    ensures RequeuesOk(cfg, s)
    decreases |acts|
  {
    hide RequeueOk, Do, Legal;
    if acts != [] {
      var mid :| Run(cfg, s0, acts[..|acts| - 1], mid) && mid.hist != []
                 && Legal(cfg, mid, acts[|acts| - 1]) && s == Do(cfg, mid, acts[|acts| - 1]);
      RunRequeues(cfg, s0, acts[..|acts| - 1], mid);
      assert Reachable(cfg, mid);
      RequeuesMore(cfg, mid, acts[|acts| - 1]);
    }
  }

  /** In every run a reconcile that returns with a requeue comes back after a positive delay and no later than
      its approval expires. */
  lemma EveryRequeueInTime(cfg: Config, s: State, name: string)
    requires Reachable(cfg, s) && name in s.threads && s.threads[name].Returning? && s.threads[name].requeue.Some?
    ensures exists i: nat, x :: InTime(cfg, s.hist, name, i, x, s.threads[name].requeue.value)
  {
    hide Run, Initial, InTime;
    var s0, acts :| Initial(s0) && Run(cfg, s0, acts, s);
    RunRequeues(cfg, s0, acts, s);
    assert RequeueOk(cfg, s.hist, name, s.threads[name]);
  }

  /** The delay of a requeue: what the API server asks for, at least five seconds, and at most what is left until
      the approval expires. */
  lemma RequeueExactly(w: World, x: Exec, delay: Option<int>)
    requires x.expires > w.clock
    ensures var pc, left := NextBackoff(w, x, delay), x.expires - w.clock;
            && pc.Returning? && !pc.failed && pc.requeue.Some?
            && (delay.Some? && delay.value > 5 && delay.value <= left ==> pc.requeue.value == delay.value)
            && (!(delay.Some? && delay.value > 5) && left >= 5 ==> pc.requeue.value == 5)
            && ((if delay.Some? && delay.value > 5 then delay.value > left else left < 5) ==> pc.requeue.value == left)
  {
  }

  // ---- Calls that fail ----

  /** A call that fails before anything is attempted is an error without a trace. */
  lemma FailedCallsBefore(cfg: Config, w: World, n: nat, name: string, pc: Pc, inp: Input)
    requires !inp.fault.Fine?
    requires pc.ReadApproval? || pc.ReadIncident? || pc.EnsureOwner? || pc.ReadPolicy? || pc.LockedReadApproval?
             || pc.LockedReadIncident? || pc.ReplayRead? || pc.RereadPolicy? || pc.UpdateRead?
    ensures var e := Next(cfg, w, n, name, pc, inp);
            e.w == w && e.pc == Returning(true, None, 0) && e.mutation.None? && e.wrote.None?
  {
    hide FindAction, GoalReached, RevisionIs;
  }

  /** A call that fails during execution, or a request that is refused, is recorded as a failed attempt with an API
      error, to be judged by the kind of the error. */
  lemma FailedCallsDuring(cfg: Config, w: World, n: nat, name: string, pc: Pc, inp: Input)
    requires pc.ExecRead? || pc.ExecIncidentTarget? || pc.ExecNamespace? || pc.ExecMutate?
    requires if pc.ExecMutate? then inp.fault.NotSent? || IdOf(pc.x.Act().target) !in w.objects
                                    || Serve(w.objects[IdOf(pc.x.Act().target)], pc.req).None?
             else !inp.fault.Fine?
    ensures var e := Next(cfg, w, n, name, pc, inp);
            && e.w == w && e.mutation.None? && e.wrote.None? && e.pc.UpdateRead? && e.pc.u.mut.RetryAttempt?
            && e.pc.u.mut.attempt.result == APIError && e.pc.u.mut.attempt.time == w.clock
            && e.pc.u.cont == Judge(pc.x, inp.transient, inp.delay)
  {
    hide Match, PolicyTarget, Serve, Prepare, Selected;
  }

  /** A mutation whose response is lost has been made, and is recorded as a failed attempt. */
  lemma LostResponse(cfg: Config, w: World, n: nat, name: string, pc: Pc, inp: Input)
    requires pc.ExecMutate? && inp.fault.Lost? && IdOf(pc.x.Act().target) in w.objects && !pc.x.l.a1.val.spec.dryRun
    requires Serve(w.objects[IdOf(pc.x.Act().target)], pc.req).Some?
    ensures var e := Next(cfg, w, n, name, pc, inp);
            e.mutation.Some? && e.pc.UpdateRead? && e.pc.u.mut.RetryAttempt?
  {
    hide Serve, Vanishes;
  }
}
