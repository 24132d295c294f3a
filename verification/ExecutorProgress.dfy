/** Undisturbed reconciles as runs of the executor machine, and when an approval is carried out
    (internal/executor/executor.go). */
module ExecutorProgress {
  import opened Types
  import opened Framing
  import opened Discovery
  import opened Policy
  import opened JsonPatch
  import opened Executor
  import opened ExecutorSafety
  import opened ExecutorRuns
  import opened ExecutorApprovals
  import opened ExecutorAlone
  import Incidents

  // ---- Catalogs ----

  /** Every catalog of a history indexes its own resources. */
  ghost predicate CatalogsOk(h: seq<World>) { forall i :: 0 <= i < |h| ==> Consistent(h[i].catalog) }

  lemma StepKeepsCatalog(cfg: Config, w: World, n: nat, name: string, pc: Pc, inp: Input)
    ensures Next(cfg, w, n, name, pc, inp).w.catalog == w.catalog
    ensures Next(cfg, w, n, name, pc, inp).w.rvs <= w.rvs + {inp.rv}
    ensures !pc.Acquire? ==> Next(cfg, w, n, name, pc, inp).w.locks == w.locks
  {
    hide Compiled, FindAction, BelongsToIncident, Eligible, Incidents.EvidenceCurrent, RevisionIs, Terminal,
      GoalReached, Match, PolicyTarget, SameTargetIdentity, Vanishes, Mutate, IndexOf, FinalizerPatch, TargetKey,
      Continue, Prepare, NextDecide, NextCheckPolicy, NextCheckExpiry, NextCheckEvidence, NextRecheckPolicy,
      NextExecRead, NextExecResolve,
      NextExecIncidentTarget, NextExecNamespace, NextBackoff;
    if pc.ExecMutate? { ServedVersion(pc.x, pc.req, w, inp); }
  }

  lemma ServedVersion(x: Exec, req: Request, w: World, inp: Input)
    ensures var id := IdOf(x.Act().target);
            id in w.objects && Serve(w.objects[id], req).Some? ==>
              Serve(w.objects[id], req).value.(rv := inp.rv).rv == inp.rv
  {
    hide Serve;
  }

  lemma DoKeepsCatalogs(cfg: Config, s: State, act: Act)
    requires s.hist != [] && Legal(cfg, s, act) && CatalogsOk(s.hist)
    ensures CatalogsOk(Do(cfg, s, act).hist)
  {
    hide Next, Consistent, Incidents.Apply;
    var s' := Do(cfg, s, act);
    if act.Step? { StepKeepsCatalog(cfg, Now(s), |s.hist| - 1, act.approval, s.threads[act.approval], act.inp); }
    assert |s'.hist| == |s.hist| + 1 && s'.hist[..|s.hist|] == s.hist;
    assert Consistent(Now(s').catalog);
    forall i | 0 <= i < |s'.hist| ensures Consistent(s'.hist[i].catalog) {
      if i < |s.hist| { assert s'.hist[i] == s.hist[i]; }
    }
  }

  lemma {:induction false} RunKeepsCatalogs(cfg: Config, s0: State, acts: seq<Act>, s: State)
    requires Initial(s0) && Run(cfg, s0, acts, s)
    ensures s.hist != [] && CatalogsOk(s.hist)
    decreases |acts|
  {
    hide CatalogsOk, Do, Legal;
    if acts == [] {
      assert CatalogsOk(s0.hist) by { StartsConsistent(s0); }
    } else {
      var mid :| Run(cfg, s0, acts[..|acts| - 1], mid) && mid.hist != []
                 && Legal(cfg, mid, acts[|acts| - 1]) && s == Do(cfg, mid, acts[|acts| - 1]);
      RunKeepsCatalogs(cfg, s0, acts[..|acts| - 1], mid);
      DoKeepsCatalogs(cfg, mid, acts[|acts| - 1]);
    }
  }

  lemma StartsConsistent(s0: State)
    requires Initial(s0)
    ensures CatalogsOk(s0.hist)
  {
  }

  lemma ReachableCatalogs(cfg: Config, s: State)
    requires Reachable(cfg, s)
    ensures s.hist != [] && CatalogsOk(s.hist)
  {
    hide Initial, Run, CatalogsOk;
    var s0, acts :| Initial(s0) && Run(cfg, s0, acts, s);
    RunKeepsCatalogs(cfg, s0, acts, s);
  }

  // ---- Mutations by the spec ----

  /** Every mutation was permitted by the revision's own spec: usable, unexpired by its approval time, allowing the
      action, with a rule that selects the incident's target as it was stored. */
  lemma MutationsBySpec(cfg: Config, s: State, k: nat)
    requires Reachable(cfg, s) && k < |s.log|
    ensures var m := s.log[k];
            m.x.l.v.plan.Fresh? && m.x.compAt < |s.hist| &&
            var spec, w := SpecFor(cfg, m.x.l.v.plan.ref), s.hist[m.x.compAt];
            && Usable(spec, w.catalog) && SpecAllows(spec, m.x.Act().typ, m.x.Act().finalizer)
            && w.clock < m.x.l.a1.val.created + spec.approvalTTL
            && exists i :: 0 <= i < |spec.rules| && RuleIntends(spec.rules[i], w.catalog, PolicyTarget(m.x, m.sel))
  {
    hide ApprovedByIncident, Reachable, TargetKey, ChangeOk, Compiled, Match, Usable, SpecAllows, RuleIntends,
      SelectionOk, Consistent, PolicyTarget;
    EveryMutationJustified(cfg, s, k);
    ReachableCatalogs(cfg, s);
    var m := s.log[k];
    MatchIsIntent(SourceOf(cfg, m.x.l.v.plan.ref), s.hist[m.x.compAt].catalog, PolicyTarget(m.x, m.sel));
  }

  // ---- Undisturbed runs ----

  /** The reconcile of `name` acts alone until it is over. */
  function Undisturbed(solo: Solo, s: State, acts: nat): State
    requires s.hist != []
    decreases acts
  {
    if acts == 0 || solo.name !in s.threads then s
    else Undisturbed(solo, Do(solo.cfg, s, Step(solo.name, solo.inp(|s.hist| - 1))), acts - 1)
  }

  /** The versions handed out from here on are unused and differ. */
  ghost predicate FreshFrom(solo: Solo, n: nat, used: set<string>) {
    && (forall k :: k >= n ==> solo.inp(k).rv !in used)
    && (forall j, k :: n <= j < k ==> solo.inp(j).rv != solo.inp(k).rv)
  }

  ghost function AloneFrom(solo: Solo, s: State, acts: nat): Outcome
    requires s.hist != [] && solo.name in s.threads
  {
    Alone(solo, Now(s), |s.hist| - 1, s.threads[solo.name], acts)
  }

  /** The state after a run of the machine in which only this reconcile acted, and is over. */
  ghost predicate RanTo(solo: Solo, s: State, o: Outcome, s': State) {
    && Reachable(solo.cfg, s') && s'.hist != [] && s'.threads == s.threads - {solo.name}
    && s'.log == s.log + o.log && Now(s') == Unlock(o.w, solo.name)
  }

  lemma LeavesAlone(solo: Solo, s: State)
    requires Reachable(solo.cfg, s) && s.hist != [] && solo.name in s.threads && s.threads[solo.name].Returning?
    requires FreshFrom(solo, |s.hist| - 1, Now(s).rvs)
    ensures RanTo(solo, s, Outcome(Now(s), s.threads[solo.name], []),
                  Do(solo.cfg, s, Step(solo.name, solo.inp(|s.hist| - 1))))
  {
    hide Next, Reachable;
    var act := Step(solo.name, solo.inp(|s.hist| - 1));
    assert solo.inp(|s.hist| - 1).rv !in Now(s).rvs;
    Reached(solo.cfg, s, act);
  }

  lemma ActsAlone(solo: Solo, s: State, acts: nat)
    requires Reachable(solo.cfg, s) && s.hist != [] && solo.name in s.threads && acts > 0
    requires !s.threads[solo.name].Returning? && !Blocked(Now(s), s.threads[solo.name])
    requires FreshFrom(solo, |s.hist| - 1, Now(s).rvs)
    ensures var s1 := Do(solo.cfg, s, Step(solo.name, solo.inp(|s.hist| - 1)));
            && Reachable(solo.cfg, s1) && s1.hist != [] && solo.name in s1.threads
            && s1.threads - {solo.name} == s.threads - {solo.name} && FreshFrom(solo, |s1.hist| - 1, Now(s1).rvs)
            && AloneFrom(solo, s, acts).w == AloneFrom(solo, s1, acts - 1).w
            && AloneFrom(solo, s, acts).pc == AloneFrom(solo, s1, acts - 1).pc
            && s.log + AloneFrom(solo, s, acts).log == s1.log + AloneFrom(solo, s1, acts - 1).log
  {
    hide Next, Reachable, Blocked;
    var n := |s.hist| - 1;
    var act := Step(solo.name, solo.inp(n));
    assert solo.inp(n).rv !in Now(s).rvs;
    Reached(solo.cfg, s, act);
    StepKeepsCatalog(solo.cfg, Now(s), n, solo.name, s.threads[solo.name], solo.inp(n));
    DoTakes(solo.cfg, s, act);
    hide Do;
  }

  /** What an undisturbed reconcile leaves behind is the state after a run of the machine. */
  lemma {:induction false} RunsAlone(solo: Solo, s: State, acts: nat)
    requires Reachable(solo.cfg, s) && s.hist != [] && solo.name in s.threads
    requires FreshFrom(solo, |s.hist| - 1, Now(s).rvs) && AloneFrom(solo, s, acts).pc.Returning?
    ensures RanTo(solo, s, AloneFrom(solo, s, acts), Undisturbed(solo, s, acts + 1))
    decreases acts
  {
    hide Next, Reachable, Blocked, Do, FreshFrom, Alone;
    var pc := s.threads[solo.name];
    if pc.Returning? {
      LeavesAlone(solo, s);
      Returned(solo, Now(s), |s.hist| - 1, pc, acts);
    } else {
      assert acts > 0 && !Blocked(Now(s), pc) by { NotStuck(solo, Now(s), |s.hist| - 1, pc, acts); }
      ActsAlone(solo, s, acts);
      RunsAlone(solo, Do(solo.cfg, s, Step(solo.name, solo.inp(|s.hist| - 1))), acts - 1);
    }
  }

  lemma NotStuck(solo: Solo, w: World, n: nat, pc: Pc, acts: nat)
    requires !pc.Returning? && Alone(solo, w, n, pc, acts).pc.Returning?
    ensures acts > 0 && !Blocked(w, pc)
  {
    hide Next, Blocked;
  }

  lemma Reached(cfg: Config, s: State, act: Act)
    requires Reachable(cfg, s) && s.hist != [] && Legal(cfg, s, act)
    ensures Reachable(cfg, Do(cfg, s, act))
  {
    hide Initial, Run, Legal, Do;
    var s0, acts :| Initial(s0) && Run(cfg, s0, acts, s);
    RunOneMore(cfg, s0, acts, s, act);
  }

  lemma AcquireLocks(cfg: Config, w: World, n: nat, name: string, pc: Pc, inp: Input)
    requires pc.Acquire?
    ensures Next(cfg, w, n, name, pc, inp).w.locks == w.locks[TargetKey(pc.v.action.target) := name]
  {
    hide TargetKey;
  }

  lemma OwnLock(w: World, w': World, name: string, key: string)
    requires w'.locks == w.locks || (key !in w.locks && w'.locks == w.locks[key := name])
    ensures Unlock(w', name).locks == Unlock(w, name).locks
  {
  }

  /** The locks of others are as they were, and its own are given back. */
  lemma {:induction false} LocksGivenBack(solo: Solo, w: World, n: nat, pc: Pc, acts: nat)
    ensures Unlock(Alone(solo, w, n, pc, acts).w, solo.name).locks == Unlock(w, solo.name).locks
    decreases acts
  {
    hide Next, Unlock, TargetKey;
    if acts > 0 && !pc.Returning? && !Blocked(w, pc) {
      StepKeepsCatalog(solo.cfg, w, n, solo.name, pc, solo.inp(n));
      if pc.Acquire? { AcquireLocks(solo.cfg, w, n, solo.name, pc, solo.inp(n)); }
      var e := Next(solo.cfg, w, n, solo.name, pc, solo.inp(n));
      OwnLock(w, e.w, solo.name, if pc.Acquire? then TargetKey(pc.v.action.target) else "");
      LocksGivenBack(solo, e.w, n + 1, e.pc, acts - 1);
    }
  }

  /** A reconcile has just begun; the API server answers without faults and with unused versions. */
  ghost predicate Begun(solo: Solo, s: State, transient: bool) {
    && Reachable(solo.cfg, s) && s.hist != [] && solo.name in s.threads && s.threads[solo.name].ReadApproval?
    && Faultless(solo, Now(s).rvs, transient) && FreshFrom(solo, |s.hist| - 1, Now(s).rvs) && Free(Now(s), solo.name)
  }

  /** Every reconcile that nothing disturbs is over after at most `LONGEST + 1` acts and has done exactly what was
      due; the state is reachable, and nobody else's thread, lock or approval is touched. */
  lemma EndsAsDue(solo: Solo, transient: bool, s: State)
    requires Begun(solo, s, transient)
    ensures var o, s' := AloneFrom(solo, s, LONGEST), Undisturbed(solo, s, LONGEST + 1);
            && RanTo(solo, s, o, s') && LeftAs(Now(s), solo.name, Due(solo.cfg, Now(s), solo.name, transient), o)
            && Now(s').locks == Unlock(Now(s), solo.name).locks
  {
    hide Alone, Undisturbed, Reachable, Consistent, Faultless, FreshFrom, Free, Due, LeftAs, Unlock;
    ReachableCatalogs(solo.cfg, s);
    AloneEnds(solo, transient, Now(s), |s.hist| - 1, LONGEST);
    DueReturns(Now(s), solo.name, Due(solo.cfg, Now(s), solo.name, transient), AloneFrom(solo, s, LONGEST));
    RunsAlone(solo, s, LONGEST);
    LocksGivenBack(solo, Now(s), |s.hist| - 1, ReadApproval, LONGEST);
  }

  lemma DueReturns(w: World, name: string, due: Ending, o: Outcome)
    requires LeftAs(w, name, due, o)
    ensures o.pc.Returning?
  {
    hide Rewritten, Audited, ChangedTo;
  }

  // ---- When an approval is carried out ----

  /** There is something to remove, at the approved version of a target of the right kind. */
  ghost predicate Removable(act: Action, o: Obj) {
    && o.uid == act.target.uid && o.rv == act.preRv
    && match act.typ
       case RemoveResourceFinalizer => act.finalizer in o.finalizers
       case RemoveCRDFinalizer =>
         act.finalizer in o.finalizers
         && act.target.GR() == GroupResource("apiextensions.k8s.io", "customresourcedefinitions")
       case ForceFinalizeNamespace =>
         o.specFinalizers != [] && act.target.GR() == GroupResource("", "namespaces") && act.target.ns == ""
       case UnsupportedAction => false
  }

  /** The incident's target is catalogued, there with its UID, and selected by a rule of the spec, with the labels
      of its namespace if it has one. */
  ghost predicate StillSelected(spec: Spec, w: World, t: TargetRef) {
    && t.GR() in w.catalog.resources && IdOf(t) in w.objects && w.objects[IdOf(t)].uid == t.uid
    && var namespaced := w.catalog.resources[t.GR()].preferred.namespaced;
    && (namespaced ==> NamespaceId(t.ns) in w.objects)
    && SelectedBy(spec, w.objects, w.catalog, t, namespaced)
  }

  /** The incident is Active and recommends the action, on evidence that has not expired. */
  ghost predicate Recommends(i: Incidents.Incident, id: string, act: Action, now: int) {
    && i.status.phase.Active? && i.status.policyRef.Some? && FindAction(i.status.actions, id) == Some(act)
    && act.id == id && BoundTo(act, i.target)
    && i.status.evidenceTime.Some? && i.status.evidenceExpires.Some?
    && i.status.evidenceTime.value <= i.status.evidenceExpires.value && now < i.status.evidenceExpires.value
  }

  /** The revision is in force, and its spec compiles, allows the action and has not let the approval expire. */
  ghost predicate Permits(cfg: Config, w: World, ref: PolicyRef, a: Approval, act: Action) {
    && ref.name in w.policies && w.policies[ref.name] == Revision(ref.uid, ref.generation)
    && var spec := SpecFor(cfg, ref);
    && Usable(spec, w.catalog) && w.clock < a.created + spec.approvalTTL
    && act.eligible && SpecAllows(spec, act.typ, act.finalizer) && act.risk == RiskFor(act.typ, act.finalizer)
  }

  /** Everything that carrying out an approval for good takes. */
  ghost predicate Carriable(cfg: Config, w: World, name: string, act: Action) {
    name in w.approvals &&
    var a := w.approvals[name];
    && a.status.phase in {Pending, Running} && !a.spec.dryRun && |a.status.attempts| < cfg.maxAttempts
    && (a.status.action.Some? ==> a.status.action == Some(act))
    && a.spec.incidentName in w.incidents
    && var i := w.incidents[a.spec.incidentName];
    && i.uid == a.spec.incidentUid && Recommends(i, a.spec.actionID, act, w.clock)
    && Permits(cfg, w, i.status.policyRef.value, a, act)
    && IdOf(act.target) in w.objects && Removable(act, w.objects[IdOf(act.target)])
    && StillSelected(SpecFor(cfg, i.status.policyRef.value), w, i.target)
  }

  /** The target without what was to be removed. */
  ghost function RemovedFrom(act: Action, o: Obj): Obj {
    if act.typ.ForceFinalizeNamespace? then o.(specFinalizers := [])
    else
      var i := IndexOf(o.finalizers, act.finalizer);
      if i.None? then o else o.(finalizers := o.finalizers[..i.value] + o.finalizers[i.value + 1..])
  }

  lemma AttemptExactly(cfg: Config, spec: Spec, w: World, a: Approval, t: TargetRef, act: Action, transient: bool)
    ensures var due := DueAttempt(cfg, spec, w.objects, w.catalog, a, t, act, transient);
            var id := IdOf(act.target);
            && (due.Tried? && due.change.Some? <==>
                  && !a.spec.dryRun && id in w.objects && Removable(act, w.objects[id]) && StillSelected(spec, w, t))
            && (due.Tried? && due.change.Some? ==>
                  due == Tried(act, Succeeded, Mutated, w.objects[id].rv, Some(RemovedFrom(act, w.objects[id]))))
  {
    hide SelectedBy, IndexOf;
  }

  lemma CarriableIsDue(cfg: Config, w: World, name: string, act: Action, transient: bool)
    requires Carriable(cfg, w, name, act)
    ensures Due(cfg, w, name, transient) == Tried(act, Succeeded, Mutated, w.objects[IdOf(act.target)].rv,
                                                  Some(RemovedFrom(act, w.objects[IdOf(act.target)])))
  {
    hide SelectedBy, IndexOf, DueAttempt, Removable, StillSelected, Usable, SpecAllows, RiskFor, DueReplay, FindAction,
      BoundTo, RemovedFrom;
    var a := w.approvals[name];
    var i := w.incidents[a.spec.incidentName];
    AttemptExactly(cfg, SpecFor(cfg, i.status.policyRef.value), w, a, i.target, act, transient);
  }

  lemma DueIsCarriable(cfg: Config, w: World, name: string, transient: bool)
    requires Due(cfg, w, name, transient).Tried? && Due(cfg, w, name, transient).change.Some?
    ensures exists act :: Carriable(cfg, w, name, act)
  {
    hide SelectedBy, IndexOf, DueAttempt, Removable, StillSelected, Usable, SpecAllows, RiskFor, DueReplay, FindAction,
      BoundTo, RemovedFrom;
    var a := w.approvals[name];
    var i := w.incidents[a.spec.incidentName];
    var act := Wanted(a, i).value;
    ReplayChangesNothing(w.objects, act);
    AttemptExactly(cfg, SpecFor(cfg, i.status.policyRef.value), w, a, i.target, act, transient);
    assert Carriable(cfg, w, name, act);
  }

  /** An approval is carried out for good exactly when all of this holds, and then with this effect. */
  lemma CarriedOutExactly(cfg: Config, w: World, name: string, transient: bool)
    ensures var due := Due(cfg, w, name, transient);
            && (due.Tried? && due.change.Some? <==> exists act :: Carriable(cfg, w, name, act))
            && (forall act :: Carriable(cfg, w, name, act) ==>
                  due == Tried(act, Succeeded, Mutated, w.objects[IdOf(act.target)].rv,
                               Some(RemovedFrom(act, w.objects[IdOf(act.target)]))))
  {
    var due := Due(cfg, w, name, transient);
    hide Due;
    if due.Tried? && due.change.Some? { DueIsCarriable(cfg, w, name, transient); }
    forall act | Carriable(cfg, w, name, act)
      ensures due == Tried(act, Succeeded, Mutated, w.objects[IdOf(act.target)].rv,
                           Some(RemovedFrom(act, w.objects[IdOf(act.target)])))
    {
      CarriableIsDue(cfg, w, name, act, transient);
    }
  }

  lemma ReplayChangesNothing(objects: map<ObjId, Obj>, act: Action)
    ensures !DueReplay(objects, act).Tried?
  {
  }

  /** A valid approval is carried out: whatever the kind and scope of the target, an undisturbed reconcile changes it
      exactly as approved, once, and ends Succeeded. */
  lemma ApprovalIsCarriedOut(solo: Solo, transient: bool, s: State, act: Action)
    requires Begun(solo, s, transient) && Carriable(solo.cfg, Now(s), solo.name, act)
    ensures var w, s', id := Now(s), Undisturbed(solo, s, LONGEST + 1), IdOf(act.target);
            && Reachable(solo.cfg, s') && s'.hist != [] && solo.name !in s'.threads && solo.name in Now(s').approvals
            && Now(s').approvals[solo.name].status.phase == Succeeded
            && Now(s').approvals[solo.name].status.result == Mutated
            && |s'.log| == |s.log| + 1 && s.log <= s'.log && s'.log[|s.log|].before == w.objects[id]
            && var after := s'.log[|s.log|].after;
            && after == RemovedFrom(act, w.objects[id]).(rv := after.rv) && after.rv !in w.rvs
            && Now(s').objects == ObjectsAfter(w.objects, id, after)
  {
    hide Begun, Undisturbed, Reachable, Audited, Carriable, RemovedFrom, Alone, Due;
    BegunMeans(solo, s, transient);
    EndsAsDue(solo, transient, s);
    CarriableIsDue(solo.cfg, Now(s), solo.name, act, transient);
  }

  lemma BegunMeans(solo: Solo, s: State, transient: bool)
    requires Begun(solo, s, transient)
    ensures s.hist != [] && solo.name in s.threads
  {
    hide Reachable, Faultless, FreshFrom, Free;
  }
}
