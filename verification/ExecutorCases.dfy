/** A run of the executor in which a mutation is carried out, and in which the approval that was checked first
    is replaced by another of the same name before it is read again (internal/executor/executor.go). */
module ExecutorCases {
  import opened Types
  import opened Framing
  import opened Discovery
  import opened Policy
  import opened JsonPatch
  import opened Executor
  import opened ExecutorSafety
  import opened ExecutorRuns
  import opened ExecutorApprovals
  import Incidents

  /** An action to be carried out: the incident that recommends it, the policy revision, and the two approvals
      that bear the same name one after the other. */
  datatype Play = Play(cfg: Config, incident: string, inc: Incidents.Incident, a: Action, ref: PolicyRef, rv: string,
                       first: Approval, second: Approval)
  {
    function Compile(w: World): CompiledPolicy { Compiled(SourceOf(cfg, ref), w.catalog) }
    function Inp(): Input { Plain(rv) }
  }

  /** The incident is Active and recommends the action, on current evidence. */
  ghost predicate Recommended(p: Play, w: World) {
    && p.incident in w.incidents && w.incidents[p.incident] == p.inc
    && p.inc.status.phase.Active? && p.inc.status.policyRef == Some(p.ref)
    && FindAction(p.inc.status.actions, p.a.id) == Some(p.a) && SameTargetIdentity(p.a.target, p.inc.target)
    && Incidents.EvidenceCurrent(p.inc.status, w.clock)
  }

  /** The policy revision is in force and permits the action. */
  ghost predicate Permitted(p: Play, w: World) {
    && RevisionIs(w, p.ref) && p.Compile(w).ready && p.Compile(w).settings.approvalTTL > 0
    && Eligible(p.Compile(w), p.a.typ, p.a.finalizer) && p.a.eligible && RiskFor(p.a.typ, p.a.finalizer) == p.a.risk
  }

  /** The target, of a cluster-scoped kind, is there at the approved version, with the finalizer, and the policy
      selects it. */
  ghost predicate Present(p: Play, w: World) {
    && p.a.typ.RemoveResourceFinalizer? && IdOf(p.a.target) in w.objects
    && var o := w.objects[IdOf(p.a.target)];
    && o.uid == p.a.target.uid && o.rv == p.a.preRv && p.a.finalizer in o.finalizers
    && w.catalog.Resolve(p.inc.target.GR()).Some?
    && !w.catalog.Resolve(p.inc.target.GR()).value.preferred.namespaced
    && Match(p.Compile(w), Policy.Target(p.inc.target.GR(), false, p.inc.target.ns, o.labels, map[]))
  }

  /** Both approvals are new and ask for the action. Only the first names the incident's UID. */
  ghost predicate Asked(p: Play, w: World) {
    && p.first == Approval(p.first.uid, p.first.rv, w.clock,
                           ApprovalSpec(p.incident, p.inc.uid, p.a.id, false), NEW_STATUS)
    && p.second == Approval(p.second.uid, p.second.rv, w.clock,
                            ApprovalSpec(p.incident, p.second.spec.incidentUid, p.a.id, false), NEW_STATUS)
    && p.second.spec.incidentUid != p.inc.uid
  }

  ghost predicate Staged(p: Play, w: World) {
    && Recommended(p, w) && Permitted(p, w) && Present(p, w) && Asked(p, w)
    && p.cfg.maxAttempts >= 1 && p.rv !in w.rvs
  }

  /** A reachable state with one reconcile, at a place, and no mutation so far. */
  ghost predicate At(p: Play, s: State, n: nat, w: World, pc: Pc) {
    Reachable(p.cfg, s) && |s.hist| == n + 1 && Now(s) == w && s.threads == map["a" := pc] && s.log == []
  }

  lemma Reaches(cfg: Config, s: State, act: Act)
    requires Reachable(cfg, s) && s.hist != [] && Legal(cfg, s, act)
    ensures Reachable(cfg, Do(cfg, s, act))
  {
    hide Initial, Run, Legal, Do;
    var s0, acts :| Initial(s0) && Run(cfg, s0, acts, s);
    RunOneMore(cfg, s0, acts, s, act);
  }

  /** One act of the reconcile. */
  lemma Move(p: Play, s: State, n: nat, w: World, pc: Pc, next: Effect) returns (s': State)
    requires At(p, s, n, w, pc) && Next(p.cfg, w, n, "a", pc, p.Inp()) == next && next.mutation.None?
    requires !pc.Returning? && !Blocked(w, pc) && p.rv !in w.rvs
    ensures At(p, s', n + 1, next.w, next.pc)
  {
    hide Next, Reachable, Blocked;
    var act := Step("a", p.Inp());
    Reaches(p.cfg, s, act);
    s' := Do(p.cfg, s, act);
  }

  // ---- Before the lock ----

  function Vet(p: Play, n: nat, w: World): Vetted {
    Vetted(Seen(n, p.first), Seen(n + 1, p.inc), p.a,
           Fresh(p.ref, n + 4, n + 5, p.first.created + p.Compile(w).settings.approvalTTL))
  }

  lemma Opens(p: Play, s: State, n: nat, w: World) returns (s': State)
    requires At(p, s, n, w, ReadApproval) && Staged(p, w) && w.approvals == map["a" := p.first]
    ensures At(p, s', n + 3, w, Decide(Seen(n, p.first), Seen(n + 1, p.inc)))
  {
    hide At, Permitted, Present, FindAction, Incidents.EvidenceCurrent, SameTargetIdentity;
    var a0, inc0 := Seen(n, p.first), Seen(n + 1, p.inc);
    var s1 := Move(p, s, n, w, ReadApproval, Quiet(w, ReadIncident(a0)));
    var s2 := Move(p, s1, n + 1, w, ReadIncident(a0), Quiet(w, EnsureOwner(a0, inc0)));
    s' := Move(p, s2, n + 2, w, EnsureOwner(a0, inc0), Quiet(w, Decide(a0, inc0)));
  }

  lemma Vets(p: Play, s: State, n: nat, w: World) returns (s': State)
    requires At(p, s, n + 3, w, Decide(Seen(n, p.first), Seen(n + 1, p.inc))) && Staged(p, w)
    ensures At(p, s', n + 6, w, Acquire(Vet(p, n, w)))
  {
    hide At, Present, Eligible, RiskFor, Compiled, FindAction, Incidents.EvidenceCurrent, SameTargetIdentity;
    var a0, inc0 := Seen(n, p.first), Seen(n + 1, p.inc);
    assert BelongsToIncident(p.a, p.inc.target);
    hide BelongsToIncident;
    assert NextDecide(w, a0, inc0) == ReadPolicy(a0, inc0, p.a, p.ref);
    var s1 := Move(p, s, n + 3, w, Decide(a0, inc0), Quiet(w, ReadPolicy(a0, inc0, p.a, p.ref)));
    var s2 := Move(p, s1, n + 4, w, ReadPolicy(a0, inc0, p.a, p.ref),
                   Quiet(w, CheckPolicy(a0, inc0, p.a, p.ref, n + 4)));
    assert NextCheckPolicy(p.cfg, w, n + 5, a0, inc0, p.a, p.ref, n + 4) == Acquire(Vet(p, n, w));
    s' := Move(p, s2, n + 5, w, CheckPolicy(a0, inc0, p.a, p.ref, n + 4), Quiet(w, Acquire(Vet(p, n, w))));
  }

  /** Before the thread reads its approval again, it is deleted and another one created under its name. */
  lemma Swapped(p: Play, s: State, n: nat, w: World, pc: Pc) returns (s': State)
    requires At(p, s, n, w, pc) && p.cfg.reuse && p.second.uid !in w.uids && p.second.rv !in w.rvs
    requires Asked(p, w) && w.approvals == map["a" := p.first]
    ensures At(p, s', n + 2, w.(approvals := map["a" := p.second], uids := w.uids + {p.second.uid},
                                rvs := w.rvs + {p.second.rv}), pc)
  {
    hide Next, Reachable;
    var delete, create := DeleteApproval("a"), CreateApproval("a", p.second.uid, p.second.rv, p.second.spec);
    Reaches(p.cfg, s, delete);
    var s1 := Do(p.cfg, s, delete);
    assert Now(s1) == w.(approvals := map[]);
    Reaches(p.cfg, s1, create);
    s' := Do(p.cfg, s1, create);
    assert Now(s').approvals == map["a" := p.second];
  }

  // ---- Under the lock ----

  /** What the thread has in hand once everything was checked again. */
  function InHand(p: Play, v: Vetted, since: nat, m: nat, w: World, me: Approval): Exec {
    Exec(Locked(v, since, Seen(m, p.second)), Seen(m + 1, p.inc), m + 3, m + 4, m + 5, p.Compile(w),
         p.second.created + p.Compile(w).settings.approvalTTL, me)
  }

  lemma Rereads(p: Play, s: State, m: nat, w: World, v: Vetted, since: nat) returns (s': State)
    requires At(p, s, m, w, LockedReadApproval(v, since)) && Staged(p, w) && w.approvals == map["a" := p.second]
    requires v.plan.Fresh? && v.plan.ref == p.ref && v.plan.expires > w.clock && v.inc0.val == p.inc && v.action == p.a
    ensures At(p, s', m + 4, w, RereadPolicy(Locked(v, since, Seen(m, p.second)), Seen(m + 1, p.inc), m + 3))
  {
    hide At, Permitted, Present, FindAction, Incidents.EvidenceCurrent, SameTargetIdentity;
    var l, inc1 := Locked(v, since, Seen(m, p.second)), Seen(m + 1, p.inc);
    var s1 := Move(p, s, m, w, LockedReadApproval(v, since), Quiet(w, LockedReadIncident(l)));
    assert NextLockedReadIncident(w, m + 1, l, p.Inp()) == Quiet(w, CheckExpiry(l, Some(inc1)));
    var s2 := Move(p, s1, m + 1, w, LockedReadIncident(l), Quiet(w, CheckExpiry(l, Some(inc1))));
    assert NextCheckExpiry(w, l, v.plan, Some(inc1)) == CheckEvidence(l, inc1);
    var s3 := Move(p, s2, m + 2, w, CheckExpiry(l, Some(inc1)), Quiet(w, CheckEvidence(l, inc1)));
    s' := Move(p, s3, m + 3, w, CheckEvidence(l, inc1), Quiet(w, RereadPolicy(l, inc1, m + 3)));
  }

  lemma Rechecks(p: Play, s: State, m: nat, w: World, v: Vetted, since: nat) returns (s': State)
    requires At(p, s, m + 4, w, RereadPolicy(Locked(v, since, Seen(m, p.second)), Seen(m + 1, p.inc), m + 3))
    requires Staged(p, w) && v.plan.Fresh? && v.plan.ref == p.ref && v.action == p.a
    ensures At(p, s', m + 6, w, UpdateRead(Update(p.second, MarkRunning(p.a),
                                                  Go(InHand(p, v, since, m, w, p.second)), v.a0.at, 0)))
  {
    hide At, Present, Recommended, Eligible, RiskFor, Compiled, FindAction, Incidents.EvidenceCurrent;
    var l, inc1 := Locked(v, since, Seen(m, p.second)), Seen(m + 1, p.inc);
    var s1 := Move(p, s, m + 4, w, RereadPolicy(l, inc1, m + 3), Quiet(w, RecheckPolicy(l, inc1, m + 3, m + 4)));
    var u := Update(p.second, MarkRunning(p.a), Go(InHand(p, v, since, m, w, p.second)), v.a0.at, 0);
    assert NextRecheckPolicy(p.cfg, w, m + 5, l, v.plan, inc1, m + 3, m + 4) == UpdateRead(u);
    s' := Move(p, s1, m + 5, w, RecheckPolicy(l, inc1, m + 3, m + 4), Quiet(w, UpdateRead(u)));
  }

  lemma Locks(p: Play, s: State, n: nat, w: World, v: Vetted) returns (s': State)
    requires At(p, s, n, w, Acquire(v)) && w.locks == map[] && p.rv !in w.rvs
    ensures At(p, s', n + 1, w.(locks := map[TargetKey(v.action.target) := "a"]), LockedReadApproval(v, n))
  {
    hide At, TargetKey;
    var key := TargetKey(v.action.target);
    assert w.locks[key := "a"] == map[key := "a"];
    s' := Move(p, s, n, w, Acquire(v), Quiet(w.(locks := map[key := "a"]), LockedReadApproval(v, n)));
  }

  function Marked(p: Play, w: World): Approval {
    p.second.(status := Mutate(MarkRunning(p.a), p.second.status, w.clock))
  }

  /** The approval is marked Running; the write uses up the resource version `p.rv`. */
  lemma Marks(p: Play, s: State, m: nat, w: World, x: Exec, start: nat) returns (s': State)
    requires At(p, s, m, w, UpdateRead(Update(p.second, MarkRunning(p.a), Go(x), start, 0)))
    requires w.approvals == map["a" := p.second] && p.rv !in w.rvs
    ensures At(p, s', m + 2, w.(approvals := map["a" := Marked(p, w).(rv := p.rv)], rvs := w.rvs + {p.rv}),
               ExecRead(x.(me := Marked(p, w))))
  {
    hide At, Mutate;
    var u := Update(p.second, MarkRunning(p.a), Go(x), start, 0);
    var s1 := Move(p, s, m, w, UpdateRead(u), Quiet(w, UpdateWrite(u, p.second)));
    var w' := w.(approvals := map["a" := Marked(p, w).(rv := p.rv)], rvs := w.rvs + {p.rv});
    var e := NextUpdateWrite(p.cfg, w, m + 1, "a", u, p.second, p.Inp());
    assert e.w == w' && e.mutation.None? && e.pc == ExecRead(x.(me := Marked(p, w)));
    s' := Move(p, s1, m + 1, w, UpdateWrite(u, p.second), e);
  }

  lemma Prepares(p: Play, s: State, m: nat, w: World, x: Exec) returns (s': State, sel: Selection, req: Request)
    requires At(p, s, m, w, ExecRead(x)) && Present(p, w) && p.rv !in w.rvs
    requires x.Act() == p.a && x.inc1.val == p.inc && x.policy == p.Compile(w)
    requires SameTargetIdentity(p.a.target, p.inc.target)
    ensures At(p, s', m + 2, w, ExecMutate(x, sel, req)) && Serve(w.objects[IdOf(p.a.target)], req).Some?
  {
    hide At, Compiled, SameTargetIdentity, Match;
    var o := w.objects[IdOf(p.a.target)];
    var cur, index := Seen(m, o), IndexOf(o.finalizers, p.a.finalizer);
    sel, req := Selection(cur, m + 1, false, cur, None), Patch(FinalizerPatch(o, index.value));
    assert NextExecRead(w, m, x, p.Inp()) == ExecResolve(x, cur);
    var s1 := Move(p, s, m, w, ExecRead(x), Quiet(w, ExecResolve(x, cur)));
    assert PolicyTarget(x, sel) == Policy.Target(p.inc.target.GR(), false, p.inc.target.ns, o.labels, map[]);
    hide PolicyTarget, IndexOf, FinalizerPatch;
    assert NextExecResolve(w, m + 1, x, cur) == ExecMutate(x, sel, req);
    s' := Move(p, s1, m + 1, w, ExecResolve(x, cur), Quiet(w, ExecMutate(x, sel, req)));
    PatchEffect(o, index.value, o);
  }

  lemma Mutates(p: Play, s: State, m: nat, w: World, x: Exec, sel: Selection, req: Request) returns (s': State)
    requires At(p, s, m, w, ExecMutate(x, sel, req)) && p.rv !in w.rvs && x.Act() == p.a
    requires IdOf(p.a.target) in w.objects && Serve(w.objects[IdOf(p.a.target)], req).Some? && !x.l.a1.val.spec.dryRun
    ensures Reachable(p.cfg, s') && |s'.log| == 1 && s'.log[0].x == x
  {
    hide Reachable, Serve, Store, Next;
    var act, pc := Step("a", p.Inp()), ExecMutate(x, sel, req);
    Reaches(p.cfg, s, act);
    s' := Do(p.cfg, s, act);
    MutateDispatches(p.cfg, w, m, x, sel, req, p.Inp());
  }

  lemma MutateDispatches(cfg: Config, w: World, n: nat, x: Exec, sel: Selection, req: Request, inp: Input)
    ensures Next(cfg, w, n, "a", ExecMutate(x, sel, req), inp) == NextExecMutate(w, n, "a", x, sel, req, inp)
  {
    hide NextExecMutate;
  }

  // ---- The whole run ----

  lemma StagedStill(p: Play, w: World, w': World)
    requires Staged(p, w) && p.rv !in w'.rvs
    requires w' == w.(approvals := w'.approvals, locks := w'.locks, uids := w'.uids, rvs := w'.rvs)
    ensures Staged(p, w')
  {
    hide Compiled, Match, Eligible, Incidents.EvidenceCurrent;
    assert p.Compile(w') == p.Compile(w);
  }

  /** Up to the mark: the first approval is vetted and replaced, the second one passes all checks. */
  lemma PassesChecks(p: Play, s: State, n: nat, w: World) returns (s': State, w': World, x: Exec)
    requires At(p, s, n, w, ReadApproval) && Staged(p, w) && w.approvals == map["a" := p.first] && w.locks == map[]
    requires p.cfg.reuse && p.second.uid !in w.uids && p.second.rv !in w.rvs && p.rv != p.second.rv
    ensures At(p, s', n + 17, w', ExecRead(x)) && w'.rvs == w.rvs + {p.second.rv, p.rv}
    ensures w' == w.(approvals := w'.approvals, locks := w'.locks, uids := w'.uids, rvs := w'.rvs)
    ensures x.l.a1.val == p.second && x.inc1.val == p.inc && x.Act() == p.a && x.policy == p.Compile(w)
  {
    hide At, Recommended, Permitted, Present, TargetKey, Compiled;
    var v := Vet(p, n, w);
    var s1 := Opens(p, s, n, w);
    var s2 := Vets(p, s1, n, w);
    var s3 := Locks(p, s2, n + 6, w, v);
    var w1 := w.(locks := map[TargetKey(v.action.target) := "a"]);
    var s4 := Swapped(p, s3, n + 7, w1, LockedReadApproval(v, n + 6));
    var w2 := w1.(approvals := map["a" := p.second], uids := w.uids + {p.second.uid}, rvs := w.rvs + {p.second.rv});
    StagedStill(p, w, w2);
    assert v.plan.expires > w.clock by { TimeLeft(p, w); }
    var s5 := Rereads(p, s4, n + 9, w2, v, n + 6);
    var s6 := Rechecks(p, s5, n + 9, w2, v, n + 6);
    var ready := InHand(p, v, n + 6, n + 9, w2, p.second);
    s' := Marks(p, s6, n + 15, w2, ready, v.a0.at);
    x := ready.(me := Marked(p, w2));
    w' := w2.(approvals := map["a" := Marked(p, w2).(rv := p.rv)], rvs := w2.rvs + {p.rv});
  }

  lemma TimeLeft(p: Play, w: World)
    requires Staged(p, w)
    ensures p.first.created + p.Compile(w).settings.approvalTTL > w.clock
  {
    hide Compiled, Recommended, Present, Eligible;
  }

  /** Wherever an action could be carried out, name reuse lets it be carried out under an approval for an
      incident with another UID. */
  lemma MixedApprovals(p: Play, s: State, n: nat, w: World, rv: string) returns (s': State)
    requires At(p, s, n, w, ReadApproval) && Staged(p, w) && w.approvals == map["a" := p.first] && w.locks == map[]
    requires p.cfg.reuse && p.second.uid !in w.uids && p.second.rv !in w.rvs && p.rv != p.second.rv
    requires rv !in w.rvs && rv != p.second.rv && rv != p.rv
    ensures Reachable(p.cfg, s') && |s'.log| == 1
    ensures s'.log[0].x.l.a1.val.spec.incidentUid != s'.log[0].x.inc1.val.uid
  {
    hide At, Recommended, Permitted, Present, Reachable, Compiled, Serve;
    var s1, w1, x := PassesChecks(p, s, n, w);
    var q := p.(rv := rv);
    assert Staged(q, w1) by { OtherVersion(p, w, q); StagedStill(q, w, w1); }
    assert At(q, s1, n + 17, w1, ExecRead(x)) by { SameAct(p, q, s1, n + 17, w1, ExecRead(x)); }
    StagedMeans(q, w1);
    var s2, sel, req := Prepares(q, s1, n + 17, w1, x);
    s' := Mutates(q, s2, n + 19, w1, x, sel, req);
  }

  lemma OtherVersion(p: Play, w: World, q: Play)
    requires Staged(p, w) && q == p.(rv := q.rv) && q.rv !in w.rvs
    ensures Staged(q, w)
  {
    hide Compiled, Match, Eligible, Incidents.EvidenceCurrent;
    assert p.Compile(w) == q.Compile(w);
  }

  lemma SameAct(p: Play, q: Play, s: State, n: nat, w: World, pc: Pc)
    requires At(p, s, n, w, pc) && q.cfg == p.cfg
    ensures At(q, s, n, w, pc)
  {
    hide Reachable;
  }

  lemma StagedMeans(p: Play, w: World)
    requires Staged(p, w)
    ensures SameTargetIdentity(p.a.target, p.inc.target) && IdOf(p.a.target) in w.objects && Present(p, w)
    ensures p.rv !in w.rvs && !p.second.spec.dryRun && p.second.spec.incidentUid != p.inc.uid
  {
    hide Compiled, Match, Eligible, Incidents.EvidenceCurrent, FindAction;
  }

  // ---- One such run ----

  const TARGET := TargetRef("example.com", "v1", "widgets", "Widget", "", "w", "t")
  const HOLD := "hold"
  const WIDGETS := Resource(TARGET.GR(), Version("v1", "Widget", false, ["get", "list"]), [])
  const CATALOG := Snapshot(map[WIDGETS.gr := WIDGETS], [WIDGETS])
  const RULE := TargetRule(["example.com"], ["widgets"], None, None, [])
  const SPEC := Spec(0, [RULE], 60, 100, 100, [], RiskMedium, [HOLD], false, 60, 60)
  const CFG := Config(3, (r: Revision) => SPEC, (x: string) => x, Incidents.Config(60, 60), true)
  const REF := PolicyRef("p", "pu", 1)
  const SOURCE := Source("p", "pu", 1, SPEC)

  lemma PolicyPermits()
    ensures Consistent(CATALOG) && SourceOf(CFG, REF) == SOURCE && Compiled(SOURCE, CATALOG).ready
    ensures Eligible(Compiled(SOURCE, CATALOG), RemoveResourceFinalizer, HOLD)
    ensures Compiled(SOURCE, CATALOG).settings.approvalTTL == 60
    ensures Match(Compiled(SOURCE, CATALOG), Policy.Target(TARGET.GR(), false, "", map[], map[]))
  {
    RuleIsReady();
    hide ReadySpec;
    assert !ProtectiveFinalizer(HOLD);
    var t := Policy.Target(TARGET.GR(), false, "", map[], map[]);
    MatchIsIntent(SOURCE, CATALOG, t);
    assert RuleIntends(SPEC.rules[0], CATALOG, t);
  }

  lemma RuleIsReady()
    ensures Consistent(CATALOG) && ReadySpec(SPEC, CATALOG)
  {
    forall g, r ensures !Misses(RULE, CATALOG, g, r) { NothingIsMissed(g, r); }
    UnresolvedIsMisses(0, RULE, CATALOG);
    hide Misses, UnresolvedSelections, ReportsMisses;
    ReportedIsMissed(0, RULE, CATALOG, UnresolvedSelections(0, RULE, CATALOG));
    assert '*' !in HOLD;
    OneRuleReady(SPEC, RULE, CATALOG);
  }

  lemma NothingIsMissed(group: string, resource: string)
    ensures !Misses(RULE, CATALOG, group, resource)
  {
    assert GroupResource("example.com", "widgets") == WIDGETS.gr;
    assert "example.com"[0] != ANY[0] && "widgets"[0] != ANY[0];
  }

  const ACTION := Incidents.NewAction(CFG.hash, Compiled(SOURCE, CATALOG), RemoveResourceFinalizer, TARGET, HOLD, "r0",
                                      "")
  const RESULT := Incidents.Result(true, true, true, true, Incidents.NO_SNAPSHOT, [], [ACTION])
  const DIAGNOSED := Incidents.Persist(REF, Some(0), RESULT, 0)
  const INCIDENT := Incidents.Incident("iu", TARGET, Incidents.Apply(CFG.scan, Incidents.EMPTY_STATUS, DIAGNOSED))
  const FIRST := Approval("u1", "r1", 0, ApprovalSpec("i", "iu", ACTION.id, false), NEW_STATUS)
  const SECOND := Approval("u2", "r2", 0, ApprovalSpec("i", "other", ACTION.id, false), NEW_STATUS)
  const PLAY := Play(CFG, "i", INCIDENT, ACTION, REF, "x1", FIRST, SECOND)

  /** The cluster before and after the incident was diagnosed and the first approval created. */
  const CLUSTER := World(0, map[], map[], map["p" := Revision("pu", 1)],
                         map[IdOf(TARGET) := Obj("t", "r0", map[], [HOLD], [], true)], CATALOG, map[], {"t"}, {"r0"})
  const SCENE := CLUSTER.(incidents := map["i" := INCIDENT], approvals := map["a" := FIRST],
                          uids := {"t", "iu", "u1"}, rvs := {"r0", "r1"})

  lemma IncidentRecommends()
    ensures Recommended(PLAY, SCENE)
  {
    ActionIs();
    hide Compiled, Incidents.NewAction;
    assert INCIDENT.status.actions == [ACTION];
  }

  lemma SceneIsStaged()
    ensures Staged(PLAY, SCENE)
  {
    IncidentRecommends();
    PolicyPermits();
    hide Recommended, Compiled, Match, Eligible, Consistent;
    assert PLAY.Compile(SCENE) == Compiled(SOURCE, CATALOG);
    assert "x1"[0] != "r0"[0] && "x1"[0] != "r1"[0] && "other"[0] != "iu"[0];
    assert ACTION.eligible && ACTION.risk == RiskFor(RemoveResourceFinalizer, HOLD) by { ActionIs(); }
    assert ACTION.typ.RemoveResourceFinalizer? && ACTION.target == TARGET && ACTION.preRv == "r0" by { ActionIs(); }
    assert ACTION.finalizer == HOLD by { ActionIs(); }
  }

  lemma ActionIs()
    ensures ACTION.typ == RemoveResourceFinalizer && ACTION.target == TARGET && ACTION.preRv == "r0"
    ensures ACTION.finalizer == HOLD && ACTION.risk == RiskFor(RemoveResourceFinalizer, HOLD) && ACTION.eligible
  {
    PolicyPermits();
    hide Compiled, Match, Eligible, Consistent, RiskFor, Incidents.ActionId;
  }

  lemma ScannerMayWrite()
    ensures ScannerWrite(CFG, DIAGNOSED, Compiled(SOURCE, CATALOG))
  {
    hide ReadySpec;
  }

  /** The incident is created and diagnosed, the first approval created, and its reconcile begins. */
  lemma Opening() returns (s: State)
    ensures At(PLAY, s, 4, SCENE, ReadApproval)
  {
    PolicyPermits();
    ScannerMayWrite();
    hide Compiled, Match, Eligible, ScannerWrite, Next, Reachable, Incidents.NewAction;
    var s0 := State([CLUSTER], map[], [], [], map[]);
    assert Reachable(CFG, s0) by { Begins(s0); }
    assert "iu"[0] != "t"[0] && "u1"[0] != "t"[0] && "u1"[0] != "iu"[0] && "r1"[1] != "r0"[1];
    Reaches(CFG, s0, CreateIncident("i", "iu", TARGET));
    var s1 := Do(CFG, s0, CreateIncident("i", "iu", TARGET));
    Reaches(CFG, s1, WriteIncident("i", DIAGNOSED, Compiled(SOURCE, CATALOG)));
    var s2 := Do(CFG, s1, WriteIncident("i", DIAGNOSED, Compiled(SOURCE, CATALOG)));
    assert Now(s2).incidents == map["i" := INCIDENT];
    Reaches(CFG, s2, CreateApproval("a", "u1", "r1", FIRST.spec));
    var s3 := Do(CFG, s2, CreateApproval("a", "u1", "r1", FIRST.spec));
    assert Now(s3) == SCENE;
    Reaches(CFG, s3, Begin("a"));
    s := Do(CFG, s3, Begin("a"));
  }

  lemma Begins(s0: State)
    requires s0 == State([CLUSTER], map[], [], [], map[]) && Consistent(CATALOG)
    ensures Reachable(CFG, s0)
  {
    RunNothing(CFG, s0);
    hide Run;
    assert Initial(s0);
  }

  lemma FreshNames()
    ensures SECOND.uid !in SCENE.uids && SECOND.rv !in SCENE.rvs && PLAY.rv != SECOND.rv
    ensures "x2" !in SCENE.rvs && "x2" != SECOND.rv && "x2" != PLAY.rv
  {
    hide Compiled, Incidents.NewAction;
    assert "u2"[1] != "u1"[1] && "u2"[0] != "t"[0] && "u2"[0] != "iu"[0];
    assert "r2"[1] != "r1"[1] && "r2"[1] != "r0"[1] && "x1"[0] != "r2"[0];
    assert "x2"[1] != "x1"[1] && "x2"[0] != "r2"[0] && "x2"[0] != "r1"[0] && "x2"[0] != "r0"[0];
  }

  /** A mutation carried out under an approval that names another UID than the incident's. */
  lemma ReuseMixesApprovals() returns (s: State)
    ensures ValidConfig(CFG) && CFG.reuse && Reachable(CFG, s) && |s.log| == 1
    ensures s.log[0].x.l.a1.val.spec.incidentUid != s.log[0].x.inc1.val.uid
  {
    hide At, Staged, Reachable, Compiled, Incidents.NewAction, Incidents.Apply;
    SceneIsStaged();
    FreshNames();
    var begun := Opening();
    s := MixedApprovals(PLAY, begun, 4, SCENE, "x2");
  }
}
