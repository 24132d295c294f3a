/** internal/executor/executor.go as a state machine. A thread is one running Reconcile; one act of a
    thread is one API call or one reading of the clock together with the local decisions that follow
    it. All other acts are the environment's: users, the scanner, discovery, the clock, crashes.

    Assumptions: controller-runtime never overlaps two reconciles of one approval name (`threads` is a
    map from names); an API call takes effect, if at all, before it returns; every persisted change
    gets an unused resource version and every created object an unused UID; a policy revision
    determines its spec. */
module Executor {
  import opened Types
  import opened Framing
  import opened Discovery
  import opened Policy
  import opened JsonPatch
  import Incidents

  // ---- Objects ----

  datatype ApprovalPhase = Pending | Running | Succeeded | DryRunSucceeded | Failed | Expired | Superseded

  predicate Terminal(p: ApprovalPhase) { !p.Pending? && !p.Running? }

  datatype ApprovalResult =
    | NoResult | Mutated | AlreadySatisfied | DryRunValidated
    | RejectedByPolicy | TargetReplaced | TargetChanged | APIError

  datatype Attempt = Attempt(
    time: int, typ: ActionType, dryRun: bool, rvBefore: string, rvAfter: string, result: ApprovalResult)

  datatype ApprovalStatus = ApprovalStatus(
    phase: ApprovalPhase, result: ApprovalResult, started: Option<int>, completed: Option<int>,
    action: Option<Action>, attempts: seq<Attempt>)

  const NEW_STATUS := ApprovalStatus(Pending, NoResult, None, None, None, [])

  datatype ApprovalSpec = ApprovalSpec(incidentName: string, incidentUid: string, actionID: string, dryRun: bool)

  datatype Approval = Approval(uid: string, rv: string, created: int, spec: ApprovalSpec, status: ApprovalStatus)

  datatype ObjId = ObjId(group: string, resource: string, ns: string, name: string)

  function IdOf(t: TargetRef): ObjId { ObjId(t.group, t.resource, t.ns, t.name) }

  function NamespaceId(ns: string): ObjId { ObjId("", "namespaces", "", ns) }

  datatype Revision = Revision(uid: string, generation: nat)

  /** Everything outside the reconcilers' local variables. `locks` maps a target key to its holder;
      `uids` and `rvs` are all identifiers ever handed out. */
  datatype World = World(
    clock: int, approvals: map<string, Approval>, incidents: map<string, Incidents.Incident>,
    policies: map<string, Revision>, objects: map<ObjId, Obj>, catalog: Snapshot,
    locks: map<string, string>, uids: set<string>, rvs: set<string>)

  /** `reuse` lets users recreate an approval under a name whose reconcile is still running. */
  datatype Config = Config(
    maxAttempts: nat, specOf: Revision -> Spec, hash: string -> string, scan: Incidents.Config, reuse: bool)

  ghost predicate ValidConfig(cfg: Config) {
    1 <= cfg.maxAttempts <= 5 && Incidents.ValidConfig(cfg.scan)
  }

  const MAX_AUDIT_ATTEMPTS: nat := 20
  const RETRY_DELAY: int := 5

  function SourceOf(cfg: Config, ref: PolicyRef): Source {
    Source(ref.name, ref.uid, ref.generation, cfg.specOf(Revision(ref.uid, ref.generation)))
  }

  // ---- Local values of a reconcile ----

  /** A value read when the history had length `at + 1`. */
  datatype Seen<T> = Seen(at: nat, val: T)

  datatype Plan = Replay | Fresh(ref: PolicyRef, polAt: nat, compAt: nat, expires: int)

  /** What validation before the lock established. */
  datatype Vetted = Vetted(a0: Seen<Approval>, inc0: Seen<Incidents.Incident>, action: Action, plan: Plan)

  /** The lock was taken at `since`, the approval re-read under it. */
  datatype Locked = Locked(v: Vetted, since: nat, a1: Seen<Approval>)

  /** Final validation passed: incident, evidence time, policy and expiry as re-read under the lock.
      `me` is the approval with its last known status. */
  datatype Exec = Exec(
    l: Locked, inc1: Seen<Incidents.Incident>, evAt: nat, polAt: nat, compAt: nat,
    policy: CompiledPolicy, expires: int, me: Approval)
  {
    function Act(): Action { l.v.action }
  }

  /** What currentPolicyMatches looked at. */
  datatype Selection = Selection(
    cur: Seen<Obj>, catAt: nat, namespaced: bool, chosen: Seen<Obj>, nsObj: Option<Seen<Obj>>)

  function PolicyTarget(x: Exec, sel: Selection): Policy.Target {
    var t := x.inc1.val.target;
    Policy.Target(t.GR(), sel.namespaced, t.ns, sel.chosen.val.labels,
                  if sel.nsObj.Some? then sel.nsObj.value.val.labels else map[])
  }

  datatype Mutator =
    | MarkRunning(action: Action)
    | RetryAttempt(attempt: Attempt)
    | TerminalAttempt(attempt: Attempt, phase: ApprovalPhase, result: ApprovalResult)
    | Finish(phase: ApprovalPhase, result: ApprovalResult)

  /** What follows a successful status update. */
  datatype Kont = Stop | Go(x: Exec) | Judge(x: Exec, transient: bool, delay: Option<int>)

  /** A pending updateStatus call. `start` is when the reconcile began; for a Succeeded outcome
      `goalAt` is when the goal was seen reached. */
  datatype Update = Update(me: Approval, mut: Mutator, cont: Kont, start: nat, goalAt: nat)

  /** Where a reconcile is. `Returning` remembers how many attempts a requeued approval had at first. */
  datatype Pc =
    | ReadApproval
    | ReadIncident(a0: Seen<Approval>)
    | EnsureOwner(a0: Seen<Approval>, inc0: Seen<Incidents.Incident>)
    | Decide(a0: Seen<Approval>, inc0: Seen<Incidents.Incident>)
    | ReadPolicy(a0: Seen<Approval>, inc0: Seen<Incidents.Incident>, action: Action, ref: PolicyRef)
    | CheckPolicy(a0: Seen<Approval>, inc0: Seen<Incidents.Incident>, action: Action, ref: PolicyRef, polAt: nat)
    | Acquire(v: Vetted)
    | LockedReadApproval(v: Vetted, since: nat)
    | LockedReadIncident(l: Locked)
    | ReplayRead(l: Locked)
    | CheckExpiry(l: Locked, found: Option<Seen<Incidents.Incident>>)
    | CheckEvidence(l: Locked, inc1: Seen<Incidents.Incident>)
    | RereadPolicy(l: Locked, inc1: Seen<Incidents.Incident>, evAt: nat)
    | RecheckPolicy(l: Locked, inc1: Seen<Incidents.Incident>, evAt: nat, polAt: nat)
    | UpdateRead(u: Update)
    | UpdateWrite(u: Update, seen: Approval)
    | ExecRead(x: Exec)
    | ExecResolve(x: Exec, cur: Seen<Obj>)
    | ExecIncidentTarget(x: Exec, cur: Seen<Obj>, catAt: nat, namespaced: bool)
    | ExecNamespace(x: Exec, cur: Seen<Obj>, catAt: nat, chosen: Seen<Obj>)
    | ExecMutate(x: Exec, sel: Selection, req: Request)
    | Backoff(x: Exec, delay: Option<int>)
    | Returning(failed: bool, requeue: Option<int>, before: nat)

  // ---- Records kept about a run ----

  /** A persisted change of a target: who, with what in hand, when, and what changed. */
  datatype Mutation = Mutation(name: string, x: Exec, sel: Selection, at: nat, before: Obj, after: Obj)

  /** A persisted status: whose, and which incarnation the writing reconcile had validated. */
  datatype StatusWrite = StatusWrite(
    name: string, uid: string, validated: string, start: nat, goalAt: nat, at: nat, status: ApprovalStatus)

  /** `hist` holds every world so far, the current one last. `calm` counts, per approval name and
      UID, the reconciles that returned without error and left the approval unfinished. */
  datatype State = State(
    hist: seq<World>, threads: map<string, Pc>, log: seq<Mutation>, writes: seq<StatusWrite>,
    calm: map<(string, string), nat>)

  function Now(s: State): World
    requires s.hist != []
  {
    s.hist[|s.hist| - 1]
  }

  // ---- Pure helpers of the reconciler ----

  function FindAction(actions: seq<Action>, id: string): (r: Option<Action>)
    ensures r.Some? ==> r.value in actions && r.value.id == id
    ensures r.None? ==> forall a :: a in actions ==> a.id != id
  {
    if actions == [] then None
    else if actions[0].id == id then Some(actions[0])
    else FindAction(actions[1..], id)
  }

  /** It is the first one with the ID. */
  lemma {:induction false} FindActionFirst(actions: seq<Action>, id: string, i: nat)
    requires i < |actions| && actions[i].id == id && forall j :: 0 <= j < i ==> actions[j].id != id
    ensures FindAction(actions, id) == Some(actions[i])
  {
    if i > 0 {
      assert actions[1..][i - 1] == actions[i] && forall j :: 0 <= j < i - 1 ==> actions[1..][j] == actions[j + 1];
      FindActionFirst(actions[1..], id, i - 1);
    }
  }

  predicate BelongsToIncident(a: Action, t: TargetRef) {
    || SameTargetIdentity(a.target, t)
    || (t.group == "" && t.resource == "namespaces" && t.ns == "" && a.typ.RemoveResourceFinalizer?
        && a.target.ns == t.name && a.target.uid != "" && a.target.name != "" && a.target.resource != "")
  }

  function AppendBounded(attempts: seq<Attempt>, a: Attempt): seq<Attempt> {
    var all := attempts + [a];
    if |all| > MAX_AUDIT_ATTEMPTS then all[|all| - MAX_AUDIT_ATTEMPTS..] else all
  }

  /** The status an updateStatus callback produces at time `now`. */
  function Mutate(mut: Mutator, st: ApprovalStatus, now: int): ApprovalStatus {
    match mut
    case MarkRunning(action) =>
      st.(phase := Running, action := if st.action.None? then Some(action) else st.action,
          started := if st.started.None? then Some(now) else st.started)
    case RetryAttempt(attempt) =>
      st.(phase := Running, result := attempt.result, attempts := AppendBounded(st.attempts, attempt))
    case TerminalAttempt(attempt, phase, result) =>
      st.(phase := phase, result := result, attempts := AppendBounded(st.attempts, attempt),
          completed := Some(attempt.time))
    case Finish(phase, result) =>
      st.(phase := phase, result := result, completed := Some(now))
  }

  // ---- One thread act ----

  datatype Fault = Fine | NotSent | Lost

  /** The environment's choices for one act: whether the call fails before (`NotSent`) or after
      (`Lost`) taking effect, how its error is classified, the resource version of a persisted change,
      whether a conflict is retried and whether an unchanged status is skipped. */
  datatype Input = Input(
    fault: Fault, transient: bool, delay: Option<int>, rv: string, giveUp: bool, skip: bool)

  datatype Effect = Effect(w: World, pc: Pc, mutation: Option<Mutation>, wrote: Option<StatusWrite>)

  function Quiet(w: World, pc: Pc): Effect { Effect(w, pc, None, None) }

  function Return(w: World, failed: bool): Effect { Quiet(w, Returning(failed, None, 0)) }

  function FinishAs(me: Approval, start: nat, phase: ApprovalPhase, result: ApprovalResult): Pc {
    UpdateRead(Update(me, Finish(phase, result), Stop, start, 0))
  }

  /** `n` is the index of `w` in the history. */
  function Next(cfg: Config, w: World, n: nat, name: string, pc: Pc, inp: Input): Effect {
    match pc
    case ReadApproval => NextReadApproval(w, n, name, inp)
    case ReadIncident(a0) => NextReadIncident(w, n, a0, inp)
    case EnsureOwner(a0, inc0) => if inp.fault.Fine? then Quiet(w, Decide(a0, inc0)) else Return(w, true)
    case Decide(a0, inc0) => Quiet(w, NextDecide(w, a0, inc0))
    case ReadPolicy(a0, inc0, action, ref) => NextReadPolicy(w, n, a0, inc0, action, ref, inp)
    case CheckPolicy(a0, inc0, action, ref, polAt) => Quiet(w, NextCheckPolicy(cfg, w, n, a0, inc0, action, ref, polAt))
    case Acquire(v) => Quiet(w.(locks := w.locks[TargetKey(v.action.target) := name]), LockedReadApproval(v, n))
    case LockedReadApproval(v, since) => NextLockedReadApproval(w, n, name, v, since, inp)
    case LockedReadIncident(l) => NextLockedReadIncident(w, n, l, inp)
    case ReplayRead(l) => NextReplayRead(w, n, l, inp)
    case CheckExpiry(l, found) => Quiet(w, NextCheckExpiry(w, l, l.v.plan, found))
    case CheckEvidence(l, inc1) => Quiet(w, NextCheckEvidence(w, n, l, inc1))
    case RereadPolicy(l, inc1, evAt) => NextRereadPolicy(w, n, l, l.v.plan, inc1, evAt, inp)
    case RecheckPolicy(l, inc1, evAt, polAt) => Quiet(w, NextRecheckPolicy(cfg, w, n, l, l.v.plan, inc1, evAt, polAt))
    case UpdateRead(u) => NextUpdateRead(w, name, u, inp)
    case UpdateWrite(u, seen) => NextUpdateWrite(cfg, w, n, name, u, seen, inp)
    case ExecRead(x) => Quiet(w, NextExecRead(w, n, x, inp))
    case ExecResolve(x, cur) => Quiet(w, NextExecResolve(w, n, x, cur))
    case ExecIncidentTarget(x, cur, catAt, namespaced) =>
      Quiet(w, NextExecIncidentTarget(w, n, x, cur, catAt, namespaced, inp))
    case ExecNamespace(x, cur, catAt, chosen) => Quiet(w, NextExecNamespace(w, n, x, cur, catAt, chosen, inp))
    case ExecMutate(x, sel, req) => NextExecMutate(w, n, name, x, sel, req, inp)
    case Backoff(x, delay) => Quiet(w, NextBackoff(w, x, delay))
    case Returning(_, _, _) => Quiet(w, pc)
  }

  function NextReadApproval(w: World, n: nat, name: string, inp: Input): Effect {
    if !inp.fault.Fine? then Return(w, true)
    else if name !in w.approvals || Terminal(w.approvals[name].status.phase) then Return(w, false)
    else Quiet(w, ReadIncident(Seen(n, w.approvals[name])))
  }

  function NextReadIncident(w: World, n: nat, a0: Seen<Approval>, inp: Input): Effect {
    var wanted := a0.val.spec.incidentName;
    if !inp.fault.Fine? then Return(w, true)
    else if wanted !in w.incidents || w.incidents[wanted].uid != a0.val.spec.incidentUid then
      Quiet(w, FinishAs(a0.val, a0.at, Superseded, TargetChanged))
    else Quiet(w, EnsureOwner(a0, Seen(n, w.incidents[wanted])))
  }

  function NextDecide(w: World, a0: Seen<Approval>, inc0: Seen<Incidents.Incident>): Pc {
    var st, ist := a0.val.status, inc0.val.status;
    var current := FindAction(ist.actions, a0.val.spec.actionID);
    var action := if st.action.Some? then st.action else current;
    var drop := FinishAs(a0.val, a0.at, Superseded, TargetChanged);
    if action.None? || action.value.id != a0.val.spec.actionID then drop
    else if !BelongsToIncident(action.value, inc0.val.target) then drop
    else
      var inactive := !ist.phase.Active? || ist.policyRef.None?;
      if inactive && (!st.phase.Running? || st.action.None?) then drop
      else
        var replay := inactive || (st.action.Some? && current != st.action);
        if replay then Acquire(Vetted(a0, inc0, action.value, Replay))
        else if !Incidents.EvidenceCurrent(ist, w.clock) then drop
        else ReadPolicy(a0, inc0, action.value, ist.policyRef.value)
  }

  predicate RevisionIs(w: World, ref: PolicyRef) {
    ref.name in w.policies && w.policies[ref.name] == Revision(ref.uid, ref.generation)
  }

  function NextReadPolicy(w: World, n: nat, a0: Seen<Approval>, inc0: Seen<Incidents.Incident>,
                          action: Action, ref: PolicyRef, inp: Input): Effect
  {
    if !inp.fault.Fine? then Return(w, true)
    else if ref.name !in w.policies then Quiet(w, FinishAs(a0.val, a0.at, Failed, RejectedByPolicy))
    else if !RevisionIs(w, ref) then Quiet(w, FinishAs(a0.val, a0.at, Superseded, RejectedByPolicy))
    else Quiet(w, CheckPolicy(a0, inc0, action, ref, n))
  }

  function NextCheckPolicy(cfg: Config, w: World, n: nat, a0: Seen<Approval>, inc0: Seen<Incidents.Incident>,
                           action: Action, ref: PolicyRef, polAt: nat): Pc
  {
    var policy := Compiled(SourceOf(cfg, ref), w.catalog);
    var expires := a0.val.created + policy.settings.approvalTTL;
    if !policy.ready then Returning(true, None, 0)
    else if w.clock >= expires then FinishAs(a0.val, a0.at, Expired, RejectedByPolicy)
    else if !action.eligible then FinishAs(a0.val, a0.at, Failed, RejectedByPolicy)
    else if !Eligible(policy, action.typ, action.finalizer) then FinishAs(a0.val, a0.at, Failed, RejectedByPolicy)
    else if RiskFor(action.typ, action.finalizer) != action.risk then
      FinishAs(a0.val, a0.at, Superseded, RejectedByPolicy)
    else Acquire(Vetted(a0, inc0, action, Fresh(ref, polAt, n, expires)))
  }

  function NextLockedReadApproval(w: World, n: nat, name: string, v: Vetted, since: nat, inp: Input): Effect {
    if !inp.fault.Fine? then Return(w, true)
    else if name !in w.approvals || Terminal(w.approvals[name].status.phase) then Return(w, false)
    else Quiet(w, LockedReadIncident(Locked(v, since, Seen(n, w.approvals[name]))))
  }

  function NextLockedReadIncident(w: World, n: nat, l: Locked, inp: Input): Effect {
    var wanted, a1 := l.a1.val.spec.incidentName, l.a1.val;
    var found: Option<Seen<Incidents.Incident>> :=
      if wanted in w.incidents then Some(Seen(n, w.incidents[wanted])) else None;
    var drop := Quiet(w, FinishAs(a1, l.v.a0.at, Superseded, TargetChanged));
    if !inp.fault.Fine? then Return(w, true)
    else if l.v.plan.Fresh? then Quiet(w, CheckExpiry(l, found))
    else if !a1.status.phase.Running? || a1.status.action != Some(l.v.action) then drop
    else if found.Some? && found.value.val.uid != l.v.inc0.val.uid then drop
    else if a1.spec.dryRun then drop
    else Quiet(w, ReplayRead(l))
  }

  /** verifySatisfied's question about an object with the approved UID. */
  predicate GoalReached(a: Action, o: Obj) {
    match a.typ
    case RemoveResourceFinalizer => a.finalizer !in o.finalizers
    case RemoveCRDFinalizer => a.finalizer !in o.finalizers
    case ForceFinalizeNamespace => o.specFinalizers == []
    case UnsupportedAction => false
  }

  function NextReplayRead(w: World, n: nat, l: Locked, inp: Input): Effect {
    var a1, action, id := l.a1.val, l.v.action, IdOf(l.v.action.target);
    if !inp.fault.Fine? then Return(w, true)
    else if id !in w.objects then Quiet(w, ReplaySucceed(w, n, l, ""))
    else if w.objects[id].uid != action.target.uid then Quiet(w, FinishAs(a1, l.v.a0.at, Superseded, TargetReplaced))
    else if action.typ.UnsupportedAction? then Quiet(w, FinishAs(a1, l.v.a0.at, Superseded, RejectedByPolicy))
    else if GoalReached(action, w.objects[id]) then Quiet(w, ReplaySucceed(w, n, l, w.objects[id].rv))
    else Quiet(w, FinishAs(a1, l.v.a0.at, Superseded, AlreadySatisfied))
  }

  function ReplaySucceed(w: World, n: nat, l: Locked, rv: string): Pc {
    var attempt := Attempt(w.clock, l.v.action.typ, l.a1.val.spec.dryRun, rv, "", AlreadySatisfied);
    UpdateRead(Update(l.a1.val, TerminalAttempt(attempt, Succeeded, AlreadySatisfied), Stop, l.v.a0.at, n))
  }

  /** Only a fresh plan gets here and to the two policy checks below; a replay has branched off. */
  function NextCheckExpiry(w: World, l: Locked, plan: Plan, found: Option<Seen<Incidents.Incident>>): Pc {
    if plan.Replay? then Returning(true, None, 0)
    else if w.clock >= plan.expires then FinishAs(l.a1.val, l.v.a0.at, Expired, RejectedByPolicy)
    else if found.None? || found.value.val.uid != l.v.inc0.val.uid || !found.value.val.status.phase.Active?
            || found.value.val.status.policyRef != Some(plan.ref)
    then FinishAs(l.a1.val, l.v.a0.at, Superseded, TargetChanged)
    else CheckEvidence(l, found.value)
  }

  function NextCheckEvidence(w: World, n: nat, l: Locked, inc1: Seen<Incidents.Incident>): Pc {
    if !Incidents.EvidenceCurrent(inc1.val.status, w.clock)
       || FindAction(inc1.val.status.actions, l.a1.val.spec.actionID) != Some(l.v.action)
    then FinishAs(l.a1.val, l.v.a0.at, Superseded, TargetChanged)
    else RereadPolicy(l, inc1, n)
  }

  function NextRereadPolicy(w: World, n: nat, l: Locked, plan: Plan, inc1: Seen<Incidents.Incident>,
                            evAt: nat, inp: Input): Effect
  {
    if plan.Replay? || !inp.fault.Fine? then Return(w, true)
    else if plan.ref.name !in w.policies then Quiet(w, FinishAs(l.a1.val, l.v.a0.at, Failed, RejectedByPolicy))
    else if !RevisionIs(w, plan.ref) then Quiet(w, FinishAs(l.a1.val, l.v.a0.at, Superseded, RejectedByPolicy))
    else Quiet(w, RecheckPolicy(l, inc1, evAt, n))
  }

  function NextRecheckPolicy(cfg: Config, w: World, n: nat, l: Locked, plan: Plan, inc1: Seen<Incidents.Incident>,
                             evAt: nat, polAt: nat): Pc
  {
    if plan.Replay? then Returning(true, None, 0)
    else
      var policy := Compiled(SourceOf(cfg, plan.ref), w.catalog);
      var expires := l.a1.val.created + policy.settings.approvalTTL;
      if !policy.ready then Returning(true, None, 0)
      else if w.clock >= expires then FinishAs(l.a1.val, l.v.a0.at, Expired, RejectedByPolicy)
      else if |l.a1.val.status.attempts| >= cfg.maxAttempts then FinishAs(l.a1.val, l.v.a0.at, Failed, APIError)
      else
        UpdateRead(Update(l.a1.val, MarkRunning(l.v.action),
                          Go(Exec(l, inc1, evAt, polAt, n, policy, expires, l.a1.val)), l.v.a0.at, 0))
  }

  /** updateStatus re-reads the approval by name ... */
  function NextUpdateRead(w: World, name: string, u: Update, inp: Input): Effect {
    if !inp.fault.Fine? || name !in w.approvals then Return(w, true)
    else Quiet(w, UpdateWrite(u, w.approvals[name]))
  }

  /** ... and writes the changed status back under the resource version it read. */
  function NextUpdateWrite(cfg: Config, w: World, n: nat, name: string, u: Update, seen: Approval, inp: Input): Effect {
    var status := Mutate(u.mut, seen.status, w.clock);
    if inp.skip && status == seen.status then Quiet(w, Continue(cfg, u, status))
    else if inp.fault.NotSent? || name !in w.approvals then Return(w, true)
    else if w.approvals[name].rv != seen.rv then (if inp.giveUp then Return(w, true) else Quiet(w, UpdateRead(u)))
    else
      var w' := w.(approvals := w.approvals[name := w.approvals[name].(status := status, rv := inp.rv)],
                   rvs := w.rvs + {inp.rv});
      Effect(w', if inp.fault.Lost? then Returning(true, None, 0) else Continue(cfg, u, status), None,
             Some(StatusWrite(name, w.approvals[name].uid, u.me.uid, u.start, u.goalAt, n, status)))
  }

  function Continue(cfg: Config, u: Update, status: ApprovalStatus): Pc {
    var me := u.me.(status := status);
    match u.cont
    case Stop => Returning(false, None, 0)
    case Go(x) => ExecRead(x.(me := me))
    case Judge(x, transient, delay) =>
      if !transient || |x.l.a1.val.status.attempts| + 1 >= cfg.maxAttempts then
        FinishAs(me, u.start, Failed, APIError)
      else Backoff(x.(me := me), delay)
  }

  function AttemptOf(w: World, x: Exec, rvBefore: string, rvAfter: string, result: ApprovalResult): Attempt {
    Attempt(w.clock, x.Act().typ, x.l.a1.val.spec.dryRun, rvBefore, rvAfter, result)
  }

  /** execute failed with an error that is not terminal. */
  function Retry(w: World, x: Exec, rvBefore: string, inp: Input): Pc {
    UpdateRead(Update(x.me, RetryAttempt(AttemptOf(w, x, rvBefore, "", APIError)),
                      Judge(x, inp.transient, inp.delay), x.l.v.a0.at, 0))
  }

  /** execute ended with a terminal error. */
  function Reject(w: World, x: Exec, rvBefore: string, phase: ApprovalPhase, result: ApprovalResult): Pc {
    UpdateRead(Update(x.me, TerminalAttempt(AttemptOf(w, x, rvBefore, "", result), phase, result),
                      Stop, x.l.v.a0.at, 0))
  }

  /** execute succeeded; `goalAt` is when the goal was seen reached. */
  function Succeed(w: World, x: Exec, rvBefore: string, rvAfter: string, result: ApprovalResult, goalAt: nat): Pc {
    UpdateRead(Update(x.me,
                      TerminalAttempt(AttemptOf(w, x, rvBefore, rvAfter, result),
                                      if x.l.a1.val.spec.dryRun then DryRunSucceeded else Succeeded, result),
                      Stop, x.l.v.a0.at, goalAt))
  }

  function NextExecRead(w: World, n: nat, x: Exec, inp: Input): Pc {
    var id := IdOf(x.Act().target);
    if !inp.fault.Fine? then Retry(w, x, "", inp)
    else if id !in w.objects then Succeed(w, x, "", "", AlreadySatisfied, n)
    else if w.objects[id].uid != x.Act().target.uid then Reject(w, x, w.objects[id].rv, Superseded, TargetReplaced)
    else ExecResolve(x, Seen(n, w.objects[id]))
  }

  function NextExecResolve(w: World, n: nat, x: Exec, cur: Seen<Obj>): Pc {
    var resource := w.catalog.Resolve(x.inc1.val.target.GR());
    if resource.None? then Reject(w, x, cur.val.rv, Superseded, RejectedByPolicy)
    else
      var namespaced := resource.value.preferred.namespaced;
      if !SameTargetIdentity(x.Act().target, x.inc1.val.target) then ExecIncidentTarget(x, cur, n, namespaced)
      else Selected(w, x, cur, n, namespaced, cur)
  }

  /** The policy object is known; its namespace's labels may still be needed. */
  function Selected(w: World, x: Exec, cur: Seen<Obj>, catAt: nat, namespaced: bool, chosen: Seen<Obj>): Pc {
    if namespaced then ExecNamespace(x, cur, catAt, chosen)
    else Prepare(w, x, Selection(cur, catAt, false, chosen, None))
  }

  function NextExecIncidentTarget(w: World, n: nat, x: Exec, cur: Seen<Obj>, catAt: nat, namespaced: bool,
                                  inp: Input): Pc
  {
    var id := IdOf(x.inc1.val.target);
    if !inp.fault.Fine? then Retry(w, x, cur.val.rv, inp)
    else if id !in w.objects || w.objects[id].uid != x.inc1.val.target.uid then
      Reject(w, x, cur.val.rv, Superseded, RejectedByPolicy)
    else Selected(w, x, cur, catAt, namespaced, Seen(n, w.objects[id]))
  }

  function NextExecNamespace(w: World, n: nat, x: Exec, cur: Seen<Obj>, catAt: nat, chosen: Seen<Obj>, inp: Input): Pc {
    var id := NamespaceId(x.inc1.val.target.ns);
    if !inp.fault.Fine? || id !in w.objects then Retry(w, x, cur.val.rv, inp)
    else Prepare(w, x, Selection(cur, catAt, true, chosen, Some(Seen(n, w.objects[id]))))
  }

  /** The policy decision and the checks of execute's switch. */
  function Prepare(w: World, x: Exec, sel: Selection): Pc {
    var a, o := x.Act(), sel.cur.val;
    if !Match(x.policy, PolicyTarget(x, sel)) then Reject(w, x, o.rv, Superseded, RejectedByPolicy)
    else match a.typ
      case RemoveResourceFinalizer => PrepareFinalizer(w, x, sel)
      case RemoveCRDFinalizer =>
        if a.target.group != "apiextensions.k8s.io" || a.target.resource != "customresourcedefinitions"
        then Reject(w, x, o.rv, Failed, RejectedByPolicy) else PrepareFinalizer(w, x, sel)
      case ForceFinalizeNamespace =>
        if a.target.group != "" || a.target.resource != "namespaces" || a.target.ns != ""
        then Reject(w, x, o.rv, Failed, RejectedByPolicy)
        else if o.specFinalizers == [] then Succeed(w, x, o.rv, "", AlreadySatisfied, sel.cur.at)
        else if o.rv != a.preRv then Reject(w, x, o.rv, Superseded, TargetChanged)
        else ExecMutate(x, sel, Finalize(o.uid, o.rv))
      case UnsupportedAction => Reject(w, x, o.rv, Failed, RejectedByPolicy)
  }

  function PrepareFinalizer(w: World, x: Exec, sel: Selection): Pc {
    var a, o := x.Act(), sel.cur.val;
    var index := IndexOf(o.finalizers, a.finalizer);
    if index.None? then Succeed(w, x, o.rv, "", AlreadySatisfied, sel.cur.at)
    else if o.rv != a.preRv then Reject(w, x, o.rv, Superseded, TargetChanged)
    else ExecMutate(x, sel, Patch(FinalizerPatch(o, index.value)))
  }

  function Store(w: World, id: ObjId, o: Obj): World {
    w.(objects := if Vanishes(o) then w.objects - {id} else w.objects[id := o], rvs := w.rvs + {o.rv})
  }

  function NextExecMutate(w: World, n: nat, name: string, x: Exec, sel: Selection, req: Request, inp: Input): Effect {
    var id, before := IdOf(x.Act().target), sel.cur.val.rv;
    if inp.fault.NotSent? || id !in w.objects || Serve(w.objects[id], req).None? then Quiet(w, Retry(w, x, before, inp))
    else if x.l.a1.val.spec.dryRun then
      Quiet(w,
            if inp.fault.Lost? then Retry(w, x, before, inp) else Succeed(w, x, before, inp.rv, DryRunValidated, n))
    else
      var after := Serve(w.objects[id], req).value.(rv := inp.rv);
      Effect(Store(w, id, after),
             if inp.fault.Lost? then Retry(w, x, before, inp) else Succeed(w, x, before, inp.rv, Mutated, n + 1),
             Some(Mutation(name, x, sel, n, w.objects[id], after)), None)
  }

  function NextBackoff(w: World, x: Exec, delay: Option<int>): Pc {
    var remaining := x.expires - w.clock;
    if remaining <= 0 then FinishAs(x.me, x.l.v.a0.at, Expired, APIError)
    else
      var wanted := if delay.Some? && delay.value > RETRY_DELAY then delay.value else RETRY_DELAY;
      Returning(false, Some(Min(wanted, remaining)), |x.l.v.a0.val.status.attempts|)
  }

  // ---- Acts ----

  datatype Act =
    | Tick(to: int)
    | PutObject(id: ObjId, obj: Obj)
    | DeleteObject(id: ObjId)
    | SetPolicy(policyName: string, revision: Option<Revision>)
    | SetCatalog(catalog: Snapshot)
    | CreateIncident(incident: string, uid: string, target: TargetRef)
    | WriteIncident(incident: string, write: Incidents.Write, policy: CompiledPolicy)
    | DeleteIncident(incident: string)
    | CreateApproval(approval: string, uid: string, rv: string, spec: ApprovalSpec)
    | TouchApproval(approval: string, rv: string)
    | DeleteApproval(approval: string)
    | Begin(approval: string)
    | Step(approval: string, inp: Input)
    | Crash

  /** The scanner only recommends what newAction builds for the revision it names. */
  ghost predicate ScannerWrite(cfg: Config, w: Incidents.Write, policy: CompiledPolicy) {
    w.Persist? ==>
      && w.ref == PolicyRef(policy.name, policy.uid, policy.generation)
      && forall a :: a in w.result.actions ==>
           a == Incidents.NewAction(cfg.hash, policy, a.typ, a.target, a.finalizer, a.preRv, a.reason)
  }

  /** The key a thread waits for before it may move on. */
  predicate Blocked(w: World, pc: Pc) { pc.Acquire? && TargetKey(pc.v.action.target) in w.locks }

  ghost predicate Legal(cfg: Config, s: State, act: Act)
    requires s.hist != []
  {
    var w := Now(s);
    match act
    case Tick(to) => to >= w.clock
    case PutObject(id, obj) =>
      obj.rv !in w.rvs && ((id in w.objects && obj.uid == w.objects[id].uid) || obj.uid !in w.uids)
    case DeleteObject(id) => true
    case SetPolicy(_, _) => true
    case SetCatalog(c) => Consistent(c)
    case CreateIncident(i, uid, _) => i !in w.incidents && uid !in w.uids
    case WriteIncident(i, write, policy) =>
      i in w.incidents && write.now <= w.clock && ScannerWrite(cfg, write, policy)
    case DeleteIncident(_) => true
    case CreateApproval(a, uid, rv, _) =>
      a !in w.approvals && uid !in w.uids && rv !in w.rvs && (cfg.reuse || a !in s.threads)
    case TouchApproval(a, rv) => a in w.approvals && rv !in w.rvs
    case DeleteApproval(_) => true
    case Begin(a) => a !in s.threads
    case Step(a, inp) => a in s.threads && !Blocked(w, s.threads[a]) && inp.rv !in w.rvs
    case Crash => true
  }

  function Environment(cfg: Config, w: World, act: Act): World {
    match act
    case Tick(to) => w.(clock := to)
    case PutObject(id, obj) => w.(objects := w.objects[id := obj], uids := w.uids + {obj.uid}, rvs := w.rvs + {obj.rv})
    case DeleteObject(id) => w.(objects := w.objects - {id})
    case SetPolicy(p, r) => w.(policies := if r.Some? then w.policies[p := r.value] else w.policies - {p})
    case SetCatalog(c) => w.(catalog := c)
    case CreateIncident(i, uid, target) =>
      w.(incidents := w.incidents[i := Incidents.Incident(uid, target, Incidents.EMPTY_STATUS)], uids := w.uids + {uid})
    case WriteIncident(i, write, _) =>
      if i !in w.incidents then w
      else w.(incidents := w.incidents[i := w.incidents[i].(status :=
                Incidents.Apply(cfg.scan, w.incidents[i].status, write))])
    case DeleteIncident(i) => w.(incidents := w.incidents - {i})
    case CreateApproval(a, uid, rv, spec) =>
      w.(approvals := w.approvals[a := Approval(uid, rv, w.clock, spec, NEW_STATUS)],
         uids := w.uids + {uid}, rvs := w.rvs + {rv})
    case TouchApproval(a, rv) =>
      if a !in w.approvals then w else w.(approvals := w.approvals[a := w.approvals[a].(rv := rv)], rvs := w.rvs + {rv})
    case DeleteApproval(a) => w.(approvals := w.approvals - {a})
    case Begin(_) => w
    case Step(_, _) => w
    case Crash => w.(locks := map[])
  }

  /** The deferred unlock. */
  function Unlock(w: World, name: string): World {
    w.(locks := map k | k in w.locks && w.locks[k] != name :: w.locks[k])
  }

  function Calm(calm: map<(string, string), nat>, name: string, uid: string): nat {
    if (name, uid) in calm then calm[(name, uid)] else 0
  }

  /** The reconcile returns: unlock, and note an error-free return that left work to do. */
  function Leave(s: State, name: string, failed: bool): State
    requires s.hist != []
  {
    var w := Now(s);
    var unfinished := !failed && name in w.approvals && !Terminal(w.approvals[name].status.phase);
    State(s.hist + [Unlock(w, name)], s.threads - {name}, s.log, s.writes,
          if unfinished then s.calm[(name, w.approvals[name].uid) := Calm(s.calm, name, w.approvals[name].uid) + 1]
          else s.calm)
  }

  function Do(cfg: Config, s: State, act: Act): (s': State)
    requires s.hist != []
    ensures s'.hist != []
  {
    var w := Now(s);
    if act.Step? && act.approval in s.threads then
      var pc := s.threads[act.approval];
      if pc.Returning? then Leave(s, act.approval, pc.failed)
      else
        var e := Next(cfg, w, |s.hist| - 1, act.approval, pc, act.inp);
        State(s.hist + [e.w], s.threads[act.approval := e.pc],
              if e.mutation.Some? then s.log + [e.mutation.value] else s.log,
              if e.wrote.Some? then s.writes + [e.wrote.value] else s.writes, s.calm)
    else
      State(s.hist + [Environment(cfg, w, act)],
            (match act
             case Begin(a) => s.threads[a := ReadApproval]
             case Crash => map[]
             case _ => s.threads),
            s.log, s.writes, s.calm)
  }

  // ---- Runs ----

  /** A cluster without approvals and incidents; everything stored is accounted for. */
  ghost predicate Initial(s: State) {
    && |s.hist| == 1 && s.threads == map[] && s.log == [] && s.writes == [] && s.calm == map[]
    && var w := s.hist[0];
       && w.approvals == map[] && w.incidents == map[] && w.locks == map[] && Consistent(w.catalog)
       && (forall id :: id in w.objects ==> w.objects[id].uid in w.uids && w.objects[id].rv in w.rvs)
       && (forall i, j :: i in w.objects && j in w.objects && i != j ==> w.objects[i].rv != w.objects[j].rv)
  }

  /** `s` is reached from `s0` by the acts, each legal when it happens. */
  ghost predicate Run(cfg: Config, s0: State, acts: seq<Act>, s: State) {
    if acts == [] then s == s0
    else exists mid :: Run(cfg, s0, acts[..|acts| - 1], mid) && mid.hist != []
                       && Legal(cfg, mid, acts[|acts| - 1]) && s == Do(cfg, mid, acts[|acts| - 1])
  }

  ghost predicate Reachable(cfg: Config, s: State) {
    exists s0, acts :: Initial(s0) && Run(cfg, s0, acts, s)
  }
}
