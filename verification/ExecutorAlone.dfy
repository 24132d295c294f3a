/** What an undisturbed reconcile comes to (internal/executor/executor.go): from every state, without faults and
    with nobody else acting, the approval ends exactly as a decision list over the cluster says. */
module ExecutorAlone {
  import opened Types
  import opened Framing
  import opened Discovery
  import opened Policy
  import opened JsonPatch
  import opened Executor
  import Incidents

  // ---- What is due ----

  /** How a reconcile ends: nothing to do; an error; closed without an attempt; the goal verified after a restart;
      one attempt, possibly with a change of the target; or one failed attempt after which another may follow. */
  datatype Ending =
    | Nothing
    | Error
    | Closed(phase: ApprovalPhase, result: ApprovalResult)
    | Verified(act: Action, rv: string)
    | Tried(act: Action, phase: ApprovalPhase, result: ApprovalResult, rv: string, change: Option<Obj>)
    | Postponed(act: Action, rv: string)

  const CHANGED := Closed(Superseded, TargetChanged)

  /** The action is about the incident's target, or removes a finalizer of an object in the namespace that the
      incident is about. */
  ghost predicate BoundTo(a: Action, t: TargetRef) {
    || (a.target.uid == t.uid && a.target.group == t.group && a.target.resource == t.resource
        && a.target.ns == t.ns && a.target.name == t.name)
    || (t.group == "" && t.resource == "namespaces" && t.ns == "" && a.typ == RemoveResourceFinalizer
        && a.target.ns == t.name && a.target.uid != "" && a.target.name != "" && a.target.resource != "")
  }

  ghost function SpecFor(cfg: Config, ref: PolicyRef): Spec { cfg.specOf(Revision(ref.uid, ref.generation)) }

  /** `transient` says whether an API error is of a kind that is tried again. */
  ghost function Due(cfg: Config, w: World, name: string, transient: bool): Ending {
    if name !in w.approvals || w.approvals[name].status.phase !in {Pending, Running} then Nothing
    else DueFor(cfg, w, w.approvals[name], transient)
  }

  ghost function DueFor(cfg: Config, w: World, a: Approval, transient: bool): Ending {
    var at := a.spec.incidentName;
    if at !in w.incidents || w.incidents[at].uid != a.spec.incidentUid then CHANGED
    else
      var i, recorded := w.incidents[at], a.status.action;
      var listed := FindAction(i.status.actions, a.spec.actionID);
      var wanted := if recorded.Some? then recorded else listed;
      if wanted.None? || wanted.value.id != a.spec.actionID || !BoundTo(wanted.value, i.target) then CHANGED
      else if i.status.phase.Active? && i.status.policyRef.Some? && wanted == listed then
        DueFresh(cfg, w, a, i, wanted.value, i.status.policyRef.value, transient)
      else if !a.status.phase.Running? || recorded.None? || a.spec.dryRun then CHANGED
      else DueReplay(w.objects, wanted.value)
  }

  /** The incident has moved on since the action was recorded: only its goal is verified. */
  ghost function DueReplay(objects: map<ObjId, Obj>, act: Action): Ending {
    var id := IdOf(act.target);
    if id !in objects then Verified(act, "")
    else if objects[id].uid != act.target.uid then Closed(Superseded, TargetReplaced)
    else
      var o, open := objects[id], Closed(Superseded, AlreadySatisfied);
      match act.typ
      case RemoveResourceFinalizer => if act.finalizer !in o.finalizers then Verified(act, o.rv) else open
      case RemoveCRDFinalizer => if act.finalizer !in o.finalizers then Verified(act, o.rv) else open
      case ForceFinalizeNamespace => if o.specFinalizers == [] then Verified(act, o.rv) else open
      case UnsupportedAction => Closed(Superseded, RejectedByPolicy)
  }

  /** The incident recommends the action: evidence, policy revision, expiry, permission, risk and attempts. */
  ghost function DueFresh(cfg: Config, w: World, a: Approval, i: Incidents.Incident, act: Action, ref: PolicyRef,
                          transient: bool): Ending
  {
    var spec, st := SpecFor(cfg, ref), i.status;
    if st.evidenceTime.None? || st.evidenceExpires.None? || st.evidenceExpires.value < st.evidenceTime.value
       || w.clock >= st.evidenceExpires.value then CHANGED
    else if ref.name !in w.policies then Closed(Failed, RejectedByPolicy)
    else if w.policies[ref.name] != Revision(ref.uid, ref.generation) then Closed(Superseded, RejectedByPolicy)
    else if !Usable(spec, w.catalog) then Error
    else if w.clock >= a.created + spec.approvalTTL then Closed(Expired, RejectedByPolicy)
    else if !act.eligible || !SpecAllows(spec, act.typ, act.finalizer) then Closed(Failed, RejectedByPolicy)
    else if act.risk != RiskFor(act.typ, act.finalizer) then Closed(Superseded, RejectedByPolicy)
    else if |a.status.attempts| >= cfg.maxAttempts then Closed(Failed, APIError)
    else DueAttempt(cfg, spec, w.objects, w.catalog, a, i.target, act, transient)
  }

  ghost function Success(a: Approval): ApprovalPhase { if a.spec.dryRun then DryRunSucceeded else Succeeded }

  /** What the policy is asked about: the incident's target with its labels, scope and namespace. */
  ghost predicate SelectedBy(spec: Spec, objects: map<ObjId, Obj>, catalog: Snapshot, t: TargetRef, namespaced: bool)
    requires IdOf(t) in objects && (namespaced ==> NamespaceId(t.ns) in objects)
  {
    exists k :: 0 <= k < |spec.rules|
      && RuleIntends(spec.rules[k], catalog,
                     Policy.Target(t.GR(), namespaced, t.ns, objects[IdOf(t)].labels,
                                   if namespaced then objects[NamespaceId(t.ns)].labels else map[]))
  }

  /** The attempt: target there and the same, incident's target still selected by the policy, then the change. */
  ghost function DueAttempt(cfg: Config, spec: Spec, objects: map<ObjId, Obj>, catalog: Snapshot, a: Approval,
                            t: TargetRef, act: Action, transient: bool): (due: Ending)
    ensures due.Tried? || due.Postponed?
  {
    var id := IdOf(act.target);
    if id !in objects then Tried(act, Success(a), AlreadySatisfied, "", None)
    else
      var o := objects[id];
      var rejected := Tried(act, Superseded, RejectedByPolicy, o.rv, None);
      if o.uid != act.target.uid then Tried(act, Superseded, TargetReplaced, o.rv, None)
      else if t.GR() !in catalog.resources then rejected
      else if IdOf(t) !in objects || objects[IdOf(t)].uid != t.uid then rejected
      else
        var namespaced := catalog.resources[t.GR()].preferred.namespaced;
        if namespaced && NamespaceId(t.ns) !in objects then
          if transient && |a.status.attempts| + 1 < cfg.maxAttempts then Postponed(act, o.rv)
          else Tried(act, Failed, APIError, o.rv, None)
        else if !SelectedBy(spec, objects, catalog, t, namespaced) then rejected
        else DueChange(a, act, o)
  }

  /** The change itself, guarded by the approved version; a dry run changes nothing. */
  ghost function DueChange(a: Approval, act: Action, o: Obj): (due: Ending)
    ensures due.Tried?
  {
    var invalid := Tried(act, Failed, RejectedByPolicy, o.rv, None);
    match act.typ
    case RemoveResourceFinalizer => DueRemoval(a, act, o)
    case RemoveCRDFinalizer =>
      if act.target.GR() != GroupResource("apiextensions.k8s.io", "customresourcedefinitions") then invalid
      else DueRemoval(a, act, o)
    case ForceFinalizeNamespace =>
      if act.target.GR() != GroupResource("", "namespaces") || act.target.ns != "" then invalid
      else if o.specFinalizers == [] then Tried(act, Success(a), AlreadySatisfied, o.rv, None)
      else if o.rv != act.preRv then Tried(act, Superseded, TargetChanged, o.rv, None)
      else DueMutation(a, act, o, o.(specFinalizers := []))
    case UnsupportedAction => invalid
  }

  ghost function DueRemoval(a: Approval, act: Action, o: Obj): (due: Ending)
    ensures due.Tried?
  {
    if act.finalizer !in o.finalizers then Tried(act, Success(a), AlreadySatisfied, o.rv, None)
    else if o.rv != act.preRv then Tried(act, Superseded, TargetChanged, o.rv, None)
    else
      var i := IndexOf(o.finalizers, act.finalizer).value;
      DueMutation(a, act, o, o.(finalizers := o.finalizers[..i] + o.finalizers[i + 1..]))
  }

  ghost function DueMutation(a: Approval, act: Action, o: Obj, after: Obj): (due: Ending)
    ensures due.Tried?
  {
    if a.spec.dryRun then Tried(act, DryRunSucceeded, DryRunValidated, o.rv, None)
    else Tried(act, Succeeded, Mutated, o.rv, Some(after))
  }

  // ---- An undisturbed reconcile ----

  /** The reconcile of `name`, given the environment's answers by the index of the world they are given in. */
  datatype Solo = Solo(cfg: Config, name: string, inp: nat -> Input)

  datatype Outcome = Outcome(w: World, pc: Pc, log: seq<Mutation>)

  /** Act by act until it returns, or is blocked, or the acts run out. */
  function Alone(solo: Solo, w: World, n: nat, pc: Pc, acts: nat): Outcome
    decreases acts
  {
    if acts == 0 || pc.Returning? || Blocked(w, pc) then Outcome(w, pc, [])
    else
      var e := Next(solo.cfg, w, n, solo.name, pc, solo.inp(n));
      var rest := Alone(solo, e.w, n + 1, e.pc, acts - 1);
      rest.(log := (if e.mutation.Some? then [e.mutation.value] else []) + rest.log)
  }

  /** No fault, API errors of one kind, and unused resource versions. */
  ghost predicate Faultless(solo: Solo, used: set<string>, transient: bool) {
    forall n :: solo.inp(n).fault.Fine? && solo.inp(n).transient == transient && solo.inp(n).rv !in used
  }

  /** Apart from locks and used-up versions only the approval's status and, possibly, objects differ. */
  ghost predicate Rewritten(w: World, w': World, name: string, st: ApprovalStatus) {
    && name in w.approvals && name in w'.approvals
    && w' == w.(approvals := w'.approvals, locks := w'.locks, rvs := w'.rvs, objects := w'.objects)
    && w'.approvals == w.approvals[name := w.approvals[name].(status := st, rv := w'.approvals[name].rv)]
  }

  /** The audit keeps the last twenty attempts. */
  ghost function Audited(attempts: seq<Attempt>, a: Attempt): seq<Attempt> {
    if |attempts| < 20 then attempts + [a] else attempts[|attempts| - 19..] + [a]
  }

  /** The status once execution has started: Running, with the action and the time recorded. */
  ghost function Started(st: ApprovalStatus, act: Action, now: int): ApprovalStatus {
    ApprovalStatus(Running, st.result, if st.started.None? then Some(now) else st.started, st.completed,
                   if st.action.None? then Some(act) else st.action, st.attempts)
  }

  /** The target after a change: gone when it is being deleted and nothing holds it any more. */
  ghost function ObjectsAfter(objects: map<ObjId, Obj>, id: ObjId, o: Obj): map<ObjId, Obj> {
    if o.deleting && o.finalizers == [] && o.specFinalizers == [] then objects - {id} else objects[id := o]
  }

  /** The world and the return value are what is due. */
  ghost predicate LeftAs(w: World, name: string, due: Ending, o: Outcome) {
    match due
    case Nothing => o == Outcome(w, Returning(false, None, 0), [])
    case Error => o == Outcome(w, Returning(true, None, 0), [])
    case Closed(phase, result) =>
      && o.pc == Returning(false, None, 0) && o.log == [] && o.w.objects == w.objects && name in w.approvals
      && Rewritten(w, o.w, name,
                   w.approvals[name].status.(phase := phase, result := result, completed := Some(w.clock)))
    case Verified(act, rv) =>
      && o.log == [] && o.w.objects == w.objects && name in w.approvals
      && Recorded(w, w.approvals[name].status, name, Succeeded, AlreadySatisfied,
                  Attempt(w.clock, act.typ, false, rv, "", AlreadySatisfied), o)
    case Tried(act, _, _, _, _) =>
      name in w.approvals && Executed(w, Started(w.approvals[name].status, act, w.clock), w.rvs, name, due, o)
    case Postponed(act, _) =>
      name in w.approvals && Executed(w, Started(w.approvals[name].status, act, w.clock), w.rvs, name, due, o)
  }

  /** The approval is finished with one more attempt on record. */
  ghost predicate Recorded(w: World, st: ApprovalStatus, name: string, phase: ApprovalPhase, result: ApprovalResult,
                           tried: Attempt, o: Outcome)
  {
    && o.pc == Returning(false, None, 0)
    && Rewritten(w, o.w, name,
                 st.(phase := phase, result := result, completed := Some(w.clock),
                     attempts := Audited(st.attempts, tried)))
  }

  /** What comes of execution that started with the status `st`. */
  ghost predicate Executed(w: World, st: ApprovalStatus, used: set<string>, name: string, due: Ending, o: Outcome) {
    name in w.approvals &&
    var dryRun := w.approvals[name].spec.dryRun;
    match due
    case Tried(act, phase, result, rv, change) =>
      exists after: string ::
        && Recorded(w, st, name, phase, result, Attempt(w.clock, act.typ, dryRun, rv, after, result), o)
        && (!result.DryRunValidated? && !result.Mutated? ==> after == "")
        && (if change.None? then o.log == [] && o.w.objects == w.objects
            else after !in used && ChangedTo(w, o, name, act, change.value.(rv := after)))
    case Postponed(act, rv) =>
      && o.pc.Returning? && !o.pc.failed && o.pc.requeue.Some? && o.pc.requeue.value > 0
      && o.log == [] && o.w.objects == w.objects
      && Rewritten(w, o.w, name,
                   st.(phase := Running, result := APIError,
                       attempts := Audited(st.attempts, Attempt(w.clock, act.typ, dryRun, rv, "", APIError))))
    case _ => false
  }

  /** The same from the status that is stored. */
  ghost predicate ExecutedHere(w: World, used: set<string>, name: string, due: Ending, o: Outcome) {
    name in w.approvals && Executed(w, w.approvals[name].status, used, name, due, o)
  }

  /** Exactly one mutation: the target as it was becomes the target as it should be. */
  ghost predicate ChangedTo(w: World, o: Outcome, name: string, act: Action, after: Obj) {
    var id := IdOf(act.target);
    && id in w.objects && |o.log| == 1 && o.log[0].name == name && o.log[0].x.Act() == act
    && o.log[0].before == w.objects[id] && o.log[0].after == after && o.w.objects == ObjectsAfter(w.objects, id, after)
  }

  // ---- One act at a time ----

  /** An act without a mutation. */
  lemma Onward(solo: Solo, w: World, n: nat, pc: Pc, acts: nat, w': World, pc': Pc)
    requires acts > 0 && !pc.Returning? && !Blocked(w, pc)
    requires var e := Next(solo.cfg, w, n, solo.name, pc, solo.inp(n)); e.w == w' && e.pc == pc' && e.mutation.None?
    ensures Alone(solo, w, n, pc, acts) == Alone(solo, w', n + 1, pc', acts - 1)
  {
    hide Next, Blocked;
    assert [] + Alone(solo, w', n + 1, pc', acts - 1).log == Alone(solo, w', n + 1, pc', acts - 1).log;
  }

  /** updateStatus: the status is written, or need not be, and the reconcile goes on. */
  lemma Writes(solo: Solo, used: set<string>, transient: bool, w: World, n: nat, u: Update, acts: nat)
    returns (w': World)
    requires Faultless(solo, used, transient) && acts >= 2 && solo.name in w.approvals
    ensures var st := Mutate(u.mut, w.approvals[solo.name].status, w.clock);
            && Alone(solo, w, n, UpdateRead(u), acts) == Alone(solo, w', n + 2, Continue(solo.cfg, u, st), acts - 2)
            && Rewritten(w, w', solo.name, st) && w'.objects == w.objects && w'.locks == w.locks && w.rvs <= w'.rvs
  {
    hide Mutate, Continue, Alone;
    var a := w.approvals[solo.name];
    Onward(solo, w, n, UpdateRead(u), acts, w, UpdateWrite(u, a));
    var e := NextUpdateWrite(solo.cfg, w, n + 1, solo.name, u, a, solo.inp(n + 1));
    w' := e.w;
    Onward(solo, w, n + 1, UpdateWrite(u, a), acts - 1, w', e.pc);
    assert w.approvals[solo.name := a] == w.approvals;
  }

  lemma Returned(solo: Solo, w: World, n: nat, pc: Pc, acts: nat)
    requires pc.Returning?
    ensures Alone(solo, w, n, pc, acts) == Outcome(w, pc, [])
  {
  }

  /** finish: closed without an attempt. */
  lemma Closes(solo: Solo, used: set<string>, transient: bool, w: World, n: nat, me: Approval, start: nat,
               phase: ApprovalPhase, result: ApprovalResult, acts: nat)
    requires Faultless(solo, used, transient) && acts >= 2 && solo.name in w.approvals
    ensures LeftAs(w, solo.name, Closed(phase, result), Alone(solo, w, n, FinishAs(me, start, phase, result), acts))
  {
    hide Alone;
    var u := Update(me, Finish(phase, result), Stop, start, 0);
    var w' := Writes(solo, used, transient, w, n, u, acts);
    Returned(solo, w', n + 2, Returning(false, None, 0), acts - 2);
  }

  // ---- Execution ----

  /** What a thread has in hand while it executes an action for the approval `a` and an incident about `t`. */
  ghost predicate Executing(solo: Solo, w: World, x: Exec, a: Approval, t: TargetRef, act: Action, ref: PolicyRef) {
    && x.Act() == act && x.inc1.val.target == t && x.l.a1.val == a && x.expires > w.clock
    && x.policy == Compiled(SourceOf(solo.cfg, ref), w.catalog) && Usable(SpecFor(solo.cfg, ref), w.catalog)
    && Consistent(w.catalog) && solo.name in w.approvals && w.approvals[solo.name].spec == a.spec
  }

  lemma MutateTerminal(st: ApprovalStatus, tried: Attempt, phase: ApprovalPhase, result: ApprovalResult, now: int)
    ensures Mutate(TerminalAttempt(tried, phase, result), st, now) ==
            st.(phase := phase, result := result, attempts := Audited(st.attempts, tried),
                completed := Some(tried.time))
    ensures Mutate(RetryAttempt(tried), st, now) ==
            st.(phase := Running, result := tried.result, attempts := Audited(st.attempts, tried))
  {
    assert |st.attempts| >= 20 ==>
      (st.attempts + [tried])[|st.attempts| - 19..] == st.attempts[|st.attempts| - 19..] + [tried];
  }

  /** recordTerminalAttempt. */
  lemma Concludes(solo: Solo, used: set<string>, transient: bool, w: World, n: nat, u: Update, acts: nat)
    requires Faultless(solo, used, transient) && acts >= 2 && solo.name in w.approvals
    requires u.mut.TerminalAttempt? && u.cont.Stop? && u.mut.attempt.time == w.clock
    ensures var o := Alone(solo, w, n, UpdateRead(u), acts);
            && Recorded(w, w.approvals[solo.name].status, solo.name, u.mut.phase, u.mut.result, u.mut.attempt, o)
            && o.log == [] && o.w.objects == w.objects
  {
    hide Alone, Audited;
    var w' := Writes(solo, used, transient, w, n, u, acts);
    MutateTerminal(w.approvals[solo.name].status, u.mut.attempt, u.mut.phase, u.mut.result, w.clock);
    Returned(solo, w', n + 2, Returning(false, None, 0), acts - 2);
  }

  lemma Rejects(solo: Solo, used: set<string>, transient: bool, w: World, n: nat, x: Exec, a: Approval, t: TargetRef,
                act: Action, ref: PolicyRef, rv: string, phase: ApprovalPhase, result: ApprovalResult, acts: nat)
    requires Faultless(solo, used, transient) && acts >= 2 && Executing(solo, w, x, a, t, act, ref)
    requires !result.DryRunValidated? && !result.Mutated?
    ensures ExecutedHere(w, used, solo.name, Tried(act, phase, result, rv, None),
                     Alone(solo, w, n, Reject(w, x, rv, phase, result), acts))
  {
    hide Alone, Recorded, Faultless, Compiled, Usable, Consistent;
    var u := Reject(w, x, rv, phase, result).u;
    Concludes(solo, used, transient, w, n, u, acts);
    assert u.mut.attempt == Attempt(w.clock, act.typ, w.approvals[solo.name].spec.dryRun, rv, "", result);
  }

  lemma Succeeds(solo: Solo, used: set<string>, transient: bool, w: World, n: nat, x: Exec, a: Approval, t: TargetRef,
                 act: Action, ref: PolicyRef, rv: string, after: string, result: ApprovalResult, goalAt: nat, acts: nat)
    requires Faultless(solo, used, transient) && acts >= 2 && Executing(solo, w, x, a, t, act, ref)
    ensures var o := Alone(solo, w, n, Succeed(w, x, rv, after, result, goalAt), acts);
            && Recorded(w, w.approvals[solo.name].status, solo.name, Success(a), result,
                        Attempt(w.clock, act.typ, w.approvals[solo.name].spec.dryRun, rv, after, result), o)
            && o.log == [] && o.w.objects == w.objects
  {
    hide Alone, Recorded, Faultless, Compiled, Usable, Consistent;
    var u := Succeed(w, x, rv, after, result, goalAt).u;
    Concludes(solo, used, transient, w, n, u, acts);
    assert u.mut.attempt == Attempt(w.clock, act.typ, w.approvals[solo.name].spec.dryRun, rv, after, result);
  }

  /** The goal is found reached, so nothing is done. */
  lemma Satisfied(solo: Solo, used: set<string>, transient: bool, w: World, n: nat, x: Exec, a: Approval, t: TargetRef,
                  act: Action, ref: PolicyRef, rv: string, goalAt: nat, acts: nat)
    requires Faultless(solo, used, transient) && acts >= 2 && Executing(solo, w, x, a, t, act, ref)
    ensures ExecutedHere(w, used, solo.name, Tried(act, Success(a), AlreadySatisfied, rv, None),
                     Alone(solo, w, n, Succeed(w, x, rv, "", AlreadySatisfied, goalAt), acts))
  {
    hide Alone, Recorded, Faultless, Compiled, Usable, Consistent, Succeed, Success;
    Succeeds(solo, used, transient, w, n, x, a, t, act, ref, rv, "", AlreadySatisfied, goalAt, acts);
  }

  lemma RewrittenTwice(w: World, w1: World, w2: World, name: string, st: ApprovalStatus, st': ApprovalStatus)
    requires Rewritten(w, w1, name, st) && Rewritten(w1, w2, name, st')
    ensures Rewritten(w, w2, name, st')
  {
    assert w2.approvals == w.approvals[name := w2.approvals[name]];
  }

  /** How a failed attempt goes on. */
  ghost function DueAfterError(solo: Solo, a: Approval, act: Action, rv: string, transient: bool): Ending {
    if transient && |a.status.attempts| + 1 < solo.cfg.maxAttempts then Postponed(act, rv)
    else Tried(act, Failed, APIError, rv, None)
  }

  lemma GoesOn(solo: Solo, used: set<string>, transient: bool, w: World, n: nat, x: Exec, a: Approval, t: TargetRef,
               act: Action, ref: PolicyRef, rv: string, inp: Input, acts: nat) returns (w': World, me: Approval)
    requires Faultless(solo, used, transient) && acts >= 4 && Executing(solo, w, x, a, t, act, ref)
    requires inp.transient == transient
    ensures var st, tried := w.approvals[solo.name].status, Attempt(w.clock, act.typ, a.spec.dryRun, rv, "", APIError);
            Rewritten(w, w', solo.name,
                      st.(phase := Running, result := APIError, attempts := Audited(st.attempts, tried)))
    ensures w'.objects == w.objects
    ensures Alone(solo, w, n, Retry(w, x, rv, inp), acts) ==
            Alone(solo, w', n + 2,
                  if DueAfterError(solo, a, act, rv, transient).Postponed? then Backoff(x.(me := me), inp.delay)
                  else FinishAs(me, x.l.v.a0.at, Failed, APIError), acts - 2)
  {
    hide Alone, Rewritten, Audited, Compiled, Usable, Consistent;
    var u, st := Retry(w, x, rv, inp).u, w.approvals[solo.name].status;
    MutateTerminal(st, u.mut.attempt, Failed, APIError, w.clock);
    w' := Writes(solo, used, transient, w, n, u, acts);
    me := u.me.(status := Mutate(u.mut, st, w.clock));
  }

  lemma FailsOnce(solo: Solo, used: set<string>, transient: bool, w: World, n: nat, x: Exec, a: Approval, t: TargetRef,
                  act: Action, ref: PolicyRef, rv: string, inp: Input, acts: nat)
    requires Faultless(solo, used, transient) && acts >= 4 && Executing(solo, w, x, a, t, act, ref)
    requires inp.transient == transient
    ensures ExecutedHere(w, used, solo.name, DueAfterError(solo, a, act, rv, transient),
                     Alone(solo, w, n, Retry(w, x, rv, inp), acts))
  {
    hide Alone, Audited, Compiled, Usable, Consistent, Retry, Faultless;
    var w', me := GoesOn(solo, used, transient, w, n, x, a, t, act, ref, rv, inp, acts);
    if DueAfterError(solo, a, act, rv, transient).Postponed? {
      var back := NextBackoff(w', x.(me := me), inp.delay);
      Onward(solo, w', n + 2, Backoff(x.(me := me), inp.delay), acts - 2, w', back);
      Returned(solo, w', n + 3, back, acts - 3);
    } else {
      Closes(solo, used, transient, w', n + 2, me, x.l.v.a0.at, Failed, APIError, acts - 2);
      var o := Alone(solo, w', n + 2, FinishAs(me, x.l.v.a0.at, Failed, APIError), acts - 2);
      RewrittenTwice(w, w', o.w, solo.name, w'.approvals[solo.name].status, o.w.approvals[solo.name].status);
      assert Recorded(w, w.approvals[solo.name].status, solo.name, Failed, APIError,
                      Attempt(w.clock, act.typ, a.spec.dryRun, rv, "", APIError), o);
    }
  }

  /** The request is served as it was prepared. */
  lemma Mutates(solo: Solo, used: set<string>, transient: bool, w: World, n: nat, x: Exec, a: Approval, t: TargetRef,
                act: Action, ref: PolicyRef, sel: Selection, req: Request, after: Obj, acts: nat)
    requires Faultless(solo, used, transient) && acts >= 3 && Executing(solo, w, x, a, t, act, ref)
    requires IdOf(act.target) in w.objects && sel.cur.val == w.objects[IdOf(act.target)]
    requires Serve(sel.cur.val, req) == Some(after)
    ensures ExecutedHere(w, used, solo.name, DueMutation(a, act, sel.cur.val, after),
                     Alone(solo, w, n, ExecMutate(x, sel, req), acts))
  {
    if a.spec.dryRun {
      Rehearses(solo, used, transient, w, n, x, a, t, act, ref, sel, req, acts);
    } else {
      Changes(solo, used, transient, w, n, x, a, t, act, ref, sel, req, after, acts);
    }
  }

  lemma Rehearses(solo: Solo, used: set<string>, transient: bool, w: World, n: nat, x: Exec, a: Approval, t: TargetRef,
                  act: Action, ref: PolicyRef, sel: Selection, req: Request, acts: nat)
    requires Faultless(solo, used, transient) && acts >= 3 && Executing(solo, w, x, a, t, act, ref) && a.spec.dryRun
    requires IdOf(act.target) in w.objects && sel.cur.val == w.objects[IdOf(act.target)]
    requires Serve(sel.cur.val, req).Some?
    ensures ExecutedHere(w, used, solo.name, Tried(act, DryRunSucceeded, DryRunValidated, sel.cur.val.rv, None),
                     Alone(solo, w, n, ExecMutate(x, sel, req), acts))
  {
    hide Alone, Recorded, Compiled, Usable, Consistent, Succeed, Serve, Retry;
    var rv, after := sel.cur.val.rv, solo.inp(n).rv;
    var done := Succeed(w, x, rv, after, DryRunValidated, n);
    Onward(solo, w, n, ExecMutate(x, sel, req), acts, w, done);
    Succeeds(solo, used, transient, w, n + 1, x, a, t, act, ref, rv, after, DryRunValidated, n, acts - 1);
  }

  lemma Changes(solo: Solo, used: set<string>, transient: bool, w: World, n: nat, x: Exec, a: Approval, t: TargetRef,
                act: Action, ref: PolicyRef, sel: Selection, req: Request, after: Obj, acts: nat)
    requires Faultless(solo, used, transient) && acts >= 3 && Executing(solo, w, x, a, t, act, ref) && !a.spec.dryRun
    requires IdOf(act.target) in w.objects && sel.cur.val == w.objects[IdOf(act.target)]
    requires Serve(sel.cur.val, req) == Some(after)
    ensures ExecutedHere(w, used, solo.name, Tried(act, Succeeded, Mutated, sel.cur.val.rv, Some(after)),
                     Alone(solo, w, n, ExecMutate(x, sel, req), acts))
  {
    hide Alone, Compiled, Usable, Consistent, Serve, Retry, Audited;
    var rv, version, pc := sel.cur.val.rv, solo.inp(n).rv, ExecMutate(x, sel, req);
    var stored := after.(rv := version);
    var w' := Store(w, IdOf(act.target), stored);
    var done := Succeed(w', x, rv, version, Mutated, n + 1);
    var m := Mutation(solo.name, x, sel, n, sel.cur.val, stored);
    assert NextExecMutate(w, n, solo.name, x, sel, req, solo.inp(n)) == Effect(w', done, Some(m), None);
    var rest := Alone(solo, w', n + 1, done, acts - 1);
    Succeeds(solo, used, transient, w', n + 1, x, a, t, act, ref, rv, version, Mutated, n + 1, acts - 1);
    assert Alone(solo, w, n, pc, acts) == rest.(log := [m] + rest.log) by { Acts(solo, w, n, pc, acts); }
    assert [m] + rest.log == [m];
    assert Recorded(w, w.approvals[solo.name].status, solo.name, Succeeded, Mutated,
                    Attempt(w.clock, act.typ, a.spec.dryRun, rv, version, Mutated), rest.(log := [m]));
  }

  lemma Acts(solo: Solo, w: World, n: nat, pc: Pc, acts: nat)
    requires acts > 0 && pc.ExecMutate?
    ensures var e := NextExecMutate(w, n, solo.name, pc.x, pc.sel, pc.req, solo.inp(n));
            var rest := Alone(solo, e.w, n + 1, e.pc, acts - 1);
            Alone(solo, w, n, pc, acts) ==
            rest.(log := (if e.mutation.Some? then [e.mutation.value] else []) + rest.log)
  {
    hide NextExecMutate;
  }

  /** What the policy is asked about is what is stored. */
  ghost predicate Looked(w: World, t: TargetRef, act: Action, sel: Selection) {
    && IdOf(act.target) in w.objects && sel.cur.val == w.objects[IdOf(act.target)]
    && sel.cur.val.uid == act.target.uid
    && t.GR() in w.catalog.resources && sel.namespaced == w.catalog.resources[t.GR()].preferred.namespaced
    && IdOf(t) in w.objects && sel.chosen.val == w.objects[IdOf(t)] && sel.chosen.val.uid == t.uid
    && (if sel.namespaced then sel.nsObj.Some? && NamespaceId(t.ns) in w.objects
                               && sel.nsObj.value.val == w.objects[NamespaceId(t.ns)]
        else sel.nsObj.None?)
  }

  lemma MatchedBySpec(solo: Solo, w: World, x: Exec, a: Approval, t: TargetRef, act: Action, ref: PolicyRef,
                      sel: Selection)
    requires Executing(solo, w, x, a, t, act, ref) && Looked(w, t, act, sel)
    ensures Match(x.policy, PolicyTarget(x, sel)) <==>
            SelectedBy(SpecFor(solo.cfg, ref), w.objects, w.catalog, t, sel.namespaced)
  {
    hide Compiled, Match, RuleIntends, Consistent, Usable;
    MatchIsIntent(SourceOf(solo.cfg, ref), w.catalog, PolicyTarget(x, sel));
    ReadyExactly(SpecFor(solo.cfg, ref), w.catalog);
  }

  lemma RemovesFinalizer(solo: Solo, used: set<string>, transient: bool, w: World, n: nat, x: Exec, a: Approval,
                         t: TargetRef, act: Action, ref: PolicyRef, sel: Selection, acts: nat)
    requires Faultless(solo, used, transient) && acts >= 3 && Executing(solo, w, x, a, t, act, ref)
    requires Looked(w, t, act, sel)
    ensures ExecutedHere(w, used, solo.name, DueRemoval(a, act, sel.cur.val),
                     Alone(solo, w, n, PrepareFinalizer(w, x, sel), acts))
  {
    hide Alone, ExecutedHere, Faultless, Executing, FinalizerPatch, Reject, Succeed;
    var o := sel.cur.val;
    var index := IndexOf(o.finalizers, act.finalizer);
    assert x.Act() == act by { HoldsAction(solo, w, x, a, t, act, ref); }
    if index.None? {
      Satisfied(solo, used, transient, w, n, x, a, t, act, ref, o.rv, sel.cur.at, acts);
    } else if o.rv != act.preRv {
      Rejects(solo, used, transient, w, n, x, a, t, act, ref, o.rv, Superseded, TargetChanged, acts);
    } else {
      PatchEffect(o, index.value, o);
      Mutates(solo, used, transient, w, n, x, a, t, act, ref, sel, Patch(FinalizerPatch(o, index.value)),
              o.(finalizers := Without(o.finalizers, index.value)), acts);
    }
  }

  lemma HoldsAction(solo: Solo, w: World, x: Exec, a: Approval, t: TargetRef, act: Action, ref: PolicyRef)
    requires Executing(solo, w, x, a, t, act, ref)
    ensures x.Act() == act
  {
  }

  lemma ForcesNamespace(solo: Solo, used: set<string>, transient: bool, w: World, n: nat, x: Exec, a: Approval,
                        t: TargetRef, act: Action, ref: PolicyRef, sel: Selection, acts: nat)
    requires Faultless(solo, used, transient) && acts >= 3 && Executing(solo, w, x, a, t, act, ref)
    requires Looked(w, t, act, sel) && act.typ.ForceFinalizeNamespace?
    requires Match(x.policy, PolicyTarget(x, sel))
    ensures ExecutedHere(w, used, solo.name, DueChange(a, act, sel.cur.val),
                     Alone(solo, w, n, Prepare(w, x, sel), acts))
  {
    hide Alone, ExecutedHere, Faultless, Executing, Reject, Succeed, Match, DueMutation, Success;
    var o := sel.cur.val;
    HoldsAction(solo, w, x, a, t, act, ref);
    if act.target.GR() != GroupResource("", "namespaces") || act.target.ns != "" {
      Rejects(solo, used, transient, w, n, x, a, t, act, ref, o.rv, Failed, RejectedByPolicy, acts);
    } else if o.specFinalizers == [] {
      Satisfied(solo, used, transient, w, n, x, a, t, act, ref, o.rv, sel.cur.at, acts);
    } else if o.rv != act.preRv {
      Rejects(solo, used, transient, w, n, x, a, t, act, ref, o.rv, Superseded, TargetChanged, acts);
    } else {
      Mutates(solo, used, transient, w, n, x, a, t, act, ref, sel, Finalize(o.uid, o.rv),
              o.(specFinalizers := []), acts);
    }
  }

  /** The checks by the type of the action. */
  lemma PreparesByType(solo: Solo, used: set<string>, transient: bool, w: World, n: nat, x: Exec, a: Approval,
                       t: TargetRef, act: Action, ref: PolicyRef, sel: Selection, acts: nat)
    requires Faultless(solo, used, transient) && acts >= 3 && Executing(solo, w, x, a, t, act, ref)
    requires Looked(w, t, act, sel) && Match(x.policy, PolicyTarget(x, sel))
    ensures ExecutedHere(w, used, solo.name, DueChange(a, act, sel.cur.val),
                     Alone(solo, w, n, Prepare(w, x, sel), acts))
  {
    hide Alone, ExecutedHere, Faultless, Executing, Looked, Reject, Succeed, Match, PrepareFinalizer, DueRemoval,
      DueMutation, Success;
    HoldsAction(solo, w, x, a, t, act, ref);
    if act.typ.ForceFinalizeNamespace? {
      ForcesNamespace(solo, used, transient, w, n, x, a, t, act, ref, sel, acts);
    } else if act.typ.RemoveResourceFinalizer? {
      RemovesFinalizer(solo, used, transient, w, n, x, a, t, act, ref, sel, acts);
    } else {
      Rejects(solo, used, transient, w, n, x, a, t, act, ref, sel.cur.val.rv, Failed, RejectedByPolicy, acts);
      if act.typ.RemoveCRDFinalizer? {
        RemovesFinalizer(solo, used, transient, w, n, x, a, t, act, ref, sel, acts);
      }
    }
  }

  /** The policy decision. */
  lemma Prepares(solo: Solo, used: set<string>, transient: bool, w: World, n: nat, x: Exec, a: Approval,
                 t: TargetRef, act: Action, ref: PolicyRef, sel: Selection, acts: nat)
    requires Faultless(solo, used, transient) && acts >= 3 && Executing(solo, w, x, a, t, act, ref)
    requires Looked(w, t, act, sel)
    ensures ExecutedHere(w, used, solo.name,
                         if SelectedBy(SpecFor(solo.cfg, ref), w.objects, w.catalog, t, sel.namespaced)
                         then DueChange(a, act, sel.cur.val)
                         else Tried(act, Superseded, RejectedByPolicy, sel.cur.val.rv, None),
                         Alone(solo, w, n, Prepare(w, x, sel), acts))
  {
    hide Alone, ExecutedHere, Faultless, Executing, Reject, Succeed, Match, SelectedBy, PrepareFinalizer, DueChange;
    MatchedBySpec(solo, w, x, a, t, act, ref, sel);
    if Match(x.policy, PolicyTarget(x, sel)) {
      PreparesByType(solo, used, transient, w, n, x, a, t, act, ref, sel, acts);
    } else {
      Rejects(solo, used, transient, w, n, x, a, t, act, ref, sel.cur.val.rv, Superseded, RejectedByPolicy, acts);
    }
  }

  ghost function DueNow(solo: Solo, w: World, a: Approval, t: TargetRef, act: Action, ref: PolicyRef, transient: bool):
    Ending
  {
    DueAttempt(solo.cfg, SpecFor(solo.cfg, ref), w.objects, w.catalog, a, t, act, transient)
  }

  /** The target as it was read, and the incident's target, of a catalogued resource. */
  ghost predicate Found(w: World, t: TargetRef, act: Action, cur: Seen<Obj>, namespaced: bool, chosen: Seen<Obj>) {
    && IdOf(act.target) in w.objects && cur.val == w.objects[IdOf(act.target)] && cur.val.uid == act.target.uid
    && t.GR() in w.catalog.resources && namespaced == w.catalog.resources[t.GR()].preferred.namespaced
    && IdOf(t) in w.objects && chosen.val == w.objects[IdOf(t)] && chosen.val.uid == t.uid
  }

  /** The namespace's labels are read, and the policy is asked. */
  lemma AtNamespace(solo: Solo, used: set<string>, transient: bool, w: World, n: nat, x: Exec, a: Approval,
                    t: TargetRef, act: Action, ref: PolicyRef, cur: Seen<Obj>, catAt: nat, chosen: Seen<Obj>, acts: nat)
    requires Faultless(solo, used, transient) && acts >= 5 && Executing(solo, w, x, a, t, act, ref)
    requires Found(w, t, act, cur, true, chosen)
    ensures ExecutedHere(w, used, solo.name, DueNow(solo, w, a, t, act, ref, transient),
                         Alone(solo, w, n, ExecNamespace(x, cur, catAt, chosen), acts))
  {
    hide Alone, ExecutedHere, Compiled, Usable, Consistent, Prepare, Retry, DueChange, SelectedBy;
    var id, pc := NamespaceId(t.ns), ExecNamespace(x, cur, catAt, chosen);
    if id !in w.objects {
      Onward(solo, w, n, pc, acts, w, Retry(w, x, cur.val.rv, solo.inp(n)));
      FailsOnce(solo, used, transient, w, n + 1, x, a, t, act, ref, cur.val.rv, solo.inp(n), acts - 1);
    } else {
      var sel := Selection(cur, catAt, true, chosen, Some(Seen(n, w.objects[id])));
      Onward(solo, w, n, pc, acts, w, Prepare(w, x, sel));
      Prepares(solo, used, transient, w, n + 1, x, a, t, act, ref, sel, acts - 1);
    }
  }

  lemma AtSelected(solo: Solo, used: set<string>, transient: bool, w: World, n: nat, x: Exec, a: Approval,
                   t: TargetRef, act: Action, ref: PolicyRef, cur: Seen<Obj>, catAt: nat, namespaced: bool,
                   chosen: Seen<Obj>, acts: nat)
    requires Faultless(solo, used, transient) && acts >= 5 && Executing(solo, w, x, a, t, act, ref)
    requires Found(w, t, act, cur, namespaced, chosen)
    ensures ExecutedHere(w, used, solo.name, DueNow(solo, w, a, t, act, ref, transient),
                         Alone(solo, w, n, Selected(w, x, cur, catAt, namespaced, chosen), acts))
  {
    hide Alone, ExecutedHere, Executing, Prepare, DueChange, SelectedBy;
    if namespaced {
      AtNamespace(solo, used, transient, w, n, x, a, t, act, ref, cur, catAt, chosen, acts);
    } else {
      Prepares(solo, used, transient, w, n, x, a, t, act, ref, Selection(cur, catAt, false, chosen, None), acts);
    }
  }

  /** An action on an object in the incident's namespace: the policy is asked about the incident's target. */
  lemma AtIncidentTarget(solo: Solo, used: set<string>, transient: bool, w: World, n: nat, x: Exec, a: Approval,
                         t: TargetRef, act: Action, ref: PolicyRef, cur: Seen<Obj>, catAt: nat, namespaced: bool,
                         acts: nat)
    requires Faultless(solo, used, transient) && acts >= 6 && Executing(solo, w, x, a, t, act, ref)
    requires IdOf(act.target) in w.objects && cur.val == w.objects[IdOf(act.target)] && cur.val.uid == act.target.uid
    requires t.GR() in w.catalog.resources && namespaced == w.catalog.resources[t.GR()].preferred.namespaced
    ensures ExecutedHere(w, used, solo.name, DueNow(solo, w, a, t, act, ref, transient),
                         Alone(solo, w, n, ExecIncidentTarget(x, cur, catAt, namespaced), acts))
  {
    hide Alone, ExecutedHere, Compiled, Usable, Consistent, Selected, Retry, DueChange, SelectedBy, Reject;
    var id, pc := IdOf(t), ExecIncidentTarget(x, cur, catAt, namespaced);
    if id !in w.objects || w.objects[id].uid != t.uid {
      Onward(solo, w, n, pc, acts, w, Reject(w, x, cur.val.rv, Superseded, RejectedByPolicy));
      Rejects(solo, used, transient, w, n + 1, x, a, t, act, ref, cur.val.rv, Superseded, RejectedByPolicy, acts - 1);
    } else {
      var chosen := Seen(n, w.objects[id]);
      Onward(solo, w, n, pc, acts, w, Selected(w, x, cur, catAt, namespaced, chosen));
      AtSelected(solo, used, transient, w, n + 1, x, a, t, act, ref, cur, catAt, namespaced, chosen, acts - 1);
    }
  }

  lemma AtResolve(solo: Solo, used: set<string>, transient: bool, w: World, n: nat, x: Exec, a: Approval,
                  t: TargetRef, act: Action, ref: PolicyRef, cur: Seen<Obj>, acts: nat)
    requires Faultless(solo, used, transient) && acts >= 7 && Executing(solo, w, x, a, t, act, ref)
    requires IdOf(act.target) in w.objects && cur.val == w.objects[IdOf(act.target)] && cur.val.uid == act.target.uid
    ensures ExecutedHere(w, used, solo.name, DueNow(solo, w, a, t, act, ref, transient),
                         Alone(solo, w, n, ExecResolve(x, cur), acts))
  {
    hide Alone, ExecutedHere, Compiled, Usable, Consistent, Selected, DueChange, SelectedBy, Reject;
    var pc := ExecResolve(x, cur);
    if t.GR() !in w.catalog.resources {
      Onward(solo, w, n, pc, acts, w, Reject(w, x, cur.val.rv, Superseded, RejectedByPolicy));
      Rejects(solo, used, transient, w, n + 1, x, a, t, act, ref, cur.val.rv, Superseded, RejectedByPolicy, acts - 1);
    } else {
      var namespaced := w.catalog.resources[t.GR()].preferred.namespaced;
      if SameTargetIdentity(act.target, t) {
        Onward(solo, w, n, pc, acts, w, Selected(w, x, cur, n, namespaced, cur));
        AtSelected(solo, used, transient, w, n + 1, x, a, t, act, ref, cur, n, namespaced, cur, acts - 1);
      } else {
        Onward(solo, w, n, pc, acts, w, ExecIncidentTarget(x, cur, n, namespaced));
        AtIncidentTarget(solo, used, transient, w, n + 1, x, a, t, act, ref, cur, n, namespaced, acts - 1);
      }
    }
  }

  /** Execution from its first read on. */
  lemma AtExecution(solo: Solo, used: set<string>, transient: bool, w: World, n: nat, x: Exec, a: Approval,
                    t: TargetRef, act: Action, ref: PolicyRef, acts: nat)
    requires Faultless(solo, used, transient) && acts >= 8 && Executing(solo, w, x, a, t, act, ref)
    ensures ExecutedHere(w, used, solo.name, DueNow(solo, w, a, t, act, ref, transient),
                         Alone(solo, w, n, ExecRead(x), acts))
  {
    hide Alone, ExecutedHere, Compiled, Usable, Consistent, DueChange, SelectedBy, Reject, Succeed;
    var id, pc := IdOf(act.target), ExecRead(x);
    if id !in w.objects {
      Onward(solo, w, n, pc, acts, w, Succeed(w, x, "", "", AlreadySatisfied, n));
      Satisfied(solo, used, transient, w, n + 1, x, a, t, act, ref, "", n, acts - 1);
    } else if w.objects[id].uid != act.target.uid {
      var rv := w.objects[id].rv;
      Onward(solo, w, n, pc, acts, w, Reject(w, x, rv, Superseded, TargetReplaced));
      Rejects(solo, used, transient, w, n + 1, x, a, t, act, ref, rv, Superseded, TargetReplaced, acts - 1);
    } else {
      Onward(solo, w, n, pc, acts, w, ExecResolve(x, Seen(n, w.objects[id])));
      AtResolve(solo, used, transient, w, n + 1, x, a, t, act, ref, Seen(n, w.objects[id]), acts - 1);
    }
  }

  // ---- Under the lock ----

  lemma MutateRunning(st: ApprovalStatus, act: Action, now: int)
    ensures Mutate(MarkRunning(act), st, now) == Started(st, act, now)
  {
  }

  lemma ExecutedBefore(w: World, w': World, name: string, st: ApprovalStatus, used: set<string>, due: Ending,
                       o: Outcome)
    requires Rewritten(w, w', name, st) && w'.objects == w.objects && ExecutedHere(w', used, name, due, o)
    ensures Executed(w, st, used, name, due, o)
  {
    hide Audited;
    RewrittenTwice(w, w', o.w, name, st, o.w.approvals[name].status);
    hide Rewritten;
    if due.Tried? {
      var after: string :|
        && Recorded(w', st, name, due.phase, due.result,
                    Attempt(w.clock, due.act.typ, w.approvals[name].spec.dryRun, due.rv, after, due.result), o)
        && (!due.result.DryRunValidated? && !due.result.Mutated? ==> after == "")
        && (if due.change.None? then o.log == [] && o.w.objects == w.objects
            else after !in used && ChangedTo(w', o, name, due.act, due.change.value.(rv := after)));
      assert Recorded(w, st, name, due.phase, due.result,
                      Attempt(w.clock, due.act.typ, w.approvals[name].spec.dryRun, due.rv, after, due.result), o);
      assert due.change.Some? ==> ChangedTo(w, o, name, due.act, due.change.value.(rv := after));
    }
  }

  /** The approval stands, its incident recommends the action on current evidence, and the policy revision is in
      force and leaves time. */
  ghost predicate Cleared(solo: Solo, w: World, a: Approval, i: Incidents.Incident, act: Action, ref: PolicyRef) {
    && solo.name in w.approvals && w.approvals[solo.name] == a && a.status.phase in {Pending, Running}
    && a.spec.incidentName in w.incidents && w.incidents[a.spec.incidentName] == i
    && i.status.phase.Active? && i.status.policyRef == Some(ref)
    && FindAction(i.status.actions, a.spec.actionID) == Some(act)
    && Incidents.EvidenceCurrent(i.status, w.clock) && RevisionIs(w, ref)
    && Usable(SpecFor(solo.cfg, ref), w.catalog) && w.clock < a.created + SpecFor(solo.cfg, ref).approvalTTL
    && Consistent(w.catalog)
  }

  /** What is due once everything up to the number of attempts is in order. */
  ghost function DueCleared(solo: Solo, w: World, a: Approval, t: TargetRef, act: Action, ref: PolicyRef,
                            transient: bool): Ending
  {
    if |a.status.attempts| >= solo.cfg.maxAttempts then Closed(Failed, APIError)
    else DueNow(solo, w, a, t, act, ref, transient)
  }

  /** The thread holds the lock for the action, and has read the approval and the incident again. */
  ghost predicate Holding(l: Locked, inc1: Seen<Incidents.Incident>, a: Approval, i: Incidents.Incident, act: Action,
                          ref: PolicyRef)
  {
    l.v.plan.Fresh? && l.v.plan.ref == ref && l.v.action == act && l.a1.val == a && inc1.val == i
  }

  lemma PolicyFacts(solo: Solo, w: World, ref: PolicyRef, act: Action)
    ensures var p, spec := Compiled(SourceOf(solo.cfg, ref), w.catalog), SpecFor(solo.cfg, ref);
            && p.settings.approvalTTL == spec.approvalTTL && (p.ready <==> Usable(spec, w.catalog))
            && (Eligible(p, act.typ, act.finalizer) <==>
                  Usable(spec, w.catalog) && SpecAllows(spec, act.typ, act.finalizer))
  {
    var source := SourceOf(solo.cfg, ref);
    SettingsCarryOver(source, w.catalog);
    ReadyExactly(source.spec, w.catalog);
    EligibleBySpec(source, w.catalog, act.typ, act.finalizer);
    hide Usable, SpecAllows, ReadySpec, Eligible, SettingsOf, CompileRules, OwnerMap;
  }

  /** markRunning and execution. */
  lemma AtMark(solo: Solo, transient: bool, w: World, n: nat, x: Exec, a: Approval, t: TargetRef, act: Action,
               ref: PolicyRef, start: nat, acts: nat)
    requires Faultless(solo, w.rvs, transient) && acts >= 10 && Executing(solo, w, x, a, t, act, ref)
    requires w.approvals[solo.name] == a
    ensures LeftAs(w, solo.name, DueNow(solo, w, a, t, act, ref, transient),
                   Alone(solo, w, n, UpdateRead(Update(a, MarkRunning(act), Go(x), start, 0)), acts))
  {
    hide Alone, Executed, ExecutedHere, Compiled, Usable, Consistent, Mutate, Rewritten, DueChange, SelectedBy;
    var u, due := Update(a, MarkRunning(act), Go(x), start, 0), DueNow(solo, w, a, t, act, ref, transient);
    var st := Started(a.status, act, w.clock);
    MutateRunning(a.status, act, w.clock);
    var w' := Writes(solo, w.rvs, transient, w, n, u, acts);
    var x' := x.(me := a.(status := st));
    StaysExecuting(solo, w, w', x, x', a, t, act, ref, st);
    AtExecution(solo, w.rvs, transient, w', n + 2, x', a, t, act, ref, acts - 2);
    assert DueNow(solo, w', a, t, act, ref, transient) == due by { RewrittenKeeps(w, w', solo.name, st); }
    ExecutedBefore(w, w', solo.name, st, w.rvs, due, Alone(solo, w', n + 2, ExecRead(x'), acts - 2));
    assert due.Tried? || due.Postponed?;
    assert due.act == act by { DueAct(solo, w, a, t, act, ref, transient); }
  }

  lemma RewrittenKeeps(w: World, w': World, name: string, st: ApprovalStatus)
    requires Rewritten(w, w', name, st)
    ensures w'.catalog == w.catalog && w'.clock == w.clock && name in w'.approvals
    ensures w'.approvals[name].spec == w.approvals[name].spec && w'.approvals[name].status == st
  {
  }

  lemma StaysExecuting(solo: Solo, w: World, w': World, x: Exec, x': Exec, a: Approval, t: TargetRef, act: Action,
                       ref: PolicyRef, st: ApprovalStatus)
    requires Executing(solo, w, x, a, t, act, ref) && Rewritten(w, w', solo.name, st) && x' == x.(me := x'.me)
    ensures Executing(solo, w', x', a, t, act, ref)
  {
    hide Compiled, Usable, Consistent;
  }

  lemma DueAct(solo: Solo, w: World, a: Approval, t: TargetRef, act: Action, ref: PolicyRef, transient: bool)
    ensures var due := DueNow(solo, w, a, t, act, ref, transient); (due.Tried? || due.Postponed?) && due.act == act
  {
    hide SelectedBy, Success;
  }

  /** Final validation of the policy, expiry and attempts. */
  lemma AtRecheck(solo: Solo, transient: bool, w: World, n: nat, l: Locked, inc1: Seen<Incidents.Incident>, evAt: nat,
                  polAt: nat, a: Approval, i: Incidents.Incident, act: Action, ref: PolicyRef, acts: nat)
    requires Faultless(solo, w.rvs, transient) && acts >= 11 && Cleared(solo, w, a, i, act, ref)
    requires Holding(l, inc1, a, i, act, ref)
    ensures LeftAs(w, solo.name, DueCleared(solo, w, a, i.target, act, ref, transient),
                   Alone(solo, w, n, RecheckPolicy(l, inc1, evAt, polAt), acts))
  {
    hide Alone, LeftAs, Compiled, Usable, Consistent, DueNow, FindAction, Incidents.EvidenceCurrent, RevisionIs;
    PolicyFacts(solo, w, ref, act);
    var policy, pc := Compiled(SourceOf(solo.cfg, ref), w.catalog), RecheckPolicy(l, inc1, evAt, polAt);
    if |a.status.attempts| >= solo.cfg.maxAttempts {
      Onward(solo, w, n, pc, acts, w, FinishAs(a, l.v.a0.at, Failed, APIError));
      Closes(solo, w.rvs, transient, w, n + 1, a, l.v.a0.at, Failed, APIError, acts - 1);
    } else {
      var x := Exec(l, inc1, evAt, polAt, n, policy, a.created + policy.settings.approvalTTL, a);
      Onward(solo, w, n, pc, acts, w, UpdateRead(Update(a, MarkRunning(act), Go(x), l.v.a0.at, 0)));
      AtMark(solo, transient, w, n + 1, x, a, i.target, act, ref, l.v.a0.at, acts - 1);
    }
  }

  /** The checks under the lock, which find everything as it was. */
  lemma AtReread(solo: Solo, transient: bool, w: World, n: nat, l: Locked, inc1: Seen<Incidents.Incident>,
                 a: Approval, i: Incidents.Incident, act: Action, ref: PolicyRef, acts: nat)
    requires Faultless(solo, w.rvs, transient) && acts >= 14 && Cleared(solo, w, a, i, act, ref)
    requires Holding(l, inc1, a, i, act, ref) && l.v.inc0.val == i && l.v.plan.expires > w.clock
    ensures LeftAs(w, solo.name, DueCleared(solo, w, a, i.target, act, ref, transient),
                   Alone(solo, w, n, CheckExpiry(l, Some(inc1)), acts))
  {
    hide Alone, LeftAs, Compiled, Usable, Consistent, DueCleared, FindAction, Incidents.EvidenceCurrent;
    Onward(solo, w, n, CheckExpiry(l, Some(inc1)), acts, w, CheckEvidence(l, inc1));
    Onward(solo, w, n + 1, CheckEvidence(l, inc1), acts - 1, w, RereadPolicy(l, inc1, n + 1));
    Onward(solo, w, n + 2, RereadPolicy(l, inc1, n + 1), acts - 2, w, RecheckPolicy(l, inc1, n + 1, n + 2));
    AtRecheck(solo, transient, w, n + 3, l, inc1, n + 1, n + 2, a, i, act, ref, acts - 3);
  }

  lemma LocksApart(w: World, locks: map<string, string>, name: string, due: Ending, o: Outcome)
    requires LeftAs(w.(locks := locks), name, due, o) && !due.Nothing? && !due.Error?
    ensures LeftAs(w, name, due, o)
  {
    hide Audited;
    var w1 := w.(locks := locks);
    if due.Tried? || due.Postponed? {
      var st := Started(w.approvals[name].status, due.act, w.clock);
      assert Executed(w1, st, w.rvs, name, due, o);
      ExecutedUnlocked(w, locks, st, w.rvs, name, due, o);
    }
  }

  lemma ExecutedUnlocked(w: World, locks: map<string, string>, st: ApprovalStatus, used: set<string>, name: string,
                         due: Ending, o: Outcome)
    requires Executed(w.(locks := locks), st, used, name, due, o)
    ensures Executed(w, st, used, name, due, o)
  {
    hide Audited;
    var w1 := w.(locks := locks);
    if due.Tried? {
      var after: string :|
        && Recorded(w1, st, name, due.phase, due.result,
                    Attempt(w.clock, due.act.typ, w.approvals[name].spec.dryRun, due.rv, after, due.result), o)
        && (!due.result.DryRunValidated? && !due.result.Mutated? ==> after == "")
        && (if due.change.None? then o.log == [] && o.w.objects == w.objects
            else after !in used && ChangedTo(w1, o, name, due.act, due.change.value.(rv := after)));
      assert Recorded(w, st, name, due.phase, due.result,
                      Attempt(w.clock, due.act.typ, w.approvals[name].spec.dryRun, due.rv, after, due.result), o);
      assert due.change.Some? ==> ChangedTo(w, o, name, due.act, due.change.value.(rv := after));
    }
  }

  lemma StaysCleared(solo: Solo, w: World, locks: map<string, string>, a: Approval, i: Incidents.Incident, act: Action,
                     ref: PolicyRef)
    requires Cleared(solo, w, a, i, act, ref)
    ensures Cleared(solo, w.(locks := locks), a, i, act, ref)
  {
    hide Usable, Consistent, FindAction, Incidents.EvidenceCurrent;
  }

  /** The lock is taken, approval and incident are read again. */
  lemma AtLock(solo: Solo, transient: bool, w: World, n: nat, v: Vetted, a: Approval, i: Incidents.Incident,
               act: Action, ref: PolicyRef, acts: nat)
    requires Faultless(solo, w.rvs, transient) && acts >= 17 && Cleared(solo, w, a, i, act, ref)
    requires v.plan.Fresh? && v.plan.ref == ref && v.plan.expires > w.clock && v.action == act && v.inc0.val == i
    requires TargetKey(act.target) !in w.locks
    ensures LeftAs(w, solo.name, DueCleared(solo, w, a, i.target, act, ref, transient),
                   Alone(solo, w, n, Acquire(v), acts))
  {
    hide Alone, LeftAs, Usable, Consistent, DueNow, FindAction, Incidents.EvidenceCurrent, TargetKey, Faultless;
    AllFine(solo, w.rvs, transient);
    var locks := w.locks[TargetKey(act.target) := solo.name];
    var w1, l := w.(locks := locks), Locked(v, n, Seen(n + 1, a));
    var inc1 := Seen(n + 2, i);
    StaysCleared(solo, w, locks, a, i, act, ref);
    Onward(solo, w, n, Acquire(v), acts, w1, LockedReadApproval(v, n));
    Onward(solo, w1, n + 1, LockedReadApproval(v, n), acts - 1, w1, LockedReadIncident(l));
    Onward(solo, w1, n + 2, LockedReadIncident(l), acts - 2, w1, CheckExpiry(l, Some(inc1)));
    AtReread(solo, transient, w1, n + 3, l, inc1, a, i, act, ref, acts - 3);
    assert DueNow(solo, w1, a, i.target, act, ref, transient) == DueNow(solo, w, a, i.target, act, ref, transient) by {
      SameDue(solo, w, locks, a, i.target, act, ref, transient);
    }
    assert !DueCleared(solo, w, a, i.target, act, ref, transient).Nothing? by {
      DueAct(solo, w, a, i.target, act, ref, transient);
    }
    assert !DueCleared(solo, w, a, i.target, act, ref, transient).Error? by {
      DueAct(solo, w, a, i.target, act, ref, transient);
    }
    LocksApart(w, locks, solo.name, DueCleared(solo, w, a, i.target, act, ref, transient),
               Alone(solo, w1, n + 3, CheckExpiry(l, Some(inc1)), acts - 3));
  }

  lemma SameDue(solo: Solo, w: World, locks: map<string, string>, a: Approval, t: TargetRef, act: Action,
                ref: PolicyRef, transient: bool)
    ensures DueNow(solo, w.(locks := locks), a, t, act, ref, transient) == DueNow(solo, w, a, t, act, ref, transient)
  {
    hide DueAttempt;
  }

  /** An unfinished approval with a recorded action, and its incident. */
  ghost predicate Resumed(solo: Solo, w: World, a: Approval, i: Incidents.Incident, act: Action) {
    && solo.name in w.approvals && w.approvals[solo.name] == a && a.status.phase in {Pending, Running}
    && a.spec.incidentName in w.incidents && w.incidents[a.spec.incidentName] == i && a.status.action == Some(act)
  }

  ghost function DueResumed(w: World, a: Approval, act: Action): Ending {
    if !a.status.phase.Running? || a.spec.dryRun then CHANGED else DueReplay(w.objects, act)
  }

  lemma AtReplayIncident(solo: Solo, transient: bool, w: World, n: nat, l: Locked, a: Approval, i: Incidents.Incident,
                         act: Action, acts: nat)
    requires Faultless(solo, w.rvs, transient) && acts >= 4 && Resumed(solo, w, a, i, act)
    requires l.v.plan.Replay? && l.v.action == act && l.a1.val == a && l.v.inc0.val == i
    ensures LeftAs(w, solo.name, DueResumed(w, a, act), Alone(solo, w, n, LockedReadIncident(l), acts))
  {
    hide Alone, LeftAs, DueReplay, Faultless;
    AllFine(solo, w.rvs, transient);
    if !a.status.phase.Running? || a.spec.dryRun {
      Onward(solo, w, n, LockedReadIncident(l), acts, w, FinishAs(a, l.v.a0.at, Superseded, TargetChanged));
      Closes(solo, w.rvs, transient, w, n + 1, a, l.v.a0.at, Superseded, TargetChanged, acts - 1);
    } else {
      Onward(solo, w, n, LockedReadIncident(l), acts, w, ReplayRead(l));
      AtReplayRead(solo, transient, w, n + 1, l, a, act, acts - 1);
    }
  }

  lemma ReplayCloses(w: World, a: Approval, act: Action)
    ensures !DueResumed(w, a, act).Nothing? && !DueResumed(w, a, act).Error?
  {
  }

  /** After a restart: the recorded action's goal is verified under the lock. */
  lemma AtReplay(solo: Solo, transient: bool, w: World, n: nat, v: Vetted, a: Approval, i: Incidents.Incident,
                 act: Action, acts: nat)
    requires Faultless(solo, w.rvs, transient) && acts >= 6 && Resumed(solo, w, a, i, act) && v.inc0.val == i
    requires v.plan.Replay? && v.action == act && TargetKey(act.target) !in w.locks
    ensures LeftAs(w, solo.name, DueResumed(w, a, act), Alone(solo, w, n, Acquire(v), acts))
  {
    hide Alone, LeftAs, TargetKey, Faultless, DueReplay;
    AllFine(solo, w.rvs, transient);
    var locks := w.locks[TargetKey(act.target) := solo.name];
    var w1, l := w.(locks := locks), Locked(v, n, Seen(n + 1, a));
    Onward(solo, w, n, Acquire(v), acts, w1, LockedReadApproval(v, n));
    Onward(solo, w1, n + 1, LockedReadApproval(v, n), acts - 1, w1, LockedReadIncident(l));
    AtReplayIncident(solo, transient, w1, n + 2, l, a, i, act, acts - 2);
    ReplayCloses(w, a, act);
    LocksApart(w, locks, solo.name, DueResumed(w, a, act), Alone(solo, w1, n + 2, LockedReadIncident(l), acts - 2));
  }

  lemma AllFine(solo: Solo, used: set<string>, transient: bool)
    requires Faultless(solo, used, transient)
    ensures forall n :: solo.inp(n).fault.Fine?
  {
  }

  lemma AtReplayRead(solo: Solo, transient: bool, w: World, n: nat, l: Locked, a: Approval, act: Action, acts: nat)
    requires Faultless(solo, w.rvs, transient) && acts >= 3
    requires solo.name in w.approvals && w.approvals[solo.name] == a && !a.spec.dryRun
    requires l.a1.val == a && l.v.action == act
    ensures LeftAs(w, solo.name, DueReplay(w.objects, act), Alone(solo, w, n, ReplayRead(l), acts))
  {
    hide Alone, Recorded, Rewritten;
    var id, start := IdOf(act.target), l.v.a0.at;
    var e := NextReplayRead(w, n, l, solo.inp(n));
    Onward(solo, w, n, ReplayRead(l), acts, w, e.pc);
    match DueReplay(w.objects, act)
    case Verified(_, rv) =>
      assert e.pc == ReplaySucceed(w, n, l, rv);
      Concludes(solo, w.rvs, transient, w, n + 1, e.pc.u, acts - 1);
    case Closed(phase, result) =>
      assert e.pc == FinishAs(a, start, phase, result);
      Closes(solo, w.rvs, transient, w, n + 1, a, start, phase, result, acts - 1);
  }

  // ---- Before the lock ----

  /** The action an approval stands for: the recorded one, or the one its incident lists. */
  ghost function Wanted(a: Approval, i: Incidents.Incident): Option<Action> {
    if a.status.action.Some? then a.status.action else FindAction(i.status.actions, a.spec.actionID)
  }

  /** An unfinished approval and its incident, which lists the action as the approval has it. */
  ghost predicate Drafted(solo: Solo, w: World, a: Approval, i: Incidents.Incident, act: Action, ref: PolicyRef) {
    && solo.name in w.approvals && w.approvals[solo.name] == a && a.status.phase in {Pending, Running}
    && a.spec.incidentName in w.incidents && w.incidents[a.spec.incidentName] == i
    && i.status.phase.Active? && i.status.policyRef == Some(ref)
    && FindAction(i.status.actions, a.spec.actionID) == Some(act) && Incidents.EvidenceCurrent(i.status, w.clock)
    && Consistent(w.catalog) && TargetKey(act.target) !in w.locks
  }

  lemma AtCheckPolicy(solo: Solo, transient: bool, w: World, n: nat, a0: Seen<Approval>,
                      inc0: Seen<Incidents.Incident>, polAt: nat, a: Approval, i: Incidents.Incident, act: Action,
                      ref: PolicyRef, acts: nat)
    requires Faultless(solo, w.rvs, transient) && acts >= 18 && Drafted(solo, w, a, i, act, ref) && RevisionIs(w, ref)
    requires a0.val == a && inc0.val == i
    ensures LeftAs(w, solo.name, DueFresh(solo.cfg, w, a, i, act, ref, transient),
                   Alone(solo, w, n, CheckPolicy(a0, inc0, act, ref, polAt), acts))
  {
    hide Alone, Faultless, Compiled, Eligible, Usable, SpecAllows, Consistent, FindAction, TargetKey, Rewritten,
      RiskFor, Executed, DueAttempt;
    PolicyFacts(solo, w, ref, act);
    var pc, policy := CheckPolicy(a0, inc0, act, ref, polAt), Compiled(SourceOf(solo.cfg, ref), w.catalog);
    var due, next := DueFresh(solo.cfg, w, a, i, act, ref, transient),
                     NextCheckPolicy(solo.cfg, w, n, a0, inc0, act, ref, polAt);
    Onward(solo, w, n, pc, acts, w, next);
    if next.Acquire? {
      AtLock(solo, transient, w, n + 1, next.v, a, i, act, ref, acts - 1);
      assert due == DueCleared(solo, w, a, i.target, act, ref, transient);
    } else if next.Returning? {
      Returned(solo, w, n + 1, next, acts - 1);
    } else {
      assert due.Closed? && next == FinishAs(a, a0.at, due.phase, due.result);
      Closes(solo, w.rvs, transient, w, n + 1, a, a0.at, due.phase, due.result, acts - 1);
    }
  }

  lemma AtReadPolicy(solo: Solo, transient: bool, w: World, n: nat, a0: Seen<Approval>, inc0: Seen<Incidents.Incident>,
                     a: Approval, i: Incidents.Incident, act: Action, ref: PolicyRef, acts: nat)
    requires Faultless(solo, w.rvs, transient) && acts >= 19 && Drafted(solo, w, a, i, act, ref)
    requires a0.val == a && inc0.val == i
    ensures LeftAs(w, solo.name, DueFresh(solo.cfg, w, a, i, act, ref, transient),
                   Alone(solo, w, n, ReadPolicy(a0, inc0, act, ref), acts))
  {
    hide Alone, Faultless, Usable, SpecAllows, Consistent, FindAction, TargetKey, LeftAs, RiskFor, DueAttempt;
    AllFine(solo, w.rvs, transient);
    var pc := ReadPolicy(a0, inc0, act, ref);
    if RevisionIs(w, ref) {
      Onward(solo, w, n, pc, acts, w, CheckPolicy(a0, inc0, act, ref, n));
      AtCheckPolicy(solo, transient, w, n + 1, a0, inc0, n, a, i, act, ref, acts - 1);
    } else {
      var phase := if ref.name in w.policies then Superseded else Failed;
      Onward(solo, w, n, pc, acts, w, FinishAs(a, a0.at, phase, RejectedByPolicy));
      Closes(solo, w.rvs, transient, w, n + 1, a, a0.at, phase, RejectedByPolicy, acts - 1);
    }
  }

  lemma BoundExactly(act: Action, t: TargetRef)
    ensures BelongsToIncident(act, t) <==> BoundTo(act, t)
  {
  }

  /** The incident is there: which action, whether it is still current, or whether only its goal is verified. */
  lemma AtDecide(solo: Solo, transient: bool, w: World, n: nat, a0: Seen<Approval>, inc0: Seen<Incidents.Incident>,
                 a: Approval, i: Incidents.Incident, acts: nat)
    requires Faultless(solo, w.rvs, transient) && acts >= 20 && Consistent(w.catalog)
    requires solo.name in w.approvals && w.approvals[solo.name] == a && a.status.phase in {Pending, Running}
    requires a.spec.incidentName in w.incidents && w.incidents[a.spec.incidentName] == i && i.uid == a.spec.incidentUid
    requires Wanted(a, i).Some? ==> TargetKey(Wanted(a, i).value.target) !in w.locks
    requires a0.val == a && inc0.val == i
    ensures LeftAs(w, solo.name, DueFor(solo.cfg, w, a, transient), Alone(solo, w, n, Decide(a0, inc0), acts))
  {
    hide Alone, Faultless, Consistent, FindAction, TargetKey, LeftAs, DueReplay, BelongsToIncident, BoundTo;
    var next, due := NextDecide(w, a0, inc0), DueFor(solo.cfg, w, a, transient);
    Onward(solo, w, n, Decide(a0, inc0), acts, w, next);
    if Wanted(a, i).Some? { BoundExactly(Wanted(a, i).value, i.target); }
    if next.ReadPolicy? {
      AtReadPolicy(solo, transient, w, n + 1, a0, inc0, a, i, next.action, next.ref, acts - 1);
      hide DueFresh;
      assert due == DueFresh(solo.cfg, w, a, i, next.action, next.ref, transient);
    } else if next.Acquire? {
      AtReplay(solo, transient, w, n + 1, next.v, a, i, next.v.action, acts - 1);
      hide DueFresh;
      assert due == DueResumed(w, a, next.v.action);
    } else {
      NextDrops(solo, w, a0, inc0, transient);
      Closes(solo, w.rvs, transient, w, n + 1, a, a0.at, Superseded, TargetChanged, acts - 1);
    }
  }

  lemma NextDrops(solo: Solo, w: World, a0: Seen<Approval>, inc0: Seen<Incidents.Incident>, transient: bool)
    requires !NextDecide(w, a0, inc0).ReadPolicy? && !NextDecide(w, a0, inc0).Acquire?
    requires a0.val.spec.incidentName in w.incidents && w.incidents[a0.val.spec.incidentName] == inc0.val
    requires inc0.val.uid == a0.val.spec.incidentUid
    ensures NextDecide(w, a0, inc0) == FinishAs(a0.val, a0.at, Superseded, TargetChanged)
    ensures DueFor(solo.cfg, w, a0.val, transient) == CHANGED
  {
    hide FindAction, BelongsToIncident, BoundTo, DueReplay, DueAttempt, Usable, SpecAllows, RiskFor;
    var wanted := Wanted(a0.val, inc0.val);
    if wanted.Some? { BoundExactly(wanted.value, inc0.val.target); }
  }

  /** Nobody holds the lock of the target that the approval's action is about. */
  ghost predicate Free(w: World, name: string) {
    name in w.approvals && w.approvals[name].spec.incidentName in w.incidents ==>
      var a := w.approvals[name];
      var wanted := Wanted(a, w.incidents[a.spec.incidentName]);
      wanted.Some? ==> TargetKey(wanted.value.target) !in w.locks
  }

  /** The acts of the longest reconcile. */
  const LONGEST: nat := 23

  /** A reconcile that nothing disturbs ends as is due, from every world. */
  lemma AloneEnds(solo: Solo, transient: bool, w: World, n: nat, acts: nat)
    requires Faultless(solo, w.rvs, transient) && acts >= LONGEST && Consistent(w.catalog) && Free(w, solo.name)
    ensures LeftAs(w, solo.name, Due(solo.cfg, w, solo.name, transient), Alone(solo, w, n, ReadApproval, acts))
  {
    hide Alone, Faultless, Consistent, TargetKey, Rewritten, DueFor, Executed, Recorded, Wanted;
    AllFine(solo, w.rvs, transient);
    if solo.name !in w.approvals || w.approvals[solo.name].status.phase !in {Pending, Running} {
      Onward(solo, w, n, ReadApproval, acts, w, Returning(false, None, 0));
      Returned(solo, w, n + 1, Returning(false, None, 0), acts - 1);
    } else {
      var a0 := Seen(n, w.approvals[solo.name]);
      Onward(solo, w, n, ReadApproval, acts, w, ReadIncident(a0));
      AtReadIncident(solo, transient, w, n + 1, a0, acts - 1);
    }
  }

  lemma AtReadIncident(solo: Solo, transient: bool, w: World, n: nat, a0: Seen<Approval>, acts: nat)
    requires Faultless(solo, w.rvs, transient) && acts >= 22 && Consistent(w.catalog) && Free(w, solo.name)
    requires solo.name in w.approvals && w.approvals[solo.name] == a0.val && a0.val.status.phase in {Pending, Running}
    ensures LeftAs(w, solo.name, DueFor(solo.cfg, w, a0.val, transient), Alone(solo, w, n, ReadIncident(a0), acts))
  {
    hide Alone, Faultless, Consistent, TargetKey, LeftAs, Wanted, DueFresh, DueReplay, BoundTo, FindAction;
    AllFine(solo, w.rvs, transient);
    var a := a0.val;
    var at := a.spec.incidentName;
    if at in w.incidents && w.incidents[at].uid == a.spec.incidentUid {
      var inc0 := Seen(n, w.incidents[at]);
      Onward(solo, w, n, ReadIncident(a0), acts, w, EnsureOwner(a0, inc0));
      Onward(solo, w, n + 1, EnsureOwner(a0, inc0), acts - 1, w, Decide(a0, inc0));
      AtDecide(solo, transient, w, n + 2, a0, inc0, a, inc0.val, acts - 2);
    } else {
      Onward(solo, w, n, ReadIncident(a0), acts, w, FinishAs(a, a0.at, Superseded, TargetChanged));
      Closes(solo, w.rvs, transient, w, n + 1, a, a0.at, Superseded, TargetChanged, acts - 1);
    }
  }
}
