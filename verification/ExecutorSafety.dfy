/** What every run of the executor machine guarantees about persisted mutations, whatever users, the
    scanner, discovery, the clock and crashes do in between. */
module ExecutorSafety {
  import opened Types
  import opened Framing
  import opened Discovery
  import opened Policy
  import opened JsonPatch
  import opened Executor
  import Incidents

  // ---- What a thread has read ----

  ghost predicate SawApproval(h: seq<World>, name: string, a: Seen<Approval>) {
    a.at + 1 < |h| && name in h[a.at].approvals && h[a.at].approvals[name] == a.val
  }

  ghost predicate SawIncident(h: seq<World>, name: string, i: Seen<Incidents.Incident>) {
    i.at + 1 < |h| && name in h[i.at].incidents && h[i.at].incidents[name] == i.val
  }

  ghost predicate SawRevision(h: seq<World>, ref: PolicyRef, at: nat) {
    at + 1 < |h| && RevisionIs(h[at], ref)
  }

  ghost predicate SawObject(h: seq<World>, id: ObjId, o: Seen<Obj>) {
    o.at + 1 < |h| && id in h[o.at].objects && h[o.at].objects[id] == o.val
  }

  /** An unfinished approval and the incident it is pinned to. */
  ghost predicate Opened(h: seq<World>, name: string, a0: Seen<Approval>, inc0: Seen<Incidents.Incident>) {
    && SawApproval(h, name, a0) && !Terminal(a0.val.status.phase)
    && SawIncident(h, a0.val.spec.incidentName, inc0) && a0.at < inc0.at
    && inc0.val.uid == a0.val.spec.incidentUid
  }

  /** The approved action, recommended by the then Active incident under `ref`. */
  ghost predicate Drafted(h: seq<World>, name: string, a0: Seen<Approval>, inc0: Seen<Incidents.Incident>,
                          action: Action, ref: PolicyRef)
  {
    && Opened(h, name, a0, inc0)
    && action.id == a0.val.spec.actionID
    && BelongsToIncident(action, inc0.val.target)
    && inc0.val.status.phase.Active? && inc0.val.status.policyRef == Some(ref)
    && FindAction(inc0.val.status.actions, action.id) == Some(action)
    && (a0.val.status.action.Some? ==> a0.val.status.action == Some(action))
  }

  /** Validation before the lock, for a plan that may mutate. */
  ghost predicate VettedFresh(cfg: Config, h: seq<World>, name: string, v: Vetted) {
    && v.plan.Fresh?
    && Drafted(h, name, v.a0, v.inc0, v.action, v.plan.ref)
    && SawRevision(h, v.plan.ref, v.plan.polAt) && v.inc0.at < v.plan.polAt < v.plan.compAt && v.plan.compAt + 1 < |h|
    && Eligible(Compiled(SourceOf(cfg, v.plan.ref), h[v.plan.compAt].catalog), v.action.typ, v.action.finalizer)
    && v.action.eligible && v.action.risk == RiskFor(v.action.typ, v.action.finalizer)
  }

  /** A replay only repeats what the approval's own status already records. */
  ghost predicate VettedReplay(h: seq<World>, name: string, v: Vetted) {
    && v.plan.Replay?
    && Opened(h, name, v.a0, v.inc0)
    && v.action.id == v.a0.val.spec.actionID && v.a0.val.status.action == Some(v.action)
  }

  ghost predicate VettedOk(cfg: Config, h: seq<World>, name: string, v: Vetted) {
    VettedFresh(cfg, h, name, v) || VettedReplay(h, name, v)
  }

  /** The latest index a vetted plan refers to. */
  function LastOf(v: Vetted): nat { if v.plan.Fresh? then v.plan.compAt else v.inc0.at }

  ghost predicate LockedOk(cfg: Config, h: seq<World>, name: string, l: Locked) {
    && VettedOk(cfg, h, name, l.v) && LastOf(l.v) < l.since < l.a1.at
    && SawApproval(h, name, l.a1) && !Terminal(l.a1.val.status.phase)
  }

  /** Under the lock the incident is the same, still Active under the same revision. */
  ghost predicate IncidentOk(h: seq<World>, l: Locked, inc1: Seen<Incidents.Incident>) {
    && l.v.plan.Fresh?
    && SawIncident(h, l.a1.val.spec.incidentName, inc1) && l.a1.at < inc1.at
    && inc1.val.uid == l.v.inc0.val.uid
    && inc1.val.status.phase.Active? && inc1.val.status.policyRef == Some(l.v.plan.ref)
  }

  /** ... its evidence is unexpired and it still holds exactly the vetted action. */
  ghost predicate EvidenceOk(h: seq<World>, l: Locked, inc1: Seen<Incidents.Incident>, evAt: nat) {
    && inc1.at < evAt && evAt + 1 < |h|
    && Incidents.EvidenceCurrent(inc1.val.status, h[evAt].clock)
    && FindAction(inc1.val.status.actions, l.a1.val.spec.actionID) == Some(l.v.action)
  }

  /** ... the revision is unchanged and compiles, the approval has not expired and has attempts left. */
  ghost predicate RecheckOk(cfg: Config, h: seq<World>, x: Exec) {
    && x.l.v.plan.Fresh?
    && SawRevision(h, x.l.v.plan.ref, x.polAt) && x.evAt < x.polAt < x.compAt && x.compAt + 1 < |h|
    && x.policy == Compiled(SourceOf(cfg, x.l.v.plan.ref), h[x.compAt].catalog) && x.policy.ready
    && x.expires == x.l.a1.val.created + x.policy.settings.approvalTTL
    && h[x.compAt].clock < x.expires
    && |x.l.a1.val.status.attempts| < cfg.maxAttempts
  }

  /** Everything final validation establishes. */
  ghost predicate ExecOk(cfg: Config, h: seq<World>, name: string, x: Exec) {
    && LockedOk(cfg, h, name, x.l)
    && IncidentOk(h, x.l, x.inc1)
    && EvidenceOk(h, x.l, x.inc1, x.evAt)
    && RecheckOk(cfg, h, x)
  }

  /** The target as read for execution. */
  ghost predicate CurrentOk(h: seq<World>, x: Exec, cur: Seen<Obj>) {
    SawObject(h, IdOf(x.Act().target), cur) && x.compAt < cur.at && cur.val.uid == x.Act().target.uid
  }

  ghost predicate ScopeOk(h: seq<World>, x: Exec, catAt: nat, namespaced: bool) {
    && x.compAt < catAt && catAt + 1 < |h|
    && h[catAt].catalog.Resolve(x.inc1.val.target.GR()).Some?
    && h[catAt].catalog.Resolve(x.inc1.val.target.GR()).value.preferred.namespaced == namespaced
  }

  /** The object the policy must select: the incident's target, with the incident's UID. */
  ghost predicate ChosenOk(h: seq<World>, x: Exec, cur: Seen<Obj>, chosen: Seen<Obj>) {
    && SawObject(h, IdOf(x.inc1.val.target), chosen) && x.compAt < chosen.at
    && chosen.val.uid == x.inc1.val.target.uid
  }

  ghost predicate NamespaceOk(h: seq<World>, x: Exec, sel: Selection) {
    if sel.namespaced then
      sel.nsObj.Some? && SawObject(h, NamespaceId(x.inc1.val.target.ns), sel.nsObj.value)
      && x.compAt < sel.nsObj.value.at
    else sel.nsObj.None?
  }

  /** The re-validated policy selects the incident's target as it is now. */
  ghost predicate SelectionOk(h: seq<World>, x: Exec, sel: Selection) {
    && CurrentOk(h, x, sel.cur)
    && ScopeOk(h, x, sel.catAt, sel.namespaced)
    && ChosenOk(h, x, sel.cur, sel.chosen)
    && NamespaceOk(h, x, sel)
    && Match(x.policy, PolicyTarget(x, sel))
  }

  /** The request is built from the target as read and the approved action, nothing else. */
  ghost predicate RequestOk(a: Action, o: Obj, req: Request) {
    && o.rv == a.preRv && o.uid == a.target.uid
    && match a.typ
       case RemoveResourceFinalizer => a.finalizer in o.finalizers
       && req == Patch(FinalizerPatch(o, IndexOf(o.finalizers, a.finalizer).value))
       case RemoveCRDFinalizer => a.finalizer in o.finalizers
       && req == Patch(FinalizerPatch(o, IndexOf(o.finalizers, a.finalizer).value))
       case ForceFinalizeNamespace =>
         IdOf(a.target) == NamespaceId(a.target.name) && o.specFinalizers != [] && req == Finalize(o.uid, o.rv)
       case UnsupportedAction => false
  }

  ghost predicate KontOk(cfg: Config, h: seq<World>, name: string, k: Kont) {
    match k
    case Stop => true
    case Go(x) => ExecOk(cfg, h, name, x)
    case Judge(x, _, _) => ExecOk(cfg, h, name, x)
  }

  ghost predicate Knows(cfg: Config, h: seq<World>, name: string, pc: Pc) {
    match pc
    case ReadApproval => true
    case ReadIncident(a0) => SawApproval(h, name, a0) && !Terminal(a0.val.status.phase)
    case EnsureOwner(a0, inc0) => Opened(h, name, a0, inc0)
    case Decide(a0, inc0) => Opened(h, name, a0, inc0)
    case ReadPolicy(a0, inc0, action, ref) => Drafted(h, name, a0, inc0, action, ref)
    case CheckPolicy(a0, inc0, action, ref, polAt) =>
      Drafted(h, name, a0, inc0, action, ref) && SawRevision(h, ref, polAt) && inc0.at < polAt
    case Acquire(v) => VettedOk(cfg, h, name, v)
    case LockedReadApproval(v, since) => VettedOk(cfg, h, name, v) && LastOf(v) < since < |h| - 1
    case LockedReadIncident(l) => LockedOk(cfg, h, name, l)
    case ReplayRead(l) => LockedOk(cfg, h, name, l)
    case CheckExpiry(l, found) =>
      && LockedOk(cfg, h, name, l)
      && (found.Some? ==> SawIncident(h, l.a1.val.spec.incidentName, found.value) && l.a1.at < found.value.at)
    case CheckEvidence(l, inc1) => LockedOk(cfg, h, name, l) && IncidentOk(h, l, inc1)
    case RereadPolicy(l, inc1, evAt) =>
      LockedOk(cfg, h, name, l) && IncidentOk(h, l, inc1) && EvidenceOk(h, l, inc1, evAt)
    case RecheckPolicy(l, inc1, evAt, polAt) =>
      && LockedOk(cfg, h, name, l) && IncidentOk(h, l, inc1) && EvidenceOk(h, l, inc1, evAt)
      && SawRevision(h, l.v.plan.ref, polAt) && evAt < polAt
    case UpdateRead(u) => KontOk(cfg, h, name, u.cont)
    case UpdateWrite(u, _) => KontOk(cfg, h, name, u.cont)
    case ExecRead(x) => ExecOk(cfg, h, name, x)
    case ExecResolve(x, cur) => ExecOk(cfg, h, name, x) && CurrentOk(h, x, cur)
    case ExecIncidentTarget(x, cur, catAt, namespaced) =>
      ExecOk(cfg, h, name, x) && CurrentOk(h, x, cur) && ScopeOk(h, x, catAt, namespaced)
    case ExecNamespace(x, cur, catAt, chosen) =>
      ExecOk(cfg, h, name, x) && CurrentOk(h, x, cur) && ScopeOk(h, x, catAt, true) && ChosenOk(h, x, cur, chosen)
    case ExecMutate(x, sel, req) =>
      ExecOk(cfg, h, name, x) && SelectionOk(h, x, sel) && RequestOk(x.Act(), sel.cur.val, req)
    case Backoff(x, _) => ExecOk(cfg, h, name, x)
    case Returning(_, _, _) => true
  }

  // ---- Facts about the past stay true ----

  lemma LockedStable(cfg: Config, h: seq<World>, w: World, name: string, l: Locked)
    requires LockedOk(cfg, h, name, l)
    ensures LockedOk(cfg, h + [w], name, l)
  {
    hide Compiled, Eligible;
    VettedStable(cfg, h, w, name, l.v);
  }

  lemma VettedStable(cfg: Config, h: seq<World>, w: World, name: string, v: Vetted)
    requires VettedOk(cfg, h, name, v)
    ensures VettedOk(cfg, h + [w], name, v)
  {
    hide Compiled, Eligible, FindAction, BelongsToIncident;
  }

  lemma ExecStable(cfg: Config, h: seq<World>, w: World, name: string, x: Exec)
    requires ExecOk(cfg, h, name, x)
    ensures ExecOk(cfg, h + [w], name, x)
  {
    hide Compiled, Eligible, FindAction, VettedOk, RevisionIs, Incidents.EvidenceCurrent;
    LockedStable(cfg, h, w, name, x.l);
  }

  lemma SelectionStable(h: seq<World>, w: World, x: Exec, sel: Selection)
    requires SelectionOk(h, x, sel)
    ensures SelectionOk(h + [w], x, sel)
  {
    hide Match;
  }

  lemma KnowsStable(cfg: Config, h: seq<World>, w: World, name: string, pc: Pc)
    requires Knows(cfg, h, name, pc)
    ensures Knows(cfg, h + [w], name, pc)
  {
    hide Compiled, Eligible, FindAction, BelongsToIncident, VettedOk, LockedOk, ExecOk, SelectionOk, RequestOk,
      RevisionIs, Incidents.EvidenceCurrent;
    match pc
    case Acquire(v) => VettedStable(cfg, h, w, name, v);
    case LockedReadApproval(v, _) => VettedStable(cfg, h, w, name, v);
    case LockedReadIncident(l) => LockedStable(cfg, h, w, name, l);
    case ReplayRead(l) => LockedStable(cfg, h, w, name, l);
    case CheckExpiry(l, _) => LockedStable(cfg, h, w, name, l);
    case CheckEvidence(l, _) => LockedStable(cfg, h, w, name, l);
    case RereadPolicy(l, _, _) => LockedStable(cfg, h, w, name, l);
    case RecheckPolicy(l, _, _, _) => LockedStable(cfg, h, w, name, l);
    case UpdateRead(u) => KontStable(cfg, h, w, name, u.cont);
    case UpdateWrite(u, _) => KontStable(cfg, h, w, name, u.cont);
    case ExecRead(x) => ExecStable(cfg, h, w, name, x);
    case ExecResolve(x, _) => ExecStable(cfg, h, w, name, x);
    case ExecIncidentTarget(x, _, _, _) => ExecStable(cfg, h, w, name, x);
    case ExecNamespace(x, _, _, _) => ExecStable(cfg, h, w, name, x);
    case ExecMutate(x, sel, _) => ExecStable(cfg, h, w, name, x); SelectionStable(h, w, x, sel);
    case Backoff(x, _) => ExecStable(cfg, h, w, name, x);
    case _ =>
  }

  lemma KontStable(cfg: Config, h: seq<World>, w: World, name: string, k: Kont)
    requires KontOk(cfg, h, name, k)
    ensures KontOk(cfg, h + [w], name, k)
  {
    hide ExecOk;
    match k
    case Stop =>
    case Go(x) => ExecStable(cfg, h, w, name, x);
    case Judge(x, _, _) => ExecStable(cfg, h, w, name, x);
  }

  // ---- A thread's own act ----

  /** The act of a thread at history `h`, with its effect appended. */
  function Taken(cfg: Config, h: seq<World>, name: string, pc: Pc, inp: Input): Effect
    requires h != []
  {
    Next(cfg, h[|h| - 1], |h| - 1, name, pc, inp)
  }

  lemma OpeningKnows(cfg: Config, h: seq<World>, name: string, pc: Pc, inp: Input)
    requires h != [] && Knows(cfg, h, name, pc)
    requires pc.ReadApproval? || pc.ReadIncident? || pc.EnsureOwner? || pc.ReadPolicy?
    ensures var e := Taken(cfg, h, name, pc, inp); Knows(cfg, h + [e.w], name, e.pc)
  {
    hide Compiled, Eligible, FindAction, BelongsToIncident;
    var w := h[|h| - 1];
    KnowsStable(cfg, h, w, name, pc);
  }

  lemma DecideKnows(cfg: Config, h: seq<World>, name: string, pc: Pc, inp: Input)
    requires h != [] && Knows(cfg, h, name, pc) && pc.Decide?
    ensures var e := Taken(cfg, h, name, pc, inp); Knows(cfg, h + [e.w], name, e.pc)
  {
    hide Compiled, Eligible, BelongsToIncident, Incidents.EvidenceCurrent;
    var w := h[|h| - 1];
    KnowsStable(cfg, h, w, name, pc);
  }

  lemma OpenedIndices(h: seq<World>, name: string, a0: Seen<Approval>, inc0: Seen<Incidents.Incident>)
    requires Opened(h, name, a0, inc0)
    ensures a0.at < inc0.at < |h| - 1
  {
  }

  lemma CheckPolicyKnows(cfg: Config, h: seq<World>, name: string, pc: Pc, inp: Input)
    requires h != [] && Knows(cfg, h, name, pc) && pc.CheckPolicy?
    ensures var e := Taken(cfg, h, name, pc, inp); Knows(cfg, h + [e.w], name, e.pc)
  {
    hide Compiled, Eligible, FindAction, RevisionIs, Opened, BelongsToIncident;
    KnowsStable(cfg, h, h[|h| - 1], name, pc);
    OpenedIndices(h, name, pc.a0, pc.inc0);
  }

  lemma AcquireKnows(cfg: Config, h: seq<World>, name: string, pc: Pc, inp: Input)
    requires h != [] && Knows(cfg, h, name, pc) && (pc.Acquire? || pc.LockedReadApproval?)
    ensures var e := Taken(cfg, h, name, pc, inp); Knows(cfg, h + [e.w], name, e.pc)
  {
    hide Compiled, Eligible, VettedFresh, VettedReplay;
    var v := pc.v;
    VettedIndices(cfg, h, name, v);
    VettedStable(cfg, h, Taken(cfg, h, name, pc, inp).w, name, v);
  }

  lemma VettedIndices(cfg: Config, h: seq<World>, name: string, v: Vetted)
    requires VettedOk(cfg, h, name, v)
    ensures LastOf(v) + 1 < |h|
  {
    hide Compiled, Eligible;
  }

  lemma LockedReadKnows(cfg: Config, h: seq<World>, name: string, pc: Pc, inp: Input)
    requires h != [] && Knows(cfg, h, name, pc) && (pc.LockedReadIncident? || pc.ReplayRead?)
    ensures var e := Taken(cfg, h, name, pc, inp); Knows(cfg, h + [e.w], name, e.pc)
  {
    hide Compiled, Eligible, VettedOk, GoalReached;
    LockedStable(cfg, h, h[|h| - 1], name, pc.l);
  }

  lemma RecheckKnows(cfg: Config, h: seq<World>, name: string, pc: Pc, inp: Input)
    requires h != [] && Knows(cfg, h, name, pc)
    requires pc.CheckExpiry? || pc.CheckEvidence?
    ensures var e := Taken(cfg, h, name, pc, inp); Knows(cfg, h + [e.w], name, e.pc)
  {
    hide Compiled, Eligible, BelongsToIncident, VettedOk, Incidents.EvidenceCurrent;
    KnowsStable(cfg, h, h[|h| - 1], name, pc);
  }

  lemma RereadKnows(cfg: Config, h: seq<World>, name: string, pc: Pc, inp: Input)
    requires h != [] && Knows(cfg, h, name, pc) && pc.RereadPolicy?
    ensures var e := Taken(cfg, h, name, pc, inp); Knows(cfg, h + [e.w], name, e.pc)
  {
    hide Compiled, Eligible, BelongsToIncident, VettedOk, Incidents.EvidenceCurrent;
    KnowsStable(cfg, h, h[|h| - 1], name, pc);
  }

  lemma RecheckPolicyKnows(cfg: Config, h: seq<World>, name: string, pc: Pc, inp: Input)
    requires h != [] && Knows(cfg, h, name, pc) && pc.RecheckPolicy?
    ensures var e := Taken(cfg, h, name, pc, inp); Knows(cfg, h + [e.w], name, e.pc)
  {
    hide Compiled, Eligible, BelongsToIncident, LockedOk, IncidentOk, EvidenceOk, RevisionIs;
    KnowsStable(cfg, h, h[|h| - 1], name, pc);
  }

  lemma UpdateKnows(cfg: Config, h: seq<World>, name: string, pc: Pc, inp: Input)
    requires h != [] && Knows(cfg, h, name, pc) && (pc.UpdateRead? || pc.UpdateWrite?)
    ensures var e := Taken(cfg, h, name, pc, inp); Knows(cfg, h + [e.w], name, e.pc)
  {
    hide Compiled, LockedOk, IncidentOk, EvidenceOk, Mutate;
    KnowsStable(cfg, h, Taken(cfg, h, name, pc, inp).w, name, pc);
  }

  lemma PrepareKnows(cfg: Config, h: seq<World>, w: World, name: string, x: Exec, sel: Selection)
    requires ExecOk(cfg, h, name, x)
    requires CurrentOk(h, x, sel.cur) && ScopeOk(h, x, sel.catAt, sel.namespaced)
    requires ChosenOk(h, x, sel.cur, sel.chosen) && NamespaceOk(h, x, sel)
    ensures Knows(cfg, h, name, Prepare(w, x, sel))
  {
    hide ExecOk, CurrentOk, ScopeOk, ChosenOk, NamespaceOk, Match, PolicyTarget;
    CurrentUid(h, x, sel.cur);
  }

  lemma CurrentUid(h: seq<World>, x: Exec, cur: Seen<Obj>)
    requires CurrentOk(h, x, cur)
    ensures cur.val.uid == x.Act().target.uid && x.compAt < cur.at < |h| - 1
  {
  }

  lemma ExecIndices(cfg: Config, h: seq<World>, name: string, x: Exec)
    requires ExecOk(cfg, h, name, x)
    ensures x.compAt + 1 < |h|
  {
    hide Compiled, LockedOk, IncidentOk, EvidenceOk;
  }

  lemma ExecReadKnows(cfg: Config, h: seq<World>, name: string, pc: Pc, inp: Input)
    requires h != [] && Knows(cfg, h, name, pc) && pc.ExecRead?
    ensures var e := Taken(cfg, h, name, pc, inp); Knows(cfg, h + [e.w], name, e.pc)
  {
    hide ExecOk;
    ExecIndices(cfg, h, name, pc.x);
    ExecStable(cfg, h, h[|h| - 1], name, pc.x);
  }

  lemma ExecResolveKnows(cfg: Config, h: seq<World>, name: string, pc: Pc, inp: Input)
    requires h != [] && Knows(cfg, h, name, pc) && pc.ExecResolve?
    ensures var e := Taken(cfg, h, name, pc, inp); Knows(cfg, h + [e.w], name, e.pc)
  {
    hide ExecOk, Prepare;
    var w, x, cur := h[|h| - 1], pc.x, pc.cur;
    ExecStable(cfg, h, w, name, x);
    var r := w.catalog.Resolve(x.inc1.val.target.GR());
    if r.Some? && SameTargetIdentity(x.Act().target, x.inc1.val.target) && !r.value.preferred.namespaced {
      PrepareKnows(cfg, h + [w], w, name, x, Selection(cur, |h| - 1, false, cur, None));
    }
  }

  lemma ExecIncidentTargetKnows(cfg: Config, h: seq<World>, name: string, pc: Pc, inp: Input)
    requires h != [] && Knows(cfg, h, name, pc) && pc.ExecIncidentTarget?
    ensures var e := Taken(cfg, h, name, pc, inp); Knows(cfg, h + [e.w], name, e.pc)
  {
    hide ExecOk, Prepare;
    var w, x := h[|h| - 1], pc.x;
    ExecStable(cfg, h, w, name, x);
    var id := IdOf(x.inc1.val.target);
    if id in w.objects && w.objects[id].uid == x.inc1.val.target.uid && !pc.namespaced {
      PrepareKnows(cfg, h + [w], w, name, x, Selection(pc.cur, pc.catAt, false, Seen(|h| - 1, w.objects[id]), None));
    }
  }

  lemma ExecNamespaceKnows(cfg: Config, h: seq<World>, name: string, pc: Pc, inp: Input)
    requires h != [] && Knows(cfg, h, name, pc) && pc.ExecNamespace?
    ensures var e := Taken(cfg, h, name, pc, inp); Knows(cfg, h + [e.w], name, e.pc)
  {
    hide ExecOk, Prepare;
    var w, x := h[|h| - 1], pc.x;
    ExecStable(cfg, h, w, name, x);
    var id := NamespaceId(x.inc1.val.target.ns);
    if id in w.objects {
      PrepareKnows(cfg, h + [w], w, name, x,
                   Selection(pc.cur, pc.catAt, true, pc.chosen, Some(Seen(|h| - 1, w.objects[id]))));
    }
  }

  lemma MutateKnows(cfg: Config, h: seq<World>, name: string, pc: Pc, inp: Input)
    requires h != [] && Knows(cfg, h, name, pc) && (pc.ExecMutate? || pc.Backoff? || pc.Returning?)
    ensures var e := Taken(cfg, h, name, pc, inp); Knows(cfg, h + [e.w], name, e.pc)
  {
    hide Compiled, ExecOk, SelectionOk, RequestOk, Serve, Store;
    KnowsStable(cfg, h, Taken(cfg, h, name, pc, inp).w, name, pc);
  }

  lemma TakenKnows(cfg: Config, h: seq<World>, name: string, pc: Pc, inp: Input)
    requires h != [] && Knows(cfg, h, name, pc)
    ensures var e := Taken(cfg, h, name, pc, inp); Knows(cfg, h + [e.w], name, e.pc)
  {
    hide Knows, Taken;
    if pc.ReadApproval? || pc.ReadIncident? || pc.EnsureOwner? || pc.ReadPolicy? {
      OpeningKnows(cfg, h, name, pc, inp);
    } else if pc.Decide? {
      DecideKnows(cfg, h, name, pc, inp);
    } else if pc.CheckPolicy? {
      CheckPolicyKnows(cfg, h, name, pc, inp);
    } else if pc.Acquire? || pc.LockedReadApproval? {
      AcquireKnows(cfg, h, name, pc, inp);
    } else if pc.LockedReadIncident? || pc.ReplayRead? {
      LockedReadKnows(cfg, h, name, pc, inp);
    } else if pc.CheckExpiry? || pc.CheckEvidence? {
      RecheckKnows(cfg, h, name, pc, inp);
    } else if pc.RereadPolicy? {
      RereadKnows(cfg, h, name, pc, inp);
    } else if pc.RecheckPolicy? {
      RecheckPolicyKnows(cfg, h, name, pc, inp);
    } else if pc.UpdateRead? || pc.UpdateWrite? {
      UpdateKnows(cfg, h, name, pc, inp);
    } else if pc.ExecRead? {
      ExecReadKnows(cfg, h, name, pc, inp);
    } else if pc.ExecResolve? {
      ExecResolveKnows(cfg, h, name, pc, inp);
    } else if pc.ExecIncidentTarget? {
      ExecIncidentTargetKnows(cfg, h, name, pc, inp);
    } else if pc.ExecNamespace? {
      ExecNamespaceKnows(cfg, h, name, pc, inp);
    } else {
      MutateKnows(cfg, h, name, pc, inp);
    }
  }

  // ---- The target lock ----

  /** The lock key a thread holds and since when, as far as its position tells. */
  function LockOf(pc: Pc): Option<(string, nat)> {
    match pc
    case LockedReadApproval(v, since) => Some((TargetKey(v.action.target), since))
    case LockedReadIncident(l) => KeyOf(l)
    case ReplayRead(l) => KeyOf(l)
    case CheckExpiry(l, _) => KeyOf(l)
    case CheckEvidence(l, _) => KeyOf(l)
    case RereadPolicy(l, _, _) => KeyOf(l)
    case RecheckPolicy(l, _, _, _) => KeyOf(l)
    case UpdateRead(u) => KontKey(u.cont)
    case UpdateWrite(u, _) => KontKey(u.cont)
    case ExecRead(x) => KeyOf(x.l)
    case ExecResolve(x, _) => KeyOf(x.l)
    case ExecIncidentTarget(x, _, _, _) => KeyOf(x.l)
    case ExecNamespace(x, _, _, _) => KeyOf(x.l)
    case ExecMutate(x, _, _) => KeyOf(x.l)
    case Backoff(x, _) => KeyOf(x.l)
    case _ => None
  }

  function KeyOf(l: Locked): Option<(string, nat)> { Some((TargetKey(l.v.action.target), l.since)) }

  function KontKey(k: Kont): Option<(string, nat)> {
    match k
    case Stop => None
    case Go(x) => KeyOf(x.l)
    case Judge(x, _, _) => KeyOf(x.l)
  }

  ghost predicate Owns(w: World, key: string, name: string) { key in w.locks && w.locks[key] == name }

  /** From just after `since` until the end of `h`, `name` held the lock without a gap. */
  ghost predicate Held(h: seq<World>, key: string, name: string, since: nat) {
    since + 1 < |h| && forall j :: since < j < |h| ==> Owns(h[j], key, name)
  }

  ghost predicate HoldsLock(h: seq<World>, name: string, pc: Pc) {
    LockOf(pc).Some? ==> Held(h, LockOf(pc).value.0, name, LockOf(pc).value.1)
  }

  lemma HeldOneMore(h: seq<World>, w: World, key: string, name: string, since: nat)
    requires Held(h, key, name, since) && Owns(w, key, name)
    ensures Held(h + [w], key, name, since)
  {
  }

  ghost predicate KeepsKey(w: World, pc: Pc, e: Effect) {
    (LockOf(e.pc).None? || LockOf(e.pc) == LockOf(pc)) && e.w.locks == w.locks
  }

  lemma PrepareKeepsKey(w: World, x: Exec, sel: Selection)
    ensures LockOf(Prepare(w, x, sel)).None? || LockOf(Prepare(w, x, sel)) == KeyOf(x.l)
  {
    hide Match, PolicyTarget, TargetKey, IndexOf, FinalizerPatch;
  }

  lemma ExecKeepsKey(cfg: Config, h: seq<World>, name: string, pc: Pc, inp: Input)
    requires h != []
    requires pc.ExecResolve? || pc.ExecIncidentTarget? || pc.ExecNamespace?
    ensures KeepsKey(h[|h| - 1], pc, Taken(cfg, h, name, pc, inp))
  {
    hide Prepare, TargetKey, SameTargetIdentity;
    var w := h[|h| - 1];
    if pc.ExecResolve? {
      PrepareKeepsKey(w, pc.x, Selection(pc.cur, |h| - 1, false, pc.cur, None));
    } else if pc.ExecIncidentTarget? {
      if IdOf(pc.x.inc1.val.target) in w.objects {
        PrepareKeepsKey(w, pc.x, Selection(pc.cur, pc.catAt, false,
                                           Seen(|h| - 1, w.objects[IdOf(pc.x.inc1.val.target)]), None));
      }
    } else {
      if NamespaceId(pc.x.inc1.val.target.ns) in w.objects {
        PrepareKeepsKey(w, pc.x, Selection(pc.cur, pc.catAt, true, pc.chosen,
                                           Some(Seen(|h| - 1, w.objects[NamespaceId(pc.x.inc1.val.target.ns)]))));
      }
    }
  }

  lemma EndKeepsKey(cfg: Config, h: seq<World>, name: string, pc: Pc, inp: Input)
    requires h != [] && (pc.ExecRead? || pc.Backoff? || pc.Returning?)
    ensures KeepsKey(h[|h| - 1], pc, Taken(cfg, h, name, pc, inp))
  {
    hide TargetKey, Serve, Vanishes, Mutate;
  }

  lemma UpdateKeepsKey(cfg: Config, h: seq<World>, name: string, pc: Pc, inp: Input)
    requires h != [] && (pc.UpdateRead? || pc.UpdateWrite?)
    ensures KeepsKey(h[|h| - 1], pc, Taken(cfg, h, name, pc, inp))
  {
    hide TargetKey, Serve, Vanishes, Mutate;
  }

  lemma MutateKeepsKey(cfg: Config, h: seq<World>, name: string, pc: Pc, inp: Input)
    requires h != [] && pc.ExecMutate?
    ensures KeepsKey(h[|h| - 1], pc, Taken(cfg, h, name, pc, inp))
  {
    hide TargetKey, Serve, Vanishes, Mutate;
  }

  lemma OpeningKeepsKey(cfg: Config, h: seq<World>, name: string, pc: Pc, inp: Input)
    requires h != []
    requires pc.ReadApproval? || pc.ReadIncident? || pc.EnsureOwner? || pc.Decide? || pc.ReadPolicy? || pc.CheckPolicy?
    ensures KeepsKey(h[|h| - 1], pc, Taken(cfg, h, name, pc, inp))
  {
    hide Compiled, FindAction, BelongsToIncident, Eligible, Incidents.EvidenceCurrent, RevisionIs, RiskFor;
  }

  lemma LockedKeepsKey(cfg: Config, h: seq<World>, name: string, pc: Pc, inp: Input)
    requires h != [] && (pc.LockedReadApproval? || pc.LockedReadIncident? || pc.ReplayRead?)
    ensures KeepsKey(h[|h| - 1], pc, Taken(cfg, h, name, pc, inp))
  {
    hide Compiled, FindAction, Incidents.EvidenceCurrent, TargetKey, RevisionIs, GoalReached;
  }

  lemma RecheckKeepsKey(cfg: Config, h: seq<World>, name: string, pc: Pc, inp: Input)
    requires h != [] && (pc.CheckExpiry? || pc.CheckEvidence? || pc.RereadPolicy? || pc.RecheckPolicy?)
    ensures KeepsKey(h[|h| - 1], pc, Taken(cfg, h, name, pc, inp))
  {
    hide Compiled, FindAction, Incidents.EvidenceCurrent, TargetKey, RevisionIs, GoalReached;
  }

  /** An act either keeps the lock context or gives it up, and leaves the lock table alone, except
      for the act that takes the lock. */
  lemma TakenKeepsKey(cfg: Config, h: seq<World>, name: string, pc: Pc, inp: Input)
    requires h != [] && !pc.Acquire?
    ensures KeepsKey(h[|h| - 1], pc, Taken(cfg, h, name, pc, inp))
  {
    hide Taken, KeepsKey;
    if pc.ExecResolve? || pc.ExecIncidentTarget? || pc.ExecNamespace? {
      ExecKeepsKey(cfg, h, name, pc, inp);
    } else if pc.ExecMutate? {
      MutateKeepsKey(cfg, h, name, pc, inp);
    } else if pc.UpdateRead? || pc.UpdateWrite? {
      UpdateKeepsKey(cfg, h, name, pc, inp);
    } else if pc.ExecRead? || pc.Backoff? || pc.Returning? {
      EndKeepsKey(cfg, h, name, pc, inp);
    } else if pc.ReadApproval? || pc.ReadIncident? || pc.EnsureOwner? || pc.Decide?
              || pc.ReadPolicy? || pc.CheckPolicy? {
      OpeningKeepsKey(cfg, h, name, pc, inp);
    } else if pc.LockedReadApproval? || pc.LockedReadIncident? || pc.ReplayRead? {
      LockedKeepsKey(cfg, h, name, pc, inp);
    } else {
      RecheckKeepsKey(cfg, h, name, pc, inp);
    }
  }

  lemma TakenHolds(cfg: Config, h: seq<World>, name: string, pc: Pc, inp: Input)
    requires h != [] && HoldsLock(h, name, pc)
    ensures var e := Taken(cfg, h, name, pc, inp); HoldsLock(h + [e.w], name, e.pc)
  {
    if !pc.Acquire? {
      TakenKeepsKey(cfg, h, name, pc, inp);
      var e := Taken(cfg, h, name, pc, inp);
      hide Taken;
      if LockOf(e.pc).Some? {
        var (key, since) := LockOf(pc).value;
        assert Owns(h[|h| - 1], key, name);
        HeldOneMore(h, e.w, key, name, since);
      }
    }
  }

  /** No act of one thread takes a lock away from another. */
  lemma TakenSparesOthers(cfg: Config, h: seq<World>, name: string, pc: Pc, inp: Input, key: string, other: string)
    requires h != [] && !Blocked(h[|h| - 1], pc) && Owns(h[|h| - 1], key, other)
    ensures Owns(Taken(cfg, h, name, pc, inp).w, key, other)
  {
    if !pc.Acquire? {
      TakenKeepsKey(cfg, h, name, pc, inp);
      hide Taken;
    }
  }

  // ---- The mutation itself ----

  /** Exactly the approved object version changed, in exactly the approved way. */
  ghost predicate ChangeOk(h: seq<World>, m: Mutation) {
    var a := m.x.Act();
    && SawObject(h, IdOf(a.target), Seen(m.at, m.before))
    && m.before.uid == a.target.uid && m.before.rv == a.preRv
    && m.after.rv !in h[m.at].rvs
    && h[m.at + 1] == Store(h[m.at], IdOf(a.target), m.after)
    && match a.typ
       case RemoveResourceFinalizer => FinalizerRemoved(a.finalizer, m.before, m.after)
       case RemoveCRDFinalizer => FinalizerRemoved(a.finalizer, m.before, m.after)
       case ForceFinalizeNamespace =>
         IdOf(a.target) == NamespaceId(a.target.name) && m.before.specFinalizers != []
         && m.after == m.before.(rv := m.after.rv, specFinalizers := [])
       case UnsupportedAction => false
  }

  ghost predicate FinalizerRemoved(f: string, before: Obj, after: Obj) {
    && f in before.finalizers
    && after == before.(rv := after.rv, finalizers := Without(before.finalizers, IndexOf(before.finalizers, f).value))
  }

  ghost predicate SelectedBefore(sel: Selection, at: nat) {
    sel.cur.at < at && sel.catAt < at && sel.chosen.at < at && (sel.nsObj.Some? ==> sel.nsObj.value.at < at)
  }

  /** A mutation with its full justification: validated before and under the lock, the lock held from
      the validation through the change, the policy selecting the target in between, and exactly the
      approved change to exactly the approved object version. */
  ghost predicate Authorized(cfg: Config, h: seq<World>, m: Mutation) {
    && !m.x.l.a1.val.spec.dryRun
    && ExecOk(cfg, h, m.name, m.x)
    && SelectionOk(h, m.x, m.sel) && SelectedBefore(m.sel, m.at)
    && m.at + 1 < |h| && (forall j :: m.x.l.since < j <= m.at + 1 ==> Owns(h[j], TargetKey(m.x.Act().target), m.name))
    && ChangeOk(h, m)
  }

  lemma AuthorizedStable(cfg: Config, h: seq<World>, w: World, m: Mutation)
    requires Authorized(cfg, h, m)
    ensures Authorized(cfg, h + [w], m)
  {
    hide ExecOk, SelectionOk, TargetKey, FinalizerRemoved, Store;
    ExecStable(cfg, h, w, m.name, m.x);
    SelectionStable(h, w, m.x, m.sel);
    forall j | m.x.l.since < j <= m.at + 1 ensures Owns((h + [w])[j], TargetKey(m.x.Act().target), m.name) {
      assert (h + [w])[j] == h[j];
    }
  }

  /** What the server did with the executor's request. */
  lemma ServedAsApproved(a: Action, read: Obj, req: Request, stored: Obj)
    requires RequestOk(a, read, req)
    ensures Serve(stored, req).Some? ==> stored.uid == a.target.uid && stored.rv == a.preRv
    ensures stored.rv != read.rv || stored.uid != read.uid ==> Serve(stored, req).None?
    ensures Serve(stored, req).Some? && (a.typ.RemoveResourceFinalizer? || a.typ.RemoveCRDFinalizer?) ==>
              stored.finalizers == read.finalizers && FinalizerRemoved(a.finalizer, stored, Serve(stored, req).value)
    ensures Serve(stored, req).Some? && a.typ.ForceFinalizeNamespace? ==>
              Serve(stored, req).value == stored.(specFinalizers := [])
  {
    if a.typ.RemoveResourceFinalizer? || a.typ.RemoveCRDFinalizer? {
      PatchEffect(read, IndexOf(read.finalizers, a.finalizer).value, stored);
    }
  }

  lemma SelectionIndices(h: seq<World>, x: Exec, sel: Selection)
    requires SelectionOk(h, x, sel)
    ensures SelectedBefore(sel, |h| - 1)
  {
    hide Match;
  }

  lemma SelectionSaw(h: seq<World>, x: Exec, sel: Selection)
    requires SelectionOk(h, x, sel)
    ensures SawObject(h, IdOf(x.Act().target), sel.cur) && sel.cur.val.uid == x.Act().target.uid
  {
    hide Match;
  }

  lemma MutationAuthorized(cfg: Config, h: seq<World>, name: string, pc: Pc, inp: Input)
    requires h != [] && Knows(cfg, h, name, pc) && HoldsLock(h, name, pc)
    requires inp.rv !in h[|h| - 1].rvs && Distinguished(h)
    ensures var e := Taken(cfg, h, name, pc, inp);
            e.mutation.Some? ==> pc.ExecMutate? && Authorized(cfg, h + [e.w], e.mutation.value)
  {
    hide Compiled, Match, FindAction, BelongsToIncident, Eligible, Mutate, Incidents.EvidenceCurrent, TargetKey,
      PolicyTarget, SameTargetIdentity, RevisionIs, GoalReached, ExecOk, SelectionOk, RequestOk, FinalizerRemoved,
      Serve, Vanishes;
    var w, e := h[|h| - 1], Taken(cfg, h, name, pc, inp);
    if e.mutation.Some? {
      MutationChanges(cfg, h, name, pc, inp);
      var m := e.mutation.value;
      ExecStable(cfg, h, e.w, name, pc.x);
      SelectionStable(h, e.w, pc.x, pc.sel);
      SelectionIndices(h, pc.x, pc.sel);
      forall j | m.x.l.since < j <= m.at + 1 ensures Owns((h + [e.w])[j], TargetKey(m.x.Act().target), name) {
        if j < |h| { assert (h + [e.w])[j] == h[j]; } else { assert Owns(w, TargetKey(m.x.Act().target), name); }
      }
    }
  }

  lemma MutationChanges(cfg: Config, h: seq<World>, name: string, pc: Pc, inp: Input)
    requires h != [] && Knows(cfg, h, name, pc) && inp.rv !in h[|h| - 1].rvs && Distinguished(h)
    requires Taken(cfg, h, name, pc, inp).mutation.Some?
    ensures pc.ExecMutate?
    ensures var e := Taken(cfg, h, name, pc, inp);
            && ChangeOk(h + [e.w], e.mutation.value) && e.w.locks == h[|h| - 1].locks
            && e.mutation.value.x == pc.x && e.mutation.value.sel == pc.sel && e.mutation.value.name == name
            && e.mutation.value.at == |h| - 1 && !pc.x.l.a1.val.spec.dryRun
  {
    hide Compiled, Match, FindAction, BelongsToIncident, Eligible, Mutate, Incidents.EvidenceCurrent, TargetKey,
      PolicyTarget, SameTargetIdentity, RevisionIs, GoalReached, ExecOk, SelectionOk, FinalizerRemoved, Serve, Vanishes,
      IndexOf, FinalizerPatch, Distinguished;
    OnlyMutateMutates(cfg, h, name, pc, inp);
    var w, a, id := h[|h| - 1], pc.x.Act(), IdOf(pc.x.Act().target);
    ServedAsApproved(a, pc.sel.cur.val, pc.req, w.objects[id]);
    SelectionSaw(h, pc.x, pc.sel);
    if a.typ.ForceFinalizeNamespace? {
      SameVersionSameObject(h, id, pc.sel.cur);
    } else {
      FreshVersion(a.finalizer, w.objects[id], Serve(w.objects[id], pc.req).value, inp.rv);
    }
  }

  lemma FreshVersion(f: string, before: Obj, after: Obj, rv: string)
    requires FinalizerRemoved(f, before, after)
    ensures FinalizerRemoved(f, before, after.(rv := rv))
  {
  }

  lemma OnlyMutateMutates(cfg: Config, h: seq<World>, name: string, pc: Pc, inp: Input)
    requires h != [] && Taken(cfg, h, name, pc, inp).mutation.Some?
    ensures pc.ExecMutate?
  {
    hide Compiled, Match, FindAction, BelongsToIncident, Eligible, Mutate, Serve, Incidents.EvidenceCurrent, TargetKey,
      PolicyTarget, SameTargetIdentity, RevisionIs, GoalReached, IndexOf, FinalizerPatch, Vanishes, Continue, Prepare;
  }

  // ---- Identifiers ----

  /** Everything stored uses identifiers on record, and no two objects share a resource version. */
  ghost predicate Accounted(w: World) {
    && (forall id :: id in w.objects ==> w.objects[id].rv in w.rvs && w.objects[id].uid in w.uids)
    && (forall i, j :: i in w.objects && j in w.objects && i != j ==> w.objects[i].rv != w.objects[j].rv)
  }

  /** Over the whole history a resource version belongs to one content at one place. */
  ghost predicate Distinguished(h: seq<World>) {
    forall i, j, id :: 0 <= i < |h| && 0 <= j < |h| && id in h[i].objects && id in h[j].objects ==>
      (h[i].objects[id].rv == h[j].objects[id].rv ==> h[i].objects[id] == h[j].objects[id])
  }

  lemma SameVersionSameObject(h: seq<World>, id: ObjId, o: Seen<Obj>)
    requires Distinguished(h) && SawObject(h, id, o) && id in h[|h| - 1].objects
    requires h[|h| - 1].objects[id].rv == o.val.rv
    ensures h[|h| - 1].objects[id] == o.val
  {
  }
}
