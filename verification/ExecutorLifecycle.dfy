/** The life of an approval over every run in which its name is not reused while a reconcile of it is
    in flight: phases, the recorded action, attempts and returns. */
module ExecutorLifecycle {
  import opened Types
  import opened Framing
  import opened Discovery
  import opened Policy
  import opened JsonPatch
  import opened Executor
  import opened ExecutorSafety
  import opened ExecutorRuns
  import Incidents

  // ---- What holds of a stored approval ----

  /** The recorded action is the approved one, and a Running approval has one. */
  ghost predicate ActionOk(a: Approval) {
    && (a.status.action.Some? ==> a.status.action.value.id == a.spec.actionID)
    && (a.status.phase.Running? ==> a.status.action.Some?)
  }

  ghost predicate GoalAt(w: World, a: Action) {
    var id := IdOf(a.target);
    id !in w.objects || (w.objects[id].uid == a.target.uid && GoalReached(a, w.objects[id]))
  }

  /** At `g` the target was absent, or it had the approved UID and lacked the finalizer (or all
      namespace finalizers). The only exception is a finalizer that the list held more than once and of
      which one occurrence has just been removed. */
  ghost predicate GoalSeen(h: seq<World>, g: nat, a: Action) {
    g < |h| && (GoalAt(h[g], a) || (g > 0 && OneOfSeveralRemoved(h[g - 1], h[g], a)))
  }

  ghost predicate OneOfSeveralRemoved(w: World, w': World, a: Action) {
    && (a.typ.RemoveResourceFinalizer? || a.typ.RemoveCRDFinalizer?)
    && IdOf(a.target) in w.objects && IdOf(a.target) in w'.objects
    && w.objects[IdOf(a.target)].uid == a.target.uid && w.objects[IdOf(a.target)].rv == a.preRv
    && multiset(w.objects[IdOf(a.target)].finalizers)[a.finalizer] > 1
    && FinalizerRemoved(a.finalizer, w.objects[IdOf(a.target)], w'.objects[IdOf(a.target)])
  }

  /** A Succeeded status was written by a reconcile that saw the goal reached while it ran. */
  ghost predicate Proven(h: seq<World>, writes: seq<StatusWrite>, a: Approval) {
    exists k :: 0 <= k < |writes| && Proof(h, writes[k], a)
  }

  ghost predicate Proof(h: seq<World>, sw: StatusWrite, a: Approval) {
    && sw.uid == a.uid && sw.status == a.status && a.status.action.Some?
    && sw.start <= sw.goalAt <= sw.at && GoalSeen(h, sw.goalAt, a.status.action.value)
  }

  ghost predicate ApprovalOk(cfg: Config, s: State, name: string, a: Approval) {
    && ActionOk(a)
    && |a.status.attempts| <= cfg.maxAttempts + 1
    && (!Terminal(a.status.phase) ==> |a.status.attempts| <= cfg.maxAttempts)
    && (a.spec.dryRun ==> !a.status.phase.Succeeded?)
    && (a.status.phase.Succeeded? ==> Proven(s.hist, s.writes, a))
    && Calm(s.calm, name, a.uid) <= |a.status.attempts| && Calm(s.calm, name, a.uid) < cfg.maxAttempts
  }

  /** What later states keep of an approval: a finished status altogether, the recorded action, and
      every audit entry. */
  ghost predicate Kept(a: Approval, b: Approval) {
    && a.spec == b.spec && a.created == b.created
    && (Terminal(a.status.phase) ==> b.status == a.status)
    && (a.status.action.Some? ==> b.status.action == a.status.action)
    && a.status.attempts <= b.status.attempts
  }

  // ---- What holds of a thread ----

  ghost predicate SameApproval(a: Approval, b: Approval) {
    a.uid == b.uid && a.created == b.created && a.spec == b.spec && a.status == b.status
  }

  ghost predicate SameIdentity(a: Approval, b: Approval) {
    a.uid == b.uid && a.created == b.created && a.spec == b.spec
  }

  /** The approval as the thread knows it: unfinished, consistent, with attempts left to record. */
  ghost predicate MeOk(cfg: Config, me: Approval) {
    !Terminal(me.status.phase) && ActionOk(me) && |me.status.attempts| <= cfg.maxAttempts
  }

  ghost predicate LockedLive(cfg: Config, l: Locked) {
    MeOk(cfg, l.a1.val) && SameApproval(l.a1.val, l.v.a0.val)
  }

  /** The checks that precede the replay's look at the target. */
  ghost predicate ReplayReady(l: Locked) {
    l.a1.val.status.action == Some(l.v.action) && !l.a1.val.spec.dryRun
  }

  ghost predicate ExecLive(cfg: Config, x: Exec) {
    && LockedLive(cfg, x.l) && |x.l.a1.val.status.attempts| < cfg.maxAttempts
    && MeOk(cfg, x.me) && SameIdentity(x.me, x.l.a1.val)
    && x.me.status.action == Some(x.Act()) && x.me.status.attempts == x.l.a1.val.status.attempts
  }

  /** A failed attempt has been recorded and another may follow. */
  ghost predicate BackoffLive(cfg: Config, x: Exec) {
    && LockedLive(cfg, x.l)
    && MeOk(cfg, x.me) && SameIdentity(x.me, x.l.a1.val) && x.me.status.phase.Running?
    && |x.me.status.attempts| == |x.l.a1.val.status.attempts| + 1 < cfg.maxAttempts
  }

  ghost predicate UpdateLive(cfg: Config, h: seq<World>, u: Update) {
    match u.mut
    case MarkRunning(a) =>
      && u.cont.Go? && LockedLive(cfg, u.cont.x.l) && SameApproval(u.me, u.cont.x.l.a1.val)
      && |u.me.status.attempts| < cfg.maxAttempts && a == u.cont.x.Act() && a.id == u.me.spec.actionID
      && (u.me.status.action.Some? ==> u.me.status.action == Some(a))
    case RetryAttempt(_) => u.cont.Judge? && ExecLive(cfg, u.cont.x) && SameApproval(u.me, u.cont.x.me)
    case TerminalAttempt(_, phase, _) =>
      && u.cont.Stop? && MeOk(cfg, u.me) && u.me.status.action.Some? && Terminal(phase)
      && (phase.Succeeded? ==>
            !u.me.spec.dryRun && u.start <= u.goalAt && GoalSeen(h, u.goalAt, u.me.status.action.value))
    case Finish(phase, _) =>
      && u.cont.Stop? && MeOk(cfg, u.me) && Terminal(phase) && !phase.Succeeded?
      && !phase.DryRunSucceeded?
  }

  /** The approval as first read, where the position still has it. */
  function First(pc: Pc): Option<Approval> {
    match pc
    case ReadIncident(a0) => Some(a0.val)
    case EnsureOwner(a0, _) => Some(a0.val)
    case Decide(a0, _) => Some(a0.val)
    case ReadPolicy(a0, _, _, _) => Some(a0.val)
    case CheckPolicy(a0, _, _, _, _) => Some(a0.val)
    case Acquire(v) => Some(v.a0.val)
    case LockedReadApproval(v, _) => Some(v.a0.val)
    case LockedReadIncident(l) => Some(l.v.a0.val)
    case ReplayRead(l) => Some(l.v.a0.val)
    case CheckExpiry(l, _) => Some(l.v.a0.val)
    case CheckEvidence(l, _) => Some(l.v.a0.val)
    case RereadPolicy(l, _, _) => Some(l.v.a0.val)
    case RecheckPolicy(l, _, _, _) => Some(l.v.a0.val)
    case UpdateRead(u) => FirstOf(u.cont)
    case UpdateWrite(u, _) => FirstOf(u.cont)
    case ExecRead(x) => Some(x.l.v.a0.val)
    case ExecResolve(x, _) => Some(x.l.v.a0.val)
    case ExecIncidentTarget(x, _, _, _) => Some(x.l.v.a0.val)
    case ExecNamespace(x, _, _, _) => Some(x.l.v.a0.val)
    case ExecMutate(x, _, _) => Some(x.l.v.a0.val)
    case Backoff(x, _) => Some(x.l.v.a0.val)
    case _ => None
  }

  function FirstOf(k: Kont): Option<Approval> {
    match k
    case Stop => None
    case Go(x) => Some(x.l.v.a0.val)
    case Judge(x, _, _) => Some(x.l.v.a0.val)
  }

  /** The approval with its last known status. */
  function Me(pc: Pc): Option<Approval> {
    match pc
    case UpdateRead(u) => Some(u.me)
    case UpdateWrite(u, _) => Some(u.me)
    case ExecRead(x) => Some(x.me)
    case ExecResolve(x, _) => Some(x.me)
    case ExecIncidentTarget(x, _, _, _) => Some(x.me)
    case ExecNamespace(x, _, _, _) => Some(x.me)
    case ExecMutate(x, _, _) => Some(x.me)
    case Backoff(x, _) => Some(x.me)
    case _ => First(pc)
  }

  ghost predicate LocalLive(cfg: Config, h: seq<World>, pc: Pc) {
    match pc
    case UpdateRead(u) => UpdateLive(cfg, h, u)
    case UpdateWrite(u, seen) => UpdateLive(cfg, h, u) && SameApproval(seen, u.me)
    case LockedReadIncident(l) => LockedLive(cfg, l)
    case ReplayRead(l) => LockedLive(cfg, l) && ReplayReady(l)
    case CheckExpiry(l, _) => LockedLive(cfg, l)
    case CheckEvidence(l, _) => LockedLive(cfg, l)
    case RereadPolicy(l, _, _) => LockedLive(cfg, l)
    case RecheckPolicy(l, _, _, _) => LockedLive(cfg, l)
    case ExecRead(x) => ExecLive(cfg, x)
    case ExecResolve(x, _) => ExecLive(cfg, x)
    case ExecIncidentTarget(x, _, _, _) => ExecLive(cfg, x)
    case ExecNamespace(x, _, _, _) => ExecLive(cfg, x)
    case ExecMutate(x, _, _) => ExecLive(cfg, x)
    case Backoff(x, _) => BackoffLive(cfg, x)
    case _ => First(pc).Some? ==> MeOk(cfg, First(pc).value)
  }

  /** An error-free return leaves the approval gone, finished, or Running with exactly one more
      attempt than at the start and still fewer than the maximum. */
  ghost predicate ReturnOk(cfg: Config, calm: map<(string, string), nat>, w: World, name: string, pc: Pc) {
    pc.Returning? && !pc.failed && name in w.approvals && !Terminal(w.approvals[name].status.phase) ==>
      && pc.requeue.Some? && w.approvals[name].status.phase.Running?
      && |w.approvals[name].status.attempts| == pc.before + 1 < cfg.maxAttempts
      && Calm(calm, name, w.approvals[name].uid) <= pc.before
  }

  /** Without name reuse the stored approval is the one the thread knows. */
  ghost predicate Tied(w: World, name: string, pc: Pc) {
    Me(pc).Some? ==> Agrees(w, name, Me(pc).value)
  }

  ghost predicate Agrees(w: World, name: string, me: Approval) {
    name in w.approvals ==> SameApproval(w.approvals[name], me)
  }

  ghost predicate CalmSoFar(calm: map<(string, string), nat>, name: string, pc: Pc) {
    First(pc).Some? ==> CalmFrom(calm, name, First(pc).value)
  }

  ghost predicate ThreadLive(cfg: Config, h: seq<World>, calm: map<(string, string), nat>, w: World, name: string,
                             pc: Pc) {
    LocalLive(cfg, h, pc) && Tied(w, name, pc) && CalmSoFar(calm, name, pc) && ReturnOk(cfg, calm, w, name, pc)
  }

  // ---- Building blocks ----

  lemma FinishLive(cfg: Config, h: seq<World>, calm: map<(string, string), nat>, w: World, name: string,
                   me: Approval, start: nat, phase: ApprovalPhase, result: ApprovalResult)
    requires MeOk(cfg, me) && Agrees(w, name, me)
    requires Terminal(phase) && !phase.Succeeded? && !phase.DryRunSucceeded?
    ensures ThreadLive(cfg, h, calm, w, name, FinishAs(me, start, phase, result))
  {
  }

  lemma FailLive(cfg: Config, h: seq<World>, calm: map<(string, string), nat>, w: World, name: string)
    ensures ThreadLive(cfg, h, calm, w, name, Returning(true, None, 0))
  {
  }

  lemma DoneLive(cfg: Config, h: seq<World>, calm: map<(string, string), nat>, w: World, name: string)
    requires name in w.approvals ==> Terminal(w.approvals[name].status.phase)
    ensures ThreadLive(cfg, h, calm, w, name, Returning(false, None, 0))
  {
  }

  lemma RetryLive(cfg: Config, h: seq<World>, calm: map<(string, string), nat>, w: World, name: string, x: Exec,
                  rv: string, inp: Input)
    requires ExecLive(cfg, x) && Agrees(w, name, x.me)
    requires CalmFrom(calm, name, x.l.v.a0.val)
    ensures ThreadLive(cfg, h, calm, w, name, Retry(w, x, rv, inp))
  {
  }

  lemma RejectLive(cfg: Config, h: seq<World>, calm: map<(string, string), nat>, w: World, name: string, x: Exec,
                   rv: string, phase: ApprovalPhase, result: ApprovalResult)
    requires ExecLive(cfg, x) && Agrees(w, name, x.me)
    requires Terminal(phase) && !phase.Succeeded?
    ensures ThreadLive(cfg, h, calm, w, name, Reject(w, x, rv, phase, result))
  {
  }

  lemma SucceedLive(cfg: Config, h: seq<World>, calm: map<(string, string), nat>, w: World, name: string, x: Exec,
                    before: string, after: string, result: ApprovalResult, goalAt: nat)
    requires ExecLive(cfg, x) && Agrees(w, name, x.me)
    requires !x.l.a1.val.spec.dryRun ==> x.l.v.a0.at <= goalAt && GoalSeen(h, goalAt, x.Act())
    ensures ThreadLive(cfg, h, calm, w, name, Succeed(w, x, before, after, result, goalAt))
  {
  }

  ghost predicate CalmFrom(calm: map<(string, string), nat>, name: string, a: Approval) {
    Calm(calm, name, a.uid) <= |a.status.attempts|
  }

  // ---- One act of a thread, position by position ----

  lemma ReadApprovalLive(cfg: Config, s: State, name: string, inp: Input)
    requires s.hist != [] && (name in Now(s).approvals ==> ApprovalOk(cfg, s, name, Now(s).approvals[name]))
    ensures ThreadLive(cfg, s.hist + [Now(s)], s.calm, Now(s), name,
                       NextReadApproval(Now(s), |s.hist| - 1, name, inp).pc)
  {
    hide Proven;
  }

  lemma ReadIncidentLive(cfg: Config, h: seq<World>, calm: map<(string, string), nat>, w: World, name: string, n: nat,
                         a0: Seen<Approval>, inp: Input)
    requires MeOk(cfg, a0.val) && Agrees(w, name, a0.val) && CalmFrom(calm, name, a0.val)
    ensures ThreadLive(cfg, h, calm, w, name, NextReadIncident(w, n, a0, inp).pc)
  {
    hide FinishAs;
    FinishLive(cfg, h, calm, w, name, a0.val, a0.at, Superseded, TargetChanged);
  }

  lemma DecideLive(cfg: Config, h: seq<World>, calm: map<(string, string), nat>, w: World, name: string,
                   a0: Seen<Approval>, inc0: Seen<Incidents.Incident>)
    requires MeOk(cfg, a0.val) && Agrees(w, name, a0.val) && CalmFrom(calm, name, a0.val)
    ensures ThreadLive(cfg, h, calm, w, name, NextDecide(w, a0, inc0))
  {
    hide FinishAs, FindAction, BelongsToIncident, Incidents.EvidenceCurrent;
    FinishLive(cfg, h, calm, w, name, a0.val, a0.at, Superseded, TargetChanged);
  }

  lemma ReadPolicyLive(cfg: Config, h: seq<World>, calm: map<(string, string), nat>, w: World, name: string, n: nat,
                       a0: Seen<Approval>, inc0: Seen<Incidents.Incident>, action: Action, ref: PolicyRef, inp: Input)
    requires MeOk(cfg, a0.val) && Agrees(w, name, a0.val) && CalmFrom(calm, name, a0.val)
    ensures ThreadLive(cfg, h, calm, w, name, NextReadPolicy(w, n, a0, inc0, action, ref, inp).pc)
  {
    hide FinishAs, RevisionIs;
    FinishLive(cfg, h, calm, w, name, a0.val, a0.at, Failed, RejectedByPolicy);
    FinishLive(cfg, h, calm, w, name, a0.val, a0.at, Superseded, RejectedByPolicy);
  }

  lemma CheckPolicyLive(cfg: Config, h: seq<World>, calm: map<(string, string), nat>, w: World, name: string, n: nat,
                        a0: Seen<Approval>, inc0: Seen<Incidents.Incident>, action: Action, ref: PolicyRef, polAt: nat)
    requires MeOk(cfg, a0.val) && Agrees(w, name, a0.val) && CalmFrom(calm, name, a0.val)
    ensures ThreadLive(cfg, h, calm, w, name, NextCheckPolicy(cfg, w, n, a0, inc0, action, ref, polAt))
  {
    hide FinishAs, Compiled, Eligible, RiskFor;
    FinishLive(cfg, h, calm, w, name, a0.val, a0.at, Expired, RejectedByPolicy);
    FinishLive(cfg, h, calm, w, name, a0.val, a0.at, Failed, RejectedByPolicy);
    FinishLive(cfg, h, calm, w, name, a0.val, a0.at, Superseded, RejectedByPolicy);
  }

  lemma LockedReadApprovalLive(cfg: Config, h: seq<World>, calm: map<(string, string), nat>, w: World, name: string,
                               n: nat, v: Vetted, since: nat, inp: Input)
    requires MeOk(cfg, v.a0.val) && Agrees(w, name, v.a0.val) && CalmFrom(calm, name, v.a0.val)
    ensures ThreadLive(cfg, h, calm, w, name, NextLockedReadApproval(w, n, name, v, since, inp).pc)
  {
  }

  lemma LockedReadIncidentLive(cfg: Config, h: seq<World>, calm: map<(string, string), nat>, w: World, name: string,
                               n: nat, l: Locked, inp: Input)
    requires LockedLive(cfg, l) && Agrees(w, name, l.a1.val) && CalmFrom(calm, name, l.v.a0.val)
    ensures ThreadLive(cfg, h, calm, w, name, NextLockedReadIncident(w, n, l, inp).pc)
  {
    hide FinishAs;
    FinishLive(cfg, h, calm, w, name, l.a1.val, l.v.a0.at, Superseded, TargetChanged);
  }

  lemma StartedBefore(cfg: Config, h: seq<World>, name: string, l: Locked)
    requires LockedOk(cfg, h, name, l)
    ensures l.v.a0.at + 1 < |h|
  {
    hide Compiled, Eligible;
  }

  lemma ReplayReadLive(cfg: Config, h: seq<World>, calm: map<(string, string), nat>, name: string, l: Locked,
                       inp: Input)
    requires h != [] && LockedOk(cfg, h, name, l) && LockedLive(cfg, l) && ReplayReady(l)
    requires Agrees(h[|h| - 1], name, l.a1.val)
    ensures var w := h[|h| - 1]; ThreadLive(cfg, h + [w], calm, w, name, NextReplayRead(w, |h| - 1, l, inp).pc)
  {
    hide FinishAs, LockedOk, GoalReached, NoDuplicates, GoalSeen, ReplaySucceed, ThreadLive;
    var w, h' := h[|h| - 1], h + [h[|h| - 1]];
    StartedBefore(cfg, h, name, l);
    FinishLive(cfg, h', calm, w, name, l.a1.val, l.v.a0.at, Superseded, TargetReplaced);
    FinishLive(cfg, h', calm, w, name, l.a1.val, l.v.a0.at, Superseded, RejectedByPolicy);
    FinishLive(cfg, h', calm, w, name, l.a1.val, l.v.a0.at, Superseded, AlreadySatisfied);
    FailLive(cfg, h', calm, w, name);
    if GoalAt(w, l.v.action) {
      GoalNow(h, w, l.v.action);
      ReplaySucceedLive(cfg, h', calm, w, name, |h| - 1, l, "");
      ReplaySucceedLive(cfg, h', calm, w, name, |h| - 1, l,
                        if IdOf(l.v.action.target) in w.objects then w.objects[IdOf(l.v.action.target)].rv else "");
    }
  }

  lemma ReplaySucceedLive(cfg: Config, h: seq<World>, calm: map<(string, string), nat>, w: World, name: string, n: nat,
                          l: Locked, rv: string)
    requires LockedLive(cfg, l) && ReplayReady(l) && Agrees(w, name, l.a1.val)
    requires l.v.a0.at <= n && GoalSeen(h, n, l.v.action)
    ensures ThreadLive(cfg, h, calm, w, name, ReplaySucceed(w, n, l, rv))
  {
    hide GoalSeen;
  }

  lemma GoalNow(h: seq<World>, next: World, a: Action)
    requires h != [] && GoalAt(h[|h| - 1], a)
    ensures GoalSeen(h + [next], |h| - 1, a)
  {
  }

  lemma CheckExpiryLive(cfg: Config, h: seq<World>, calm: map<(string, string), nat>, w: World, name: string,
                        l: Locked, found: Option<Seen<Incidents.Incident>>)
    requires LockedLive(cfg, l) && Agrees(w, name, l.a1.val) && CalmFrom(calm, name, l.v.a0.val)
    ensures ThreadLive(cfg, h, calm, w, name, NextCheckExpiry(w, l, l.v.plan, found))
  {
    hide FinishAs;
    FinishLive(cfg, h, calm, w, name, l.a1.val, l.v.a0.at, Expired, RejectedByPolicy);
    FinishLive(cfg, h, calm, w, name, l.a1.val, l.v.a0.at, Superseded, TargetChanged);
  }

  lemma CheckEvidenceLive(cfg: Config, h: seq<World>, calm: map<(string, string), nat>, w: World, name: string, n: nat,
                          l: Locked, inc1: Seen<Incidents.Incident>)
    requires LockedLive(cfg, l) && Agrees(w, name, l.a1.val) && CalmFrom(calm, name, l.v.a0.val)
    ensures ThreadLive(cfg, h, calm, w, name, NextCheckEvidence(w, n, l, inc1))
  {
    hide FinishAs, FindAction, Incidents.EvidenceCurrent;
    FinishLive(cfg, h, calm, w, name, l.a1.val, l.v.a0.at, Superseded, TargetChanged);
  }

  lemma RereadPolicyLive(cfg: Config, h: seq<World>, calm: map<(string, string), nat>, w: World, name: string, n: nat,
                         l: Locked, inc1: Seen<Incidents.Incident>, evAt: nat, inp: Input)
    requires LockedLive(cfg, l) && Agrees(w, name, l.a1.val) && CalmFrom(calm, name, l.v.a0.val)
    ensures ThreadLive(cfg, h, calm, w, name, NextRereadPolicy(w, n, l, l.v.plan, inc1, evAt, inp).pc)
  {
    hide FinishAs, RevisionIs;
    FinishLive(cfg, h, calm, w, name, l.a1.val, l.v.a0.at, Failed, RejectedByPolicy);
    FinishLive(cfg, h, calm, w, name, l.a1.val, l.v.a0.at, Superseded, RejectedByPolicy);
  }

  /** A plan that may mutate agrees with whatever action the approval already records. */
  lemma FreshActionAgrees(cfg: Config, h: seq<World>, name: string, l: Locked)
    requires LockedOk(cfg, h, name, l) && l.v.plan.Fresh? && LockedLive(cfg, l)
    ensures l.v.action.id == l.a1.val.spec.actionID
    ensures l.a1.val.status.action.Some? ==> l.a1.val.status.action == Some(l.v.action)
  {
    hide Compiled, Eligible, FindAction, BelongsToIncident;
  }

  lemma RecheckPolicyLive(cfg: Config, h: seq<World>, calm: map<(string, string), nat>, w: World, name: string, n: nat,
                          l: Locked, inc1: Seen<Incidents.Incident>, evAt: nat, polAt: nat)
    requires LockedLive(cfg, l) && Agrees(w, name, l.a1.val) && CalmFrom(calm, name, l.v.a0.val)
    requires l.v.action.id == l.a1.val.spec.actionID
    requires l.a1.val.status.action.Some? ==> l.a1.val.status.action == Some(l.v.action)
    ensures ThreadLive(cfg, h, calm, w, name, NextRecheckPolicy(cfg, w, n, l, l.v.plan, inc1, evAt, polAt))
  {
    hide FinishAs, Compiled;
    FinishLive(cfg, h, calm, w, name, l.a1.val, l.v.a0.at, Expired, RejectedByPolicy);
    FinishLive(cfg, h, calm, w, name, l.a1.val, l.v.a0.at, Failed, APIError);
  }

  lemma GoalStable(h: seq<World>, w: World, g: nat, a: Action)
    requires GoalSeen(h, g, a)
    ensures GoalSeen(h + [w], g, a)
  {
    hide GoalAt, NoDuplicates;
  }

  lemma UpdateStable(cfg: Config, h: seq<World>, w: World, u: Update)
    requires UpdateLive(cfg, h, u)
    ensures UpdateLive(cfg, h + [w], u)
  {
    hide GoalSeen, ExecLive, LockedLive;
    if u.mut.TerminalAttempt? && u.mut.phase.Succeeded? {
      GoalStable(h, w, u.goalAt, u.me.status.action.value);
    }
  }

  lemma UpdateReadLive(cfg: Config, h: seq<World>, calm: map<(string, string), nat>, w: World, name: string, u: Update,
                       inp: Input)
    requires UpdateLive(cfg, h, u) && Agrees(w, name, u.me)
    requires FirstOf(u.cont).Some? ==> CalmFrom(calm, name, FirstOf(u.cont).value)
    ensures ThreadLive(cfg, h, calm, w, name, NextUpdateRead(w, name, u, inp).pc)
  {
    hide UpdateLive;
  }

  // ---- Writing a status ----

  /** What a successful update leaves behind is consistent with the thread's next position. */
  lemma ContinueLive(cfg: Config, h: seq<World>, calm: map<(string, string), nat>, w: World, name: string, u: Update,
                     now: int)
    requires ValidConfig(cfg) && UpdateLive(cfg, h, u)
    requires Agrees(w, name, u.me.(status := Mutate(u.mut, u.me.status, now)))
    requires FirstOf(u.cont).Some? ==> CalmFrom(calm, name, FirstOf(u.cont).value)
    ensures ThreadLive(cfg, h, calm, w, name, Continue(cfg, u, Mutate(u.mut, u.me.status, now)))
  {
    hide GoalSeen;
    match u.mut
    case MarkRunning(a) =>
    case RetryAttempt(a) =>
      assert |Mutate(u.mut, u.me.status, now).attempts| == |u.me.status.attempts| + 1;
      FinishLive(cfg, h, calm, w, name, u.me.(status := Mutate(u.mut, u.me.status, now)), u.start, Failed, APIError);
    case TerminalAttempt(_, _, _) =>
      DoneLive(cfg, h, calm, w, name);
    case Finish(_, _) =>
      DoneLive(cfg, h, calm, w, name);
  }

  /** A status write keeps what is recorded and yields a consistent approval. */
  lemma WrittenOk(cfg: Config, h: seq<World>, u: Update, a: Approval, now: int)
    requires ValidConfig(cfg) && UpdateLive(cfg, h, u) && SameApproval(a, u.me)
    ensures var b := a.(status := Mutate(u.mut, a.status, now));
            && Kept(a, b) && ActionOk(b)
            && |b.status.attempts| <= cfg.maxAttempts + 1
            && (!Terminal(b.status.phase) ==> |b.status.attempts| <= cfg.maxAttempts)
            && (b.spec.dryRun ==> !b.status.phase.Succeeded?)
            && (b.status.phase.Succeeded? ==>
                  b.status.action.Some? && u.start <= u.goalAt && GoalSeen(h, u.goalAt, b.status.action.value))
  {
    hide GoalSeen;
  }

  // ---- Executing ----

  lemma PrepareLive(cfg: Config, h: seq<World>, calm: map<(string, string), nat>, w: World, name: string, x: Exec,
                    sel: Selection)
    requires ExecLive(cfg, x) && Agrees(w, name, x.me) && CalmFrom(calm, name, x.l.v.a0.val)
    requires SawObject(h, IdOf(x.Act().target), sel.cur) && sel.cur.val.uid == x.Act().target.uid
    requires x.l.v.a0.at <= sel.cur.at
    ensures ThreadLive(cfg, h, calm, w, name, Prepare(w, x, sel))
  {
    hide Match, PolicyTarget, Succeed, Reject, ThreadLive, ExecLive, NoDuplicates, IndexOf;
    forall rv, phase, result | Terminal(phase) && phase != Succeeded
      ensures ThreadLive(cfg, h, calm, w, name, Reject(w, x, rv, phase, result))
    {
      RejectLive(cfg, h, calm, w, name, x, rv, phase, result);
    }
    if GoalReached(x.Act(), sel.cur.val) {
      SucceedLive(cfg, h, calm, w, name, x, sel.cur.val.rv, "", AlreadySatisfied, sel.cur.at);
    }
    MutateLive(cfg, h, calm, w, name, x, sel);
    IndexMeans(sel.cur.val.finalizers, x.Act().finalizer);
  }

  lemma IndexMeans(s: seq<string>, f: string)
    ensures IndexOf(s, f).None? <==> f !in s
  {
  }

  lemma MutateLive(cfg: Config, h: seq<World>, calm: map<(string, string), nat>, w: World, name: string, x: Exec,
                   sel: Selection)
    requires ExecLive(cfg, x) && Agrees(w, name, x.me) && CalmFrom(calm, name, x.l.v.a0.val)
    ensures forall req :: ThreadLive(cfg, h, calm, w, name, ExecMutate(x, sel, req))
  {
  }

  lemma ExecReadLive(cfg: Config, h: seq<World>, calm: map<(string, string), nat>, name: string, x: Exec, inp: Input)
    requires h != [] && LockedOk(cfg, h, name, x.l)
    requires ExecLive(cfg, x) && Agrees(h[|h| - 1], name, x.me) && CalmFrom(calm, name, x.l.v.a0.val)
    ensures var w := h[|h| - 1]; ThreadLive(cfg, h + [w], calm, w, name, NextExecRead(w, |h| - 1, x, inp))
  {
    hide Succeed, Reject, Retry, ExecLive, NoDuplicates, LockedOk, GoalSeen, GoalReached;
    var w, h' := h[|h| - 1], h + [h[|h| - 1]];
    StartedBefore(cfg, h, name, x.l);
    RetryLive(cfg, h', calm, w, name, x, "", inp);
    if IdOf(x.Act().target) in w.objects {
      RejectLive(cfg, h', calm, w, name, x, w.objects[IdOf(x.Act().target)].rv, Superseded, TargetReplaced);
    } else {
      GoalNow(h, w, x.Act());
      SucceedLive(cfg, h', calm, w, name, x, "", "", AlreadySatisfied, |h| - 1);
    }
  }

  lemma ExecResolveLive(cfg: Config, h: seq<World>, calm: map<(string, string), nat>, w: World, name: string, n: nat,
                        x: Exec, cur: Seen<Obj>)
    requires ExecLive(cfg, x) && Agrees(w, name, x.me) && CalmFrom(calm, name, x.l.v.a0.val)
    requires SawObject(h, IdOf(x.Act().target), cur) && cur.val.uid == x.Act().target.uid && x.l.v.a0.at <= cur.at
    ensures ThreadLive(cfg, h, calm, w, name, NextExecResolve(w, n, x, cur))
  {
    hide Reject, Prepare, ExecLive, SameTargetIdentity;
    RejectLive(cfg, h, calm, w, name, x, cur.val.rv, Superseded, RejectedByPolicy);
    PrepareLive(cfg, h, calm, w, name, x, Selection(cur, n, false, cur, None));
  }

  lemma ExecIncidentTargetLive(cfg: Config, h: seq<World>, calm: map<(string, string), nat>, w: World, name: string,
                               n: nat, x: Exec, cur: Seen<Obj>, catAt: nat, namespaced: bool, inp: Input)
    requires ExecLive(cfg, x) && Agrees(w, name, x.me) && CalmFrom(calm, name, x.l.v.a0.val)
    requires SawObject(h, IdOf(x.Act().target), cur) && cur.val.uid == x.Act().target.uid && x.l.v.a0.at <= cur.at
    ensures ThreadLive(cfg, h, calm, w, name, NextExecIncidentTarget(w, n, x, cur, catAt, namespaced, inp))
  {
    hide Reject, Retry, Prepare, ExecLive;
    RetryLive(cfg, h, calm, w, name, x, cur.val.rv, inp);
    RejectLive(cfg, h, calm, w, name, x, cur.val.rv, Superseded, RejectedByPolicy);
    if IdOf(x.inc1.val.target) in w.objects {
      PrepareLive(cfg, h, calm, w, name, x,
                  Selection(cur, catAt, false, Seen(n, w.objects[IdOf(x.inc1.val.target)]), None));
    }
  }

  lemma ExecNamespaceLive(cfg: Config, h: seq<World>, calm: map<(string, string), nat>, w: World, name: string, n: nat,
                          x: Exec, cur: Seen<Obj>, catAt: nat, chosen: Seen<Obj>, inp: Input)
    requires ExecLive(cfg, x) && Agrees(w, name, x.me) && CalmFrom(calm, name, x.l.v.a0.val)
    requires SawObject(h, IdOf(x.Act().target), cur) && cur.val.uid == x.Act().target.uid && x.l.v.a0.at <= cur.at
    ensures ThreadLive(cfg, h, calm, w, name, NextExecNamespace(w, n, x, cur, catAt, chosen, inp))
  {
    hide Retry, Prepare, ExecLive, ThreadLive;
    RetryLive(cfg, h, calm, w, name, x, cur.val.rv, inp);
    if NamespaceId(x.inc1.val.target.ns) in w.objects {
      PrepareLive(cfg, h, calm, w, name, x,
                  Selection(cur, catAt, true, chosen, Some(Seen(n, w.objects[NamespaceId(x.inc1.val.target.ns)]))));
    }
  }

  /** After the mutation the goal is reached, duplicates aside. */
  lemma MutatedGoal(h: seq<World>, w': World, a: Action, read: Obj, req: Request, rv: string)
    requires h != [] && IdOf(a.target) in h[|h| - 1].objects && RequestOk(a, read, req)
    requires Serve(h[|h| - 1].objects[IdOf(a.target)], req).Some?
    requires w' == Store(h[|h| - 1], IdOf(a.target), Serve(h[|h| - 1].objects[IdOf(a.target)], req).value.(rv := rv))
    ensures GoalSeen(h + [w'], |h|, a)
  {
    hide Serve, FinalizerPatch, IndexOf, Vanishes, FinalizerRemoved, NoDuplicates;
    var stored := h[|h| - 1].objects[IdOf(a.target)];
    ServedAsApproved(a, read, req, stored);
    ServeKeepsUid(stored, req, a, read);
    assert (h + [w'])[|h|] == w' && (h + [w'])[|h| - 1] == h[|h| - 1];
    if !a.typ.ForceFinalizeNamespace? {
      var after := Serve(stored, req).value;
      RemovedExactly(a.finalizer, stored, after);
      FreshVersion(a.finalizer, stored, after, rv);
      if a.finalizer in after.finalizers { LeftSeveral(a.finalizer, stored, after); }
    }
  }

  /** A finalizer that is still there after one occurrence was removed had been there more than once. */
  lemma LeftSeveral(f: string, before: Obj, after: Obj)
    requires multiset(after.finalizers) == multiset(before.finalizers) - multiset{f} && f in after.finalizers
    ensures multiset(before.finalizers)[f] > 1
  {
    assert multiset(after.finalizers)[f] > 0;
  }

  lemma ExecMutateLive(cfg: Config, h: seq<World>, calm: map<(string, string), nat>, name: string,
                       x: Exec, sel: Selection, req: Request, inp: Input)
    requires h != [] && LockedOk(cfg, h, name, x.l) && RequestOk(x.Act(), sel.cur.val, req)
    requires ExecLive(cfg, x) && Agrees(h[|h| - 1], name, x.me) && CalmFrom(calm, name, x.l.v.a0.val)
    ensures var e := NextExecMutate(h[|h| - 1], |h| - 1, name, x, sel, req, inp);
            ThreadLive(cfg, h + [e.w], calm, e.w, name, e.pc)
  {
    hide Serve, Retry, Succeed, ExecLive, LockedOk, RequestOk, Vanishes, ThreadLive, GoalSeen;
    var w := h[|h| - 1];
    var e := NextExecMutate(w, |h| - 1, name, x, sel, req, inp);
    StartedBefore(cfg, h, name, x.l);
    assert e.w.approvals == w.approvals && e.w.clock == w.clock;
    SameClock(w, e.w, x, sel.cur.val.rv, inp);
    RetryLive(cfg, h + [e.w], calm, e.w, name, x, sel.cur.val.rv, inp);
    if e.mutation.Some? {
      MutatedGoal(h, e.w, x.Act(), sel.cur.val, req, inp.rv);
      SucceedLive(cfg, h + [e.w], calm, e.w, name, x, sel.cur.val.rv, inp.rv, Mutated, |h|);
    } else if x.l.a1.val.spec.dryRun {
      SucceedLive(cfg, h + [e.w], calm, e.w, name, x, sel.cur.val.rv, inp.rv, DryRunValidated, |h| - 1);
    }
  }

  lemma SameClock(w: World, w': World, x: Exec, rv: string, inp: Input)
    requires w.clock == w'.clock
    ensures Retry(w, x, rv, inp) == Retry(w', x, rv, inp)
    ensures forall after, result, g :: Succeed(w, x, rv, after, result, g) == Succeed(w', x, rv, after, result, g)
  {
  }

  lemma BackoffStepLive(cfg: Config, h: seq<World>, calm: map<(string, string), nat>, w: World, name: string, x: Exec,
                        delay: Option<int>)
    requires BackoffLive(cfg, x) && Agrees(w, name, x.me) && CalmFrom(calm, name, x.l.v.a0.val)
    ensures ThreadLive(cfg, h, calm, w, name, NextBackoff(w, x, delay))
  {
    hide FinishAs;
    FinishLive(cfg, h, calm, w, name, x.me, x.l.v.a0.at, Expired, APIError);
  }

  /** Every requeue delay is positive and ends no later than the approval's expiry. */
  lemma RequeueBounded(w: World, x: Exec, delay: Option<int>)
    ensures var pc := NextBackoff(w, x, delay);
            pc.Returning? ==>
              !pc.failed && pc.requeue.Some? && 0 < pc.requeue.value && w.clock + pc.requeue.value <= x.expires
  {
  }

  lemma UpdateWriteLive(cfg: Config, h: seq<World>, calm: map<(string, string), nat>, name: string, u: Update,
                        seen: Approval, inp: Input)
    requires ValidConfig(cfg) && h != [] && UpdateLive(cfg, h, u) && SameApproval(seen, u.me)
    requires Agrees(h[|h| - 1], name, u.me) && (FirstOf(u.cont).Some? ==> CalmFrom(calm, name, FirstOf(u.cont).value))
    ensures var e := NextUpdateWrite(cfg, h[|h| - 1], |h| - 1, name, u, seen, inp);
            ThreadLive(cfg, h + [e.w], calm, e.w, name, e.pc)
  {
    hide UpdateLive, Mutate, Continue;
    var w := h[|h| - 1];
    var e := NextUpdateWrite(cfg, w, |h| - 1, name, u, seen, inp);
    UpdateStable(cfg, h, e.w, u);
    FailLive(cfg, h + [e.w], calm, e.w, name);
    if e.wrote.Some? || e.pc == Continue(cfg, u, Mutate(u.mut, u.me.status, w.clock)) {
      if Agrees(e.w, name, u.me.(status := Mutate(u.mut, u.me.status, w.clock))) {
        ContinueLive(cfg, h + [e.w], calm, e.w, name, u, w.clock);
      }
    }
  }
}
