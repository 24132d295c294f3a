/** Incident status as the scanner writes it (internal/scanner/scanner.go) and the actions that
    diagnosis puts into it (internal/diagnosis/engine.go). */
module Incidents {
  import opened Types
  import opened Framing
  import Policy

  datatype Phase = NoPhase | Active | DiagnosisFailed | Resolved

  datatype TargetSnapshot = TargetSnapshot(rv: string, finalizers: seq<string>, nsFinalizers: seq<string>)

  const NO_SNAPSHOT := TargetSnapshot("", [], [])

  datatype Status = Status(
    phase: Phase, policyRef: Option<PolicyRef>, deletionTimestamp: Option<int>, lastObserved: Option<int>,
    evidenceTime: Option<int>, evidenceExpires: Option<int>, resolvedTime: Option<int>, resolutionReason: string,
    snapshot: TargetSnapshot, findings: seq<Finding>, actions: seq<Action>)

  /** The status of an incident that has just been created. */
  const EMPTY_STATUS := Status(NoPhase, None, None, None, None, None, None, "", NO_SNAPSHOT, [], [])

  datatype Incident = Incident(uid: string, target: TargetRef, status: Status)

  /** The scanner's cadence, in seconds. */
  datatype Config = Config(interval: int, timeout: int)

  ghost predicate ValidConfig(cfg: Config) { cfg.interval > 0 && cfg.timeout > 0 }

  const OBSERVATION_REFRESH: int := 300

  /** The part of a diagnosis result that is persisted. */
  datatype Result = Result(
    targetFound: bool, uidMatches: bool, thresholdElapsed: bool, complete: bool,
    snapshot: TargetSnapshot, findings: seq<Finding>, actions: seq<Action>)

  // ---- Actions ----

  function ActionId(hash: string -> string, b: Binding): string { "action-" + hash(Join(ActionParts(b))) }

  function BindingOf(a: Action, ref: PolicyRef): Binding {
    Binding(a.typ, a.target.uid, a.finalizer, a.preRv, ref.uid, ref.generation)
  }

  /** newAction. */
  function NewAction(hash: string -> string, policy: Policy.CompiledPolicy, typ: ActionType, target: TargetRef,
                     finalizer: string, rv: string, reason: string): Action
  {
    Action(ActionId(hash, Binding(typ, target.uid, finalizer, rv, policy.uid, policy.generation)),
           typ, Policy.RiskFor(typ, finalizer), target, finalizer,
           Policy.Eligible(policy, typ, finalizer), Policy.IneligibleReason(policy, typ, finalizer), rv, reason)
  }

  /** The action's ID is the digest of its own fields and of the policy revision. */
  ghost predicate Signed(hash: string -> string, ref: PolicyRef, a: Action) {
    a.id == ActionId(hash, BindingOf(a, ref))
  }

  ghost predicate Injective(hash: string -> string) { forall x, y :: hash(x) == hash(y) ==> x == y }

  ghost predicate NulFreeAction(a: Action, ref: PolicyRef) { NulFreeBinding(BindingOf(a, ref)) }

  /** Two signed actions with one ID are the same operation on the same object version under the same
      policy revision. */
  lemma IdBindsOperation(hash: string -> string, a: Action, r: PolicyRef, b: Action, s: PolicyRef)
    requires Injective(hash) && Signed(hash, r, a) && Signed(hash, s, b) && a.id == b.id
    requires NulFreeAction(a, r) && NulFreeAction(b, s)
    ensures BindingOf(a, r) == BindingOf(b, s)
  {
    var x, y := hash(Join(ActionParts(BindingOf(a, r)))), hash(Join(ActionParts(BindingOf(b, s))));
    assert x == ("action-" + x)[7..] && y == ("action-" + y)[7..];
    ActionFrameDetermines(BindingOf(a, r), BindingOf(b, s));
  }

  /** An action ID tells the type of the action, whatever else is hashed. */
  lemma IdTellsType(hash: string -> string, b: Binding, c: Binding)
    requires Injective(hash) && ActionId(hash, b) == ActionId(hash, c)
    ensures b.typ == c.typ
  {
    var x, y := hash(Join(ActionParts(b))), hash(Join(ActionParts(c)));
    assert x == ("action-" + x)[7..] && y == ("action-" + y)[7..];
    ActionTypeNames(b.typ, c.typ);
    ActionTypeNames(c.typ, b.typ);
    FirstPartSame(ActionParts(b), ActionParts(c));
  }

  /** What newAction builds: signed for the policy's revision, with the operator's risk and the policy's verdict. */
  lemma NewActionSays(hash: string -> string, policy: Policy.CompiledPolicy, typ: ActionType, target: TargetRef,
                      finalizer: string, rv: string, reason: string)
    ensures var a := NewAction(hash, policy, typ, target, finalizer, rv, reason);
            && a.typ == typ && a.target == target && a.finalizer == finalizer && a.preRv == rv
            && Signed(hash, PolicyRef(policy.name, policy.uid, policy.generation), a)
            && a.risk == Policy.RiskFor(typ, finalizer)
            && (a.eligible <==> Policy.Eligible(policy, typ, finalizer)) && (a.eligible <==> a.ineligibleReason == "")
  {
    hide Policy.Eligible, Policy.RiskFor, Policy.IneligibleReason;
  }

  ghost predicate AllSigned(hash: string -> string, st: Status) {
    forall a :: a in st.actions ==> st.policyRef.Some? && Signed(hash, st.policyRef.value, a)
  }

  // ---- Status writes ----

  /** The new evidence times of a refreshed status. */
  function EvidenceAfter(cfg: Config, cur: Status, result: Result, now: int): (Option<int>, Option<int>) {
    if result.complete && result.actions != [] then
      var lead := Max(cfg.interval, cfg.timeout);
      if cur.actions != result.actions || cur.evidenceTime.None? || cur.evidenceExpires.None?
         || cur.evidenceExpires.value - now <= lead
      then (Some(now), Some(now + cfg.timeout + 2 * cfg.interval))
      else (cur.evidenceTime, cur.evidenceExpires)
    else (None, None)
  }

  /** persistDiagnosis: the desired status for a found target. */
  function Refreshed(cfg: Config, cur: Status, ref: PolicyRef, deletion: Option<int>, result: Result, now: int): Status
  {
    var evidence := EvidenceAfter(cfg, cur, result, now);
    Status(if result.complete then Active else DiagnosisFailed, Some(ref), deletion,
           if cur.lastObserved.None? || now - cur.lastObserved.value >= OBSERVATION_REFRESH then Some(now)
           else cur.lastObserved,
           evidence.0, evidence.1, None, "", result.snapshot, result.findings, result.actions)
  }

  /** failIncidentDiagnosis. */
  function Failed(cur: Status): Status {
    if cur.phase.Resolved? then cur
    else cur.(phase := DiagnosisFailed, snapshot := NO_SNAPSHOT, findings := [], actions := [],
              evidenceTime := None, evidenceExpires := None)
  }

  /** resolveIncident: the last actions are kept for audit. */
  function ResolvedAs(cur: Status, reason: string, now: int): Status {
    if cur.phase.Resolved? then cur
    else cur.(phase := Resolved, resolvedTime := Some(now), resolutionReason := reason)
  }

  /** One status write of a cycle that started at `now`. */
  datatype Write =
    | Persist(ref: PolicyRef, deletion: Option<int>, result: Result, now: int)
    | Fail(now: int)
    | Resolve(reason: string, now: int)

  function Apply(cfg: Config, cur: Status, w: Write): Status {
    match w
    case Persist(ref, deletion, result, now) => Refreshed(cfg, cur, ref, deletion, result, now)
    case Fail(_) => Failed(cur)
    case Resolve(reason, now) => ResolvedAs(cur, reason, now)
  }

  /** The status after a sequence of writes to a new incident. */
  function After(cfg: Config, writes: seq<Write>): Status {
    if writes == [] then EMPTY_STATUS else Apply(cfg, After(cfg, writes[..|writes| - 1]), writes[|writes| - 1])
  }

  /** executor.actionEvidenceCurrent. */
  predicate EvidenceCurrent(st: Status, now: int) {
    && st.evidenceTime.Some? && st.evidenceExpires.Some?
    && st.evidenceTime.value <= st.evidenceExpires.value && now < st.evidenceExpires.value
  }

  /** The evidence deadline follows the evidence time by a fixed span, and an Active incident that
      recommends actions always carries one. */
  ghost predicate EvidenceShape(cfg: Config, st: Status) {
    && (st.evidenceTime.Some? <==> st.evidenceExpires.Some?)
    && (st.evidenceTime.Some? ==> st.evidenceExpires.value == st.evidenceTime.value + cfg.timeout + 2 * cfg.interval)
    && (st.phase.Active? && st.actions != [] ==> st.evidenceTime.Some?)
  }

  lemma ShapePreserved(cfg: Config, cur: Status, w: Write)
    requires EvidenceShape(cfg, cur)
    ensures EvidenceShape(cfg, Apply(cfg, cur, w))
  {
  }

  /** Right after a complete diagnosis with actions the deadline is more than one full cycle away. */
  lemma DeadlineLead(cfg: Config, cur: Status, ref: PolicyRef, deletion: Option<int>, result: Result, now: int)
    requires ValidConfig(cfg) && result.complete && result.actions != []
    ensures var st := Refreshed(cfg, cur, ref, deletion, result, now);
            st.evidenceExpires.Some? && st.evidenceExpires.value > now + Max(cfg.interval, cfg.timeout)
  {
  }

  /** Write `k` diagnosed `actions` completely in the cycle that started at `t`, and no later write
      changed the action list. */
  ghost predicate DiagnosedAt(cfg: Config, writes: seq<Write>, k: nat, t: int, actions: seq<Action>) {
    && k < |writes|
    && writes[k].Persist? && writes[k].now == t && writes[k].result.complete && writes[k].result.actions == actions
    && forall j :: k < j <= |writes| ==> After(cfg, writes[..j]).actions == actions
  }

  /** Over every sequence of writes: the deadline is the evidence time plus `timeout + 2 * interval`,
      and the evidence time is the start of a cycle that completely diagnosed exactly the actions the
      incident still lists, unchanged ever since. */
  lemma {:induction false} EvidenceBacksActions(cfg: Config, writes: seq<Write>) returns (k: nat)
    ensures EvidenceShape(cfg, After(cfg, writes))
    ensures var st := After(cfg, writes);
            st.evidenceTime.Some? ==> DiagnosedAt(cfg, writes, k, st.evidenceTime.value, st.actions)
  {
    k := 0;
    if writes != [] {
      var n := |writes| - 1;
      var cur, st := After(cfg, writes[..n]), After(cfg, writes);
      var earlier := EvidenceBacksActions(cfg, writes[..n]);
      ShapePreserved(cfg, cur, writes[n]);
      if st.evidenceTime.Some? {
        if writes[n].Persist? && EvidenceAfter(cfg, cur, writes[n].result, writes[n].now).0 == Some(writes[n].now) {
          k := n;
          assert writes[..|writes|] == writes;
        } else {
          k := earlier;
          assert st.actions == cur.actions;
          assert writes[..n][k] == writes[k];
          forall j | k < j <= |writes| ensures After(cfg, writes[..j]).actions == st.actions {
            if j <= n {
              assert writes[..n][..j] == writes[..j];
            } else {
              assert writes[..j] == writes;
            }
          }
        }
      }
    }
  }

  /** The executor never accepts evidence that is `timeout + 2 * interval` old or older. */
  lemma AcceptedEvidenceIsYoung(cfg: Config, st: Status, now: int)
    requires EvidenceShape(cfg, st) && EvidenceCurrent(st, now)
    ensures now - st.evidenceTime.value < cfg.timeout + 2 * cfg.interval
  {
  }
}
