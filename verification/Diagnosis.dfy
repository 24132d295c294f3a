/** Engine.Diagnose (internal/diagnosis/engine.go): confirm the target, collect evidence, and recommend
    actions only from complete evidence. */
module Diagnosis {
  import opened Types
  import opened Discovery
  import opened Paging
  import opened Collector
  import opened Enumeration
  import opened Instances
  import opened Framing
  import Policy
  import Incidents
  import Sorting

  const NAMESPACES := GroupResource("", "namespaces")
  const DEFINITIONS := GroupResource("apiextensions.k8s.io", "customresourcedefinitions")
  const CLEANUP := "customresourcecleanup.apiextensions.k8s.io"

  /** The target object; `spec` is what it decodes to, if it does. */
  datatype Decoded = Namespace(finalizers: seq<string>) | Definition(crd: CRD) | Undecodable

  datatype Object = Object(meta: Meta, grace: Option<int>, decoded: Decoded)

  /** The API server as one diagnosis sees it. `conversionReady` is the verdict on a definition's
      conversion webhook. */
  datatype Cluster = Cluster(
    get: string -> Reply<Object>, inNamespace: (GroupResource, string) -> Listing, instances: string -> Listing,
    conversionReady: bool)

  ghost predicate FaithfulLists(c: Cluster) {
    (forall gr, v :: Honours(c.inNamespace(gr, v))) && (forall v :: Honours(c.instances(v)))
  }

  /** `now` is `None` for Go's zero time. */
  datatype Request = Request(target: TargetRef, policy: Policy.CompiledPolicy, now: Option<int>)

  /** The circumstances an action is recommended in. */
  datatype Case = Case(catalog: Snapshot, cluster: Cluster, codec: Codec, policy: Policy.CompiledPolicy,
                       target: TargetRef, obj: Object)

  /** An exhaustive log of the namespace's objects. */
  ghost predicate Logged(k: Case, log: seq<Step>) {
    Exhaustive(k.catalog.ordered, k.cluster.inNamespace, k.policy.settings.maxNamespaceObjects, log)
  }

  ghost predicate InstancesRead(k: Case) {
    k.obj.decoded.Definition?
    && Enumerable(k.cluster.instances, ServedNames(k.obj.decoded.crd.versions), k.policy.settings.maxCRDInstances)
  }

  /** What keeps evidence about a namespace or a definition from being complete. */
  ghost predicate Hindered(k: Case) {
    || (k.target.GR() == NAMESPACES
        && (!k.obj.decoded.Namespace?
            || !NamespaceRead(k.catalog.ordered, k.cluster.inNamespace, k.policy.settings.maxNamespaceObjects)))
    || (k.target.GR() == DEFINITIONS && (!InstancesRead(k) || !k.cluster.conversionReady))
  }

  /** What stands behind a recommended action: for a finalizer removal, the finalizer was read on the target
      itself or on an object of the namespace, at the version it is to be removed from; for the two others,
      complete evidence. */
  ghost predicate Sound(k: Case, a: Action) {
    && a == Incidents.NewAction(k.codec.hash, k.policy, a.typ, a.target, a.finalizer, a.preRv, a.reason)
    && match a.typ
       case ForceFinalizeNamespace =>
         && k.target.GR() == NAMESPACES && a.target == k.target && a.preRv == k.obj.meta.rv && !Hindered(k)
         && k.obj.decoded.Namespace? && k.obj.decoded.finalizers != []
       case RemoveCRDFinalizer =>
         && k.target.GR() == DEFINITIONS && a.target == k.target && a.preRv == k.obj.meta.rv && !Hindered(k)
         && a.finalizer == CLEANUP && CLEANUP in k.obj.meta.finalizers
       case RemoveResourceFinalizer => RemovesOwn(k, a) || RemovesChild(k, a)
       case UnsupportedAction => false
  }

  ghost predicate RemovesOwn(k: Case, a: Action) {
    && a.target == k.target && a.finalizer in k.obj.meta.finalizers && a.preRv == k.obj.meta.rv
    && !Exempt(k, a.finalizer)
  }

  ghost predicate RemovesChild(k: Case, a: Action) {
    && k.target.GR() == NAMESPACES
    && exists log: seq<Step>, t: Step, m: Meta :: Logged(k, log) && t in log && t.outcome.Items? && m in t.outcome.items
         && a.target == Reference(t.resource, t.outcome.version, m) && a.finalizer in m.finalizers && a.preRv == m.rv
  }

  // ---- What is offered ----

  function OwnFinalizer(k: Case, f: string): Finding {
    Plain(BlockingFinalizer, "metadata finalizer " + f + " remains").(resourceRef := Some(k.target), finalizer := f)
  }

  /** The action recommended for one of the target's finalizers. */
  function OwnRemoval(k: Case, f: string): Action {
    Incidents.NewAction(k.codec.hash, k.policy, RemoveResourceFinalizer, k.target, f, k.obj.meta.rv,
                        "remove blocking metadata finalizer " + f)
  }

  /** A definition's cleanup finalizer is left to its own action. */
  predicate Exempt(k: Case, f: string) { k.target.GR() == DEFINITIONS && f == CLEANUP }

  function OwnItems(k: Case, fs: seq<string>): seq<Item> {
    if fs == [] then []
    else
      var f := fs[|fs| - 1];
      OwnItems(k, fs[..|fs| - 1])
      + [F(Identified(k.codec.hash, OwnFinalizer(k, f)))] + if Exempt(k, f) then [] else [A(OwnRemoval(k, f))]
  }

  function GraceExceeded(k: Case): Finding {
    Plain(DeletionGracePeriodExceeded, "deletion grace period has elapsed").(resourceRef := Some(k.target))
  }

  function GraceItems(k: Case, now: int): seq<Item> {
    if k.obj.grace.None? || k.obj.meta.deletion.None? || now <= k.obj.meta.deletion.value then []
    else [F(Identified(k.codec.hash, GraceExceeded(k)))]
  }

  /** What is offered for every target: its grace period and its own finalizers. */
  function CommonItems(k: Case, now: int): seq<Item> {
    GraceItems(k, now) + OwnItems(k, Sorting.Sort(Sorting.Less, k.obj.meta.finalizers))
  }

  const FORCE_REASON := "clear Namespace spec.finalizers after reviewing remaining content"

  function ForceItems(k: Case): seq<Item> {
    if k.obj.decoded.Namespace? && k.obj.decoded.finalizers != [] then
      [A(Incidents.NewAction(k.codec.hash, k.policy, ForceFinalizeNamespace, k.target, "", k.obj.meta.rv,
                             FORCE_REASON))]
    else []
  }

  const CLEANUP_REASON := "remove the CRD cleanup finalizer after complete instance and conversion evidence"

  function CleanupItems(k: Case): seq<Item> {
    if CLEANUP in k.obj.meta.finalizers then
      [A(Incidents.NewAction(k.codec.hash, k.policy, RemoveCRDFinalizer, k.target, CLEANUP, k.obj.meta.rv,
                             CLEANUP_REASON))]
    else []
  }

  /** Exactly what a diagnosis that nothing hinders offers to the collector. */
  ghost predicate Offered(k: Case, now: int, items: seq<Item>) {
    && !Hindered(k)
    && if k.target.GR() == NAMESPACES then
         exists log :: Logged(k, log)
           && items == CommonItems(k, now) + LogItems(k.codec.hash, k.policy, log) + ForceItems(k)
       else if k.target.GR() == DEFINITIONS then
         k.obj.decoded.Definition?
         && items == CommonItems(k, now) + InstanceItems(k.codec.hash, k.obj.decoded.crd,
                                                         k.cluster.instances) + CleanupItems(k)
       else items == CommonItems(k, now)
  }

  /** There is only one such sequence. */
  lemma OfferedOnce(k: Case, now: int, items: seq<Item>, other: seq<Item>)
    requires Offered(k, now, items) && Offered(k, now, other)
    ensures items == other
  {
    hide CommonItems, LogItems, ForceItems, InstanceItems, CleanupItems, Hindered;
    if k.target.GR() == NAMESPACES {
      var log :| Logged(k, log) && items == CommonItems(k, now) + LogItems(k.codec.hash, k.policy, log) + ForceItems(k);
      var log' :| Logged(k, log')
      && other == CommonItems(k, now) + LogItems(k.codec.hash, k.policy, log') + ForceItems(k);
      hide Visited, Namespaced, Whole, Ledger;
      EndedIsOnly(k.catalog.ordered, k.cluster.inNamespace, k.policy.settings.maxNamespaceObjects, log, log');
    }
  }

  // ---- What the offered actions are ----

  lemma {:induction false} OwnActions(k: Case, fs: seq<string>, a: Action)
    ensures A(a) in OwnItems(k, fs) <==> exists f :: f in fs && !Exempt(k, f) && a == OwnRemoval(k, f)
  {
    hide OwnRemoval, OwnFinalizer, Identified, Exempt;
    if fs != [] {
      var init, last := fs[..|fs| - 1], fs[|fs| - 1];
      assert fs == init + [last];
      OwnActions(k, init, a);
      assert A(a) in OwnItems(k, fs) <==> A(a) in OwnItems(k, init) || (!Exempt(k, last) && a == OwnRemoval(k, last));
      hide OwnItems;
    }
  }

  lemma CommonActions(k: Case, now: int, a: Action)
    ensures A(a) in CommonItems(k, now) <==>
              exists f :: f in k.obj.meta.finalizers && !Exempt(k, f) && a == OwnRemoval(k, f)
  {
    OwnActions(k, Sorting.Sort(Sorting.Less, k.obj.meta.finalizers), a);
    SortMembers(k.obj.meta.finalizers);
    hide OwnItems, OwnRemoval, Identified, Exempt, GraceExceeded, Sorting.Sort;
  }

  lemma OwnRemovalSound(k: Case, f: string)
    requires f in k.obj.meta.finalizers && !Exempt(k, f)
    ensures Sound(k, OwnRemoval(k, f))
  {
    hide Incidents.ActionId, Policy.RiskFor, Policy.Eligible, Policy.IneligibleReason, Hindered, RemovesChild;
  }

  lemma ChildRemovalSound(k: Case, log: seq<Step>, a: Action)
    requires k.target.GR() == NAMESPACES && Logged(k, log) && RemovesFrom(k.codec.hash, k.policy, log, a)
    ensures Sound(k, a)
  {
    hide Incidents.ActionId, Policy.RiskFor, Policy.Eligible, Policy.IneligibleReason, Hindered, RemovesOwn, Logged,
      Reference;
    var t :| t in log && t.outcome.Items?
             && RemovesRead(k.codec.hash, k.policy, Reading(t.resource, t.outcome.version, t.outcome.items), a);
    var m, f :| m in t.outcome.items && f in m.finalizers
                && a == FinalizerRemoval(k.codec.hash, k.policy, Reference(t.resource, t.outcome.version, m), f, m.rv);
    assert RemovesChild(k, a);
  }

  lemma SpecialSound(k: Case, a: Action)
    requires !Hindered(k)
    ensures k.target.GR() == NAMESPACES && A(a) in ForceItems(k) ==> Sound(k, a)
    ensures k.target.GR() == DEFINITIONS && A(a) in CleanupItems(k) ==> Sound(k, a)
  {
    hide Incidents.ActionId, Policy.RiskFor, Policy.Eligible, Policy.IneligibleReason, Hindered, RemovesOwn,
      RemovesChild;
  }

  /** Every offered action is sound. */
  lemma OfferedSound(k: Case, now: int, items: seq<Item>, a: Action)
    requires Offered(k, now, items) && A(a) in items
    ensures Sound(k, a)
  {
    hide Sound, CommonItems, LogItems, ForceItems, CleanupItems, FirstSeen, Hindered, AllSightings, Logged, OwnRemoval,
      Exempt;
    CommonActions(k, now, a);
    SpecialSound(k, a);
    if A(a) in CommonItems(k, now) {
      var f :| f in k.obj.meta.finalizers && !Exempt(k, f) && a == OwnRemoval(k, f);
      OwnRemovalSound(k, f);
    } else if k.target.GR() == NAMESPACES {
      var log :| Logged(k, log) && items == CommonItems(k, now) + LogItems(k.codec.hash, k.policy, log) + ForceItems(k);
      LogActions(k.codec.hash, k.policy, log, a);
      if A(a) !in ForceItems(k) { ChildRemovalSound(k, log, a); }
    } else if k.target.GR() == DEFINITIONS {
      FirstSeenFindings(k.codec.hash, k.obj.decoded.crd,
                        AllSightings(k.cluster.instances,
                                     Sorting.Sort(Sorting.Less, ServedNames(k.obj.decoded.crd.versions))));
    }
  }

  /** Every finalizer of the target, and of every object read in a namespace, gets its action. */
  ghost predicate Addressed(k: Case, items: seq<Item>) {
    && (forall f :: f in k.obj.meta.finalizers && !Exempt(k, f) ==> A(OwnRemoval(k, f)) in items)
    && (k.target.GR() == NAMESPACES ==>
          forall log, a :: Logged(k, log) && RemovesFrom(k.codec.hash, k.policy, log, a) ==> A(a) in items)
    && (k.target.GR() == NAMESPACES && k.obj.decoded.Namespace? && k.obj.decoded.finalizers != [] ==>
          exists a :: A(a) in items && a.typ.ForceFinalizeNamespace?)
    && (k.target.GR() == DEFINITIONS && CLEANUP in k.obj.meta.finalizers ==>
          exists a :: A(a) in items && a.typ.RemoveCRDFinalizer?)
  }

  lemma OfferedAddresses(k: Case, now: int, items: seq<Item>)
    requires Offered(k, now, items)
    ensures Addressed(k, items)
  {
    hide CommonItems, LogItems, ForceItems, CleanupItems, InstanceItems, Hindered, OwnRemoval, Exempt, RemovesFrom,
      Logged;
    forall f | f in k.obj.meta.finalizers && !Exempt(k, f) ensures A(OwnRemoval(k, f)) in items {
      CommonActions(k, now, OwnRemoval(k, f));
    }
    if k.target.GR() == NAMESPACES {
      forall log, a | Logged(k, log) && RemovesFrom(k.codec.hash, k.policy, log, a) ensures A(a) in items {
        var mine :| Logged(k, mine)
        && items == CommonItems(k, now) + LogItems(k.codec.hash, k.policy, mine) + ForceItems(k);
        LoggedOnce(k, log, mine);
        LogActions(k.codec.hash, k.policy, log, a);
      }
    }
    SpecialOffered(k);
  }

  lemma SpecialOffered(k: Case)
    ensures k.obj.decoded.Namespace? && k.obj.decoded.finalizers != [] ==>
              exists a :: A(a) in ForceItems(k) && a.typ.ForceFinalizeNamespace?
    ensures CLEANUP in k.obj.meta.finalizers ==> exists a :: A(a) in CleanupItems(k) && a.typ.RemoveCRDFinalizer?
  {
    hide Policy.Eligible, Policy.RiskFor, Policy.IneligibleReason, Incidents.ActionId;
    var force := Incidents.NewAction(k.codec.hash, k.policy, ForceFinalizeNamespace, k.target, "", k.obj.meta.rv,
                                     FORCE_REASON);
    var cleanup := Incidents.NewAction(k.codec.hash, k.policy, RemoveCRDFinalizer, k.target, CLEANUP, k.obj.meta.rv,
                                       CLEANUP_REASON);
    assert force.typ.ForceFinalizeNamespace? && cleanup.typ.RemoveCRDFinalizer?;
    assert k.obj.decoded.Namespace? && k.obj.decoded.finalizers != [] ==> A(force) in ForceItems(k);
    assert CLEANUP in k.obj.meta.finalizers ==> A(cleanup) in CleanupItems(k);
  }

  lemma LoggedOnce(k: Case, log: seq<Step>, other: seq<Step>)
    requires Logged(k, log) && Logged(k, other)
    ensures log == other
  {
    hide Visited, Namespaced, Whole, Ledger;
    EndedIsOnly(k.catalog.ordered, k.cluster.inNamespace, k.policy.settings.maxNamespaceObjects, log, other);
  }

  // ---- The analyses ----

  lemma OwnItemsSnoc(k: Case, fs: seq<string>, i: nat)
    requires i < |fs|
    ensures OwnItems(k, fs[..i + 1]) ==
              OwnItems(k, fs[..i]) + [F(Identified(k.codec.hash, OwnFinalizer(k, fs[i])))]
              + if Exempt(k, fs[i]) then [] else [A(OwnRemoval(k, fs[i]))]
  {
    assert fs[..i + 1][..i] == fs[..i];
  }

  /** analyzeMetadataFinalizers. */
  method AnalyzeFinalizers(k: Case, evidence: Evidence)
    requires evidence.Valid() && k.codec == evidence.codec
    modifies evidence
    ensures evidence.Valid()
    ensures evidence.offers == old(evidence.offers) + OwnItems(k, Sorting.Sort(Sorting.Less, k.obj.meta.finalizers))
  {
    hide OfferAll, Offer, Identified, OwnFinalizer, OwnRemoval, Exempt, Sorting.Sort, OwnItems;
    var finalizers := Sorting.Sort(Sorting.Less, k.obj.meta.finalizers);
    assert OwnItems(k, finalizers[..0]) == [] by { NoOwnItems(k, finalizers); }
    for i := 0 to |finalizers|
      invariant evidence.Valid() && evidence.offers == old(evidence.offers) + OwnItems(k, finalizers[..i])
    {
      var f := finalizers[i];
      OwnItemsSnoc(k, finalizers, i);
      evidence.AddFinding(OwnFinalizer(k, f));
      if Exempt(k, f) { continue; }
      evidence.AddAction(OwnRemoval(k, f));
    }
    assert finalizers[..|finalizers|] == finalizers;
  }

  lemma NoOwnItems(k: Case, fs: seq<string>)
    ensures OwnItems(k, fs[..0]) == []
  {
  }

  /** analyzeGracePeriod. */
  method AnalyzeGracePeriod(k: Case, now: int, evidence: Evidence)
    requires evidence.Valid() && k.codec == evidence.codec
    modifies evidence
    ensures evidence.Valid() && evidence.offers == old(evidence.offers) + GraceItems(k, now)
  {
    hide OfferAll, Offer, Identified, GraceExceeded;
    if k.obj.grace.None? || k.obj.meta.deletion.None? || now <= k.obj.meta.deletion.value { return; }
    evidence.AddFinding(GraceExceeded(k));
  }

  method AnalyzeCommon(k: Case, now: int, evidence: Evidence)
    requires evidence.Valid() && k.codec == evidence.codec && evidence.offers == []
    modifies evidence
    ensures evidence.Valid() && evidence.offers == CommonItems(k, now)
  {
    hide OfferAll, Offer, GraceItems, OwnItems, Sorting.Sort;
    AnalyzeGracePeriod(k, now, evidence);
    AnalyzeFinalizers(k, evidence);
  }

  /** The finalizers in the spec of a namespace that can be decoded, in order. */
  function NamespaceFinalizers(k: Case): seq<string> {
    if k.target.GR() == NAMESPACES && k.obj.decoded.Namespace?
    then Sorting.Sort(Sorting.Less, k.obj.decoded.finalizers) else []
  }

  /** diagnoseNamespace: complete exactly when nothing hinders, and then exactly what is due is offered. */
  method DiagnoseNamespace(k: Case, now: int, evidence: Evidence) returns (complete: bool, nsFinalizers: seq<string>)
    requires FaithfulLists(k.cluster) && k.target.GR() == NAMESPACES && k.codec == evidence.codec
    requires evidence.Valid() && evidence.offers == []
    modifies evidence
    ensures evidence.Valid() && (complete <==> !Hindered(k)) && (complete ==> Offered(k, now, evidence.offers))
    ensures nsFinalizers == NamespaceFinalizers(k)
  {
    hide OfferAll, Offer, Identified, Plain, CommonItems, LogItems, Incidents.NewAction, Ended, ReadThrough,
      NamespaceRead, Exhaustive;
    nsFinalizers := [];
    if !k.obj.decoded.Namespace? {
      evidence.AddFinding(Plain(DiscoveryFailure, "decode Namespace target"));
      return false, [];
    }
    nsFinalizers := Sorting.Sort(Sorting.Less, k.obj.decoded.finalizers);
    AnalyzeCommon(k, now, evidence);
    ghost var log;
    complete, log := EnumerateNamespace(k.catalog, k.policy, k.cluster.inNamespace, evidence);
    if complete {
      NoLimitItems(k, log);
      assert evidence.offers == CommonItems(k, now) + LogItems(k.codec.hash, k.policy, log);
      if k.obj.decoded.finalizers != [] {
        evidence.AddAction(
          Incidents.NewAction(k.codec.hash, k.policy, ForceFinalizeNamespace, k.target, "", k.obj.meta.rv,
                              FORCE_REASON));
      }
      assert evidence.offers == CommonItems(k, now) + LogItems(k.codec.hash, k.policy, log) + ForceItems(k);
      assert Logged(k, log);
    }
  }

  lemma NoLimitItems(k: Case, log: seq<Step>)
    requires Logged(k, log)
    ensures LimitItems(k.codec.hash, k.catalog.ordered, log) == []
  {
    hide Visited, Namespaced, Ledger;
    assert log != [] ==> log[|log| - 1] in log;
  }

  /** diagnoseCRD: complete exactly when nothing hinders, and then exactly what is due is offered. */
  method DiagnoseDefinition(k: Case, now: int, evidence: Evidence) returns (complete: bool)
    requires FaithfulLists(k.cluster) && k.target.GR() == DEFINITIONS && k.codec == evidence.codec
    requires evidence.Valid() && evidence.offers == []
    modifies evidence
    ensures evidence.Valid() && (complete <==> !Hindered(k)) && (complete ==> Offered(k, now, evidence.offers))
  {
    hide OfferAll, Offer, Identified, Plain, CommonItems, Enumerable, OnePerUid, InstanceItems, Incidents.NewAction,
      ServedNames;
    if !k.obj.decoded.Definition? {
      evidence.AddFinding(Plain(DiscoveryFailure, "decode CustomResourceDefinition target"));
      return false;
    }
    AnalyzeCommon(k, now, evidence);
    var listed := EnumerateCRDInstances(
      k.obj.decoded.crd, k.cluster.instances, k.policy.settings.maxCRDInstances, evidence);
    complete := listed && k.cluster.conversionReady;
    if !k.cluster.conversionReady {
      evidence.AddFinding(Plain(UnknownFinding, "CRD conversion webhook is not ready"));
    }
    if complete && CLEANUP in k.obj.meta.finalizers {
      evidence.AddAction(
        Incidents.NewAction(k.codec.hash, k.policy, RemoveCRDFinalizer, k.target, CLEANUP, k.obj.meta.rv,
                            CLEANUP_REASON));
    }
    if complete {
      assert evidence.offers ==
               CommonItems(k, now) + InstanceItems(k.codec.hash, k.obj.decoded.crd,
                                                   k.cluster.instances) + CleanupItems(k);
    }
  }

  // ---- The whole diagnosis ----

  /** The kind under which the catalog's version of that name exposes the target; a version that is not in the
      catalog leaves the kind as it was. */
  ghost predicate KindIs(catalog: Snapshot, target: TargetRef, version: string, kind: string) {
    match catalog.Resolve(target.GR())
    case None => kind == target.kind
    case Some(resource) =>
      var versions := Ordered(resource, version);
      if HasName(resource.Versions(), version)
      then exists i :: 0 <= i < |versions| && versions[i].version == version && versions[i].kind == kind
      else kind == target.kind
  }

  method KindAt(catalog: Snapshot, target: TargetRef, version: string) returns (kind: string)
    ensures KindIs(catalog, target, version, kind)
  {
    hide Ordered;
    kind := target.kind;
    match catalog.Resolve(target.GR())
    case None =>
    case Some(resource) =>
      var versions := OrderedVersions(resource, version);
      ServedIsOrdered(resource, versions, version);
      for i := 0 to |versions|
        invariant forall k :: 0 <= k < i ==> versions[k].version != version
      {
        if versions[i].version == version {
          return versions[i].kind;
        }
      }
  }

  lemma ServedIsOrdered(r: Resource, versions: seq<Version>, version: string)
    requires VersionOrder(r, version, versions)
    ensures HasName(r.Versions(), version) <==> HasName(versions, version)
  {
    var all := r.Versions();
    if HasName(all, version) {
      var i :| 0 <= i < |all| && all[i].version == version;
      assert all[i] in all;
    }
    if HasName(versions, version) {
      var i :| 0 <= i < |versions| && versions[i].version == version;
      assert versions[i] in versions;
    }
  }

  const FOUND_NOTHING := Incidents.Result(false, false, false, true, Incidents.NO_SNAPSHOT, [], [])

  /** The object a result speaks of: the one read, under the version it was read at and its kind there. */
  ghost predicate Read(catalog: Snapshot, cluster: Cluster, req: Request, k: Case) {
    && k.catalog == catalog && k.cluster == cluster && k.policy == req.policy
    && k.target == req.target.(version := k.target.version, kind := k.target.kind)
    && KindIs(catalog, req.target, k.target.version, k.target.kind)
    && Consulted(catalog, req.target, cluster.get, k.target.version) && cluster.get(k.target.version) == Found(k.obj)
  }

  /** What is offered does not fit into the persisted status. */
  ghost predicate Overflows(k: Case, now: int) {
    exists items :: Offered(k, now, items) && Overflow(OfferAll(k.codec, items))
  }

  /** The result lists exactly what the collector kept of some items, sorted. */
  ghost predicate Reports(codec: Codec, items: seq<Item>, r: Incidents.Result) {
    && Sorting.Sorted(FindingLess, r.findings) && multiset(r.findings) == FindingBag(OfferAll(codec, items))
    && Sorting.Sorted(ActionLess, r.actions) && multiset(r.actions) == ActionBag(OfferAll(codec, items))
  }

  /** Each finalizer of the target, and of each object read in a namespace, has an action in the result; with an
      injective digest force-finalizing is among the actions exactly when a namespace has finalizers in its spec,
      and the removal of the cleanup finalizer exactly when a definition has it. */
  ghost predicate Covers(k: Case, r: Incidents.Result) {
    && (forall f :: f in k.obj.meta.finalizers && !Exempt(k, f) ==>
          exists b :: b in r.actions && b.id == OwnRemoval(k, f).id)
    && (k.target.GR() == NAMESPACES ==>
          forall log, a :: Logged(k, log) && RemovesFrom(k.codec.hash, k.policy, log, a) ==>
            exists b :: b in r.actions && b.id == a.id)
    && (Incidents.Injective(k.codec.hash) && k.target.GR() == GroupResource("", "namespaces") ==>
          ((exists b :: b in r.actions && Forces(k, b)) <==>
             k.obj.decoded.Namespace? && k.obj.decoded.finalizers != []))
    && (Incidents.Injective(k.codec.hash)
        && k.target.GR() == GroupResource("apiextensions.k8s.io", "customresourcedefinitions") ==>
          ((exists b :: b in r.actions && Cleans(k, b)) <==>
             "customresourcecleanup.apiextensions.k8s.io" in k.obj.meta.finalizers))
  }

  /** Clears the finalizers in the spec of the very namespace diagnosed, at the version read. */
  ghost predicate Forces(k: Case, a: Action) {
    a.typ.ForceFinalizeNamespace? && a.target == k.target && a.preRv == k.obj.meta.rv
  }

  /** Removes the cleanup finalizer of the very definition diagnosed, at the version read. */
  ghost predicate Cleans(k: Case, a: Action) {
    && a.typ.RemoveCRDFinalizer? && a.target == k.target && a.preRv == k.obj.meta.rv
    && a.finalizer == "customresourcecleanup.apiextensions.k8s.io"
  }

  /** The evidence about a target that is stuck past the threshold: complete exactly when nothing hinders it
      and it fits, and then exactly what is due is reported; otherwise no action is recommended. */
  ghost predicate EvidenceOk(k: Case, now: int, r: Incidents.Result) {
    && (r.complete <==> !Hindered(k) && !Overflows(k, now))
    && (!r.complete ==> r.actions == [])
    && (r.complete ==> (exists items :: Offered(k, now, items) && Reports(k.codec, items, r)) && Covers(k, r))
    && (forall a :: a in r.actions ==> Sound(k, a))
  }

  /** What a result may claim about the object that was read. */
  ghost predicate Grounded(k: Case, now: int, r: Incidents.Result) {
    && (r.uidMatches <==> k.obj.meta.uid == k.target.uid)
    && (r.thresholdElapsed <==>
          r.uidMatches && k.obj.meta.deletion.Some?
          && now >= k.obj.meta.deletion.value + k.policy.settings.terminationAge)
    && (!r.thresholdElapsed ==> r.complete && r.findings == [] && r.actions == [])
    && r.snapshot ==
         (if !r.uidMatches then Incidents.NO_SNAPSHOT
          else Incidents.TargetSnapshot(k.obj.meta.rv, Sorting.Sort(Sorting.Less, k.obj.meta.finalizers),
                                        if r.thresholdElapsed then NamespaceFinalizers(k) else []))
    && (r.thresholdElapsed ==> EvidenceOk(k, now, r))
  }

  /** Diagnose; `None` is an error. Absence is concluded only when every served version says so.
      Actions are recommended only from complete evidence about the very object asked for, stuck past
      the policy's threshold, and each of them is sound; complete evidence covers every finalizer of
      the target. */
  method Diagnose(catalog: Snapshot, cluster: Cluster, codec: Codec, req: Request)
    returns (r: Option<Incidents.Result>, ghost k: Case)
    requires FaithfulLists(cluster)
    ensures r.Some? ==> req.policy.ready && req.now.Some?
    ensures r.Some? && !r.value.targetFound ==> r.value == FOUND_NOTHING
    ensures r.Some? && !r.value.targetFound && catalog.Resolve(req.target.GR()).Some? ==>
              forall v :: v in catalog.Resolve(req.target.GR()).value.Versions() ==> Unavailable(cluster.get(v.version))
    ensures r.Some? && r.value.targetFound ==>
              k.codec == codec && Read(catalog, cluster, req, k) && Grounded(k, req.now.value, r.value)
    ensures r.None? && req.policy.ready && req.now.Some? ==>
              exists v :: Consulted(catalog, req.target, cluster.get, v) && cluster.get(v).OtherError?
  {
    hide EvidenceOk, KindIs;
    r, k := None, Case(catalog, cluster, codec, req.policy, req.target,
                       Object(Meta("", "", "", "", map[], [], None), None, Undecodable));
    if !req.policy.ready || req.now.None? { return; }
    var now := req.now.value;
    var reply, version := GetCurrent(catalog, req.target, cluster.get);
    if Unavailable(reply) {
      r := Some(FOUND_NOTHING);
      return;
    }
    if !reply.Found? {
      assert Consulted(catalog, req.target, cluster.get, version) && cluster.get(version).OtherError?;
      return;
    }
    var obj := reply.value;
    var kind := KindAt(catalog, req.target, version);
    var here := Case(catalog, cluster, codec, req.policy, req.target.(version := version, kind := kind), obj);
    k := here;
    var result := FOUND_NOTHING.(targetFound := true);
    if obj.meta.uid != req.target.uid {
      r := Some(result);
      return;
    }
    result := result.(uidMatches := true,
      snapshot := Incidents.TargetSnapshot(obj.meta.rv, Sorting.Sort(Sorting.Less, obj.meta.finalizers), []));
    if obj.meta.deletion.None? || now < obj.meta.deletion.value + req.policy.settings.terminationAge {
      r := Some(result);
      return;
    }
    result := Collect(here, now, result.(thresholdElapsed := true));
    r := Some(result);
  }

  /** Collect the evidence and conclude. */
  method Collect(k: Case, now: int, found: Incidents.Result) returns (r: Incidents.Result)
    requires FaithfulLists(k.cluster)
    ensures r.targetFound == found.targetFound && r.uidMatches == found.uidMatches
    ensures r.thresholdElapsed == found.thresholdElapsed
    ensures r.snapshot == found.snapshot.(nsFinalizers := NamespaceFinalizers(k))
    ensures EvidenceOk(k, now, r)
  {
    hide OfferAll, Offer, FindingBag, ActionBag, Summary, Hindered, Offered, EvidenceOk, CommonItems;
    var evidence := new Evidence(k.codec);
    var complete, nsFinalizers := true, [];
    if k.target.GR() == NAMESPACES {
      complete, nsFinalizers := DiagnoseNamespace(k, now, evidence);
    } else if k.target.GR() == DEFINITIONS {
      complete := DiagnoseDefinition(k, now, evidence);
    } else {
      AnalyzeCommon(k, now, evidence);
      PlainTarget(k, now);
    }
    ghost var unhindered := complete;
    var findings, actions, overflow := evidence.Result();
    if overflow { complete := false; }
    r := found.(complete := complete, snapshot := found.snapshot.(nsFinalizers := nsFinalizers), findings := findings,
                actions := if complete then actions else []);
    if unhindered {
      assert complete ==> Matched(evidence.offers, actions);
      hide Matched;
      Decided(k, now, evidence.offers, r);
    } else {
      Undecided(k, now, r);
    }
  }

  lemma PlainTarget(k: Case, now: int)
    requires k.target.GR() != NAMESPACES && k.target.GR() != DEFINITIONS
    ensures !Hindered(k) && Offered(k, now, CommonItems(k, now))
  {
  }

  lemma Undecided(k: Case, now: int, r: Incidents.Result)
    requires Hindered(k) && !r.complete && r.actions == []
    ensures EvidenceOk(k, now, r)
  {
    hide Sound, Offered, Covers, Reports;
  }

  /** Every offered action has one of its ID among the actions. */
  ghost predicate Matched(items: seq<Item>, acts: seq<Action>) {
    forall a :: A(a) in items ==> exists b :: b in acts && A(b) in items && b.id == a.id
  }

  /** A diagnosis that nothing hinders is decided by what it offered. */
  lemma Decided(k: Case, now: int, items: seq<Item>, r: Incidents.Result)
    requires !Hindered(k) && Offered(k, now, items)
    requires r.complete <==> !Overflow(OfferAll(k.codec, items))
    requires !r.complete ==> r.actions == []
    requires r.complete ==> Reports(k.codec, items, r) && forall a :: a in r.actions ==> A(a) in items
    requires r.complete ==> Matched(items, r.actions)
    ensures EvidenceOk(k, now, r)
  {
    hide Sound, Offered, Reports, OfferAll, Overflow, Hindered, Addressed, Covers, Matched;
    if Overflows(k, now) {
      var other :| Offered(k, now, other) && Overflow(OfferAll(k.codec, other));
      OfferedOnce(k, now, items, other);
    }
    forall a | a in r.actions ensures Sound(k, a) { OfferedSound(k, now, items, a); }
    if r.complete {
      OfferedAddresses(k, now, items);
      AddressedCovers(k, now, items, r);
    }
  }

  lemma AddressedCovers(k: Case, now: int, items: seq<Item>, r: Incidents.Result)
    requires Addressed(k, items) && Offered(k, now, items)
    requires Matched(items, r.actions) && forall a :: a in r.actions ==> Sound(k, a)
    ensures Covers(k, r)
  {
    hide OwnRemoval, Exempt, Logged, RemovesFrom, Offered, Sound, Forces, Cleans, Incidents.Injective;
    forall f | f in k.obj.meta.finalizers && !Exempt(k, f)
      ensures exists b :: b in r.actions && b.id == OwnRemoval(k, f).id
    {
      var b :| b in r.actions && A(b) in items && b.id == OwnRemoval(k, f).id;
    }
    if k.target.GR() == NAMESPACES {
      forall log, a | Logged(k, log) && RemovesFrom(k.codec.hash, k.policy, log, a)
        ensures exists b :: b in r.actions && b.id == a.id
      {
        assert A(a) in items;
        var b :| b in r.actions && A(b) in items && b.id == a.id;
      }
    }
    if Incidents.Injective(k.codec.hash) {
      SpecialReported(k, now, items, r);
    }
    SpecialOnly(k, r);
  }

  /** What is special about a namespace or a definition is reported under its own type. */
  lemma SpecialReported(k: Case, now: int, items: seq<Item>, r: Incidents.Result)
    requires Incidents.Injective(k.codec.hash) && Addressed(k, items) && Offered(k, now, items)
    requires Matched(items, r.actions) && forall a :: a in r.actions ==> Sound(k, a)
    ensures k.target.GR() == NAMESPACES && k.obj.decoded.Namespace? && k.obj.decoded.finalizers != [] ==>
              exists b :: b in r.actions && Forces(k, b)
    ensures k.target.GR() == DEFINITIONS && CLEANUP in k.obj.meta.finalizers ==>
              exists b :: b in r.actions && Cleans(k, b)
  {
    hide OwnRemoval, Exempt, Logged, RemovesFrom, Offered, Sound, Incidents.Injective, Forces, Cleans, Matched;
    if k.target.GR() == NAMESPACES && k.obj.decoded.Namespace? && k.obj.decoded.finalizers != [] {
      var a :| A(a) in items && a.typ.ForceFinalizeNamespace?;
      var b := ReportedAs(k, now, items, r, a);
      SoundSpecial(k, b);
    }
    if k.target.GR() == DEFINITIONS && CLEANUP in k.obj.meta.finalizers {
      var a :| A(a) in items && a.typ.RemoveCRDFinalizer?;
      var b := ReportedAs(k, now, items, r, a);
      SoundSpecial(k, b);
    }
  }

  lemma ReportedAs(k: Case, now: int, items: seq<Item>, r: Incidents.Result, a: Action) returns (b: Action)
    requires Incidents.Injective(k.codec.hash) && Offered(k, now, items) && A(a) in items && Matched(items, r.actions)
    ensures b in r.actions && b.id == a.id && b.typ == a.typ
  {
    hide Offered, Incidents.Injective;
    b :| b in r.actions && A(b) in items && b.id == a.id;
    SameType(k, now, items, a, b);
  }

  lemma SameType(k: Case, now: int, items: seq<Item>, a: Action, b: Action)
    requires Incidents.Injective(k.codec.hash) && Offered(k, now, items)
    requires A(a) in items && A(b) in items && a.id == b.id
    ensures a.typ == b.typ
  {
    hide Offered, Policy.Eligible, Policy.RiskFor, Policy.IneligibleReason, Incidents.ActionId, Incidents.Injective;
    OfferedSound(k, now, items, a);
    OfferedSound(k, now, items, b);
    Incidents.IdTellsType(k.codec.hash,
                          Binding(a.typ, a.target.uid, a.finalizer, a.preRv, k.policy.uid, k.policy.generation),
                          Binding(b.typ, b.target.uid, b.finalizer, b.preRv, k.policy.uid, k.policy.generation));
  }

  lemma SoundSpecial(k: Case, a: Action)
    requires Sound(k, a)
    ensures a.typ.ForceFinalizeNamespace? ==>
              Forces(k, a) && k.target.GR() == NAMESPACES && k.obj.decoded.Namespace? && k.obj.decoded.finalizers != []
    ensures a.typ.RemoveCRDFinalizer? ==>
              Cleans(k, a) && k.target.GR() == DEFINITIONS && CLEANUP in k.obj.meta.finalizers
  {
    hide Policy.Eligible, Policy.RiskFor, Policy.IneligibleReason, Incidents.ActionId, Hindered, RemovesOwn,
      RemovesChild;
  }

  lemma SpecialOnly(k: Case, r: Incidents.Result)
    requires forall a :: a in r.actions ==> Sound(k, a)
    ensures (exists b :: b in r.actions && Forces(k, b)) ==> k.obj.decoded.Namespace? && k.obj.decoded.finalizers != []
    ensures (exists b :: b in r.actions && Cleans(k, b)) ==> CLEANUP in k.obj.meta.finalizers
  {
    hide Sound;
    if b :| b in r.actions && Forces(k, b) { SoundSpecial(k, b); }
    if b :| b in r.actions && Cleans(k, b) { SoundSpecial(k, b); }
  }
}
