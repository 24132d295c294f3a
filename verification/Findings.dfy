/** What a diagnosis reports: findings by what they say, from finding IDs (internal/diagnosis/engine.go) to the
    contents of a complete result (internal/diagnosis/analyzers.go). */
module Findings {
  import opened Types
  import opened Framing
  import opened Discovery
  import opened Paging
  import opened Collector
  import opened Enumeration
  import opened Instances
  import opened Diagnosis
  import Policy
  import Incidents
  import Sorting

  // ---- Finding IDs ----

  /** A finding with at most 1024 characters of its message. */
  ghost function Shortened(f: Finding): Finding {
    f.(message := if |f.message| <= 1024 then f.message else f.message[..1024])
  }

  lemma IdentifiedKeeps(hash: string -> string, f: Finding)
    ensures Identified(hash, f) == Shortened(f).(id := Identified(hash, f).id)
    ensures Hashed(Identified(hash, f)) == Hashed(Shortened(f))
  {
    hide FindingId;
  }

  lemma ShortenedNulFree(f: Finding)
    requires NulFreeFinding(f)
    ensures NulFreeFinding(Shortened(f))
  {
    assert forall c :: c in Shortened(f).message ==> c in f.message;
  }

  /** Two findings get one ID exactly when they agree, once shortened, on everything but their own IDs and the kinds
      of their resources. */
  lemma IdsExactly(hash: string -> string, f: Finding, g: Finding)
    requires Incidents.Injective(hash) && NulFreeFinding(f) && NulFreeFinding(g)
    ensures Identified(hash, f).id == Identified(hash, g).id <==> Hashed(Shortened(f)) == Hashed(Shortened(g))
  {
    var a, b := Shortened(f), Shortened(g);
    ShortenedNulFree(f);
    ShortenedNulFree(g);
    FindingFrameDetermines(a, b);
    var x, y := hash(Join(FindingParts(a))), hash(Join(FindingParts(b)));
    assert Identified(hash, f).id == "finding-" + x && Identified(hash, g).id == "finding-" + y;
    assert x == ("finding-" + x)[8..] && y == ("finding-" + y)[8..];
    hide Join, FindingParts, Hashed;
  }

  /** Every offered finding has been identified, and nothing in it contains a NUL. */
  ghost predicate AllIdentified(hash: string -> string, items: seq<Item>) {
    forall x :: F(x) in items ==> exists f :: NulFreeFinding(f) && x == Identified(hash, f)
  }

  lemma SameIdSameFinding(hash: string -> string, items: seq<Item>, x: Finding, y: Finding)
    requires Incidents.Injective(hash) && AllIdentified(hash, items) && F(x) in items && F(y) in items
    ensures x.id == y.id <==> Hashed(x) == Hashed(y)
  {
    hide Incidents.Injective, NulFreeFinding, Identified, Hashed;
    var f :| NulFreeFinding(f) && x == Identified(hash, f);
    var g :| NulFreeFinding(g) && y == Identified(hash, g);
    IdsExactly(hash, f, g);
    IdentifiedKeeps(hash, f);
    IdentifiedKeeps(hash, g);
  }

  /** The kind of a resource follows from its group, version and name. */
  ghost predicate KindsAgree(items: seq<Item>) {
    forall x, y :: F(x) in items && F(y) in items && x.resourceRef.Some? && y.resourceRef.Some?
                   && x.resourceRef.value.(kind := "") == y.resourceRef.value.(kind := "") ==>
      x.resourceRef.value.kind == y.resourceRef.value.kind
  }

  /** Among identified findings, those with equal IDs are equal: the half of coherence that is about findings. */
  lemma IdentifiedAreCoherent(hash: string -> string, items: seq<Item>, x: Finding, y: Finding)
    requires Incidents.Injective(hash) && AllIdentified(hash, items) && KindsAgree(items)
    requires F(x) in items && F(y) in items && x.id == y.id
    ensures x == y
  {
    hide Incidents.Injective, AllIdentified;
    SameIdSameFinding(hash, items, x, y);
    assert x.(id := "", resourceRef := None) == y.(id := "", resourceRef := None) by { SameButReference(x, y); }
  }

  lemma SameButReference(x: Finding, y: Finding)
    requires Hashed(x) == Hashed(y)
    ensures x.(id := "", resourceRef := None) == y.(id := "", resourceRef := None)
    ensures x.resourceRef.Some? == y.resourceRef.Some?
    ensures x.resourceRef.Some? ==> x.resourceRef.value.(kind := "") == y.resourceRef.value.(kind := "")
  {
    var a, b := Hashed(x), Hashed(y);
    assert a.(resourceRef := None) == b.(resourceRef := None) && a.resourceRef == b.resourceRef;
  }

  /** The reported findings are those kept. */
  ghost predicate Reported(c: Codec, items: seq<Item>, fs: seq<Finding>) {
    multiset(fs) == FindingBag(OfferAll(c, items)) && !Overflow(OfferAll(c, items))
  }

  lemma ReportedIsKept(c: Codec, items: seq<Item>, fs: seq<Finding>, g: Finding)
    requires Reported(c, items, fs) && g in fs
    ensures F(g) in items
  {
    var kept := OfferAll(c, items).findings;
    KeptWereOffered(c, items);
    hide OfferAll;
    assert g in multiset(fs);
    BagMembers(kept, kept.Keys, g);
  }

  lemma OfferedIsReported(c: Codec, items: seq<Item>, fs: seq<Finding>, f: Finding) returns (g: Finding)
    requires Reported(c, items, fs) && F(f) in items
    ensures g in fs && F(g) in items && g.id == f.id
  {
    var kept := OfferAll(c, items).findings;
    OfferedFindingsKept(c, items);
    KeptWereOffered(c, items);
    KeptUnderTheirIds(c, items);
    hide OfferAll;
    g := kept[f.id];
    BagHolds(kept, kept.Keys, f.id);
    assert g in multiset(fs);
  }

  lemma ReportedOnce(c: Codec, items: seq<Item>, fs: seq<Finding>, i: nat, j: nat)
    requires Reported(c, items, fs) && i < j < |fs|
    ensures fs[i].id != fs[j].id
  {
    KeptUnderTheirIds(c, items);
    hide OfferAll;
    OncePerId(OfferAll(c, items).findings, fs, i, j);
  }

  /** Some reported finding says the same. */
  ghost predicate SaidIn(fs: seq<Finding>, f: Finding) { exists g :: g in fs && Hashed(g) == Hashed(f) }

  lemma OfferedIsSaid(c: Codec, items: seq<Item>, fs: seq<Finding>, f: Finding)
    requires Reported(c, items, fs) && Incidents.Injective(c.hash) && AllIdentified(c.hash, items) && F(f) in items
    ensures SaidIn(fs, f)
  {
    hide Incidents.Injective, AllIdentified, Hashed, Reported;
    var g := OfferedIsReported(c, items, fs, f);
    SameIdSameFinding(c.hash, items, f, g);
  }

  /** Without overflow the reported findings are exactly the distinct ones offered: each was offered, what was
      offered is said, and no two say the same. */
  lemma FindingsReported(c: Codec, items: seq<Item>, fs: seq<Finding>)
    requires Reported(c, items, fs) && Incidents.Injective(c.hash) && AllIdentified(c.hash, items)
    ensures forall g :: g in fs ==> F(g) in items
    ensures forall f :: F(f) in items ==> SaidIn(fs, f)
    ensures forall i, j :: 0 <= i < j < |fs| ==> Hashed(fs[i]) != Hashed(fs[j])
  {
    hide Incidents.Injective, AllIdentified, Hashed, Reported, SaidIn;
    forall g | g in fs ensures F(g) in items { ReportedIsKept(c, items, fs, g); }
    forall f | F(f) in items ensures SaidIn(fs, f) { OfferedIsSaid(c, items, fs, f); }
    forall i, j | 0 <= i < j < |fs| ensures Hashed(fs[i]) != Hashed(fs[j]) {
      ReportedOnce(c, items, fs, i, j);
      SameIdSameFinding(c.hash, items, fs[i], fs[j]);
    }
  }

  lemma OncePerId(kept: map<string, Finding>, fs: seq<Finding>, i: nat, j: nat)
    requires multiset(fs) == BagOf(kept, kept.Keys) && forall id :: id in kept ==> kept[id].id == id
    requires i < j < |fs|
    ensures fs[i].id != fs[j].id
  {
    var x, y := fs[i], fs[j];
    assert x in multiset(fs) && y in multiset(fs);
    BagMembers(kept, kept.Keys, x);
    BagMembers(kept, kept.Keys, y);
    TwoPlaces(fs, i, j);
    if x.id == y.id { OneEach(kept, kept.Keys, x.id); }
    hide BagOf;
  }

  lemma TwoPlaces(fs: seq<Finding>, i: nat, j: nat)
    requires i < j < |fs|
    ensures fs[i] == fs[j] ==> multiset(fs)[fs[i]] >= 2
  {
    assert fs == fs[..i] + [fs[i]] + fs[i + 1..j] + [fs[j]] + fs[j + 1..];
  }

  lemma {:induction false} OneEach(kept: map<string, Finding>, keys: set<string>, id: string)
    requires keys <= kept.Keys && id in keys && forall k :: k in kept ==> kept[k].id == k
    ensures BagOf(kept, keys)[kept[id]] == 1
  {
    var rest := keys - {id};
    assert keys == rest + {id};
    BagGrows(kept, rest, id);
    if kept[id] in BagOf(kept, rest) { BagMembers(kept, rest, kept[id]); }
  }

  // ---- What the findings of a diagnosis say ----

  /** A finding of a type about an object, possibly about one of its finalizers, and nothing else. (The kind of the
      object is not compared.) */
  ghost predicate Says(x: Finding, typ: FindingType, about: TargetRef, finalizer: string) {
    && x.typ == typ && x.resourceRef.Some? && x.resourceRef.value.(kind := "") == about.(kind := "")
    && x.finalizer == finalizer && x.apiService == "" && x.webhook == "" && x.controllerRef.None? && x.count.None?
    && !x.truncated
  }

  /** The reference to an object as it was read from a version of its resource. */
  ghost predicate RefersTo(ref: TargetRef, gr: GroupResource, version: string, m: Meta) {
    && ref.group == gr.group && ref.resource == gr.resource && ref.version == version
    && ref.ns == m.ns && ref.name == m.name && ref.uid == m.uid
  }

  /** The target's grace period is over. */
  ghost predicate Overdue(k: Case, now: int) {
    k.obj.grace.Some? && k.obj.meta.deletion.Some? && now > k.obj.meta.deletion.value
  }

  /** An object was read in the namespace. */
  ghost predicate ReadIn(k: Case, ref: TargetRef, m: Meta) {
    exists log: seq<Step>, t: Step :: Logged(k, log) && t in log && t.outcome.Items? && m in t.outcome.items
      && RefersTo(ref, t.resource.gr, t.outcome.version.version, m)
  }

  /** An instance of the definition is listed under one of its served versions. */
  ghost predicate InstanceOf(k: Case, ref: TargetRef, m: Meta) {
    k.obj.decoded.Definition? &&
    var crd := k.obj.decoded.crd;
    exists version :: version in ServedNames(crd.versions) && m in k.cluster.instances(version).items
      && RefersTo(ref, GroupResource(crd.group, crd.plural), version, m)
  }

  /** What there is to say about a target. */
  ghost predicate ToSay(k: Case, now: int, typ: FindingType, ref: TargetRef, finalizer: string) {
    || (typ == DeletionGracePeriodExceeded && ref == k.target && finalizer == "" && Overdue(k, now))
    || (typ == BlockingFinalizer && ref == k.target && finalizer in k.obj.meta.finalizers)
    || (k.target.GR() == NAMESPACES && typ == RemainingResource && finalizer == "" && exists m :: ReadIn(k, ref, m))
    || (k.target.GR() == NAMESPACES && typ == BlockingFinalizer
        && exists m :: ReadIn(k, ref, m) && finalizer in m.finalizers)
    || (k.target.GR() == DEFINITIONS && typ == RemainingResource && finalizer == ""
        && exists m :: InstanceOf(k, ref, m))
  }

  lemma SaysSame(x: Finding, y: Finding, typ: FindingType, ref: TargetRef, finalizer: string)
    requires Hashed(x) == Hashed(y)
    ensures Says(x, typ, ref, finalizer) <==> Says(y, typ, ref, finalizer)
  {
    SameButReference(x, y);
    hide Hashed;
    var a, b := x.(id := "", resourceRef := None), y.(id := "", resourceRef := None);
    assert a.typ == b.typ && a.finalizer == b.finalizer && a.apiService == b.apiService && a.webhook == b.webhook
           && a.controllerRef == b.controllerRef && a.count == b.count && a.truncated == b.truncated;
  }

  // ---- The findings that are offered ----

  lemma OwnSays(k: Case, f: string)
    ensures Says(Identified(k.codec.hash, OwnFinalizer(k, f)), BlockingFinalizer, k.target, f)
    ensures Says(Identified(k.codec.hash, GraceExceeded(k)), DeletionGracePeriodExceeded, k.target, "")
  {
    hide FindingId;
  }

  lemma {:induction false} OwnFindings(k: Case, fs: seq<string>, x: Finding)
    ensures F(x) in OwnItems(k, fs) <==> exists f :: f in fs && x == Identified(k.codec.hash, OwnFinalizer(k, f))
  {
    hide OwnRemoval, OwnFinalizer, Identified, Exempt;
    if fs != [] {
      var init, last := fs[..|fs| - 1], fs[|fs| - 1];
      assert fs == init + [last];
      OwnFindings(k, init, x);
      assert F(x) in OwnItems(k, fs) <==>
             F(x) in OwnItems(k, init) || x == Identified(k.codec.hash, OwnFinalizer(k, last));
      hide OwnItems;
    }
  }

  lemma CommonFindings(k: Case, now: int, x: Finding)
    ensures F(x) in CommonItems(k, now) <==>
            || (Overdue(k, now) && x == Identified(k.codec.hash, GraceExceeded(k)))
            || (exists f :: f in k.obj.meta.finalizers && x == Identified(k.codec.hash, OwnFinalizer(k, f)))
  {
    OwnFindings(k, Sorting.Sort(Sorting.Less, k.obj.meta.finalizers), x);
    SortMembers(k.obj.meta.finalizers);
    hide OwnItems, OwnFinalizer, Identified, GraceExceeded, Sorting.Sort;
  }

  lemma RemainingSays(hash: string -> string, r: Resource, v: Version, m: Meta, f: string)
    ensures Says(Identified(hash, RemainingObject(r, v, m)), RemainingResource, Reference(r, v, m), "")
    ensures Says(Identified(hash, RemainingFinalizer(r, v, m, f)), BlockingFinalizer, Reference(r, v, m), f)
    ensures RefersTo(Reference(r, v, m), r.gr, v.version, m)
  {
    hide FindingId, KeyText;
  }

  /** The findings about one object. */
  ghost predicate OfObject(hash: string -> string, r: Resource, v: Version, m: Meta, x: Finding) {
    || x == Identified(hash, RemainingObject(r, v, m))
    || exists f :: f in m.finalizers && x == Identified(hash, RemainingFinalizer(r, v, m, f))
  }

  lemma {:induction false} FinalizerFindings(hash: string -> string, policy: Policy.CompiledPolicy, r: Resource,
                                             v: Version, m: Meta, fs: seq<string>, x: Finding)
    ensures F(x) in FinalizerItems(hash, policy, r, v, m, fs) <==>
            exists f :: f in fs && x == Identified(hash, RemainingFinalizer(r, v, m, f))
  {
    hide FinalizerRemoval, Reference, RemainingFinalizer, Identified;
    if fs != [] {
      var init, last := fs[..|fs| - 1], fs[|fs| - 1];
      assert fs == init + [last];
      FinalizerFindings(hash, policy, r, v, m, init, x);
      assert F(x) in FinalizerItems(hash, policy, r, v, m, fs) <==>
             (F(x) in FinalizerItems(hash, policy, r, v, m, init)
              || x == Identified(hash, RemainingFinalizer(r, v, m, last)));
      hide FinalizerItems;
    }
  }

  lemma ObjectFindings(hash: string -> string, policy: Policy.CompiledPolicy, r: Resource, v: Version, m: Meta,
                       x: Finding)
    ensures F(x) in ObjectItems(hash, policy, r, v, m) <==> OfObject(hash, r, v, m, x)
  {
    FinalizerFindings(hash, policy, r, v, m, Sorting.Sort(Sorting.Less, m.finalizers), x);
    SortMembers(m.finalizers);
    hide FinalizerItems, RemainingObject, RemainingFinalizer, Identified, Sorting.Sort;
  }

  lemma {:induction false} ReadingFindings(hash: string -> string, policy: Policy.CompiledPolicy, rd: Reading,
                                           x: Finding)
    ensures F(x) in ReadingItems(hash, policy, rd) <==>
            exists m :: m in rd.items && OfObject(hash, rd.resource, rd.version, m, x)
    decreases |rd.items|
  {
    hide OfObject, ObjectItems;
    if rd.items != [] {
      var init, last := rd.(items := rd.items[..|rd.items| - 1]), rd.items[|rd.items| - 1];
      assert rd.items == init.items + [last];
      ReadingFindings(hash, policy, init, x);
      ObjectFindings(hash, policy, rd.resource, rd.version, last, x);
    }
  }

  ghost predicate OfLog(hash: string -> string, log: seq<Step>, x: Finding) {
    exists t, m :: t in log && t.outcome.Items? && m in t.outcome.items
      && OfObject(hash, t.resource, t.outcome.version, m, x)
  }

  /** An exhaustive log offers, for every object read, a finding with its UID and one for each of its finalizers. */
  lemma {:induction false} LogFindings(hash: string -> string, policy: Policy.CompiledPolicy, log: seq<Step>,
                                       x: Finding)
    requires Whole(log)
    ensures F(x) in LogItems(hash, policy, log) <==> OfLog(hash, log, x)
  {
    hide ReadingItems, OfObject, Identified, ListProblem;
    if log != [] {
      var init, last := log[..|log| - 1], log[|log| - 1];
      assert log == init + [last] && last in log;
      LogFindings(hash, policy, init, x);
      ReadingFindings(hash, policy, Reading(last.resource, last.outcome.version, last.outcome.items), x);
    }
  }

  lemma {:induction false} SightingsExactly(version: string, items: seq<Meta>, x: Sighting)
    ensures x in Sightings(version, items) <==> x.version == version && x.meta in items
  {
    if items != [] {
      assert items == items[..|items| - 1] + [items[|items| - 1]];
      SightingsExactly(version, items[..|items| - 1], x);
    }
  }

  lemma {:induction false} AllSightingsExactly(serve: string -> Listing, versions: seq<string>, x: Sighting)
    ensures x in AllSightings(serve, versions) <==> x.version in versions && x.meta in serve(x.version).items
  {
    if versions != [] {
      var init, last := versions[..|versions| - 1], versions[|versions| - 1];
      assert versions == init + [last];
      AllSightingsExactly(serve, init, x);
      SightingsExactly(last, serve(last).items, x);
    }
  }

  lemma {:induction false} FirstSeenOnly(hash: string -> string, crd: CRD, s: seq<Sighting>, x: Finding)
    requires F(x) in FirstSeen(hash, crd, s)
    ensures exists y :: y in s && x == Identified(hash, Instance(crd, y.version, y.meta))
  {
    hide Identified, Instance, UidsOf;
    var init, last := s[..|s| - 1], s[|s| - 1];
    assert s == init + [last] && last in s;
    if F(x) in FirstSeen(hash, crd, init) { FirstSeenOnly(hash, crd, init, x); }
  }

  lemma InstanceSays(hash: string -> string, crd: CRD, version: string, m: Meta)
    ensures var ref := TargetRef(crd.group, version, crd.plural, crd.kind, m.ns, m.name, m.uid);
            Says(Identified(hash, Instance(crd, version, m)), RemainingResource, ref, "")
            && RefersTo(ref, GroupResource(crd.group, crd.plural), version, m)
  {
    hide FindingId;
  }

  lemma {:induction false} FirstSeenEach(hash: string -> string, crd: CRD, s: seq<Sighting>, y: Sighting)
    requires y in s
    ensures exists z :: z in s && z.meta.uid == y.meta.uid
              && F(Identified(hash, Instance(crd, z.version, z.meta))) in FirstSeen(hash, crd, s)
  {
    hide Identified, Instance;
    var init, last := s[..|s| - 1], s[|s| - 1];
    assert s == init + [last] && last in s;
    if y in init {
      FirstSeenEach(hash, crd, init, y);
      var z :| z in init && z.meta.uid == y.meta.uid
               && F(Identified(hash, Instance(crd, z.version, z.meta))) in FirstSeen(hash, crd, init);
      assert z in s;
    } else if last.meta.uid in UidsOf(init) {
      var w :| w in init && w.meta.uid == last.meta.uid;
      FirstSeenEach(hash, crd, init, w);
      var z :| z in init && z.meta.uid == w.meta.uid
               && F(Identified(hash, Instance(crd, z.version, z.meta))) in FirstSeen(hash, crd, init);
      assert z in s;
    }
  }

  /** The finding says something that there is to say. */
  ghost predicate Meaningful(k: Case, now: int, x: Finding) {
    exists typ, ref, finalizer :: ToSay(k, now, typ, ref, finalizer) && Says(x, typ, ref, finalizer)
  }

  lemma LogMeaningful(k: Case, now: int, log: seq<Step>, x: Finding)
    requires k.target.GR() == NAMESPACES && Logged(k, log) && OfLog(k.codec.hash, log, x)
    ensures Meaningful(k, now, x)
  {
    hide Logged, Says, Identified, RemainingObject, RemainingFinalizer, Reference, RefersTo;
    var t, m :| t in log && t.outcome.Items? && m in t.outcome.items
                && OfObject(k.codec.hash, t.resource, t.outcome.version, m, x);
    var ref := Reference(t.resource, t.outcome.version, m);
    RemainingSays(k.codec.hash, t.resource, t.outcome.version, m, "");
    assert ReadIn(k, ref, m);
    if x == Identified(k.codec.hash, RemainingObject(t.resource, t.outcome.version, m)) {
      assert ToSay(k, now, RemainingResource, ref, "");
    } else {
      var f :| f in m.finalizers
               && x == Identified(k.codec.hash, RemainingFinalizer(t.resource, t.outcome.version, m, f));
      RemainingSays(k.codec.hash, t.resource, t.outcome.version, m, f);
      assert ToSay(k, now, BlockingFinalizer, ref, f);
    }
  }

  lemma InstanceMeaningful(k: Case, now: int, x: Finding)
    requires k.target.GR() == DEFINITIONS && k.obj.decoded.Definition?
    requires F(x) in InstanceItems(k.codec.hash, k.obj.decoded.crd, k.cluster.instances)
    ensures Meaningful(k, now, x)
  {
    hide Says, Identified, Instance, FirstSeen, AllSightings, Sorting.Sort, RefersTo;
    var crd, names := k.obj.decoded.crd, ServedNames(k.obj.decoded.crd.versions);
    var s := AllSightings(k.cluster.instances, Sorting.Sort(Sorting.Less, names));
    FirstSeenOnly(k.codec.hash, crd, s, x);
    var y :| y in s && x == Identified(k.codec.hash, Instance(crd, y.version, y.meta));
    AllSightingsExactly(k.cluster.instances, Sorting.Sort(Sorting.Less, names), y);
    SortMembers(names);
    InstanceSays(k.codec.hash, crd, y.version, y.meta);
    var ref := TargetRef(crd.group, y.version, crd.plural, crd.kind, y.meta.ns, y.meta.name, y.meta.uid);
    assert InstanceOf(k, ref, y.meta);
    assert ToSay(k, now, RemainingResource, ref, "");
  }

  lemma CommonMeaningful(k: Case, now: int, x: Finding)
    requires F(x) in CommonItems(k, now)
    ensures Meaningful(k, now, x)
  {
    hide Says, Identified, OwnFinalizer, GraceExceeded, CommonItems;
    CommonFindings(k, now, x);
    if Overdue(k, now) && x == Identified(k.codec.hash, GraceExceeded(k)) {
      OwnSays(k, "");
      assert ToSay(k, now, DeletionGracePeriodExceeded, k.target, "");
    } else {
      var f :| f in k.obj.meta.finalizers && x == Identified(k.codec.hash, OwnFinalizer(k, f));
      OwnSays(k, f);
      assert ToSay(k, now, BlockingFinalizer, k.target, f);
    }
  }

  lemma SpecialAreActions(k: Case, x: Finding)
    ensures F(x) !in ForceItems(k) && F(x) !in CleanupItems(k)
  {
    hide Incidents.NewAction;
  }

  /** Every offered finding says something that there is to say. */
  lemma OfferedMeaningful(k: Case, now: int, items: seq<Item>, x: Finding)
    requires Diagnosis.Offered(k, now, items) && F(x) in items
    ensures Meaningful(k, now, x)
  {
    hide Meaningful, CommonItems, LogItems, ForceItems, CleanupItems, InstanceItems, Hindered, Logged;
    SpecialAreActions(k, x);
    if F(x) in CommonItems(k, now) {
      CommonMeaningful(k, now, x);
    } else if k.target.GR() == NAMESPACES {
      var log :| Logged(k, log) && items == CommonItems(k, now) + LogItems(k.codec.hash, k.policy, log) + ForceItems(k);
      assert Whole(log) by { LoggedWhole(k, log); }
      LogFindings(k.codec.hash, k.policy, log, x);
      LogMeaningful(k, now, log, x);
    } else {
      InstanceMeaningful(k, now, x);
    }
  }

  lemma LoggedWhole(k: Case, log: seq<Step>)
    requires Logged(k, log)
    ensures Whole(log)
  {
    hide Visited, Namespaced, Ledger, Whole;
  }

  /** Some offered finding says this. */
  ghost predicate SaidAmong(items: seq<Item>, typ: FindingType, ref: TargetRef, finalizer: string) {
    exists x :: F(x) in items && Says(x, typ, ref, finalizer)
  }

  /** The object's finding, or that of one of its finalizers. */
  lemma ReadIsSaid(k: Case, now: int, items: seq<Item>, ref: TargetRef, m: Meta, f: string)
    requires Diagnosis.Offered(k, now, items) && k.target.GR() == NAMESPACES && ReadIn(k, ref, m)
    ensures SaidAmong(items, RemainingResource, ref, "")
    ensures f in m.finalizers ==> SaidAmong(items, BlockingFinalizer, ref, f)
  {
    hide CommonItems, LogItems, ForceItems, Hindered, Logged, Identified, RemainingObject, RemainingFinalizer, Says;
    var mine :| Logged(k, mine)
    && items == CommonItems(k, now) + LogItems(k.codec.hash, k.policy, mine) + ForceItems(k);
    var log: seq<Step>, t: Step :| Logged(k, log) && t in log && t.outcome.Items? && m in t.outcome.items
      && RefersTo(ref, t.resource.gr, t.outcome.version.version, m);
    LoggedOnce(k, log, mine);
    LoggedWhole(k, log);
    var x := Identified(k.codec.hash, RemainingObject(t.resource, t.outcome.version, m));
    var y := Identified(k.codec.hash, RemainingFinalizer(t.resource, t.outcome.version, m, f));
    LogFindings(k.codec.hash, k.policy, log, x);
    LogFindings(k.codec.hash, k.policy, log, y);
    assert OfObject(k.codec.hash, t.resource, t.outcome.version, m, x);
    RemainingSays(k.codec.hash, t.resource, t.outcome.version, m, f);
    SameReference(x, RemainingResource, Reference(t.resource, t.outcome.version, m), ref, "");
    SameReference(y, BlockingFinalizer, Reference(t.resource, t.outcome.version, m), ref, f);
    assert f in m.finalizers ==> OfObject(k.codec.hash, t.resource, t.outcome.version, m, y);
    assert F(x) in items && (f in m.finalizers ==> F(y) in items);
  }

  lemma SameReference(x: Finding, typ: FindingType, a: TargetRef, b: TargetRef, f: string)
    requires Says(x, typ, a, f) && a.(kind := "") == b.(kind := "")
    ensures Says(x, typ, b, f)
  {
  }

  lemma CommonIsSaid(k: Case, now: int, items: seq<Item>, f: string)
    requires Diagnosis.Offered(k, now, items)
    ensures Overdue(k, now) ==> SaidAmong(items, DeletionGracePeriodExceeded, k.target, "")
    ensures f in k.obj.meta.finalizers ==> SaidAmong(items, BlockingFinalizer, k.target, f)
  {
    hide CommonItems, LogItems, ForceItems, CleanupItems, InstanceItems, Hindered, Logged, Identified, OwnFinalizer,
      GraceExceeded, Says;
    var x, y := Identified(k.codec.hash, GraceExceeded(k)), Identified(k.codec.hash, OwnFinalizer(k, f));
    CommonFindings(k, now, x);
    CommonFindings(k, now, y);
    OwnSays(k, f);
    assert F(x) in CommonItems(k, now) ==> F(x) in items;
    assert F(y) in CommonItems(k, now) ==> F(y) in items;
  }

  /** Every instance has a finding about an object with its UID. */
  lemma InstanceIsSaid(k: Case, now: int, items: seq<Item>, ref: TargetRef, m: Meta)
    requires Diagnosis.Offered(k, now, items) && k.target.GR() == DEFINITIONS && InstanceOf(k, ref, m)
    ensures exists other: TargetRef :: other.uid == m.uid && SaidAmong(items, RemainingResource, other, "")
  {
    hide CommonItems, CleanupItems, FirstSeen, AllSightings, Hindered, Identified, Instance, Says, Sorting.Sort;
    var crd, names := k.obj.decoded.crd, ServedNames(k.obj.decoded.crd.versions);
    var version :| version in names && m in k.cluster.instances(version).items
      && RefersTo(ref, GroupResource(crd.group, crd.plural), version, m);
    SortMembers(names);
    var s, y := AllSightings(k.cluster.instances, Sorting.Sort(Sorting.Less, names)), Sighting(version, m);
    AllSightingsExactly(k.cluster.instances, Sorting.Sort(Sorting.Less, names), y);
    FirstSeenEach(k.codec.hash, crd, s, y);
    var z :| z in s && z.meta.uid == y.meta.uid
             && F(Identified(k.codec.hash, Instance(crd, z.version, z.meta))) in FirstSeen(k.codec.hash, crd, s);
    InstanceSays(k.codec.hash, crd, z.version, z.meta);
    var other := TargetRef(crd.group, z.version, crd.plural, crd.kind, z.meta.ns, z.meta.name, z.meta.uid);
    assert F(Identified(k.codec.hash, Instance(crd, z.version, z.meta))) in items;
    assert SaidAmong(items, RemainingResource, other, "");
  }

  // ---- A complete result ----

  /** Nothing that is offered contains a NUL. */
  ghost predicate NulFreeOffers(k: Case, now: int) {
    forall items, x :: Diagnosis.Offered(k, now, items) && F(x) in items ==> NulFreeFinding(x)
  }

  lemma IdentifiedTwice(hash: string -> string, f: Finding)
    ensures Identified(hash, Identified(hash, f)) == Identified(hash, f)
  {
    var g := Shortened(f);
    assert Identified(hash, f) == g.(id := FindingId(hash, g));
    assert HeadParts(g.(id := FindingId(hash, g))) == HeadParts(g);
    assert FindingParts(g.(id := FindingId(hash, g))) == FindingParts(g);
  }

  lemma OfferedIdentified(k: Case, now: int, items: seq<Item>, x: Finding)
    requires Diagnosis.Offered(k, now, items) && F(x) in items
    ensures x == Identified(k.codec.hash, x)
  {
    hide CommonItems, LogItems, ForceItems, CleanupItems, FirstSeen, AllSightings, Hindered, Logged, Identified,
      OwnFinalizer, GraceExceeded, RemainingObject, RemainingFinalizer, Instance, Sorting.Sort;
    SpecialAreActions(k, x);
    CommonFindings(k, now, x);
    forall f ensures Identified(k.codec.hash, Identified(k.codec.hash, f)) == Identified(k.codec.hash, f) {
      IdentifiedTwice(k.codec.hash, f);
    }
    if F(x) in CommonItems(k, now) {
    } else if k.target.GR() == NAMESPACES {
      var log :| Logged(k, log) && items == CommonItems(k, now) + LogItems(k.codec.hash, k.policy, log) + ForceItems(k);
      LoggedWhole(k, log);
      LogFindings(k.codec.hash, k.policy, log, x);
    } else {
      var crd := k.obj.decoded.crd;
      FirstSeenOnly(k.codec.hash, crd,
                    AllSightings(k.cluster.instances, Sorting.Sort(Sorting.Less, ServedNames(crd.versions))), x);
    }
  }

  /** Some reported finding says this. */
  ghost predicate SaidHere(fs: seq<Finding>, typ: FindingType, ref: TargetRef, finalizer: string) {
    exists x :: x in fs && Says(x, typ, ref, finalizer)
  }

  lemma SaidAmongIsReported(k: Case, now: int, items: seq<Item>, fs: seq<Finding>, typ: FindingType, ref: TargetRef,
                            finalizer: string)
    requires Diagnosis.Offered(k, now, items) && Reported(k.codec, items, fs) && Incidents.Injective(k.codec.hash)
    requires NulFreeOffers(k, now) && SaidAmong(items, typ, ref, finalizer)
    ensures SaidHere(fs, typ, ref, finalizer)
  {
    hide Diagnosis.Offered, Reported, Incidents.Injective, Says, Hashed, Identified, NulFreeFinding;
    assert AllIdentified(k.codec.hash, items) by {
      forall x | F(x) in items ensures NulFreeFinding(x) && x == Identified(k.codec.hash, x) {
        OfferedIdentified(k, now, items, x);
      }
    }
    var x :| F(x) in items && Says(x, typ, ref, finalizer);
    OfferedIsSaid(k.codec, items, fs, x);
    var g :| g in fs && Hashed(g) == Hashed(x);
    SaysSame(g, x, typ, ref, finalizer);
  }

  /** The findings of a complete result, in both directions: each says something that there is to say, and whatever
      there is to say is said, an instance once for its UID. */
  lemma CompleteFindings(k: Case, now: int, r: Incidents.Result)
    requires EvidenceOk(k, now, r) && r.complete && Incidents.Injective(k.codec.hash) && NulFreeOffers(k, now)
    ensures forall x :: x in r.findings ==> Meaningful(k, now, x)
    ensures forall typ, ref, f ::
              ToSay(k, now, typ, ref, f) && !(k.target.GR() == DEFINITIONS && typ.RemainingResource?) ==>
                SaidHere(r.findings, typ, ref, f)
    ensures k.target.GR() == DEFINITIONS ==>
              forall ref, m :: InstanceOf(k, ref, m) ==>
                exists other: TargetRef :: other.uid == m.uid && SaidHere(r.findings, RemainingResource, other, "")
  {
    hide Diagnosis.Offered, Incidents.Injective, Says, NulFreeOffers, Meaningful, Covers, Sound, Hindered, InstanceOf,
      SaidHere, SaidAmong, ReadIn, Overdue;
    var items :| Diagnosis.Offered(k, now, items) && Reports(k.codec, items, r);
    assert Reported(k.codec, items, r.findings) by { hide OfferAll, FindingBag, ActionBag; }
    hide Reports, Reported, EvidenceOk;
    forall x | x in r.findings ensures Meaningful(k, now, x) {
      ReportedIsKept(k.codec, items, r.findings, x);
      OfferedMeaningful(k, now, items, x);
    }
    forall typ, ref, f | ToSay(k, now, typ, ref, f) && !(k.target.GR() == DEFINITIONS && typ.RemainingResource?)
      ensures SaidHere(r.findings, typ, ref, f)
    {
      ToSayIsSaid(k, now, items, typ, ref, f);
      SaidAmongIsReported(k, now, items, r.findings, typ, ref, f);
    }
    if k.target.GR() == DEFINITIONS {
      forall ref, m | InstanceOf(k, ref, m)
        ensures exists other: TargetRef :: other.uid == m.uid && SaidHere(r.findings, RemainingResource, other, "")
      {
        InstanceIsSaid(k, now, items, ref, m);
        var other: TargetRef :| other.uid == m.uid && SaidAmong(items, RemainingResource, other, "");
        SaidAmongIsReported(k, now, items, r.findings, RemainingResource, other, "");
      }
    }
  }

  lemma ToSayIsSaid(k: Case, now: int, items: seq<Item>, typ: FindingType, ref: TargetRef, f: string)
    requires Diagnosis.Offered(k, now, items) && ToSay(k, now, typ, ref, f)
    requires !(k.target.GR() == DEFINITIONS && typ.RemainingResource?)
    ensures SaidAmong(items, typ, ref, f)
  {
    hide Diagnosis.Offered, SaidAmong, ReadIn, InstanceOf;
    CommonIsSaid(k, now, items, f);
    if m :| k.target.GR() == NAMESPACES && ReadIn(k, ref, m) && (typ.BlockingFinalizer? ==> f in m.finalizers) {
      ReadIsSaid(k, now, items, ref, m, f);
    }
  }

  // ---- The actions of a complete result ----

  ghost function RefOf(k: Case): PolicyRef { PolicyRef(k.policy.name, k.policy.uid, k.policy.generation) }

  /** Nothing that an action could bind contains a NUL. */
  ghost predicate NulFreeActions(k: Case) {
    forall a :: Sound(k, a) ==> Incidents.NulFreeAction(a, RefOf(k))
  }

  /** The removal of this finalizer from the object of this UID, at this version. */
  ghost predicate Removes(a: Action, uid: string, finalizer: string, rv: string) {
    a.typ.RemoveResourceFinalizer? && a.target.uid == uid && a.finalizer == finalizer && a.preRv == rv
  }

  lemma SameBinding(k: Case, a: Action, b: Action)
    requires Incidents.Injective(k.codec.hash) && NulFreeActions(k) && Sound(k, a) && Sound(k, b) && a.id == b.id
    ensures a.typ == b.typ && a.target.uid == b.target.uid && a.finalizer == b.finalizer && a.preRv == b.preRv
  {
    hide Policy.Eligible, Policy.RiskFor, Policy.IneligibleReason, Incidents.ActionId, Incidents.Injective, Hindered,
      RemovesOwn, RemovesChild, Incidents.NulFreeAction;
    Incidents.IdBindsOperation(k.codec.hash, a, RefOf(k), b, RefOf(k));
    assert Incidents.BindingOf(a, RefOf(k)) == Incidents.BindingOf(b, RefOf(k));
  }

  /** The actions of a complete result: each is formed as newAction forms it, and every finalizer of the target (but
      for the cleanup finalizer of a definition) and of every object read in a namespace has its removal. */
  lemma CompleteActions(k: Case, now: int, r: Incidents.Result)
    requires EvidenceOk(k, now, r) && r.complete && Incidents.Injective(k.codec.hash) && NulFreeActions(k)
    ensures forall f :: f in k.obj.meta.finalizers
                        && !(k.target.GR() == DEFINITIONS && f == "customresourcecleanup.apiextensions.k8s.io") ==>
              exists b :: b in r.actions && Removes(b, k.target.uid, f, k.obj.meta.rv)
    ensures k.target.GR() == NAMESPACES ==>
              forall ref, m, f :: ReadIn(k, ref, m) && f in m.finalizers ==>
                exists b :: b in r.actions && Removes(b, m.uid, f, m.rv)
    ensures forall b :: b in r.actions ==>
              b.risk == Policy.RiskFor(b.typ, b.finalizer)
              && (b.eligible <==> Policy.Eligible(k.policy, b.typ, b.finalizer))
  {
    hide Diagnosis.Offered, Incidents.Injective, NulFreeActions, Hindered, Sound, Reports, ReadIn, Policy.Eligible,
      Policy.RiskFor, OwnRemoval;
    forall f | f in k.obj.meta.finalizers
               && !(k.target.GR() == DEFINITIONS && f == "customresourcecleanup.apiextensions.k8s.io")
      ensures exists b :: b in r.actions && Removes(b, k.target.uid, f, k.obj.meta.rv)
    {
      var b :| b in r.actions && b.id == OwnRemoval(k, f).id;
      OwnRemovalSound(k, f);
      SameBinding(k, b, OwnRemoval(k, f));
      assert Removes(b, k.target.uid, f, k.obj.meta.rv) by { OwnRemovalIs(k, f); }
    }
    if k.target.GR() == NAMESPACES {
      forall ref, m, f | ReadIn(k, ref, m) && f in m.finalizers
        ensures exists b :: b in r.actions && Removes(b, m.uid, f, m.rv)
      {
        ChildRemoved(k, now, r, ref, m, f);
      }
    }
    forall b | b in r.actions
      ensures b.risk == Policy.RiskFor(b.typ, b.finalizer)
      ensures b.eligible <==> Policy.Eligible(k.policy, b.typ, b.finalizer)
    {
      SoundFormed(k, b);
    }
  }

  lemma OwnRemovalIs(k: Case, f: string)
    ensures Removes(OwnRemoval(k, f), k.target.uid, f, k.obj.meta.rv)
  {
    hide Policy.Eligible, Policy.RiskFor, Policy.IneligibleReason, Incidents.ActionId;
  }

  lemma SoundFormed(k: Case, a: Action)
    requires Sound(k, a)
    ensures a.risk == Policy.RiskFor(a.typ, a.finalizer)
    ensures a.eligible <==> Policy.Eligible(k.policy, a.typ, a.finalizer)
  {
    hide Policy.Eligible, Policy.RiskFor, Incidents.ActionId, Hindered, RemovesOwn, RemovesChild;
    Incidents.NewActionSays(k.codec.hash, k.policy, a.typ, a.target, a.finalizer, a.preRv, a.reason);
    hide Incidents.NewAction;
  }

  lemma ChildRemoved(k: Case, now: int, r: Incidents.Result, ref: TargetRef, m: Meta, f: string)
    requires EvidenceOk(k, now, r) && r.complete && Incidents.Injective(k.codec.hash) && NulFreeActions(k)
    requires k.target.GR() == NAMESPACES && ReadIn(k, ref, m) && f in m.finalizers
    ensures exists b :: b in r.actions && Removes(b, m.uid, f, m.rv)
  {
    hide Diagnosis.Offered, Incidents.Injective, NulFreeActions, Hindered, Sound, Reports, Logged, FinalizerRemoval,
      Reference, OwnRemoval;
    var log: seq<Step>, t: Step :| Logged(k, log) && t in log && t.outcome.Items? && m in t.outcome.items
      && RefersTo(ref, t.resource.gr, t.outcome.version.version, m);
    var a := FinalizerRemoval(k.codec.hash, k.policy, Reference(t.resource, t.outcome.version, m), f, m.rv);
    assert RemovesRead(k.codec.hash, k.policy, Reading(t.resource, t.outcome.version, t.outcome.items), a);
    assert RemovesFrom(k.codec.hash, k.policy, log, a);
    var b :| b in r.actions && b.id == a.id;
    ChildRemovalSound(k, log, a);
    SameBinding(k, b, a);
    assert Removes(a, m.uid, f, m.rv) by { FinalizerRemovalIs(k, t, m, f); }
  }

  lemma FinalizerRemovalIs(k: Case, t: Step, m: Meta, f: string)
    requires t.outcome.Items?
    ensures Removes(FinalizerRemoval(k.codec.hash, k.policy, Reference(t.resource, t.outcome.version, m), f, m.rv),
                    m.uid, f, m.rv)
  {
    hide Policy.Eligible, Policy.RiskFor, Policy.IneligibleReason, Incidents.ActionId;
  }

  // ---- By the spec of the policy ----

  /** What a diagnosis under a compiled policy goes by is the policy's own spec: its age for the threshold, its
      limits for completeness. */
  lemma DiagnosedBySpec(source: Policy.Source, catalog: Snapshot, k: Case, now: int, r: Incidents.Result)
    requires k.policy == Policy.Compiled(source, catalog) && Grounded(k, now, r)
    ensures r.thresholdElapsed <==>
            r.uidMatches && k.obj.meta.deletion.Some?
            && now >= k.obj.meta.deletion.value + source.spec.terminationAge
    ensures r.thresholdElapsed && r.complete && k.target.GR() == NAMESPACES ==>
              NamespaceRead(k.catalog.ordered, k.cluster.inNamespace, source.spec.maxNamespaceObjects)
    ensures r.thresholdElapsed && r.complete && k.target.GR() == DEFINITIONS ==>
              k.obj.decoded.Definition?
              && |Uids(k.cluster.instances, ServedNames(k.obj.decoded.crd.versions))|
                 <= Max(0, source.spec.maxCRDInstances)
  {
    Policy.SettingsCarryOver(source, catalog);
    hide Policy.Compiled, Covers, Sound, Diagnosis.Offered, Reports, NamespaceRead, EveryListEnds, EveryUidSet, Uids,
      Overflows;
  }

  // ---- What an incomplete enumeration says ----

  /** A resource that could not be listed is reported as a discovery failure. */
  lemma {:induction false} UnlistedIsSaid(hash: string -> string, policy: Policy.CompiledPolicy, log: seq<Step>,
                                          t: Step)
    requires t in log && t.outcome.Unlisted?
    ensures exists x :: F(x) in LogItems(hash, policy, log) && x.typ.DiscoveryFailure? && x.resourceRef.None?
  {
    hide ReadingItems, FindingId, KeyText;
    var init, last := log[..|log| - 1], log[|log| - 1];
    assert log == init + [last];
    if t in init {
      UnlistedIsSaid(hash, policy, init, t);
      var x :| F(x) in LogItems(hash, policy, init) && x.typ.DiscoveryFailure? && x.resourceRef.None?;
      assert F(x) in LogItems(hash, policy, log);
    } else {
      var x := Identified(hash, ListProblem(t.resource));
      assert F(x) in LogItems(hash, policy, log) && x.typ.DiscoveryFailure?;
    }
  }

  /** A limit that left something unread is reported with the number of objects read. */
  lemma LimitIsSaid(hash: string -> string, rs: seq<Resource>, log: seq<Step>)
    ensures Visited(log) == Namespaced(rs) && !Cut(log) ==> LimitItems(hash, rs, log) == []
    ensures Visited(log) != Namespaced(rs) || Cut(log) ==>
              exists x :: LimitItems(hash, rs, log) == [F(x)] && x.typ.RemainingResource? && x.truncated
                && x.count.Some? && (Objects(log) < 0x8000_0000 ==> x.count.value == Objects(log))
  {
    hide FindingId;
    var x := Identified(hash, Truncation(NAMESPACE_BOUND, Objects(log)));
    assert Visited(log) != Namespaced(rs) || Cut(log) ==> LimitItems(hash, rs, log) == [F(x)];
  }
}
