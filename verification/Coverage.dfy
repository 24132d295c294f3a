/** resourcesToScan, listTargets and the decisions of reconcileLifecycle (internal/scanner/scanner.go):
    what is listed, what is concluded from it, and why an incident may be resolved. */
module Coverage {
  import opened Types
  import opened Discovery
  import opened Paging
  import opened TargetLists
  import Framing
  import Policy
  import Incidents
  import Sorting

  /** An incident as stored: its name, its retention annotation, and spec and status. */
  datatype Entry = Entry(name: string, retention: Option<int>, incident: Incidents.Incident) {
    predicate Resolved() { incident.status.phase.Resolved? }
    function Target(): TargetRef { incident.target }
  }

  // ---- What is scanned ----

  const NOT_TRACKED := Tracked({}, {})

  function TrackedIn(tracked: map<GroupResource, Tracked>, gr: GroupResource): Tracked {
    if gr in tracked then tracked[gr] else NOT_TRACKED
  }

  /** Open incidents about a resource. */
  ghost predicate OpenFor(e: Entry, gr: GroupResource) { !e.Resolved() && e.Target().GR() == gr }

  /** Exactly the UIDs and names of the open incidents are tracked, for every catalogued resource. */
  ghost predicate Tracks(catalog: Snapshot, list: seq<Entry>, tracked: map<GroupResource, Tracked>) {
    forall gr :: gr in catalog.resources ==>
      && (forall u :: u in TrackedIn(tracked, gr).uids <==>
            exists e :: e in list && OpenFor(e, gr) && e.Target().uid == u)
      && (forall id :: id in TrackedIn(tracked, gr).identities <==>
            exists e :: e in list && OpenFor(e, gr) && Identity(e.Target().ns, e.Target().name) == id)
  }

  function Track(tracked: map<GroupResource, Tracked>, t: TargetRef): map<GroupResource, Tracked> {
    var known := TrackedIn(tracked, t.GR());
    tracked[t.GR() := Tracked(known.uids + {t.uid}, known.identities + {Identity(t.ns, t.name)})]
  }

  lemma TracksClosed(catalog: Snapshot, list: seq<Entry>, tracked: map<GroupResource, Tracked>, e: Entry)
    requires Tracks(catalog, list, tracked) && (e.Resolved() || e.Target().GR() !in catalog.resources)
    ensures Tracks(catalog, list + [e], tracked)
  {
    hide Identity;
  }

  lemma TracksOpen(catalog: Snapshot, list: seq<Entry>, tracked: map<GroupResource, Tracked>, e: Entry)
    requires Tracks(catalog, list, tracked) && !e.Resolved()
    ensures Tracks(catalog, list + [e], Track(tracked, e.Target()))
  {
    hide Identity;
    var all, after := list + [e], Track(tracked, e.Target());
    assert e in all;
    forall gr | gr in catalog.resources
      ensures forall u :: u in TrackedIn(after, gr).uids <==>
                exists x :: x in all && OpenFor(x, gr) && x.Target().uid == u
      ensures forall id :: id in TrackedIn(after, gr).identities <==>
                exists x :: x in all && OpenFor(x, gr) && Identity(x.Target().ns, x.Target().name) == id
    {
      if gr == e.Target().GR() { assert OpenFor(e, gr); }
    }
  }

  /** A resource is wanted when a policy selects it or an open incident is about it. */
  ghost predicate Wanted(policies: seq<Policy.CompiledPolicy>, list: seq<Entry>, gr: GroupResource) {
    || (exists p :: p in policies && SelectsResource(p, gr))
    || (exists e :: e in list && OpenFor(e, gr))
  }

  /** ResolvedGroupResources of a compiled policy, as a set. */
  ghost predicate SelectsResource(p: Policy.CompiledPolicy, gr: GroupResource) {
    p.ready && exists k :: 0 <= k < |p.rules| && gr in p.rules[k].resources
  }

  function RuleKeys(rules: seq<Policy.CompiledRule>): set<GroupResource> {
    if rules == [] then {} else RuleKeys(rules[..|rules| - 1]) + rules[|rules| - 1].resources.Keys
  }

  lemma {:induction false} RuleKeysMembers(rules: seq<Policy.CompiledRule>, gr: GroupResource)
    ensures gr in RuleKeys(rules) <==> exists k :: 0 <= k < |rules| && gr in rules[k].resources
  {
    if rules != [] {
      RuleKeysMembers(rules[..|rules| - 1], gr);
      var n := |rules| - 1;
      assert gr in rules[n].resources <==> gr in rules[n].resources.Keys;
      if k: nat :| k < n && gr in rules[k].resources { assert rules[..n][k] == rules[k]; }
    }
  }

  function SelectedKeys(p: Policy.CompiledPolicy): set<GroupResource> { if p.ready then RuleKeys(p.rules) else {} }

  /** The resources to list and what to track in them. */
  method ResourcesToScan(catalog: Snapshot, policies: seq<Policy.CompiledPolicy>, list: seq<Entry>)
    returns (resources: seq<Resource>, tracked: map<GroupResource, Tracked>)
    requires Consistent(catalog)
    ensures UniqueKeys(resources) && Sorting.Sorted(ResourceLess, resources)
    ensures forall r :: r in resources <==> catalog.Resolve(r.gr) == Some(r) && Wanted(policies, list, r.gr)
    ensures Tracks(catalog, list, tracked)
  {
    hide Tracks, Consistent;
    var selected := {};
    for i := 0 to |policies|
      invariant forall gr :: gr in selected <==>
                  gr in catalog.resources && exists p :: p in policies[..i] && SelectsResource(p, gr)
    {
      ghost var was := selected;
      selected := selected + (set gr | gr in SelectedKeys(policies[i]) && gr in catalog.resources);
      assert policies[..i + 1] == policies[..i] + [policies[i]];
      forall gr ensures gr in SelectedKeys(policies[i]) <==> SelectsResource(policies[i], gr) {
        RuleKeysMembers(policies[i].rules, gr);
      }
      OnePolicyMore(policies, i, catalog, was, selected);
    }
    assert policies[..|policies|] == policies;
    tracked := map[];
    assert Tracks(catalog, list[..0], tracked) by { NothingTracked(catalog); }
    for i := 0 to |list|
      invariant forall gr :: gr in selected <==> gr in catalog.resources && Wanted(policies, list[..i], gr)
      invariant Tracks(catalog, list[..i], tracked)
    {
      assert list[..i + 1] == list[..i] + [list[i]];
      WantedMore(policies, list, i);
      if list[i].Resolved() || list[i].Target().GR() !in catalog.resources {
        TracksClosed(catalog, list[..i], tracked, list[i]);
        continue;
      }
      TracksOpen(catalog, list[..i], tracked, list[i]);
      selected := selected + {list[i].Target().GR()};
      tracked := Track(tracked, list[i].Target());
    }
    assert list[..|list|] == list;
    resources := Arranged(catalog, selected);
  }

  lemma NothingTracked(catalog: Snapshot)
    ensures Tracks(catalog, [], map[])
  {
  }

  lemma OnePolicyMore(policies: seq<Policy.CompiledPolicy>, i: nat, catalog: Snapshot, was: set<GroupResource>,
                      now: set<GroupResource>)
    requires i < |policies|
    requires forall gr :: gr in was <==>
               gr in catalog.resources && exists p :: p in policies[..i] && SelectsResource(p, gr)
    requires forall gr :: gr in now <==> gr in was || (gr in catalog.resources && SelectsResource(policies[i], gr))
    ensures forall gr :: gr in now <==>
              gr in catalog.resources && exists p :: p in policies[..i + 1] && SelectsResource(p, gr)
  {
    hide SelectsResource;
    assert policies[..i + 1] == policies[..i] + [policies[i]];
    assert policies[i] in policies[..i + 1];
  }

  lemma WantedMore(policies: seq<Policy.CompiledPolicy>, list: seq<Entry>, i: nat)
    requires i < |list|
    ensures forall gr :: Wanted(policies, list[..i + 1], gr) <==>
              Wanted(policies, list[..i], gr) || OpenFor(list[i], gr)
  {
    hide SelectsResource, OpenFor;
    assert list[..i + 1] == list[..i] + [list[i]];
    assert list[i] in list[..i + 1];
  }

  /** The catalogued resources of a set of keys, in the order of their names. */
  method Arranged(catalog: Snapshot, keys: set<GroupResource>) returns (resources: seq<Resource>)
    requires Consistent(catalog) && keys <= catalog.resources.Keys
    ensures UniqueKeys(resources) && Sorting.Sorted(ResourceLess, resources)
    ensures forall r :: r in resources <==> r.gr in keys && catalog.Resolve(r.gr) == Some(r)
  {
    var found: seq<Resource> := [];
    var todo := keys;
    while todo != {}
      invariant todo <= keys && UniqueKeys(found)
      invariant forall r :: r in found <==> r.gr in keys - todo && catalog.Resolve(r.gr) == Some(r)
    {
      var gr :| gr in todo;
      var r := catalog.resources[gr];
      assert r.gr == gr;
      found := found + [r];
      todo := todo - {gr};
    }
    ResourceOrder();
    Sorting.SortSorts(ResourceLess, found);
    resources := Sorting.Sort(ResourceLess, found);
    PermutedKeysUnique(found, resources);
    forall r ensures r in resources <==> r in found { assert r in multiset(resources) <==> r in multiset(found); }
  }

  // ---- What the lists say ----

  datatype Observation = Observation(target: TargetRef, policy: Policy.CompiledPolicy, meta: Meta)

  datatype ResourceCoverage = ResourceCoverage(success: bool, allUIDs: set<string>, selectedUIDs: set<string>,
                                               identities: map<string, string>)

  const NO_COVERAGE := ResourceCoverage(false, {}, {}, map[])

  ghost function UidsIn(items: seq<Meta>): set<string> { set m | m in items :: m.uid }

  ghost function SelectedIn(scope: Scope, gr: GroupResource, v: Version, items: seq<Meta>): set<string> {
    set m | m in items && Winner(scope, gr, v, m).Some? :: m.uid
  }

  ghost function StuckIn(scope: Scope, gr: GroupResource, v: Version, items: seq<Meta>): set<string> {
    set m | m in items && Stuck(scope, gr, v, m) :: m.uid
  }

  /** The identity index names only listed objects and misses none. */
  ghost predicate Indexes(identities: map<string, string>, items: seq<Meta>) {
    && (forall m :: m in items ==> Identity(m.ns, m.name) in identities)
    && (forall id :: id in identities ==>
          exists m :: m in items && Identity(m.ns, m.name) == id && m.uid == identities[id])
  }

  /** The coverage record of a list's retained items. */
  ghost predicate Describes(c: ResourceCoverage, scope: Scope, gr: GroupResource, v: Version, items: seq<Meta>) {
    c.allUIDs == UidsIn(items) && c.selectedUIDs == SelectedIn(scope, gr, v, items) && Indexes(c.identities, items)
  }

  /** An observation is about a stuck object and carries its winning policy. */
  ghost predicate ObservedFrom(o: Observation, scope: Scope, gr: GroupResource, v: Version, items: seq<Meta>) {
    && o.meta in items && Stuck(scope, gr, v, o.meta) && Winner(scope, gr, v, o.meta) == Some(o.policy)
    && o.target == TargetRef(gr.group, v.version, gr.resource, v.kind, o.meta.ns, o.meta.name, o.meta.uid)
  }

  lemma DescribesMore(c: ResourceCoverage, scope: Scope, gr: GroupResource, v: Version, items: seq<Meta>, m: Meta)
    requires Describes(c, scope, gr, v, items)
    ensures Describes(c.(allUIDs := c.allUIDs + {m.uid}, identities := c.identities[Identity(m.ns, m.name) := m.uid],
                         selectedUIDs := c.selectedUIDs + if Winner(scope, gr, v, m).Some? then {m.uid} else {}),
                      scope, gr, v, items + [m])
    ensures StuckIn(scope, gr, v, items + [m]) ==
              StuckIn(scope, gr, v, items) + if Stuck(scope, gr, v, m) then {m.uid} else {}
  {
    hide Identity, Winner;
    IndexesMore(c.identities, items, m);
    assert m in items + [m];
  }

  lemma IndexesMore(identities: map<string, string>, items: seq<Meta>, m: Meta)
    requires Indexes(identities, items)
    ensures Indexes(identities[Identity(m.ns, m.name) := m.uid], items + [m])
  {
    hide Identity;
    assert m in items + [m];
  }

  /** One list result: its coverage, and observations for stuck objects not observed before. */
  method Digest(scope: Scope, gr: GroupResource, v: Version, items: seq<Meta>, success: bool,
                observations: map<string, Observation>)
    returns (c: ResourceCoverage, after: map<string, Observation>)
    ensures c.success == success && Describes(c, scope, gr, v, items)
    ensures after.Keys == observations.Keys + StuckIn(scope, gr, v, items)
    ensures forall u :: u in after ==>
              (u in observations && after[u] == observations[u])
              || (after[u].meta.uid == u && ObservedFrom(after[u], scope, gr, v, items))
  {
    hide Describes, StuckIn, Winner, Identity;
    c, after := NO_COVERAGE.(success := success), observations;
    assert Describes(c, scope, gr, v, items[..0])
           && StuckIn(scope, gr, v, items[..0]) == {} by { NothingDescribed(c, scope, gr, v); }
    for i := 0 to |items|
      invariant c.success == success && Describes(c, scope, gr, v, items[..i])
      invariant after.Keys == observations.Keys + StuckIn(scope, gr, v, items[..i])
      invariant forall u :: u in after ==>
        (u in observations && after[u] == observations[u])
        || (after[u].meta.uid == u && ObservedFrom(after[u], scope, gr, v, items))
    {
      var m := items[i];
      assert items[..i + 1] == items[..i] + [m];
      DescribesMore(c, scope, gr, v, items[..i], m);
      c := c.(allUIDs := c.allUIDs + {m.uid}, identities := c.identities[Identity(m.ns, m.name) := m.uid]);
      var winner := Winner(scope, gr, v, m);
      if winner.None? {
        assert c == c.(selectedUIDs := c.selectedUIDs + {});
        continue;
      }
      c := c.(selectedUIDs := c.selectedUIDs + {m.uid});
      if m.deletion.None? || m.uid in after { continue; }
      after := after[m.uid := Observation(
        TargetRef(gr.group, v.version, gr.resource, v.kind, m.ns, m.name, m.uid), winner.value, m)];
    }
    assert items[..|items|] == items;
  }

  lemma NothingDescribed(c: ResourceCoverage, scope: Scope, gr: GroupResource, v: Version)
    requires c.allUIDs == {} && c.selectedUIDs == {} && c.identities == map[]
    ensures Describes(c, scope, gr, v, []) && StuckIn(scope, gr, v, []) == {}
  {
  }

  // ---- Collecting the workers' results ----

  /** What a worker puts into the result channel. */
  datatype Result = Result(gr: GroupResource, outcome: Outcome)

  ghost predicate OnePerResource(results: seq<Result>) {
    forall i, j :: 0 <= i < j < |results| ==> results[i].gr != results[j].gr
  }

  /** Item lists count unless the listing failed. */
  ghost predicate Delivers(scope: Scope, d: Result, uid: string) {
    !d.outcome.Failed? && uid in StuckIn(scope, d.gr, d.outcome.version, d.outcome.items)
  }

  ghost predicate IsSource(scope: Scope, d: Result, o: Observation) {
    !d.outcome.Failed? && ObservedFrom(o, scope, d.gr, d.outcome.version, d.outcome.items)
  }

  predicate AnyBound(results: seq<Result>) { exists d :: d in results && d.outcome.Bound? }

  ghost predicate RecordOk(scope: Scope, d: Result, c: ResourceCoverage, bound: bool) {
    && (c.success <==> d.outcome.Listed? && !bound)
    && (c.success ==> d.outcome.Listed? && Describes(c, scope, d.gr, d.outcome.version, d.outcome.items))
  }

  /** Coverage has a record for each delivered resource; a successful one describes a full list. */
  ghost predicate Covers(scope: Scope, results: seq<Result>, coverage: map<GroupResource, ResourceCoverage>,
                         bound: bool) {
    && (forall gr :: gr in coverage ==> exists d :: d in results && d.gr == gr)
    && (forall d :: d in results ==> d.gr in coverage && RecordOk(scope, d, coverage[d.gr], bound))
  }

  /** Exactly the stuck objects of the delivered lists are observed. */
  ghost predicate Observes(scope: Scope, results: seq<Result>, observations: map<string, Observation>) {
    && (forall uid :: uid in observations ==>
          observations[uid].target.uid == uid && exists d :: d in results && IsSource(scope, d, observations[uid]))
    && (forall d, uid :: d in results && Delivers(scope, d, uid) ==> uid in observations)
  }

  lemma CoversMore(scope: Scope, results: seq<Result>, d: Result, coverage: map<GroupResource, ResourceCoverage>,
                   c: ResourceCoverage)
    requires OnePerResource(results + [d]) && Covers(scope, results, coverage, false) && RecordOk(scope, d, c, false)
    ensures Covers(scope, results + [d], coverage[d.gr := c], false)
  {
    hide RecordOk;
    forall x | x in results ensures x.gr != d.gr {
      var k :| 0 <= k < |results| && results[k] == x;
      assert (results + [d])[k] == x && (results + [d])[|results|] == d;
    }
    assert d in results + [d];
  }

  lemma ObservesSame(scope: Scope, results: seq<Result>, d: Result, observations: map<string, Observation>)
    requires d.outcome.Failed? && Observes(scope, results, observations)
    ensures Observes(scope, results + [d], observations)
  {
    hide ObservedFrom, StuckIn;
  }

  lemma ObservesMore(scope: Scope, results: seq<Result>, d: Result, observations: map<string, Observation>,
                     after: map<string, Observation>)
    requires !d.outcome.Failed? && Observes(scope, results, observations)
    requires after.Keys == observations.Keys + StuckIn(scope, d.gr, d.outcome.version, d.outcome.items)
    requires forall uid :: uid in after ==>
               (uid in observations && after[uid] == observations[uid])
               || (after[uid].meta.uid == uid
                   && ObservedFrom(after[uid], scope, d.gr, d.outcome.version, d.outcome.items))
    ensures Observes(scope, results + [d], after)
  {
    hide StuckIn, Stuck, Winner;
    assert d in results + [d];
    forall uid | uid in after
      ensures after[uid].target.uid == uid && exists x :: x in results + [d] && IsSource(scope, x, after[uid])
    {
      if uid in observations && after[uid] == observations[uid] {
        var x :| x in results && IsSource(scope, x, observations[uid]);
        assert x in results + [d];
      } else {
        assert IsSource(scope, d, after[uid]);
      }
    }
    forall x, uid | x in results + [d] && Delivers(scope, x, uid) ensures uid in after { assert uid in after.Keys; }
  }

  /** The collecting loop of listTargets. Once any worker met the target bound no resource counts as
      successfully covered. */
  method CollectResults(scope: Scope, results: seq<Result>)
    returns (observations: map<string, Observation>, coverage: map<GroupResource, ResourceCoverage>, failed: bool)
    requires OnePerResource(results)
    ensures Covers(scope, results, coverage, AnyBound(results)) && Observes(scope, results, observations)
    ensures failed <==> exists d :: d in results && !d.outcome.Listed?
  {
    hide Covers, Observes, Describes, StuckIn, ObservedFrom;
    observations, coverage, failed := map[], map[], false;
    var truncated := false;
    NothingCollected(scope);
    for n := 0 to |results|
      invariant Covers(scope, results[..n], coverage, false) && Observes(scope, results[..n], observations)
      invariant truncated == AnyBound(results[..n])
      invariant failed <==> exists d :: d in results[..n] && !d.outcome.Listed?
    {
      var d := results[n];
      assert results[..n + 1] == results[..n] + [d];
      if d.outcome.Failed? {
        failed := true;
        CoversMore(scope, results[..n], d, coverage, NO_COVERAGE);
        ObservesSame(scope, results[..n], d, observations);
        coverage := coverage[d.gr := NO_COVERAGE];
        continue;
      }
      if d.outcome.Bound? { failed, truncated := true, true; }
      var c, after := Digest(scope, d.gr, d.outcome.version, d.outcome.items, d.outcome.Listed?, observations);
      CoversMore(scope, results[..n], d, coverage, c);
      ObservesMore(scope, results[..n], d, observations, after);
      coverage, observations := coverage[d.gr := c], after;
    }
    assert results[..|results|] == results;
    if truncated {
      NothingCovered(scope, results, coverage);
      coverage := Unsuccessful(coverage);
    }
  }

  function Unsuccessful(coverage: map<GroupResource, ResourceCoverage>): map<GroupResource, ResourceCoverage> {
    map gr | gr in coverage :: coverage[gr].(success := false)
  }

  lemma NothingCollected(scope: Scope)
    ensures Covers(scope, [], map[], false) && Observes(scope, [], map[])
  {
  }

  lemma NothingCovered(scope: Scope, results: seq<Result>, coverage: map<GroupResource, ResourceCoverage>)
    requires Covers(scope, results, coverage, false)
    ensures Covers(scope, results, Unsuccessful(coverage), true)
  {
    hide Describes;
  }

  // ---- What lifecycle resolution concludes ----

  datatype Reason = ResourceTypeRemoved | TargetAbsent | TargetReplaced | PolicyNoLongerMatches | TargetNoLongerDeleting

  datatype Verdict = Processed | Uncovered | Incomplete | Resolve(reason: Reason)

  /** The reason drawn from a successful record. */
  function VerdictReason(t: TargetRef, c: ResourceCoverage): (r: Reason)
    ensures !r.ResourceTypeRemoved?
  {
    if t.uid !in c.allUIDs then
      if Identity(t.ns, t.name) in c.identities && c.identities[Identity(t.ns, t.name)] != t.uid then TargetReplaced
      else TargetAbsent
    else if t.uid !in c.selectedUIDs then PolicyNoLongerMatches
    else TargetNoLongerDeleting
  }

  /** The decision of reconcileLifecycle about an open incident. */
  function VerdictFor(t: TargetRef, observations: map<string, Observation>, catalog: Snapshot,
                      coverage: map<GroupResource, ResourceCoverage>): Verdict
  {
    if t.uid in observations then Processed
    else if t.GR() !in catalog.resources then Resolve(Reason.ResourceTypeRemoved)
    else if t.GR() !in coverage then Uncovered
    else
      var c := coverage[t.GR()];
      if !c.success then Incomplete else Resolve(VerdictReason(t, c))
  }

  ghost predicate Holds(items: seq<Meta>, uid: string) { exists m :: m in items && m.uid == uid }

  ghost predicate HoldsNamed(items: seq<Meta>, t: TargetRef) {
    exists m :: m in items && m.ns == t.ns && m.name == t.name
  }

  ghost predicate NoPolicyMatches(scope: Scope, t: Policy.Target) {
    forall p :: p in scope.policies ==> !Policy.Match(p, t)
  }

  /** What a reason says about the full list of the target's resource. */
  ghost predicate Fate(scope: Scope, t: TargetRef, v: Version, items: seq<Meta>, reason: Reason) {
    match reason
    case ResourceTypeRemoved => false
    case TargetAbsent => !Holds(items, t.uid) && !HoldsNamed(items, t)
    case TargetReplaced => !Holds(items, t.uid) && HoldsNamed(items, t)
    case PolicyNoLongerMatches =>
      Holds(items, t.uid) && forall m :: m in items && m.uid == t.uid ==>
        NoPolicyMatches(scope, TargetOf(scope, t.GR(), v, m))
    case TargetNoLongerDeleting =>
      && (exists m :: m in items && m.uid == t.uid && Winner(scope, t.GR(), v, m).Some?)
      && (forall m :: m in items && m.uid == t.uid && Winner(scope, t.GR(), v, m).Some? ==> m.deletion.None?)
  }

  /** The job that listed a resource in full, from the first of its versions that is not missing. */
  ghost predicate ListedBy(u: Setup, job: Job, v: Version, t: TargetRef) {
    job in u.jobs && job.resource.gr == t.GR() && Tried(u, job, v) && EndAt(u, job, v).Complete?
  }

  ghost predicate Truthful(u: Setup, catalog: Snapshot, t: TargetRef, reason: Reason) {
    if reason.ResourceTypeRemoved? then t.GR() !in catalog.resources
    else exists job, v :: ListedBy(u, job, v, t) && Fate(u.scope, t, v, ListOf(u, job, v).items, reason)
  }

  ghost predicate NulFreeNamespaces(items: seq<Meta>) { forall m :: m in items ==> Framing.NulFree(m.ns) }

  lemma IdentityNames(ns: string, name: string, ns': string, name': string)
    requires Framing.NulFree(ns) && Framing.NulFree(ns') && Identity(ns, name) == Identity(ns', name')
    ensures ns == ns' && name == name'
  {
    assert Identity(ns, name) == ns + ("\0" + name) && Identity(ns', name') == ns' + ("\0" + name');
    Framing.HeadDelimited(ns, "\0" + name, ns', "\0" + name');
    assert name == ("\0" + name)[1..] && name' == ("\0" + name')[1..];
  }

  /** Everything an open incident refers to was retained from the full list. */
  lemma TrackedRetained(scope: Scope, job: Job, v: Version, items: seq<Meta>, t: TargetRef)
    requires t.uid in job.tracked.uids && Identity(t.ns, t.name) in job.tracked.identities
    ensures forall m :: m in items && (m.uid == t.uid || Identity(m.ns, m.name) == Identity(t.ns, t.name)) ==>
              m in Retain(scope, job, v, items)
    ensures forall m :: m in Retain(scope, job, v, items) ==> m in items
  {
    RetainMembers(scope, job, v, items);
  }

  /** Facts about one list and its record, and the reason concluded from them. */
  lemma FateFromRecord(scope: Scope, job: Job, v: Version, items: seq<Meta>, t: TargetRef, c: ResourceCoverage,
                       reason: Reason, observations: map<string, Observation>)
    requires job.resource.gr == t.GR() && t.uid in job.tracked.uids && Identity(t.ns, t.name) in job.tracked.identities
    requires Describes(c, scope, t.GR(), v, Retain(scope, job, v, items)) && c.success
    requires t.uid !in observations
    requires t.uid in StuckIn(scope, t.GR(), v, Retain(scope, job, v, items)) ==> t.uid in observations
    requires Framing.NulFree(t.ns) && NulFreeNamespaces(items)
    requires reason == VerdictReason(t, c)
    ensures Fate(scope, t, v, items, reason)
  {
    hide Retain, Identity, Winner;
    TrackedRetained(scope, job, v, items, t);
    match reason
    case TargetAbsent => assert !Holds(items, t.uid); NamedIsHeld(scope, job, v, items, t, c);
    case TargetReplaced => assert !Holds(items, t.uid); IndexedIsNamed(scope, job, v, items, t, c);
    case PolicyNoLongerMatches =>
      forall m | m in items && m.uid == t.uid ensures NoPolicyMatches(scope, TargetOf(scope, t.GR(), v, m)) {
        assert Winner(scope, t.GR(), v, m).None?;
        NoWinner(scope, t.GR(), v, m);
      }
    case TargetNoLongerDeleting =>
      forall m | m in items && m.uid == t.uid && Winner(scope, t.GR(), v, m).Some? ensures m.deletion.None? {
        assert !Stuck(scope, t.GR(), v, m);
      }
    case ResourceTypeRemoved =>
  }

  lemma NoWinner(scope: Scope, gr: GroupResource, v: Version, m: Meta)
    requires Winner(scope, gr, v, m).None?
    ensures NoPolicyMatches(scope, TargetOf(scope, gr, v, m))
  {
    Policy.FirstMatchExactly(scope.policies, TargetOf(scope, gr, v, m));
  }

  lemma NamedIsHeld(scope: Scope, job: Job, v: Version, items: seq<Meta>, t: TargetRef, c: ResourceCoverage)
    requires t.uid in job.tracked.uids && Identity(t.ns, t.name) in job.tracked.identities
    requires Indexes(c.identities, Retain(scope, job, v, items))
    requires Identity(t.ns, t.name) in c.identities ==> c.identities[Identity(t.ns, t.name)] == t.uid
    ensures HoldsNamed(items, t) ==> Holds(items, t.uid)
  {
    TrackedRetained(scope, job, v, items, t);
    hide Retain, Identity;
    var kept := Retain(scope, job, v, items);
    if m :| m in items && m.ns == t.ns && m.name == t.name {
      assert m in kept && Identity(m.ns, m.name) in c.identities;
      var x :| x in kept && Identity(x.ns, x.name) == Identity(t.ns, t.name)
      && x.uid == c.identities[Identity(t.ns, t.name)];
      assert x in items;
    }
  }

  lemma IndexedIsNamed(scope: Scope, job: Job, v: Version, items: seq<Meta>, t: TargetRef, c: ResourceCoverage)
    requires Indexes(c.identities, Retain(scope, job, v, items)) && Identity(t.ns, t.name) in c.identities
    requires Framing.NulFree(t.ns) && NulFreeNamespaces(items)
    ensures HoldsNamed(items, t)
  {
    RetainMembers(scope, job, v, items);
    hide Retain, Identity;
    var x :| x in Retain(scope, job, v, items) && Identity(x.ns, x.name) == Identity(t.ns, t.name);
    IdentityNames(x.ns, x.name, t.ns, t.name);
  }

  // ---- listTargets as a whole ----

  /** What a listing meets: the catalog, policies and namespace labels, the lists and bounds, how the
      workers interleave and in which order their results arrive. */
  datatype Scene = Scene(
    catalog: Snapshot, scope: Scope, serve: (GroupResource, string) -> Listing, pageSize: nat, maxTargets: int,
    schedule: seq<nat>, arrival: seq<nat>)

  ghost predicate ValidScene(x: Scene) {
    Consistent(x.catalog) && x.pageSize > 0 && x.maxTargets > 0 && forall gr, v :: Honours(x.serve(gr, v))
  }

  /** A job tracks exactly the open incidents about its resource. */
  ghost predicate JobTracks(list: seq<Entry>, job: Job) {
    && (forall u :: u in job.tracked.uids <==>
          exists e :: e in list && OpenFor(e, job.resource.gr) && e.Target().uid == u)
    && (forall id :: id in job.tracked.identities <==>
          exists e :: e in list && OpenFor(e, job.resource.gr) && Identity(e.Target().ns, e.Target().name) == id)
  }

  /** The jobs: one per catalogued resource that is wanted, in the order of their names, with the
      versions in the order they are tried and exactly the open incidents tracked. */
  ghost predicate JobsFor(x: Scene, list: seq<Entry>, jobs: seq<Job>) {
    && (forall i, j :: 0 <= i < j < |jobs| ==>
          jobs[i].resource.gr != jobs[j].resource.gr && !ResourceLess(jobs[j].resource, jobs[i].resource))
    && (forall r :: (exists job :: job in jobs && job.resource == r) <==>
          (x.catalog.Resolve(r.gr) == Some(r) && Wanted(x.scope.policies, list, r.gr)))
    && (forall job :: job in jobs ==>
          job.versions == Ordered(job.resource, job.resource.preferred.version) && JobTracks(list, job))
  }

  ghost predicate SetupFor(x: Scene, list: seq<Entry>, u: Setup) {
    u == Setup(x.scope, u.jobs, x.serve, x.pageSize, x.maxTargets) && JobsFor(x, list, u.jobs)
  }

  lemma SetupIsValid(x: Scene, list: seq<Entry>, u: Setup)
    requires ValidScene(x) && SetupFor(x, list, u)
    ensures ValidSetup(u)
  {
    hide JobTracks, Wanted, Ordered, Honours;
  }

  predicate Delivered(results: seq<Result>, gr: GroupResource) { exists d :: d in results && d.gr == gr }

  /** The result channel: finished workers deliver once each, in the order of arrival. */
  function Deliveries(u: Setup, s: State, arrival: seq<nat>): seq<Result> {
    if arrival == [] then []
    else
      var init, j := Deliveries(u, s, arrival[..|arrival| - 1]), arrival[|arrival| - 1];
      if j < |u.jobs| && j < |s.workers| && s.workers[j].Finished? && !Delivered(init, u.jobs[j].resource.gr)
      then init + [Result(u.jobs[j].resource.gr, s.workers[j].outcome)]
      else init
  }

  /** Everything the workers delivered. */
  function ResultsOf(x: Scene, u: Setup): seq<Result> { Deliveries(u, Run(u, x.schedule), x.arrival) }

  /** Each result is the exact report of the worker of some job. */
  ghost predicate FromWorkers(u: Setup, reserved: set<string>, results: seq<Result>) {
    forall d :: d in results ==> ReportedBy(u, reserved, d)
  }

  ghost predicate ReportedBy(u: Setup, reserved: set<string>, d: Result) {
    exists job :: job in u.jobs && job.resource.gr == d.gr && OutcomeOk(u, job, reserved, d.outcome)
  }

  ghost predicate NulFreeLists(u: Setup) { forall gr, v :: NulFreeNamespaces(u.serve(gr, v).items) }

  /** One listing's conclusions. */
  datatype Scan = Scan(observations: map<string, Observation>, coverage: map<GroupResource, ResourceCoverage>,
                       failed: bool)

  /** A scan is the exact account of what the workers of the scene's jobs delivered. */
  ghost predicate Account(x: Scene, list: seq<Entry>, u: Setup, scan: Scan) {
    && SetupFor(x, list, u)
    && var results := ResultsOf(x, u);
    && Covers(u.scope, results, scan.coverage, AnyBound(results)) && Observes(u.scope, results, scan.observations)
    && (scan.failed <==> exists d :: d in results && !d.outcome.Listed?)
  }

  lemma DeliverOne(u: Setup, s: State, j: nat, results: seq<Result>, d: Result)
    requires Invariant(u, s) && j < |u.jobs| && s.workers[j].Finished?
    requires d == Result(u.jobs[j].resource.gr, s.workers[j].outcome)
    requires OnePerResource(results) && FromWorkers(u, s.reserved, results) && !Delivered(results, d.gr)
    ensures OnePerResource(results + [d]) && FromWorkers(u, s.reserved, results + [d])
  {
    hide OutcomeOk;
    assert WorkerOk(u, u.jobs[j], s.reserved, s.workers[j]);
    assert u.jobs[j] in u.jobs;
    assert ReportedBy(u, s.reserved, d);
    hide ReportedBy;
    forall k | 0 <= k < |results| ensures results[k].gr != d.gr { assert results[k] in results; }
  }

  lemma {:induction false} DeliveriesExact(u: Setup, s: State, arrival: seq<nat>)
    requires Invariant(u, s)
    ensures OnePerResource(Deliveries(u, s, arrival)) && FromWorkers(u, s.reserved, Deliveries(u, s, arrival))
  {
    hide Invariant, FromWorkers, OnePerResource, Delivered;
    if arrival == [] {
      NothingDelivered(u, s.reserved);
    } else {
      var init, j := arrival[..|arrival| - 1], arrival[|arrival| - 1];
      DeliveriesExact(u, s, init);
      if Deliveries(u, s, arrival) != Deliveries(u, s, init) {
        DeliverOne(u, s, j, Deliveries(u, s, init), Result(u.jobs[j].resource.gr, s.workers[j].outcome));
      }
    }
  }

  lemma NothingDelivered(u: Setup, reserved: set<string>)
    ensures OnePerResource([]) && FromWorkers(u, reserved, [])
  {
  }

  /** Whoever has finished and arrived has delivered. */
  lemma {:induction false} ArrivedDelivered(u: Setup, s: State, arrival: seq<nat>, j: nat)
    requires j < |u.jobs| && j < |s.workers| && s.workers[j].Finished? && j in arrival
    ensures Delivered(Deliveries(u, s, arrival), u.jobs[j].resource.gr)
  {
    var init, last := arrival[..|arrival| - 1], arrival[|arrival| - 1];
    assert arrival == init + [last];
    if last == j {
      if !Delivered(Deliveries(u, s, init), u.jobs[j].resource.gr) {
        var d := Result(u.jobs[j].resource.gr, s.workers[j].outcome);
        assert d in Deliveries(u, s, init) + [d];
      }
    } else {
      ArrivedDelivered(u, s, init, j);
      assert forall d :: d in Deliveries(u, s, init) ==> d in Deliveries(u, s, arrival);
    }
  }

  /** The results of a scene are exact reports, one per resource, within the budget. */
  lemma ResultsExact(x: Scene, list: seq<Entry>, u: Setup)
    requires ValidScene(x) && SetupFor(x, list, u)
    ensures OnePerResource(ResultsOf(x, u)) && FromWorkers(u, Run(u, x.schedule).reserved, ResultsOf(x, u))
    ensures |Run(u, x.schedule).reserved| <= x.maxTargets
  {
    hide OnePerResource, FromWorkers, JobsFor, Deliveries;
    SetupIsValid(x, list, u);
    EveryInterleaving(u, x.schedule);
    DeliveriesExact(u, Run(u, x.schedule), x.arrival);
  }

  /** Every reason that lifecycle resolution gives is true of the lists. */
  lemma VerdictsAreTruthful(x: Scene, list: seq<Entry>, u: Setup, scan: Scan, e: Entry)
    requires ValidScene(x) && Account(x, list, u, scan) && NulFreeLists(u)
    requires e in list && !e.Resolved() && Framing.NulFree(e.Target().ns)
    ensures var verdict := VerdictFor(e.Target(), scan.observations, x.catalog, scan.coverage);
            verdict.Resolve? ==> Truthful(u, x.catalog, e.Target(), verdict.reason)
  {
    hide Fate, VerdictReason, Describes, ObservedFrom, Retain, Identity, Run, Deliveries, Tried, EndAt, Wanted, Ordered,
      ValidScene;
    var t, results := e.Target(), ResultsOf(x, u);
    var verdict := VerdictFor(t, scan.observations, x.catalog, scan.coverage);
    if verdict.Resolve? && t.GR() in x.catalog.resources {
      ResultsExact(x, list, u);
      var c := scan.coverage[t.GR()];
      var d :| d in results && d.gr == t.GR();
      assert RecordOk(u.scope, d, c, AnyBound(results));
      assert ReportedBy(u, Run(u, x.schedule).reserved, d);
      var v := d.outcome.version;
      var job :| job in u.jobs && job.resource.gr == d.gr && OutcomeOk(u, job, Run(u, x.schedule).reserved, d.outcome);
      assert OpenFor(e, t.GR()) && JobTracks(list, job);
      assert Delivers(u.scope, d, t.uid) ==> t.uid in scan.observations;
      hide StuckIn;
      FateFromRecord(u.scope, job, v, ListOf(u, job, v).items, t, c, verdict.reason, scan.observations);
      assert ListedBy(u, job, v, t);
    }
  }

  /** A scan that met the target bound resolves nothing except for removed resource types. */
  lemma BoundResolvesNothing(x: Scene, list: seq<Entry>, u: Setup, scan: Scan, t: TargetRef)
    requires Account(x, list, u, scan) && AnyBound(ResultsOf(x, u))
    ensures var verdict := VerdictFor(t, scan.observations, x.catalog, scan.coverage);
            verdict.Resolve? ==> verdict.reason.ResourceTypeRemoved?
  {
    hide Describes, VerdictReason, ResultsOf, SetupFor, Observes;
    if t.GR() in scan.coverage {
      var d :| d in ResultsOf(x, u) && d.gr == t.GR();
      assert RecordOk(u.scope, d, scan.coverage[d.gr], true);
    }
  }

  /** Every observed UID was reserved, so there are at most as many as the budget allows. */
  lemma ObservedAreReserved(x: Scene, list: seq<Entry>, u: Setup, scan: Scan)
    requires ValidScene(x) && Account(x, list, u, scan)
    ensures scan.observations.Keys <= Run(u, x.schedule).reserved && |scan.observations| <= x.maxTargets
  {
    hide Retain, Stuck, Winner, ResultsOf, SetupFor, Run, Covers, Tried, EndAt, Unlistable;
    ResultsExact(x, list, u);
    var reserved, results := Run(u, x.schedule).reserved, ResultsOf(x, u);
    forall uid | uid in scan.observations ensures uid in reserved {
      var d :| d in results && IsSource(u.scope, d, scan.observations[uid]);
      assert ReportedBy(u, reserved, d);
      var job :| job in u.jobs && job.resource.gr == d.gr && OutcomeOk(u, job, reserved, d.outcome);
      assert AllReserved(u, job, d.outcome.version, d.outcome.items, reserved);
    }
    Larger(scan.observations.Keys, reserved);
  }

  /** Every worker finished and its result arrived. */
  ghost predicate AllDelivered(x: Scene, u: Setup) {
    var s := Run(u, x.schedule);
    |s.workers| == |u.jobs| && forall j :: 0 <= j < |u.jobs| ==> j in x.arrival && s.workers[j].Finished?
  }

  /** As in every uncancelled listing: there each worker runs on until it finishes, which takes it no more
      than its allowance of actions, and each result is taken from the channel. */
  lemma UncancelledDelivers(x: Scene, list: seq<Entry>, u: Setup)
    requires ValidScene(x) && SetupFor(x, list, u)
    requires forall j :: 0 <= j < |u.jobs| ==> j in x.arrival && multiset(x.schedule)[j] >= Allowance(u, u.jobs[j])
    ensures AllDelivered(x, u)
  {
    hide Run, Allowance, SetupFor, ValidScene;
    SetupIsValid(x, list, u);
    EveryInterleaving(u, x.schedule);
    forall j | 0 <= j < |u.jobs| ensures j in x.arrival && Run(u, x.schedule).workers[j].Finished? {
      EveryWorkerFinishes(u, x.schedule, j);
    }
  }

  function Counting(n: nat): (s: seq<nat>)
    ensures forall j :: 0 <= j < n ==> j in s
  {
    if n == 0 then [] else Counting(n - 1) + [n - 1]
  }

  /** Whatever is to be listed, some interleaving and order of arrival deliver everything. */
  lemma SomeScheduleDelivers(x: Scene, list: seq<Entry>, u: Setup)
    requires ValidScene(x) && SetupFor(x, list, u)
    ensures exists schedule, arrival :: AllDelivered(x.(schedule := schedule, arrival := arrival), u)
  {
    hide AllDelivered, Allowance, JobTracks, Wanted, Ordered;
    var y := x.(schedule := InTurn(u, |u.jobs|), arrival := Counting(|u.jobs|));
    assert ValidScene(y) && SetupFor(y, list, u);
    hide ValidScene, SetupFor;
    UncancelledDelivers(y, list, u);
    assert AllDelivered(x.(schedule := y.schedule, arrival := y.arrival), u);
  }

  lemma EveryJobDelivered(x: Scene, u: Setup, job: Job)
    requires AllDelivered(x, u) && job in u.jobs
    ensures Delivered(ResultsOf(x, u), job.resource.gr)
  {
    hide Run, Deliveries;
    var j :| 0 <= j < |u.jobs| && u.jobs[j] == job;
    ArrivedDelivered(u, Run(u, x.schedule), x.arrival, j);
  }

  /** All stuck objects in the first version of the resource that is not missing, listed to its end. */
  ghost predicate FullyObserved(u: Setup, job: Job, scan: Scan) {
    exists v :: Tried(u, job, v) && EndAt(u, job, v).Complete?
      && StuckIn(u.scope, job.resource.gr, v, ListOf(u, job, v).items) <= scan.observations.Keys
  }

  /** When everyone delivered and nobody met the bound, every stuck object of every resource that a policy
      selects or an open incident is about is observed, unless the resource cannot be listed. */
  lemma EveryStuckObserved(x: Scene, list: seq<Entry>, u: Setup, scan: Scan, job: Job)
    requires ValidScene(x) && Account(x, list, u, scan) && job in u.jobs
    requires AllDelivered(x, u) && !AnyBound(ResultsOf(x, u))
    ensures FullyObserved(u, job, scan) || Unlistable(u, job)
  {
    hide Retain, Run, Deliveries, Tried, EndAt, Unlistable, AllDelivered, Covers, StuckIn, AllReserved, Stuck;
    EveryJobDelivered(x, u, job);
    ResultsExact(x, list, u);
    var reserved, results := Run(u, x.schedule).reserved, ResultsOf(x, u);
    var d :| d in results && d.gr == job.resource.gr;
    assert ReportedBy(u, reserved, d);
    var reporter :| reporter in u.jobs && reporter.resource.gr == d.gr && OutcomeOk(u, reporter, reserved, d.outcome);
    SameJob(x, list, u, job, reporter);
    if d.outcome.Listed? {
      var v := d.outcome.version;
      StuckRetained(u.scope, job, v, ListOf(u, job, v).items);
      assert forall uid :: uid in StuckIn(u.scope, job.resource.gr, v, d.outcome.items) ==> Delivers(u.scope, d, uid);
    }
  }

  lemma SameJob(x: Scene, list: seq<Entry>, u: Setup, a: Job, b: Job)
    requires SetupFor(x, list, u) && a in u.jobs && b in u.jobs && a.resource.gr == b.resource.gr
    ensures a == b
  {
    hide JobTracks, Wanted, Ordered, ResourceLess;
    var i :| 0 <= i < |u.jobs| && u.jobs[i] == a;
    var j :| 0 <= j < |u.jobs| && u.jobs[j] == b;
  }

  lemma StuckRetained(scope: Scope, job: Job, v: Version, items: seq<Meta>)
    ensures StuckIn(scope, job.resource.gr, v, items) ==
              StuckIn(scope, job.resource.gr, v, Retain(scope, job, v, items))
  {
    RetainMembers(scope, job, v, items);
    hide Retain, Stuck, IsTracked;
  }

  /** When everyone delivered, every catalogued resource with an open incident is covered. */
  lemma OpenAreCovered(x: Scene, list: seq<Entry>, u: Setup, scan: Scan, e: Entry)
    requires ValidScene(x) && Account(x, list, u, scan) && AllDelivered(x, u)
    requires e in list && !e.Resolved() && e.Target().GR() in x.catalog.resources
    ensures e.Target().GR() in scan.coverage
  {
    hide AllDelivered, ResultsOf, RecordOk, Observes, JobTracks, Ordered, ResourceLess;
    var r := x.catalog.resources[e.Target().GR()];
    assert OpenFor(e, r.gr);
    var job :| job in u.jobs && job.resource == r;
    EveryJobDelivered(x, u, job);
  }

  /** The jobs of a scan, versions in the order they will be tried. */
  method MakeJobs(resources: seq<Resource>, tracked: map<GroupResource, Tracked>) returns (jobs: seq<Job>)
    ensures |jobs| == |resources|
    ensures forall j :: 0 <= j < |jobs| ==>
              jobs[j] == Job(resources[j], Ordered(resources[j], resources[j].preferred.version),
                             TrackedIn(tracked, resources[j].gr))
  {
    hide VersionOrder, Ordered;
    jobs := [];
    for i := 0 to |resources|
      invariant |jobs| == i
      invariant forall j :: 0 <= j < i ==>
        jobs[j] == Job(resources[j], Ordered(resources[j], resources[j].preferred.version),
                       TrackedIn(tracked, resources[j].gr))
    {
      var versions := OrderedVersions(resources[i], resources[i].preferred.version);
      jobs := jobs + [Job(resources[i], versions, TrackedIn(tracked, resources[i].gr))];
    }
  }

  lemma JobsAreFor(x: Scene, list: seq<Entry>, resources: seq<Resource>, tracked: map<GroupResource, Tracked>,
                   jobs: seq<Job>)
    requires Consistent(x.catalog) && UniqueKeys(resources) && Sorting.Sorted(ResourceLess, resources)
    requires Tracks(x.catalog, list, tracked)
    requires forall r :: r in resources <==> x.catalog.Resolve(r.gr) == Some(r) && Wanted(x.scope.policies, list, r.gr)
    requires |jobs| == |resources| && forall j :: 0 <= j < |jobs| ==>
               jobs[j] == Job(resources[j], Ordered(resources[j], resources[j].preferred.version),
                              TrackedIn(tracked, resources[j].gr))
    ensures JobsFor(x, list, jobs)
  {
    hide Wanted, Ordered, ResourceLess, Tracks, JobTracks, TrackedIn;
    forall r ensures (exists job :: job in jobs && job.resource == r) <==> r in resources {
      if r in resources {
        var j :| 0 <= j < |resources| && resources[j] == r;
        assert jobs[j] in jobs;
      }
    }
    forall job | job in jobs
      ensures job.versions == Ordered(job.resource, job.resource.preferred.version) && JobTracks(list, job)
    {
      var j :| 0 <= j < |jobs| && jobs[j] == job;
      assert resources[j] in resources;
      ResourceTracks(x, list, resources[j], tracked, job);
    }
  }

  lemma ResourceTracks(x: Scene, list: seq<Entry>, r: Resource, tracked: map<GroupResource, Tracked>, job: Job)
    requires Tracks(x.catalog, list, tracked) && x.catalog.Resolve(r.gr) == Some(r)
    requires job.resource == r && job.tracked == TrackedIn(tracked, r.gr)
    ensures JobTracks(list, job)
  {
    hide Identity, OpenFor;
  }

  /** What the full list says of a target, it says of one reason only. */
  lemma FatesExclude(scope: Scope, t: TargetRef, v: Version, items: seq<Meta>, a: Reason, b: Reason)
    requires Fate(scope, t, v, items, a) && Fate(scope, t, v, items, b)
    ensures a == b
  {
    hide Winner;
    if b.TargetNoLongerDeleting? && a.PolicyNoLongerMatches? {
      var m :| m in items && m.uid == t.uid && Winner(scope, t.GR(), v, m).Some?;
      StuckExactly(scope, t.GR(), v, m);
    }
    if a.TargetNoLongerDeleting? && b.PolicyNoLongerMatches? {
      var m :| m in items && m.uid == t.uid && Winner(scope, t.GR(), v, m).Some?;
      StuckExactly(scope, t.GR(), v, m);
    }
  }

  /** The verdict on an open incident about an unobserved target, in both directions: its type removed exactly
      when the catalog lacks it; otherwise resolved for the one true reason when its resource was listed in full,
      and marked incomplete when it cannot be listed or the bound was met. */
  lemma VerdictExactly(x: Scene, list: seq<Entry>, u: Setup, scan: Scan, e: Entry)
    requires ValidScene(x) && Account(x, list, u, scan) && NulFreeLists(u) && AllDelivered(x, u)
    requires e in list && !e.Resolved() && Framing.NulFree(e.Target().ns) && e.Target().uid !in scan.observations
    ensures var t := e.Target();
            var verdict := VerdictFor(t, scan.observations, x.catalog, scan.coverage);
            if t.GR() !in x.catalog.resources then verdict == Resolve(Reason.ResourceTypeRemoved)
            else exists job :: job in u.jobs && job.resource.gr == t.GR()
                   && (if AnyBound(ResultsOf(x, u)) || Unlistable(u, job) then verdict == Incomplete
                       else verdict.Resolve? && Truthful(u, x.catalog, t, verdict.reason))
  {
    hide AllDelivered, ResultsOf, Observes, JobTracks, Ordered, ResourceLess, Truthful, Describes, Unlistable,
      ValidScene, NulFreeLists, AnyBound, VerdictReason;
    var t, results := e.Target(), ResultsOf(x, u);
    if t.GR() in x.catalog.resources {
      VerdictsAreTruthful(x, list, u, scan, e);
      OpenAreCovered(x, list, u, scan, e);
      var d :| d in results && d.gr == t.GR();
      var job := JobOf(x, list, u, d);
      assert RecordOk(u.scope, d, scan.coverage[t.GR()], AnyBound(results));
      if !AnyBound(results) { NotBound(results, d); }
    }
  }

  lemma NotBound(results: seq<Result>, d: Result)
    requires !AnyBound(results) && d in results
    ensures !d.outcome.Bound?
  {
  }

  /** The job behind a result, which failed exactly when its resource cannot be listed. */
  lemma JobOf(x: Scene, list: seq<Entry>, u: Setup, d: Result) returns (job: Job)
    requires ValidScene(x) && SetupFor(x, list, u) && d in ResultsOf(x, u)
    ensures job in u.jobs && job.resource.gr == d.gr
    ensures !d.outcome.Bound? ==> (d.outcome.Failed? <==> Unlistable(u, job))
  {
    hide Run, Deliveries, SetupFor, ValidScene, Retain, AllReserved;
    ResultsExact(x, list, u);
    var reserved := Run(u, x.schedule).reserved;
    assert ReportedBy(u, reserved, d);
    job :| job in u.jobs && job.resource.gr == d.gr && OutcomeOk(u, job, reserved, d.outcome);
    if d.outcome.Listed? { ListedNotUnlistable(u, job, d.outcome.version); }
  }

  lemma ListedNotUnlistable(u: Setup, job: Job, v: Version)
    requires Tried(u, job, v) && EndAt(u, job, v).Complete?
    ensures !Unlistable(u, job)
  {
    hide EndAt;
    var k :| 0 <= k < |job.versions| && job.versions[k] == v && MissingUpTo(u, job, k);
  }

  /** listTargets for a successfully listed set of incidents; an uncancelled one lets all workers finish. */
  method ListTargets(x: Scene, list: seq<Entry>) returns (scan: Scan, ghost u: Setup)
    requires ValidScene(x)
    ensures Account(x, list, u, scan)
    ensures |scan.observations| <= x.maxTargets
    ensures AllDelivered(x, u) ==> forall job :: job in u.jobs ==> Delivered(ResultsOf(x, u), job.resource.gr)
    ensures AllDelivered(x, u) && !AnyBound(ResultsOf(x, u)) ==>
              forall job :: job in u.jobs ==> FullyObserved(u, job, scan) || Unlistable(u, job)
  {
    hide Tracks, Covers, Observes, Invariant, Wanted, Run, OnePerResource, FromWorkers, UniqueKeys, Honours, Deliveries,
      JobsFor, AllDelivered, FullyObserved, Unlistable, Delivered, Consistent;
    var resources, tracked := ResourcesToScan(x.catalog, x.scope.policies, list);
    var jobs := MakeJobs(resources, tracked);
    JobsAreFor(x, list, resources, tracked, jobs);
    var setup := Setup(x.scope, jobs, x.serve, x.pageSize, x.maxTargets);
    u := setup;
    ResultsExact(x, list, u);
    var results := ResultsOf(x, setup);
    var observations, coverage, failed := CollectResults(x.scope, results);
    scan := Scan(observations, coverage, failed);
    ObservedAreReserved(x, list, u, scan);
    if AllDelivered(x, u) {
      forall job | job in u.jobs ensures Delivered(ResultsOf(x, u), job.resource.gr) { EveryJobDelivered(x, u, job); }
      if !AnyBound(results) {
        forall job | job in u.jobs ensures FullyObserved(u, job, scan) || Unlistable(u, job) {
          EveryStuckObserved(x, list, u, scan, job);
        }
      }
    }
  }
}
