/** internal/discovery/catalog.go: building and reading discovery snapshots, and the version-fallback
    lookup that diagnosis and the executor share. */
module Discovery {
  import opened Types
  import Sorting

  datatype Version = Version(version: string, kind: string, namespaced: bool, verbs: seq<string>)

  datatype Resource = Resource(gr: GroupResource, preferred: Version, alternates: seq<Version>) {
    function Versions(): (vs: seq<Version>)
      ensures vs != []
    {
      [preferred] + alternates
    }

    predicate EligibleForWildcard() {
      gr.resource != "events" && (gr.group != "coordination.k8s.io" || gr.resource != "leases")
    }
  }

  datatype Snapshot = Snapshot(resources: map<GroupResource, Resource>, ordered: seq<Resource>) {
    function Resolve(gr: GroupResource): Option<Resource> {
      if gr in resources then Some(resources[gr]) else None
    }
  }

  ghost predicate UniqueKeys(rs: seq<Resource>) {
    forall i, j :: 0 <= i < j < |rs| ==> rs[i].gr != rs[j].gr
  }

  /** `Resolve` and `Resources` describe the same catalog. */
  ghost predicate Consistent(s: Snapshot) {
    && UniqueKeys(s.ordered)
    && (forall r :: r in s.ordered ==> s.Resolve(r.gr) == Some(r))
    && (forall gr :: gr in s.resources ==> s.resources[gr] in s.ordered && s.resources[gr].gr == gr)
  }

  /** newSnapshot: index an ordered list by group and resource. */
  method NewSnapshot(rs: seq<Resource>) returns (s: Snapshot)
    requires UniqueKeys(rs)
    ensures s.ordered == rs && Consistent(s)
  {
    var byResource: map<GroupResource, Resource> := map[];
    for i := 0 to |rs|
      invariant forall r :: r in rs[..i] ==> r.gr in byResource && byResource[r.gr] == r
      invariant forall gr :: gr in byResource ==> byResource[gr] in rs[..i] && byResource[gr].gr == gr
    {
      byResource := byResource[rs[i].gr := rs[i]];
      assert rs[..i + 1] == rs[..i] + [rs[i]];
      forall r | r in rs[..i] ensures r.gr != rs[i].gr {
        var k :| 0 <= k < i && rs[..i][k] == r;
        assert rs[k].gr != rs[i].gr;
      }
    }
    assert rs[..|rs|] == rs;
    s := Snapshot(byResource, rs);
  }

  /** Two consistent snapshots with the same resource list resolve everything alike. */
  lemma ListDeterminesSnapshot(s: Snapshot, t: Snapshot)
    requires Consistent(s) && Consistent(t) && s.ordered == t.ordered
    ensures s == t
  {
    forall gr | gr in s.resources ensures gr in t.resources && t.resources[gr] == s.resources[gr] {
      assert t.Resolve(s.resources[gr].gr) == Some(s.resources[gr]);
    }
    forall gr | gr in t.resources ensures gr in s.resources {
      assert s.Resolve(t.resources[gr].gr) == Some(t.resources[gr]);
    }
    assert s.resources == t.resources;
  }

  // ---- Ordered versions ----

  predicate HasName(vs: seq<Version>, name: string) {
    exists i :: 0 <= i < |vs| && vs[i].version == name
  }

  /** appendVersion: add a candidate unless its name is already there. */
  function AppendVersion(vs: seq<Version>, candidate: Version): (r: seq<Version>)
    ensures vs <= r && HasName(r, candidate.version)
    ensures forall name :: HasName(vs, name) ==> HasName(r, name)
  {
    if HasName(vs, candidate.version) then vs
    else
      var r := vs + [candidate];
      assert r[|vs|].version == candidate.version;
      assert forall i :: 0 <= i < |vs| ==> r[i] == vs[i];
      r
  }

  ghost predicate DistinctNames(vs: seq<Version>) {
    forall i, j :: 0 <= i < j < |vs| ==> vs[i].version != vs[j].version
  }

  /** What every list handed out by OrderedVersions looks like. */
  ghost predicate VersionOrder(r: Resource, requested: string, vs: seq<Version>) {
    && vs != []
    && DistinctNames(vs)
    && (forall v :: v in vs ==> v in r.Versions())
    && (forall v :: v in r.Versions() ==> HasName(vs, v.version))
    && (requested != "" && HasName(r.Versions(), requested) ==> vs[0].version == requested)
    && (requested == "" || !HasName(r.Versions(), requested) ==> vs[0] == r.preferred)
  }

  /** The first served version of the requested name, if any. */
  function Requested(vs: seq<Version>, requested: string): seq<Version> {
    if vs == [] || requested == "" then []
    else
      var first, last := Requested(vs[..|vs| - 1], requested), vs[|vs| - 1];
      if first == [] && last.version == requested then [last] else first
  }

  /** Candidates appended one by one, each name once. */
  function AppendAll(vs: seq<Version>, more: seq<Version>): seq<Version> {
    if more == [] then vs else AppendVersion(AppendAll(vs, more[..|more| - 1]), more[|more| - 1])
  }

  /** The order in which the versions of a resource are tried. */
  function Ordered(r: Resource, requested: string): seq<Version> {
    AppendAll(Requested(r.Versions(), requested), r.Versions())
  }

  lemma {:induction false} RequestedMeans(vs: seq<Version>, requested: string)
    ensures |Requested(vs, requested)| <= 1
    ensures forall v :: v in Requested(vs, requested) ==> v in vs && v.version == requested
    ensures Requested(vs, requested) != [] <==> requested != "" && HasName(vs, requested)
  {
    if vs != [] && requested != "" {
      var init, last := vs[..|vs| - 1], vs[|vs| - 1];
      RequestedMeans(init, requested);
      assert vs == init + [last];
      NamesSnoc(init, last, requested);
      hide HasName;
    }
  }

  lemma NamesSnoc(vs: seq<Version>, v: Version, name: string)
    ensures HasName(vs + [v], name) <==> HasName(vs, name) || v.version == name
  {
    var all := vs + [v];
    assert all[|vs|] == v;
    if HasName(vs, name) {
      var i :| 0 <= i < |vs| && vs[i].version == name;
      assert all[i] == vs[i];
    }
  }

  lemma {:induction false} AppendAllMeans(vs: seq<Version>, more: seq<Version>)
    requires DistinctNames(vs)
    ensures DistinctNames(AppendAll(vs, more)) && vs <= AppendAll(vs, more)
    ensures forall v :: v in AppendAll(vs, more) ==> v in vs || v in more
    ensures forall v :: v in more ==> HasName(AppendAll(vs, more), v.version)
    ensures vs == [] && more != [] ==> AppendAll(vs, more) != [] && AppendAll(vs, more)[0] == more[0]
  {
    if more != [] {
      var init, last := more[..|more| - 1], more[|more| - 1];
      AppendAllMeans(vs, init);
      assert more == init + [last];
    }
  }

  /** What the order is like. */
  lemma OrderedMeans(r: Resource, requested: string)
    ensures VersionOrder(r, requested, Ordered(r, requested))
  {
    var first := Requested(r.Versions(), requested);
    RequestedMeans(r.Versions(), requested);
    assert first != [] ==> first[0] in first;
    AppendAllMeans(first, r.Versions());
    hide AppendAll, Requested;
  }

  lemma RequestedSnoc(vs: seq<Version>, i: nat, requested: string)
    requires i < |vs|
    ensures Requested(vs[..i + 1], requested) ==
              if requested != "" && Requested(vs[..i], requested) == [] && vs[i].version == requested then [vs[i]]
              else Requested(vs[..i], requested)
  {
    assert vs[..i + 1][..i] == vs[..i];
  }

  lemma AppendAllSnoc(vs: seq<Version>, more: seq<Version>, i: nat)
    requires i < |more|
    ensures AppendAll(vs, more[..i + 1]) == AppendVersion(AppendAll(vs, more[..i]), more[i])
  {
    assert more[..i + 1][..i] == more[..i];
  }

  /** Each served version name exactly once, the requested one first when it is served and the
      preferred one first otherwise. */
  method OrderedVersions(r: Resource, requested: string) returns (vs: seq<Version>)
    ensures vs == Ordered(r, requested) && VersionOrder(r, requested, vs)
  {
    hide AppendVersion, VersionOrder;
    var all := r.Versions();
    var first: seq<Version> := [];
    if requested != "" {
      for i := 0 to |all|
        invariant first == Requested(all[..i], requested)
      {
        RequestedSnoc(all, i, requested);
        if all[i].version == requested && first == [] {
          first := [all[i]];
        }
      }
      assert all[..|all|] == all;
    }
    vs := first;
    for i := 0 to |all|
      invariant vs == AppendAll(first, all[..i])
    {
      AppendAllSnoc(first, all, i);
      vs := AppendVersion(vs, all[i]);
    }
    assert all[..|all|] == all;
    OrderedMeans(r, requested);
  }

  // ---- Version fallback ----

  datatype Reply<T> = Found(value: T) | NotFound | Gone | OtherError

  predicate Unavailable<T>(r: Reply<T>) { r.NotFound? || r.Gone? }

  /** Every version before this one is unavailable. */
  ghost predicate FirstAvailable<T>(vs: seq<Version>, ask: string -> Reply<T>, version: string) {
    exists i :: 0 <= i < |vs| && vs[i].version == version && forall k :: 0 <= k < i ==> Unavailable(ask(vs[k].version))
  }

  /** The version whose answer counts: the first available one of a catalogued resource in the order of
      versions, or the one the reference names. */
  ghost predicate Consulted<T>(catalog: Snapshot, target: TargetRef, ask: string -> Reply<T>, version: string) {
    match catalog.Resolve(target.GR())
    case None => version == target.version
    case Some(resource) => FirstAvailable(Ordered(resource, target.version), ask, version)
  }

  /** Engine.getTarget and Reconciler.getCurrent: ask the served versions in order, falling back on
      NotFound and Gone only. `ask` is the API server's answer for each version. For a resource in the
      catalog absence is reported only when every served version answered NotFound or Gone; any answer
      used comes from a served version and every version asked before it was unavailable. */
  method GetCurrent<T>(catalog: Snapshot, target: TargetRef, ask: string -> Reply<T>)
    returns (reply: Reply<T>, version: string)
    ensures catalog.Resolve(target.GR()).None? ==> reply == ask(target.version) && version == target.version
    ensures catalog.Resolve(target.GR()).Some? && Unavailable(reply) ==>
              forall v :: v in catalog.Resolve(target.GR()).value.Versions() ==> Unavailable(ask(v.version))
    ensures catalog.Resolve(target.GR()).Some? && !Unavailable(reply) ==>
              reply == ask(version) && HasName(catalog.Resolve(target.GR()).value.Versions(), version)
    ensures catalog.Resolve(target.GR()).Some? && !Unavailable(reply) && version != target.version
              && target.version != "" && HasName(catalog.Resolve(target.GR()).value.Versions(), target.version)
            ==> Unavailable(ask(target.version))
    ensures !Unavailable(reply) ==> Consulted(catalog, target, ask, version)
  {
    hide Ordered;
    match catalog.Resolve(target.GR())
    case None =>
      reply, version := ask(target.version), target.version;
    case Some(resource) =>
      var versions := OrderedVersions(resource, target.version);
      var last: Reply<T> := OtherError;
      for i := 0 to |versions|
        invariant forall k :: 0 <= k < i ==> Unavailable(ask(versions[k].version))
        invariant i > 0 ==> Unavailable(last)
      {
        version := versions[i].version;
        reply := ask(version);
        assert versions[i] in versions;
        if !Unavailable(reply) {
          assert versions[i] in resource.Versions();
          var m :| 0 <= m < |resource.Versions()| && resource.Versions()[m] == versions[i];
          assert FirstAvailable(Ordered(resource, target.version), ask, version);
          return;
        }
        last := reply;
      }
      reply, version := last, target.version;
      forall v | v in resource.Versions() ensures Unavailable(ask(v.version)) {
        var k :| 0 <= k < |versions| && versions[k].version == v.version;
      }
  }

  // ---- Preference ranks ----

  datatype APIGroup = APIGroup(name: string, preferred: string, versions: seq<string>)

  /** Position in the group's preference list; versions outside it come last. */
  datatype Rank = Known(pos: nat) | Unknown

  predicate RankLess(a: Rank, b: Rank) { a.Known? && (b.Unknown? || a.pos < b.pos) }

  function RankOf(preference: map<string, nat>, version: string): Rank {
    if version in preference then Known(preference[version]) else Unknown
  }

  /** The version strings of a group in order of preference, with repetitions. */
  function Preference(g: APIGroup): seq<string> {
    (if g.preferred != "" then [g.preferred] else []) + g.versions
  }

  /** First occurrences only, in order. */
  function Distinct(order: seq<string>): seq<string> {
    if order == [] then []
    else
      var d, last := Distinct(order[..|order| - 1]), order[|order| - 1];
      if last in d then d else d + [last]
  }

  lemma {:induction false} DistinctKeepsMembers(order: seq<string>)
    ensures forall v :: v in Distinct(order) <==> v in order
    ensures forall i, j :: 0 <= i < j < |Distinct(order)| ==> Distinct(order)[i] != Distinct(order)[j]
  {
    if order != [] {
      var init, last := order[..|order| - 1], order[|order| - 1];
      assert order == init + [last];
      DistinctKeepsMembers(init);
    }
  }

  /** The preferred version has rank 0, then the group's versions count up in listed order. */
  ghost predicate RanksPreference(order: seq<string>, ranks: map<string, nat>) {
    var d := Distinct(order);
    && (forall v :: v in ranks <==> v in d)
    && (forall i :: 0 <= i < |d| ==> ranks[d[i]] == i)
  }

  method AddRank(ghost order: seq<string>, ranks: map<string, nat>, next: nat, v: string)
    returns (ranks': map<string, nat>, next': nat)
    requires RanksPreference(order, ranks) && next == |Distinct(order)|
    ensures RanksPreference(order + [v], ranks') && next' == |Distinct(order + [v])|
  {
    assert (order + [v])[..|order|] == order;
    DistinctKeepsMembers(order);
    ranks', next' := ranks, next;
    if v !in ranks {
      ranks', next' := ranks[v := next], next + 1;
    }
  }

  method GroupRanks(g: APIGroup) returns (ranks: map<string, nat>)
    ensures RanksPreference(Preference(g), ranks)
  {
    hide RanksPreference, Distinct;
    ranks := map[];
    var next := 0;
    assert RanksPreference([], ranks) && next == |Distinct([])| by { NothingRanked(); }
    ghost var head: seq<string> := [];
    if g.preferred != "" {
      ranks, next := AddRank([], ranks, next, g.preferred);
      head := [] + [g.preferred];
    }
    assert head + g.versions[..0] == head;
    for i := 0 to |g.versions|
      invariant RanksPreference(head + g.versions[..i], ranks) && next == |Distinct(head + g.versions[..i])|
    {
      ranks, next := AddRank(head + g.versions[..i], ranks, next, g.versions[i]);
      OneMore(head, g.versions, i);
    }
    assert head + g.versions[..|g.versions|] == Preference(g);
  }

  lemma NothingRanked()
    ensures RanksPreference([], map[]) && Distinct([]) == []
  {
  }

  lemma OneMore(head: seq<string>, s: seq<string>, i: nat)
    requires i < |s|
    ensures head + s[..i + 1] == head + s[..i] + [s[i]]
  {
  }

  /** The last group of its name, which is the one whose preferences count. */
  ghost predicate Governs(groups: seq<Option<APIGroup>>, i: int) {
    && 0 <= i < |groups| && groups[i].Some?
    && forall j :: i < j < |groups| && groups[j].Some? ==> groups[j].value.name != groups[i].value.name
  }

  ghost predicate RanksGroups(groups: seq<Option<APIGroup>>, preferences: map<string, map<string, nat>>) {
    forall i :: Governs(groups, i) ==>
      && groups[i].value.name in preferences
      && RanksPreference(Preference(groups[i].value), preferences[groups[i].value.name])
  }

  /** Nothing but the listed groups is ranked, except that the core group knows v1 when it is not listed. */
  ghost predicate RanksOnlyGroups(groups: seq<Option<APIGroup>>, preferences: map<string, map<string, nat>>) {
    && (forall g :: g in preferences ==> g == "" || InGroups(groups, g))
    && (!InGroups(groups, "") ==> "" in preferences && preferences[""] == map["v1" := 0])
  }

  ghost predicate InGroups(groups: seq<Option<APIGroup>>, name: string) {
    exists i :: 0 <= i < |groups| && groups[i].Some? && groups[i].value.name == name
  }

  method DiscoveryPreferences(groups: seq<Option<APIGroup>>) returns (preferences: map<string, map<string, nat>>)
    ensures RanksGroups(groups, preferences) && RanksOnlyGroups(groups, preferences)
  {
    hide RanksPreference, Preference, RanksGroups, RanksOnlyGroups;
    preferences := map["" := map["v1" := 0]];
    NoGroups();
    for n := 0 to |groups|
      invariant RanksGroups(groups[..n], preferences) && RanksOnlyGroups(groups[..n], preferences)
    {
      assert groups[..n + 1] == groups[..n] + [groups[n]];
      if groups[n].Some? {
        var ranks := GroupRanks(groups[n].value);
        var next := preferences[groups[n].value.name := ranks];
        RanksGroupsSnoc(groups[..n], groups[n], preferences, next);
        OnlyGroupsSnoc(groups[..n], groups[n], preferences, next);
        preferences := next;
      } else {
        RanksGroupsSnoc(groups[..n], groups[n], preferences, preferences);
        OnlyGroupsSnoc(groups[..n], groups[n], preferences, preferences);
      }
    }
    assert groups[..|groups|] == groups;
  }

  lemma NoGroups()
    ensures var core: map<string, map<string, nat>> := map["" := map["v1" := 0]];
            RanksGroups([], core) && RanksOnlyGroups([], core)
  {
  }

  lemma OnlyGroupsSnoc(groups: seq<Option<APIGroup>>, g: Option<APIGroup>,
                       p: map<string, map<string, nat>>, p': map<string, map<string, nat>>)
    requires RanksOnlyGroups(groups, p)
    requires g.None? ==> p' == p
    requires g.Some? ==> g.value.name in p' && p' == p[g.value.name := p'[g.value.name]]
    ensures RanksOnlyGroups(groups + [g], p')
  {
    InGroupsSnoc(groups, g);
  }

  lemma InGroupsSnoc(groups: seq<Option<APIGroup>>, g: Option<APIGroup>)
    ensures forall name :: InGroups(groups + [g], name) <==> InGroups(groups, name) || (g.Some? && g.value.name == name)
  {
    var all := groups + [g];
    assert all[|groups|] == g;
    forall name | InGroups(groups, name) ensures InGroups(all, name) {
      var i :| 0 <= i < |groups| && groups[i].Some? && groups[i].value.name == name;
      assert all[i] == groups[i];
    }
  }

  lemma RanksGroupsSnoc(groups: seq<Option<APIGroup>>, g: Option<APIGroup>,
                        p: map<string, map<string, nat>>, p': map<string, map<string, nat>>)
    requires RanksGroups(groups, p)
    requires g.None? ==> p' == p
    requires g.Some? ==> g.value.name in p' && p' == p[g.value.name := p'[g.value.name]]
    requires g.Some? ==> RanksPreference(Preference(g.value), p'[g.value.name])
    ensures RanksGroups(groups + [g], p')
  {
    var all := groups + [g];
    forall i | Governs(all, i)
      ensures all[i].value.name in p' && RanksPreference(Preference(all[i].value), p'[all[i].value.name])
    {
      if i < |groups| {
        assert Governs(groups, i) by {
          forall j | i < j < |groups| && groups[j].Some? ensures groups[j].value.name != groups[i].value.name {
            assert all[j] == groups[j];
          }
        }
        assert all[|groups|] == g;
      }
    }
  }

  /** The comparator of orderVersions. */
  function VersionLess(preference: map<string, nat>): (Version, Version) -> bool {
    (a: Version, b: Version) =>
      var l, r := RankOf(preference, a.version), RankOf(preference, b.version);
      if l != r then RankLess(l, r) else Sorting.Less(a.version, b.version)
  }

  lemma VersionLessIsStrictWeak(preference: map<string, nat>)
    ensures Sorting.StrictWeak(VersionLess(preference))
  {
    Sorting.LessIsStrictWeak();
    var less := VersionLess(preference);
    forall x, y, z | less(x, z) ensures less(x, y) || less(y, z) {
      assert Sorting.Less(x.version, z.version) ==>
          Sorting.Less(x.version, y.version) || Sorting.Less(y.version, z.version);
    }
  }

  /** orderVersions sorts in place and stably. */
  method OrderVersions(versions: array<Version>, preference: map<string, nat>)
    modifies versions
    ensures versions[..] == Sorting.Sort(VersionLess(preference), old(versions[..]))
  {
    var sorted := Sorting.Sort(VersionLess(preference), versions[..]);
    forall i | 0 <= i < versions.Length { versions[i] := sorted[i]; }
    assert versions[..] == sorted;
  }

  // ---- Building a snapshot ----

  datatype APIResource = APIResource(name: string, kind: string, namespaced: bool, verbs: seq<string>)

  datatype APIResourceList = APIResourceList(groupVersion: string, resources: seq<APIResource>)

  function SlashAt(s: string, from: nat): (i: nat)
    requires from <= |s|
    ensures from <= i <= |s| && (i < |s| ==> s[i] == '/')
    ensures forall k :: from <= k < i ==> s[k] != '/'
    decreases |s| - from
  {
    if from == |s| || s[from] == '/' then from else SlashAt(s, from + 1)
  }

  /** schema.ParseGroupVersion: at most one slash; `None` is the parse error. */
  function ParseGroupVersion(s: string): Option<(string, string)> {
    if s == "" || s == "/" then Some(("", ""))
    else
      var i := SlashAt(s, 0);
      if i == |s| then Some(("", s))
      else if SlashAt(s, i + 1) < |s| then None
      else Some((s[..i], s[i + 1..]))
  }

  /** Sub-resources and resources that cannot be both read and listed are not catalogued. */
  predicate Scannable(r: APIResource) { '/' !in r.name && "get" in r.verbs && "list" in r.verbs }

  function VersionFor(gv: (string, string), r: APIResource): Version {
    Version(gv.1, r.kind, r.namespaced, Sorting.Sort(Sorting.Less, r.verbs))
  }

  /** What one discovered resource contributes to `gr`. */
  function Offered(gv: (string, string), r: APIResource, gr: GroupResource): seq<Version> {
    if Scannable(r) && gr == GroupResource(gv.0, r.name) then [VersionFor(gv, r)] else []
  }

  /** The versions one discovery list contributes for `gr`. */
  function ServedBy(gv: (string, string), rs: seq<APIResource>, gr: GroupResource): seq<Version> {
    if rs == [] then []
    else ServedBy(gv, rs[..|rs| - 1], gr) + Offered(gv, rs[|rs| - 1], gr)
  }

  function ListServes(l: Option<APIResourceList>, gr: GroupResource): seq<Version> {
    if l.Some? && ParseGroupVersion(l.value.groupVersion).Some?
    then ServedBy(ParseGroupVersion(l.value.groupVersion).value, l.value.resources, gr) else []
  }

  /** All versions discovery serves for `gr`, in the order they were discovered. */
  function Served(lists: seq<Option<APIResourceList>>, gr: GroupResource): seq<Version> {
    if lists == [] then []
    else Served(lists[..|lists| - 1], gr) + ListServes(lists[|lists| - 1], gr)
  }

  ghost predicate Parses(lists: seq<Option<APIResourceList>>) {
    forall i :: 0 <= i < |lists| && lists[i].Some? ==> ParseGroupVersion(lists[i].value.groupVersion).Some?
  }

  function Entry(m: map<GroupResource, seq<Version>>, gr: GroupResource): seq<Version> {
    if gr in m then m[gr] else []
  }

  function Contribute(m: map<GroupResource, seq<Version>>, gv: (string, string), r: APIResource)
    : map<GroupResource, seq<Version>>
  {
    if !Scannable(r) then m
    else
      var gr := GroupResource(gv.0, r.name);
      m[gr := Entry(m, gr) + [VersionFor(gv, r)]]
  }

  lemma ContributeAdds(m: map<GroupResource, seq<Version>>, gv: (string, string), r: APIResource, gr: GroupResource)
    ensures Entry(Contribute(m, gv, r), gr) == Entry(m, gr) + Offered(gv, r, gr)
  {
  }

  lemma ContributeKeepsEntries(m: map<GroupResource, seq<Version>>, gv: (string, string), r: APIResource)
    requires NoEmptyEntry(m)
    ensures NoEmptyEntry(Contribute(m, gv, r))
  {
  }

  ghost predicate NoEmptyEntry(m: map<GroupResource, seq<Version>>) {
    forall gr :: gr in m ==> m[gr] != []
  }

  /** `m'` is `m` extended by what the resources `rs` serve. */
  ghost predicate Extends(m: map<GroupResource, seq<Version>>, m': map<GroupResource, seq<Version>>,
                          gv: (string, string), rs: seq<APIResource>)
  {
    && NoEmptyEntry(m')
    && forall gr {:trigger Entry(m', gr)} :: Entry(m', gr) == Entry(m, gr) + ServedBy(gv, rs, gr)
  }

  lemma ExtendsSnoc(m: map<GroupResource, seq<Version>>, m': map<GroupResource, seq<Version>>,
                    m'': map<GroupResource, seq<Version>>,
                    gv: (string, string), rs: seq<APIResource>, r: APIResource)
    requires Extends(m, m', gv, rs)
    requires NoEmptyEntry(m'')
    requires forall gr {:trigger Entry(m'', gr)} :: Entry(m'', gr) == Entry(m', gr) + Offered(gv, r, gr)
    ensures Extends(m, m'', gv, rs + [r])
  {
    forall gr ensures Entry(m'', gr) == Entry(m, gr) + ServedBy(gv, rs + [r], gr) {
      ServedBySnoc(gv, rs, r, gr);
      Regroup(Entry(m, gr), ServedBy(gv, rs, gr), Offered(gv, r, gr));
      assert Entry(m', gr) == Entry(m, gr) + ServedBy(gv, rs, gr);
    }
  }

  lemma ServedBySnoc(gv: (string, string), rs: seq<APIResource>, r: APIResource, gr: GroupResource)
    ensures ServedBy(gv, rs + [r], gr) == ServedBy(gv, rs, gr) + Offered(gv, r, gr)
  {
    assert (rs + [r])[..|rs|] == rs;
  }

  lemma Regroup(a: seq<Version>, b: seq<Version>, c: seq<Version>)
    ensures a + b + c == a + (b + c)
  {
  }

  method CollectList(m: map<GroupResource, seq<Version>>, gv: (string, string), rs: seq<APIResource>)
    returns (m': map<GroupResource, seq<Version>>)
    requires NoEmptyEntry(m)
    ensures Extends(m, m', gv, rs)
  {
    m' := m;
    for j := 0 to |rs|
      invariant Extends(m, m', gv, rs[..j])
    {
      ContributeKeepsEntries(m', gv, rs[j]);
      forall gr ensures Entry(Contribute(m', gv, rs[j]), gr) == Entry(m', gr) + Offered(gv, rs[j], gr) {
        ContributeAdds(m', gv, rs[j], gr);
      }
      ExtendsSnoc(m, m', Contribute(m', gv, rs[j]), gv, rs[..j], rs[j]);
      assert rs[..j + 1] == rs[..j] + [rs[j]];
      m' := Contribute(m', gv, rs[j]);
    }
    assert rs[..|rs|] == rs;
  }

  /** The collected versions are exactly what the lists served. */
  ghost predicate Collected(m: map<GroupResource, seq<Version>>, lists: seq<Option<APIResourceList>>) {
    NoEmptyEntry(m) && forall gr {:trigger Entry(m, gr)} :: Entry(m, gr) == Served(lists, gr)
  }

  method CollectVersions(lists: seq<Option<APIResourceList>>)
    returns (ok: bool, versions: map<GroupResource, seq<Version>>)
    ensures ok <==> Parses(lists)
    ensures ok ==> Collected(versions, lists)
  {
    versions := map[];
    for i := 0 to |lists|
      invariant Parses(lists[..i])
      invariant Collected(versions, lists[..i])
    {
      ghost var before := versions;
      assert lists[..i + 1][..i] == lists[..i];
      if lists[i].Some? {
        var parsed := ParseGroupVersion(lists[i].value.groupVersion);
        if parsed.None? {
          return false, map[];
        }
        versions := CollectList(versions, parsed.value, lists[i].value.resources);
      }
      forall gr ensures Entry(versions, gr) == Served(lists[..i + 1], gr) {
        assert Entry(versions, gr) == Entry(before, gr) + ListServes(lists[i], gr);
      }
    }
    assert lists[..|lists|] == lists;
    ok := true;
  }

  function PreferenceFor(preferences: map<string, map<string, nat>>, group: string): map<string, nat> {
    if group in preferences then preferences[group] else map[]
  }

  /** GroupResource.String(). */
  function KeyText(gr: GroupResource): string {
    if gr.group == "" then gr.resource else gr.resource + "." + gr.group
  }

  function ResourceLess(a: Resource, b: Resource): bool {
    Sorting.Less(KeyText(a.gr), KeyText(b.gr))
  }

  lemma ResourceOrder()
    ensures Sorting.StrictWeak(ResourceLess)
  {
    Sorting.LessIsStrictWeak();
    forall x: Resource, y: Resource, z: Resource | ResourceLess(x, z) ensures ResourceLess(x, y) || ResourceLess(y, z) {
      assert Sorting.Less(KeyText(x.gr), KeyText(y.gr)) || Sorting.Less(KeyText(y.gr), KeyText(z.gr));
    }
  }

  /** A catalogued resource lists what discovery served for it, best version first. */
  ghost predicate Catalogues(snapshot: Snapshot, lists: seq<Option<APIResourceList>>,
                             preferences: map<string, map<string, nat>>)
  {
    forall gr ::
      if gr in snapshot.resources then Arranged(snapshot.resources[gr], preferences, Served(lists, gr))
      else Served(lists, gr) == []
  }

  ghost predicate Arranged(r: Resource, preferences: map<string, map<string, nat>>, served: seq<Version>) {
    r.Versions() == Sorting.Sort(VersionLess(PreferenceFor(preferences, r.gr.group)), served)
  }

  method Arrange(gr: GroupResource, served: seq<Version>, preferences: map<string, map<string, nat>>)
    returns (r: Resource)
    requires served != []
    ensures r.gr == gr && Arranged(r, preferences, served)
  {
    var buffer := new Version[|served|](i requires 0 <= i < |served| => served[i]);
    assert buffer[..] == served;
    OrderVersions(buffer, PreferenceFor(preferences, gr.group));
    r := Resource(gr, buffer[..][0], buffer[..][1..]);
    assert r.Versions() == buffer[..];
  }

  ghost predicate HasKey(rs: seq<Resource>, gr: GroupResource) {
    exists k :: 0 <= k < |rs| && rs[k].gr == gr
  }

  /** One resource per key, in no particular order: Go ranges over a map. */
  method ArrangeAll(versions: map<GroupResource, seq<Version>>, preferences: map<string, map<string, nat>>)
    returns (rs: seq<Resource>)
    requires forall gr :: gr in versions ==> versions[gr] != []
    ensures UniqueKeys(rs)
    ensures forall r :: r in rs ==> r.gr in versions && Arranged(r, preferences, versions[r.gr])
    ensures forall gr :: gr in versions ==> HasKey(rs, gr)
  {
    rs := [];
    var todo := versions.Keys;
    while todo != {}
      invariant todo <= versions.Keys
      invariant UniqueKeys(rs)
      invariant forall r :: r in rs ==> r.gr in versions.Keys - todo && Arranged(r, preferences, versions[r.gr])
      invariant forall gr :: gr in versions.Keys - todo ==> HasKey(rs, gr)
    {
      var gr :| gr in todo;
      var r := Arrange(gr, versions[gr], preferences);
      forall g | HasKey(rs, g) || g == gr ensures HasKey(rs + [r], g) {
        if g == gr {
          assert (rs + [r])[|rs|].gr == g;
        } else {
          var k :| 0 <= k < |rs| && rs[k].gr == g;
          assert (rs + [r])[k].gr == g;
        }
      }
      assert forall k :: 0 <= k < |rs| ==> rs[k] in rs;
      rs := rs + [r];
      todo := todo - {gr};
    }
  }

  /** buildSnapshot succeeds exactly when every group version parses, and then catalogues exactly the
      scannable resources, each once, with its versions in preference order. */
  method BuildSnapshot(groups: seq<Option<APIGroup>>, lists: seq<Option<APIResourceList>>)
    returns (r: Option<Snapshot>, ghost preferences: map<string, map<string, nat>>)
    ensures r.Some? <==> Parses(lists)
    ensures r.Some? ==> Consistent(r.value) && Catalogues(r.value, lists, preferences)
    ensures r.Some? ==> Sorting.Sorted(ResourceLess, r.value.ordered)
    ensures RanksGroups(groups, preferences) && RanksOnlyGroups(groups, preferences)
  {
    var prefs := DiscoveryPreferences(groups);
    preferences := prefs;
    var ok, versions := CollectVersions(lists);
    if !ok { return None, prefs; }
    var resources := ArrangeAll(versions, prefs);
    var sorted := Sorting.Sort(ResourceLess, resources);
    ResourceOrder();
    Sorting.SortSorts(ResourceLess, resources);
    PermutedKeysUnique(resources, sorted);
    var snapshot := NewSnapshot(sorted);
    CataloguesAll(lists, prefs, versions, resources, snapshot);
    r := Some(snapshot);
  }

  lemma CataloguesAll(lists: seq<Option<APIResourceList>>, preferences: map<string, map<string, nat>>,
                      versions: map<GroupResource, seq<Version>>, rs: seq<Resource>, snapshot: Snapshot)
    requires Collected(versions, lists)
    requires forall r :: r in rs ==> r.gr in versions && Arranged(r, preferences, versions[r.gr])
    requires forall gr :: gr in versions ==> HasKey(rs, gr)
    requires Consistent(snapshot) && multiset(snapshot.ordered) == multiset(rs)
    ensures Catalogues(snapshot, lists, preferences)
  {
    forall gr
      ensures if gr in snapshot.resources then Arranged(snapshot.resources[gr], preferences, Served(lists, gr))
              else Served(lists, gr) == []
    {
      assert Entry(versions, gr) == Served(lists, gr);
      if gr in snapshot.resources {
        assert snapshot.resources[gr] in multiset(rs);
      }
      if gr in versions {
        var k :| 0 <= k < |rs| && rs[k].gr == gr;
        assert rs[k] in multiset(snapshot.ordered);
        assert snapshot.Resolve(rs[k].gr) == Some(rs[k]);
      }
    }
  }

  lemma {:induction false} PermutedKeysUnique(a: seq<Resource>, b: seq<Resource>)
    requires UniqueKeys(a) && multiset(a) == multiset(b)
    ensures UniqueKeys(b)
  {
    forall i, j | 0 <= i < j < |b| ensures b[i].gr != b[j].gr {
      var x, y := b[i], b[j];
      TwoPlaces(b, i, j);
      assert x in multiset(a) && y in multiset(a);
      var p :| 0 <= p < |a| && a[p] == x;
      var q :| 0 <= q < |a| && a[q] == y;
      if x == y {
        OncePerKey(a, p);
      }
    }
  }

  lemma TwoPlaces(b: seq<Resource>, i: nat, j: nat)
    requires i < j < |b|
    ensures b[i] == b[j] ==> multiset(b)[b[i]] >= 2
  {
    assert b == b[..i] + [b[i]] + b[i + 1..j] + [b[j]] + b[j + 1..];
  }

  lemma OncePerKey(a: seq<Resource>, p: nat)
    requires UniqueKeys(a) && p < |a|
    ensures multiset(a)[a[p]] == 1
  {
    assert a == a[..p] + [a[p]] + a[p + 1..];
    assert a[p] !in a[..p] && a[p] !in a[p + 1..];
  }

  /** The preferred version is a served one of least rank, ties broken by name and then by the order
      of discovery. */
  lemma PreferredIsLeast(snapshot: Snapshot, lists: seq<Option<APIResourceList>>,
                         preferences: map<string, map<string, nat>>, gr: GroupResource)
    requires Consistent(snapshot) && Catalogues(snapshot, lists, preferences) && gr in snapshot.resources
    ensures var preference := PreferenceFor(preferences, gr.group);
            var best := snapshot.resources[gr].preferred;
            && best in Served(lists, gr)
            && (forall v :: v in Served(lists, gr) ==> !VersionLess(preference)(v, best))
            && Sorting.Peers(VersionLess(preference), best, Served(lists, gr)) != []
            && Sorting.Peers(VersionLess(preference), best, Served(lists, gr))[0] == best
  {
    var r := snapshot.resources[gr];
    assert Arranged(r, preferences, Served(lists, gr));
    VersionLessIsStrictWeak(PreferenceFor(preferences, gr.group));
    Sorting.SortHead(VersionLess(PreferenceFor(preferences, gr.group)), Served(lists, gr));
    assert r.Versions()[0] == r.preferred;
  }

  // ---- The catalog by what discovery said ----

  /** A group version is a version, or a group and a version around one slash. */
  lemma ParseExactly(s: string)
    ensures '/' !in s ==> ParseGroupVersion(s) == Some(("", s))
    ensures forall group, version :: '/' !in group && '/' !in version && s == group + "/" + version ==>
              ParseGroupVersion(s) == Some((group, version))
    ensures (exists i, j :: 0 <= i < j < |s| && s[i] == '/' && s[j] == '/') ==> ParseGroupVersion(s).None?
  {
    forall group: string, version: string | '/' !in group && '/' !in version && s == group + "/" + version
      ensures ParseGroupVersion(s) == Some((group, version))
    {
      var i := SlashAt(s, 0);
      assert s[|group|] == '/' && s[..|group|] == group && s[|group| + 1..] == version;
      assert forall k :: 0 <= k < |group| ==> s[k] == group[k];
      assert i == |group|;
      assert forall k :: i < k < |s| ==> s[k] == version[k - i - 1];
    }
    if i, j :| 0 <= i < j < |s| && s[i] == '/' && s[j] == '/' {
      assert SlashAt(s, 0) <= i;
      assert SlashAt(s, SlashAt(s, 0) + 1) <= j;
    }
  }

  /** Discovery lists the resource under the version, with both verbs, and it is not a sub-resource. */
  ghost predicate Discovered(l: Option<APIResourceList>, r: APIResource, gr: GroupResource, version: string) {
    && l.Some? && r in l.value.resources && ParseGroupVersion(l.value.groupVersion) == Some((gr.group, version))
    && r.name == gr.resource && '/' !in r.name && "get" in r.verbs && "list" in r.verbs
  }

  /** What is served for a resource is what discovery lists, with its kind, scope and verbs. */
  ghost predicate From(lists: seq<Option<APIResourceList>>, gr: GroupResource, v: Version) {
    exists l, r :: l in lists && Discovered(l, r, gr, v.version)
      && v.kind == r.kind && v.namespaced == r.namespaced && v.verbs == Sorting.Sort(Sorting.Less, r.verbs)
  }

  lemma {:induction false} ServedByExactly(gv: (string, string), rs: seq<APIResource>, gr: GroupResource, v: Version)
    ensures v in ServedBy(gv, rs, gr) <==> exists r :: r in rs && v in Offered(gv, r, gr)
  {
    hide Offered;
    if rs != [] {
      assert rs == rs[..|rs| - 1] + [rs[|rs| - 1]];
      ServedByExactly(gv, rs[..|rs| - 1], gr, v);
    }
  }

  lemma OfferedExactly(gv: (string, string), r: APIResource, gr: GroupResource, v: Version)
    ensures v in Offered(gv, r, gr) <==>
            && gv == (gr.group, v.version) && r.name == gr.resource && '/' !in r.name && "get" in r.verbs
            && "list" in r.verbs && v.kind == r.kind && v.namespaced == r.namespaced
            && v.verbs == Sorting.Sort(Sorting.Less, r.verbs)
  {
    hide Sorting.Sort;
  }

  lemma ListServesExactly(l: Option<APIResourceList>, gr: GroupResource, v: Version)
    ensures v in ListServes(l, gr) <==> From([l], gr, v)
  {
    hide ParseGroupVersion, Sorting.Sort, Offered;
    if v in ListServes(l, gr) {
      var gv := ParseGroupVersion(l.value.groupVersion).value;
      ServedByExactly(gv, l.value.resources, gr, v);
      var r :| r in l.value.resources && v in Offered(gv, r, gr);
      OfferedExactly(gv, r, gr, v);
      assert l in [l] && Discovered(l, r, gr, v.version);
    }
    if From([l], gr, v) { FromIsServed(l, gr, v); }
  }

  lemma FromIsServed(l: Option<APIResourceList>, gr: GroupResource, v: Version)
    requires From([l], gr, v)
    ensures v in ListServes(l, gr)
  {
    hide ParseGroupVersion, Sorting.Sort, Offered, ServedBy;
    var k, r :| k in [l] && Discovered(k, r, gr, v.version)
    && v.kind == r.kind && v.namespaced == r.namespaced && v.verbs == Sorting.Sort(Sorting.Less, r.verbs);
    assert k == l;
    OfferedExactly((gr.group, v.version), r, gr, v);
    ServedByExactly((gr.group, v.version), l.value.resources, gr, v);
  }

  lemma {:induction false} ServedExactly(lists: seq<Option<APIResourceList>>, gr: GroupResource, v: Version)
    ensures v in Served(lists, gr) <==> From(lists, gr, v)
  {
    hide Discovered, ListServes;
    if lists != [] {
      var init, last := lists[..|lists| - 1], lists[|lists| - 1];
      assert lists == init + [last] && last in lists;
      ServedExactly(init, gr, v);
      ListServesExactly(last, gr, v);
    }
  }

  /** The catalog holds exactly the resource types that discovery lists as readable and listable, and each with
      exactly the versions under which it does. */
  lemma CataloguedExactly(snapshot: Snapshot, lists: seq<Option<APIResourceList>>,
                          preferences: map<string, map<string, nat>>, gr: GroupResource, v: Version)
    requires Catalogues(snapshot, lists, preferences)
    ensures gr in snapshot.resources && v in snapshot.resources[gr].Versions() <==> From(lists, gr, v)
  {
    hide From, Served;
    ServedExactly(lists, gr, v);
    if gr in snapshot.resources {
      assert Arranged(snapshot.resources[gr], preferences, Served(lists, gr));
      assert v in multiset(snapshot.resources[gr].Versions()) <==> v in multiset(Served(lists, gr));
    }
  }

  /** One name comes up before another ever does. */
  ghost predicate Before(order: seq<string>, a: string, b: string) {
    exists i :: 0 <= i < |order| && order[i] == a && b !in order[..i + 1]
  }

  lemma BeforeSnoc(order: seq<string>, last: string, a: string, b: string)
    ensures Before(order + [last], a, b) <==> Before(order, a, b) || (a == last && a != b && b !in order)
  {
    var all := order + [last];
    assert all[..|all|] == all;
    assert forall i :: 0 <= i < |order| ==> all[..i + 1] == order[..i + 1] && all[i] == order[i];
    assert all[|order|] == last;
    if a == last && a != b && b !in order { assert b !in all[..|order| + 1]; }
  }

  /** Positions among the first occurrences are the order in which names come up. */
  lemma {:induction false} PositionsAreOrder(order: seq<string>, i: nat, j: nat)
    requires i < |Distinct(order)| && j < |Distinct(order)|
    ensures Before(order, Distinct(order)[i], Distinct(order)[j]) <==> i < j
  {
    hide Before;
    var init, last := order[..|order| - 1], order[|order| - 1];
    assert order == init + [last];
    DistinctKeepsMembers(init);
    DistinctKeepsMembers(order);
    BeforeSnoc(init, last, Distinct(order)[i], Distinct(order)[j]);
    if i < |Distinct(init)| && j < |Distinct(init)| {
      PositionsAreOrder(init, i, j);
    } else {
      NotBefore(init, Distinct(order)[i], Distinct(order)[j]);
    }
  }

  lemma NotBefore(order: seq<string>, a: string, b: string)
    ensures a !in order ==> !Before(order, a, b)
    ensures a in order && b !in order ==> Before(order, a, b)
  {
    if a in order && b !in order {
      var i :| 0 <= i < |order| && order[i] == a;
      assert b !in order[..i + 1];
    }
  }

  lemma RankIsOrder(order: seq<string>, ranks: map<string, nat>, a: string, b: string)
    requires RanksPreference(order, ranks)
    ensures RankLess(RankOf(ranks, a), RankOf(ranks, b)) <==> Before(order, a, b)
    ensures RankOf(ranks, a) == RankOf(ranks, b) <==> a == b || (a !in order && b !in order)
  {
    hide Before, Distinct;
    DistinctKeepsMembers(order);
    NotBefore(order, a, b);
    var d := Distinct(order);
    if a in d && b in d {
      var i :| 0 <= i < |d| && d[i] == a;
      var j :| 0 <= j < |d| && d[j] == b;
      PositionsAreOrder(order, i, j);
    }
  }

  /** The preferred version of a resource, by the group's own list: no served version comes up before it in the
      group's preferred version followed by its versions; if none is named there, none has a smaller name. */
  lemma PreferredByPosition(snapshot: Snapshot, groups: seq<Option<APIGroup>>, lists: seq<Option<APIResourceList>>,
                            preferences: map<string, map<string, nat>>, gr: GroupResource, k: nat, v: Version)
    requires Consistent(snapshot) && Catalogues(snapshot, lists, preferences) && gr in snapshot.resources
    requires RanksGroups(groups, preferences) && Governs(groups, k) && groups[k].value.name == gr.group
    requires From(lists, gr, v)
    ensures var g, best := groups[k].value, snapshot.resources[gr].preferred.version;
            var order := (if g.preferred != "" then [g.preferred] else []) + g.versions;
            && !Before(order, v.version, best)
            && (best !in order ==> !Sorting.Less(v.version, best))
  {
    hide Before, RanksPreference, From, Served, Consistent;
    PreferredIsLeast(snapshot, lists, preferences, gr);
    ServedExactly(lists, gr, v);
    var best, ranks := snapshot.resources[gr].preferred, PreferenceFor(preferences, gr.group);
    assert !VersionLess(ranks)(v, best);
    RankIsOrder(Preference(groups[k].value), ranks, v.version, best.version);
    NotBefore(Preference(groups[k].value), v.version, best.version);
  }

  // ---- Publishing ----

  /** Catalog: only a complete snapshot is published; a failed refresh keeps the last good one. */
  class Catalog {
    var snapshot: Snapshot
    var lastSuccess: Option<int>
    var lastErr: bool

    ghost predicate Valid()
      reads this
    {
      Consistent(snapshot)
    }

    constructor ()
      ensures Valid() && snapshot == Snapshot(map[], []) && lastSuccess == None && !lastErr
    {
      snapshot, lastSuccess, lastErr := Snapshot(map[], []), None, false;
    }

    /** `answer` is the discovery response, `None` when the call failed. */
    method Refresh(answer: Option<(seq<Option<APIGroup>>, seq<Option<APIResourceList>>)>, now: int)
      returns (ok: bool, ghost preferences: map<string, map<string, nat>>)
      requires Valid()
      modifies this
      ensures Valid()
      ensures ok <==> answer.Some? && Parses(answer.value.1)
      ensures ok ==> Catalogues(snapshot, answer.value.1, preferences)
      ensures ok ==> RanksGroups(answer.value.0, preferences) && RanksOnlyGroups(answer.value.0, preferences)
      ensures ok ==> lastSuccess == Some(now) && !lastErr
      ensures !ok ==> snapshot == old(snapshot) && lastSuccess == old(lastSuccess) && lastErr
    {
      preferences := map[];
      if answer.None? {
        lastErr := true;
        return false, preferences;
      }
      var built: Option<Snapshot>;
      built, preferences := BuildSnapshot(answer.value.0, answer.value.1);
      if built.None? {
        lastErr := true;
        return false, preferences;
      }
      snapshot, lastSuccess, lastErr := built.value, Some(now), false;
      ok := true;
    }
  }
}
