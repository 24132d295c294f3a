/** liveCycleRunner.compilePolicies (internal/scanner/scanner.go): policies compiled through a cache
    that outlives a cycle. */
module PolicyCache {
  import opened Types
  import opened Discovery
  import opened Policy
  import Sorting

  datatype Key = Key(uid: string, name: string)

  datatype Entry = Entry(generation: nat, spec: Spec, compiled: CompiledPolicy, status: Status)

  datatype Policies = Policies(items: seq<CompiledPolicy>, byUID: map<string, CompiledPolicy>)

  /** One cycle: whether the policies can be listed, the listed ones, the catalog, the time, and which status
      writes succeed. */
  datatype CycleInput = CycleInput(listed: bool, list: seq<Source>, catalog: Snapshot, now: int, writes: seq<bool>)

  ghost predicate DistinctSources(list: seq<Source>) {
    forall i, j :: 0 <= i < j < |list| ==> list[i].name != list[j].name && list[i].uid != list[j].uid
  }

  ghost predicate WellFormed(c: CycleInput) {
    DistinctSources(c.list) && Consistent(c.catalog) && |c.writes| == |c.list|
  }

  /** The policies can be listed and no status write fails. */
  ghost predicate Completes(c: CycleInput)
    requires |c.writes| == |c.list|
  {
    c.listed && forall i :: 0 <= i < |c.list| ==> c.writes[i]
  }

  /** A cycle takes up the first `n` policies: none without a list, and otherwise all up to and including the
      first whose status cannot be written. */
  ghost predicate StopsAt(c: CycleInput, n: nat)
    requires |c.writes| == |c.list|
  {
    if !c.listed then n == 0
    else
      && n <= |c.list| && (forall k :: 0 <= k < n - 1 ==> c.writes[k])
      && (n < |c.list| ==> 0 < n && !c.writes[n - 1])
  }

  function Restamp(s: Status, now: int): Status {
    s.(validated := now, ready := s.ready.(transition := now), discovery := s.discovery.(transition := now),
       selectors := s.selectors.(transition := now))
  }

  /** A cache entry is what a compilation of its source against the catalog would give. */
  ghost predicate Faithful(k: Key, e: Entry, catalog: Snapshot) {
    var source := Source(k.name, k.uid, e.generation, e.spec);
    e.compiled == Compiled(source, catalog) && e.status == StatusOf(source, catalog, e.status.validated)
  }

  ghost predicate FaithfulCache(cache: map<Key, Entry>, catalog: Snapshot) {
    forall k :: k in cache ==> Faithful(k, cache[k], catalog)
  }

  /** What compiling every listed policy now, without a cache, gives. */
  function FreshlyCompiled(list: seq<Source>, catalog: Snapshot): seq<CompiledPolicy> {
    if list == [] then []
    else FreshlyCompiled(list[..|list| - 1], catalog) + [Compiled(list[|list| - 1], catalog)]
  }

  function FreshStatuses(list: seq<Source>, catalog: Snapshot, now: int): seq<Status> {
    if list == [] then []
    else FreshStatuses(list[..|list| - 1], catalog, now) + [StatusOf(list[|list| - 1], catalog, now)]
  }

  lemma {:induction false} FreshStatusesCount(list: seq<Source>, catalog: Snapshot, now: int)
    ensures |FreshStatuses(list, catalog, now)| == |list|
  {
    if list != [] {
      FreshStatusesCount(list[..|list| - 1], catalog, now);
    }
  }

  lemma {:induction false} FreshlyCompiledIdentities(list: seq<Source>, catalog: Snapshot)
    ensures |FreshlyCompiled(list, catalog)| == |list|
    ensures forall i :: 0 <= i < |list| ==>
              FreshlyCompiled(list, catalog)[i].name == list[i].name
              && FreshlyCompiled(list, catalog)[i].uid == list[i].uid
  {
    if list != [] {
      FreshlyCompiledIdentities(list[..|list| - 1], catalog);
    }
  }

  /** The policies handed to the rest of the cycle choose, for every target, exactly the winner among
      freshly compiled policies, and look policies up by UID as freshly compiled. */
  ghost predicate Fresh(c: CycleInput, ps: Policies) {
    var anew := FreshlyCompiled(c.list, c.catalog);
    && (forall t :: FirstMatch(ps.items, t).Some? ==> Wins(anew, t, FirstMatch(ps.items, t).value))
    && (forall t :: FirstMatch(ps.items, t).None? ==> forall p :: p in anew ==> !Match(p, t))
    && IndexedByUID(anew, ps.byUID)
  }

  /** So the policies that a cycle looks up by UID are the listed ones, each with the fields of its own spec. */
  lemma FreshCarriesOver(c: CycleInput, ps: Policies)
    requires DistinctSources(c.list) && Fresh(c, ps)
    ensures forall source :: source in c.list ==>
              source.uid in ps.byUID && CarriesOver(source, ps.byUID[source.uid])
              && (ps.byUID[source.uid].ready <==> Usable(source.spec, c.catalog))
    ensures forall u :: u in ps.byUID ==> exists source :: source in c.list && source.uid == u
  {
    hide CarriesOver, Usable, Match, Wins;
    FreshlyCompiledMembers(c.list, c.catalog);
    forall source | source in c.list
      ensures source.uid in ps.byUID && CarriesOver(source, ps.byUID[source.uid])
      ensures ps.byUID[source.uid].ready <==> Usable(source.spec, c.catalog)
    {
      CompiledCarriesOver(source, c.catalog);
      ReadyExactly(source.spec, c.catalog);
    }
    forall u | u in ps.byUID ensures exists source :: source in c.list && source.uid == u {
      var source :| source in c.list && ps.byUID[u] == Compiled(source, c.catalog);
    }
  }

  lemma {:induction false} FreshlyCompiledMembers(list: seq<Source>, catalog: Snapshot)
    ensures forall p :: p in FreshlyCompiled(list, catalog) <==>
              exists source :: source in list && p == Compiled(source, catalog)
  {
    hide Compiled;
    if list != [] {
      FreshlyCompiledMembers(list[..|list| - 1], catalog);
      assert list == list[..|list| - 1] + [list[|list| - 1]];
    }
  }

  ghost predicate IndexedByUID(ps: seq<CompiledPolicy>, byUID: map<string, CompiledPolicy>) {
    && (forall p :: p in ps ==> p.uid in byUID && byUID[p.uid] == p)
    && (forall u :: u in byUID ==> byUID[u] in ps && byUID[u].uid == u)
  }

  lemma IndexOneMore(ps: seq<CompiledPolicy>, p: CompiledPolicy, byUID: map<string, CompiledPolicy>)
    requires IndexedByUID(ps, byUID) && forall q :: q in ps ==> q.uid != p.uid
    ensures IndexedByUID(ps + [p], byUID[p.uid := p])
  {
  }

  /** A winner is unique, so the cached choice is SelectWinning's. */
  lemma WinnerUnique(ps: seq<CompiledPolicy>, t: Target, v: CompiledPolicy, w: CompiledPolicy)
    requires Wins(ps, t, v) && Wins(ps, t, w)
    ensures v == w
  {
    Sorting.LessTrichotomy(v.name, w.name);
  }

  function ReadyOnes(ps: seq<CompiledPolicy>): seq<CompiledPolicy> {
    if ps == [] then []
    else ReadyOnes(ps[..|ps| - 1]) + (if ps[|ps| - 1].ready then [ps[|ps| - 1]] else [])
  }

  lemma {:induction false} ReadyMembers(ps: seq<CompiledPolicy>)
    requires DistinctPolicyNames(ps)
    ensures forall p :: p in ReadyOnes(ps) <==> p in ps && p.ready
    ensures DistinctPolicyNames(ReadyOnes(ps))
  {
    if ps != [] {
      var init, last := ps[..|ps| - 1], ps[|ps| - 1];
      ReadyMembers(init);
      assert ps == init + [last];
      forall k | 0 <= k < |ReadyOnes(init)| ensures ReadyOnes(init)[k].name != last.name {
        assert ReadyOnes(init)[k] in init;
      }
    }
  }

  lemma SortedNamesDistinct(ps: seq<CompiledPolicy>)
    requires DistinctPolicyNames(ps)
    ensures DistinctPolicyNames(Sorting.Sort(Beats, ps))
  {
    var s := Sorting.Sort(Beats, ps);
    forall i, j | 0 <= i < j < |s| ensures s[i].name != s[j].name {
      TwicePresent(s, i, j);
      assert s[i] in multiset(ps) && s[j] in multiset(ps);
      var a :| 0 <= a < |ps| && ps[a] == s[i];
      var b :| 0 <= b < |ps| && ps[b] == s[j];
      OncePresent(ps, a);
    }
  }

  lemma TwicePresent(s: seq<CompiledPolicy>, i: nat, j: nat)
    requires i < j < |s|
    ensures s[i] == s[j] ==> multiset(s)[s[i]] >= 2
  {
    assert s == s[..i] + [s[i]] + s[i + 1..j] + [s[j]] + s[j + 1..];
  }

  lemma OncePresent(ps: seq<CompiledPolicy>, a: nat)
    requires DistinctPolicyNames(ps) && a < |ps|
    ensures multiset(ps)[ps[a]] == 1
  {
    assert ps == ps[..a] + [ps[a]] + ps[a + 1..];
    assert ps[a] !in ps[..a] && ps[a] !in ps[a + 1..];
  }

  /** First match in the sorted ready policies is the winner among all. */
  lemma SortedChoiceWins(ps: seq<CompiledPolicy>, t: Target)
    requires DistinctPolicyNames(ps)
    ensures var choice := FirstMatch(Sorting.Sort(Beats, ReadyOnes(ps)), t);
            && (choice.Some? ==> Wins(ps, t, choice.value))
            && (choice.None? ==> forall p :: p in ps ==> !Match(p, t))
  {
    var ready := ReadyOnes(ps);
    var items := Sorting.Sort(Beats, ready);
    ReadyMembers(ps);
    BeatsIsStrictWeak();
    Sorting.SortSorts(Beats, ready);
    SortedNamesDistinct(ready);
    FirstMatchWins(items, t);
    assert forall p :: p in items <==> p in multiset(ready);
  }

  lemma OneMorePolicy(list: seq<Source>, i: nat, catalog: Snapshot, now: int)
    requires i < |list| && DistinctSources(list)
    ensures FreshlyCompiled(list[..i + 1], catalog) ==
              FreshlyCompiled(list[..i], catalog) + [Compiled(list[i], catalog)]
    ensures FreshStatuses(list[..i + 1], catalog, now)
              == FreshStatuses(list[..i], catalog, now) + [StatusOf(list[i], catalog, now)]
    ensures forall q :: q in FreshlyCompiled(list[..i], catalog) ==> q.uid != list[i].uid
  {
    assert list[..i + 1][..i] == list[..i] && list[..i + 1][i] == list[i];
    FreshlyCompiledIdentities(list[..i], catalog);
  }

  lemma ReadySnoc(ps: seq<CompiledPolicy>, p: CompiledPolicy)
    ensures ReadyOnes(ps + [p]) == ReadyOnes(ps) + if p.ready then [p] else []
  {
    assert (ps + [p])[..|ps|] == ps;
  }

  /** What the loop over the listed policies has accumulated. */
  datatype Acc = Acc(nextCache: map<Key, Entry>, ready: seq<CompiledPolicy>,
                     byUID: map<string, CompiledPolicy>, written: seq<Status>)

  ghost predicate Progress(list: seq<Source>, catalog: Snapshot, now: int, acc: Acc) {
    && FaithfulCache(acc.nextCache, catalog)
    && acc.ready == ReadyOnes(FreshlyCompiled(list, catalog))
    && IndexedByUID(FreshlyCompiled(list, catalog), acc.byUID)
    && acc.written == FreshStatuses(list, catalog, now)
  }

  lemma ProgressBegins(list: seq<Source>, catalog: Snapshot, now: int)
    requires list == []
    ensures Progress(list, catalog, now, Acc(map[], [], map[], []))
  {
  }

  lemma ProgressOneMore(list: seq<Source>, i: nat, catalog: Snapshot, now: int, acc: Acc, e: Entry)
    requires i < |list| && DistinctSources(list) && Progress(list[..i], catalog, now, acc)
    requires Faithful(Key(list[i].uid, list[i].name), e, catalog)
    requires e.compiled == Compiled(list[i], catalog) && e.status == StatusOf(list[i], catalog, now)
    ensures Progress(list[..i + 1], catalog, now,
                     Acc(acc.nextCache[Key(list[i].uid, list[i].name) := e],
                         acc.ready + if e.compiled.ready then [e.compiled] else [],
                         acc.byUID[e.compiled.uid := e.compiled],
                         acc.written + [e.status]))
  {
    OneMorePolicy(list, i, catalog, now);
    ReadySnoc(FreshlyCompiled(list[..i], catalog), e.compiled);
    IndexOneMore(FreshlyCompiled(list[..i], catalog), e.compiled, acc.byUID);
  }

  class PolicyCompiler {
    var catalogResources: seq<Resource>
    var cache: map<Key, Entry>

    /** Stated for every consistent snapshot with the remembered resource list; there is only one. */
    ghost predicate Valid()
      reads this
    {
      forall s :: Consistent(s) && s.ordered == catalogResources ==> FaithfulCache(cache, s)
    }

    constructor ()
      ensures Valid() && cache == map[]
    {
      catalogResources, cache := [], map[];
    }

    /** One policy: reuse the entry when revision and spec agree, compile otherwise. */
    method EntryFor(source: Source, reusable: map<Key, Entry>, catalog: Snapshot, now: int) returns (e: Entry)
      requires FaithfulCache(reusable, catalog)
      ensures Faithful(Key(source.uid, source.name), e, catalog)
      ensures e.generation == source.generation && e.spec == source.spec
      ensures e.compiled == Compiled(source, catalog) && e.status == StatusOf(source, catalog, now)
    {
      var key := Key(source.uid, source.name);
      if key !in reusable || reusable[key].generation != source.generation || reusable[key].spec != source.spec {
        var compiled, status := Compile(source, catalog, now);
        e := Entry(source.generation, source.spec, compiled, status);
      } else {
        e := reusable[key].(status := Restamp(reusable[key].status, now));
      }
    }

    method CompileOne(c: CycleInput, i: nat, reusable: map<Key, Entry>, acc: Acc) returns (acc': Acc)
      requires WellFormed(c) && FaithfulCache(reusable, c.catalog) && i < |c.list|
      requires Progress(c.list[..i], c.catalog, c.now, acc)
      ensures Progress(c.list[..i + 1], c.catalog, c.now, acc')
    {
      var source := c.list[i];
      var e := EntryFor(source, reusable, c.catalog, c.now);
      ProgressOneMore(c.list, i, c.catalog, c.now, acc, e);
      acc' := Acc(acc.nextCache[Key(source.uid, source.name) := e],
                  acc.ready + if e.compiled.ready then [e.compiled] else [],
                  acc.byUID[e.compiled.uid := e.compiled],
                  acc.written + [e.status]);
    }

    /** The loop over the listed policies: stops at the first failed status write, that of policy `n - 1`. */
    method CompileList(c: CycleInput, reusable: map<Key, Entry>) returns (ok: bool, n: nat, acc: Acc)
      requires WellFormed(c) && FaithfulCache(reusable, c.catalog) && c.listed
      ensures ok <==> Completes(c)
      ensures n <= |c.list| && Progress(c.list[..n], c.catalog, c.now, acc)
      ensures StopsAt(c, n) && (ok ==> n == |c.list|)
    {
      hide Progress, Consistent, DistinctSources, FaithfulCache;
      acc := Acc(map[], [], map[], []);
      ProgressBegins(c.list[..0], c.catalog, c.now);
      for i := 0 to |c.list|
        invariant Progress(c.list[..i], c.catalog, c.now, acc)
        invariant forall k :: 0 <= k < i ==> c.writes[k]
      {
        acc := CompileOne(c, i, reusable, acc);
        if !c.writes[i] {
          return false, i + 1, acc;
        }
      }
      ok, n := true, |c.list|;
    }

    /** One cycle. It fails exactly when the policies cannot be listed or a status write fails; then the cache
        is left as it was. Every status handed to the API server, a refused one included, and every choice
        offered is the one a fresh compilation would give. */
    method CompilePolicies(c: CycleInput) returns (r: Option<Policies>, written: seq<Status>)
      requires Valid() && WellFormed(c)
      modifies this
      ensures Valid()
      ensures r.Some? <==> Completes(c)
      ensures r.Some? ==> Fresh(c, r.value) && |written| == |c.list|
      ensures r.None? ==> cache == old(cache) && catalogResources == old(catalogResources)
      ensures StopsAt(c, |written|) && |written| <= |c.list|
      ensures written == FreshStatuses(c.list[..|written|], c.catalog, c.now)
    {
      hide Compiled, StatusOf;
      if !c.listed {
        return None, [];
      }
      var reusable := if catalogResources == c.catalog.ordered then cache else map[];
      var ok, n, acc := CompileList(c, reusable);
      written := acc.written;
      FreshStatusesCount(c.list[..n], c.catalog, c.now);
      if !ok {
        return None, written;
      }
      assert c.list[..n] == c.list;
      var policies := Policies(Sorting.Sort(Beats, acc.ready), acc.byUID);
      SortedIsFresh(c, policies);
      RememberedFaithfully(c.catalog, acc.nextCache);
      catalogResources, cache := c.catalog.ordered, acc.nextCache;
      r := Some(policies);
    }

    /** Any number of cycles, aborted ones included, sharing one cache: each writes the statuses and offers
        the choices that a fresh compilation would. */
    method Cycles(inputs: seq<CycleInput>) returns (results: seq<CycleOutput>)
      requires Valid() && forall i :: 0 <= i < |inputs| ==> WellFormed(inputs[i])
      modifies this
      ensures Valid() && AllFresh(inputs, results)
    {
      results := [];
      for n := 0 to |inputs|
        invariant Valid() && AllFresh(inputs[..n], results)
      {
        var r, written := CompilePolicies(inputs[n]);
        FreshOneMore(inputs, n, results, CycleOutput(r, written));
        results := results + [CycleOutput(r, written)];
      }
      assert inputs[..|inputs|] == inputs;
    }
  }

  /** The policies a cycle works with, `None` when it aborts, and the statuses it handed to the API server. */
  datatype CycleOutput = CycleOutput(policies: Option<Policies>, written: seq<Status>)

  /** A cycle aborts exactly when the policies cannot be listed or a status write fails; what it wrote and
      offers is fresh. */
  ghost predicate FreshOutput(c: CycleInput, o: CycleOutput)
    requires |c.writes| == |c.list|
  {
    && (o.policies.Some? <==> Completes(c))
    && (o.policies.Some? ==> Fresh(c, o.policies.value) && |o.written| == |c.list|)
    && StopsAt(c, |o.written|) && |o.written| <= |c.list|
    && o.written == FreshStatuses(c.list[..|o.written|], c.catalog, c.now)
  }

  ghost predicate AllFresh(inputs: seq<CycleInput>, results: seq<CycleOutput>) {
    && |results| == |inputs|
    && (inputs != [] ==>
          && AllFresh(inputs[..|inputs| - 1], results[..|results| - 1])
          && WellFormed(inputs[|inputs| - 1]) && FreshOutput(inputs[|inputs| - 1], results[|results| - 1]))
  }

  lemma FreshOneMore(inputs: seq<CycleInput>, n: nat, results: seq<CycleOutput>, o: CycleOutput)
    requires n < |inputs| && AllFresh(inputs[..n], results) && WellFormed(inputs[n]) && FreshOutput(inputs[n], o)
    ensures AllFresh(inputs[..n + 1], results + [o])
  {
    hide FreshOutput, WellFormed;
    assert inputs[..n + 1][..n] == inputs[..n] && (results + [o])[..n] == results;
  }

  lemma SortedIsFresh(c: CycleInput, ps: Policies)
    requires DistinctSources(c.list) && IndexedByUID(FreshlyCompiled(c.list, c.catalog), ps.byUID)
    requires ps.items == Sorting.Sort(Beats, ReadyOnes(FreshlyCompiled(c.list, c.catalog)))
    ensures Fresh(c, ps)
  {
    var anew := FreshlyCompiled(c.list, c.catalog);
    FreshlyCompiledIdentities(c.list, c.catalog);
    forall t
      ensures FirstMatch(ps.items, t).Some? ==> Wins(anew, t, FirstMatch(ps.items, t).value)
      ensures FirstMatch(ps.items, t).None? ==> forall p :: p in anew ==> !Match(p, t)
    {
      SortedChoiceWins(anew, t);
    }
  }

  lemma RememberedFaithfully(catalog: Snapshot, cache: map<Key, Entry>)
    requires Consistent(catalog) && FaithfulCache(cache, catalog)
    ensures forall s :: Consistent(s) && s.ordered == catalog.ordered ==> FaithfulCache(cache, s)
  {
    forall s | Consistent(s) && s.ordered == catalog.ordered ensures FaithfulCache(cache, s) {
      ListDeterminesSnapshot(s, catalog);
    }
  }
}
