/** Paginated enumeration under limits (internal/diagnosis/analyzers.go): the remaining objects of a
    namespace and the instances of a custom resource definition. */
module Enumeration {
  import opened Types
  import opened Discovery
  import opened Paging
  import opened Collector
  import Policy
  import Incidents
  import Sorting

  const PAGE_SIZE: nat := 500

  // ---- One resource of a namespace ----

  datatype Outcome = Items(items: seq<Meta>, version: Version, truncated: bool) | Unlisted(failure: End)

  /** Read one version up to `maximum` items. Every request carries a positive limit. */
  method ReadVersion(l: Listing, maximum: nat) returns (items: seq<Meta>, truncated: bool, end: End)
    requires Honours(l) && maximum > 0
    ensures end == WalkUpTo(l, PAGE_SIZE, maximum, 0)
    ensures end.Complete? ==> items == l.items[..Min(|l.items|, maximum)] && (truncated <==> |l.items| > maximum)
  {
    items := [];
    while true
      invariant |items| <= Min(|l.items|, maximum) && items == l.items[..|items|]
      invariant items != [] ==> |items| < |l.items|
      invariant WalkUpTo(l, PAGE_SIZE, maximum, 0) == WalkUpTo(l, PAGE_SIZE, maximum, |items|)
      decreases |l.items| - |items|
    {
      var remaining := maximum - |items|;
      if remaining <= 0 {
        return items, true, Complete;
      }
      var limit := Min(PAGE_SIZE, remaining);
      var reply := Ask(l, |items|, limit);
      if !reply.Found? {
        return [], false, EndOf(reply);
      }
      var next := |items| + reply.value.count;
      items := items + l.items[|items|..next];
      if !reply.value.more {
        return items, false, Complete;
      }
    }
  }

  /** What trying versions in order comes to: the first that is not missing decides, and running out of
      versions is a failure. */
  function Outcomes(gr: GroupResource, vs: seq<Version>, serve: (GroupResource, string) -> Listing, maximum: nat)
    : Outcome
  {
    if vs == [] then Unlisted(Missing)
    else
      var l := serve(gr, vs[0].version);
      match WalkUpTo(l, PAGE_SIZE, maximum, 0)
      case Complete => Items(l.items[..Min(|l.items|, maximum)], vs[0], |l.items| > maximum)
      case Missing => Outcomes(gr, vs[1..], serve, maximum)
      case Broken => Unlisted(Broken)
  }

  function ListOutcome(r: Resource, serve: (GroupResource, string) -> Listing, maximum: nat): Outcome {
    Outcomes(r.gr, Ordered(r, r.preferred.version), serve, maximum)
  }

  /** Every served version is missing, or one that is tried breaks. */
  ghost predicate Unlistable(r: Resource, serve: (GroupResource, string) -> Listing, maximum: nat) {
    || (forall v :: v in r.Versions() ==> WalkUpTo(serve(r.gr, v.version), PAGE_SIZE, maximum, 0).Missing?)
    || (exists v :: v in r.Versions() && WalkUpTo(serve(r.gr, v.version), PAGE_SIZE, maximum, 0).Broken?)
  }

  lemma {:induction false} OutcomesMean(gr: GroupResource, vs: seq<Version>, serve: (GroupResource, string) -> Listing,
                                        maximum: nat)
    ensures var o := Outcomes(gr, vs, serve, maximum);
            && (o.Items? ==>
                  && o.version in vs
                  && var all := serve(gr, o.version.version).items;
                     o.items == all[..Min(|all|, maximum)] && (o.truncated <==> |all| > maximum))
            && (o.Unlisted? ==>
                  || (forall v :: v in vs ==> WalkUpTo(serve(gr, v.version), PAGE_SIZE, maximum, 0).Missing?)
                  || (exists v :: v in vs && WalkUpTo(serve(gr, v.version), PAGE_SIZE, maximum, 0).Broken?))
  {
    if vs != [] {
      OutcomesMean(gr, vs[1..], serve, maximum);
      assert vs == [vs[0]] + vs[1..];
      hide WalkUpTo;
    }
  }

  /** A success is one served version's own list, cut off exactly when it exceeds the maximum. */
  lemma OutcomeMeans(r: Resource, serve: (GroupResource, string) -> Listing, maximum: nat)
    ensures var o := ListOutcome(r, serve, maximum);
            && (o.Items? ==>
                  && o.version in r.Versions()
                  && var all := serve(r.gr, o.version.version).items;
                     o.items == all[..Min(|all|, maximum)] && (o.truncated <==> |all| > maximum))
            && (o.Unlisted? ==> Unlistable(r, serve, maximum))
  {
    var vs := Ordered(r, r.preferred.version);
    OrderedMeans(r, r.preferred.version);
    OutcomesMean(r.gr, vs, serve, maximum);
    hide Outcomes, WalkUpTo, Ordered;
    if forall v :: v in vs ==> WalkUpTo(serve(r.gr, v.version), PAGE_SIZE, maximum, 0).Missing? {
      forall v | v in r.Versions() ensures WalkUpTo(serve(r.gr, v.version), PAGE_SIZE, maximum, 0).Missing? {
        var k :| 0 <= k < |vs| && vs[k].version == v.version;
        assert vs[k] in vs;
      }
    }
  }

  /** listNamespaceResource: the served versions in order, falling back on NotFound and Gone only. */
  method ListNamespaceResource(r: Resource, serve: (GroupResource, string) -> Listing, maximum: nat)
    returns (o: Outcome)
    requires maximum > 0 && forall gr, v :: Honours(serve(gr, v))
    ensures o == ListOutcome(r, serve, maximum)
    ensures o.Items? ==>
              && o.version in r.Versions()
              && var all := serve(r.gr, o.version.version).items;
                 o.items == all[..Min(|all|, maximum)] && (o.truncated <==> |all| > maximum)
    ensures o.Unlisted? ==> Unlistable(r, serve, maximum)
  {
    hide WalkUpTo, Unlistable, VersionOrder, Ordered;
    OutcomeMeans(r, serve, maximum);
    var last := Missing;
    var versions := OrderedVersions(r, r.preferred.version);
    assert versions[0..] == versions;
    for i := 0 to |versions|
      invariant last.Missing?
      invariant Outcomes(r.gr, versions, serve, maximum) == Outcomes(r.gr, versions[i..], serve, maximum)
    {
      var version := versions[i];
      assert versions[i..][1..] == versions[i + 1..];
      var items, truncated, end := ReadVersion(serve(r.gr, version.version), maximum);
      if end.Complete? {
        return Items(items, version, truncated);
      }
      if !end.Missing? {
        return Unlisted(end);
      }
      last := end;
    }
    o := Unlisted(last);
  }

  // ---- A whole namespace ----

  function Reference(r: Resource, v: Version, m: Meta): TargetRef {
    TargetRef(r.gr.group, v.version, r.gr.resource, v.kind, m.ns, m.name, m.uid)
  }

  function Plain(typ: FindingType, message: string): Finding {
    Finding("", typ, message, None, "", "", "", None, None, false)
  }

  function RemainingObject(r: Resource, v: Version, m: Meta): Finding {
    Plain(RemainingResource, KeyText(r.gr) + " " + m.ns + "/" + m.name + " remains in terminating Namespace")
    .(resourceRef := Some(Reference(r, v, m)))
  }

  function RemainingFinalizer(r: Resource, v: Version, m: Meta, finalizer: string): Finding {
    Plain(BlockingFinalizer, "remaining object has metadata finalizer " + finalizer)
    .(resourceRef := Some(Reference(r, v, m)), finalizer := finalizer)
  }

  function FinalizerRemoval(hash: string -> string, policy: Policy.CompiledPolicy, target: TargetRef,
                            finalizer: string, rv: string): Action
  {
    Incidents.NewAction(hash, policy, RemoveResourceFinalizer, target, finalizer, rv, "remove finalizer " + finalizer)
  }

  /** What is offered for the finalizers of one remaining object. */
  function FinalizerItems(hash: string -> string, policy: Policy.CompiledPolicy, r: Resource, v: Version, m: Meta,
                          finalizers: seq<string>): seq<Item>
  {
    if finalizers == [] then []
    else
      var f := finalizers[|finalizers| - 1];
      FinalizerItems(hash, policy, r, v, m, finalizers[..|finalizers| - 1])
      + [F(Identified(hash, RemainingFinalizer(r, v, m, f))),
         A(FinalizerRemoval(hash, policy, Reference(r, v, m), f, m.rv))]
  }

  /** What is offered for one remaining object. */
  function ObjectItems(hash: string -> string, policy: Policy.CompiledPolicy, r: Resource, v: Version, m: Meta)
    : seq<Item>
  {
    [F(Identified(hash, RemainingObject(r, v, m)))]
    + FinalizerItems(hash, policy, r, v, m, Sorting.Sort(Sorting.Less, m.finalizers))
  }

  /** One resource read from one version. */
  datatype Reading = Reading(resource: Resource, version: Version, items: seq<Meta>)

  function ReadingItems(hash: string -> string, policy: Policy.CompiledPolicy, rd: Reading): seq<Item>
    decreases |rd.items|
  {
    if rd.items == [] then []
    else ReadingItems(hash, policy, rd.(items := rd.items[..|rd.items| - 1]))
         + ObjectItems(hash, policy, rd.resource, rd.version, rd.items[|rd.items| - 1])
  }

  /** One namespaced resource and what listing it came to. */
  datatype Step = Step(resource: Resource, outcome: Outcome)

  function ListProblem(r: Resource): Finding { Plain(DiscoveryFailure, "list " + KeyText(r.gr) + " in Namespace") }

  /** What is offered for one resource. */
  function StepItems(hash: string -> string, policy: Policy.CompiledPolicy, t: Step): seq<Item> {
    match t.outcome
    case Items(items, version, _) => ReadingItems(hash, policy, Reading(t.resource, version, items))
    case Unlisted(_) => [F(Identified(hash, ListProblem(t.resource)))]
  }

  function LogItems(hash: string -> string, policy: Policy.CompiledPolicy, log: seq<Step>): seq<Item> {
    if log == [] then [] else LogItems(hash, policy, log[..|log| - 1]) + StepItems(hash, policy, log[|log| - 1])
  }

  function Objects(log: seq<Step>): nat {
    if log == [] then 0
    else Objects(log[..|log| - 1]) + if log[|log| - 1].outcome.Items? then |log[|log| - 1].outcome.items| else 0
  }

  function Visited(log: seq<Step>): seq<Resource> {
    if log == [] then [] else Visited(log[..|log| - 1]) + [log[|log| - 1].resource]
  }

  function Namespaced(rs: seq<Resource>): seq<Resource> {
    if rs == [] then []
    else Namespaced(rs[..|rs| - 1]) + if rs[|rs| - 1].preferred.namespaced then [rs[|rs| - 1]] else []
  }

  predicate Cut(log: seq<Step>) { log != [] && log[|log| - 1].outcome.Items? && log[|log| - 1].outcome.truncated }

  /** A log of listings: each resource was listed with the budget left by those before it, and listing
      went on only while the budget lasted and nothing had been cut off. */
  ghost predicate Ledger(serve: (GroupResource, string) -> Listing, limit: int, log: seq<Step>) {
    log != [] ==>
      var init, last := log[..|log| - 1], log[|log| - 1];
      && Ledger(serve, limit, init) && Objects(init) < limit && !Cut(init)
      && last.outcome == ListOutcome(last.resource, serve, limit - Objects(init))
  }

  /** The log of the namespaced resources among `rs` that cannot be continued: none is left, or the budget
      is used up. */
  ghost predicate Ended(rs: seq<Resource>, serve: (GroupResource, string) -> Listing, limit: int, log: seq<Step>) {
    && Ledger(serve, limit, log) && Visited(log) <= Namespaced(rs)
    && (Visited(log) == Namespaced(rs) || Objects(log) >= limit)
  }

  /** Nothing failed and nothing was cut off. */
  predicate Whole(log: seq<Step>) { forall t :: t in log ==> t.outcome.Items? && !t.outcome.truncated }

  ghost predicate Exhaustive(rs: seq<Resource>, serve: (GroupResource, string) -> Listing, limit: int, log: seq<Step>) {
    Ledger(serve, limit, log) && Visited(log) == Namespaced(rs) && Whole(log)
  }

  /** All objects of a namespace can be enumerated within the limit. */
  ghost predicate NamespaceRead(rs: seq<Resource>, serve: (GroupResource, string) -> Listing, limit: int) {
    exists log :: Exhaustive(rs, serve, limit, log)
  }

  // ---- There is only one such log ----

  lemma {:induction false} VisitedCount(log: seq<Step>)
    ensures |Visited(log)| == |log|
    ensures forall i :: 0 <= i < |log| ==> Visited(log)[i] == log[i].resource
  {
    if log != [] { VisitedCount(log[..|log| - 1]); }
  }

  lemma {:induction false} LedgerPrefix(serve: (GroupResource, string) -> Listing, limit: int, log: seq<Step>, n: nat)
    requires Ledger(serve, limit, log) && n <= |log|
    ensures Ledger(serve, limit, log[..n])
    decreases |log|
  {
    if n == |log| {
      assert log[..n] == log;
    } else {
      LedgerPrefix(serve, limit, log[..|log| - 1], n);
      assert log[..|log| - 1][..n] == log[..n];
    }
  }

  lemma {:induction false} SamePrefix(serve: (GroupResource, string) -> Listing, limit: int, rs: seq<Resource>,
                                      a: seq<Step>, b: seq<Step>)
    requires Ledger(serve, limit, a) && Ledger(serve, limit, b) && Visited(a) <= rs && Visited(b) <= rs && |a| <= |b|
    ensures a == b[..|a|]
    decreases |a|
  {
    hide Ledger, ListOutcome, Visited;
    if a != [] {
      var n := |a| - 1;
      VisitedCount(a);
      VisitedCount(b);
      VisitedCount(a[..n]);
      LedgerPrefix(serve, limit, a, n);
      SamePrefix(serve, limit, rs, a[..n], b);
      LedgerPrefix(serve, limit, b, n + 1);
      assert b[..n + 1][..n] == b[..n];
      SameStep(serve, limit, a, b[..n + 1]);
    }
  }

  lemma SameStep(serve: (GroupResource, string) -> Listing, limit: int, a: seq<Step>, b: seq<Step>)
    requires Ledger(serve, limit, a) && Ledger(serve, limit, b) && a != [] && |a| == |b|
    requires a[..|a| - 1] == b[..|a| - 1] && a[|a| - 1].resource == b[|a| - 1].resource
    ensures a == b
  {
    hide ListOutcome;
    var n := |a| - 1;
    assert a[n].outcome == b[n].outcome;
    assert a == a[..n] + [a[n]] && b == b[..n] + [b[n]];
  }

  /** A log that has ended is the only one that can be exhaustive. */
  lemma EndedIsOnly(rs: seq<Resource>, serve: (GroupResource, string) -> Listing, limit: int, log: seq<Step>,
                    other: seq<Step>)
    requires Ended(rs, serve, limit, log) && Exhaustive(rs, serve, limit, other)
    ensures log == other
  {
    VisitedCount(log);
    VisitedCount(other);
    SamePrefix(serve, limit, Namespaced(rs), log, other);
    hide ListOutcome, Visited, Namespaced;
    assert log == other[..|log|];
    LongEnough(serve, limit, log, other);
    assert |log| == |other|;
  }

  /** A ledger that goes on beyond a prefix had budget left there. */
  lemma LongEnough(serve: (GroupResource, string) -> Listing, limit: int, log: seq<Step>, other: seq<Step>)
    requires Ledger(serve, limit, other) && |log| <= |other| && log == other[..|log|]
    ensures |log| < |other| ==> Objects(log) < limit
  {
    if |log| < |other| {
      LedgerPrefix(serve, limit, other, |log| + 1);
      assert other[..|log| + 1][..|log|] == log;
    }
  }

  // ---- What it means ----

  lemma {:induction false} ObjectsBounded(serve: (GroupResource, string) -> Listing, limit: int, log: seq<Step>)
    requires Ledger(serve, limit, log)
    ensures Objects(log) <= Max(0, limit) && (Cut(log) ==> Objects(log) == limit)
  {
    if log != [] {
      var init, last := log[..|log| - 1], log[|log| - 1];
      ObjectsBounded(serve, limit, init);
      OutcomeMeans(last.resource, serve, limit - Objects(init));
      hide ListOutcome, Unlistable;
    }
  }

  /** Each resource was read to its last page from one of its served versions. */
  ghost predicate ReadThrough(log: seq<Step>, serve: (GroupResource, string) -> Listing) {
    forall t :: t in log ==>
      && t.outcome.Items? && t.outcome.version in t.resource.Versions()
      && t.outcome.items == serve(t.resource.gr, t.outcome.version.version).items
  }

  /** An exhaustive log reads every namespaced resource to its last page from one served version, and the
      objects number at most the limit. */
  lemma ExhaustiveMeans(rs: seq<Resource>, serve: (GroupResource, string) -> Listing, limit: int, log: seq<Step>)
    requires Exhaustive(rs, serve, limit, log)
    ensures Visited(log) == Namespaced(rs) && ReadThrough(log, serve) && Objects(log) <= Max(0, limit)
  {
    ObjectsBounded(serve, limit, log);
    WholeReadsThrough(serve, limit, log);
  }

  lemma {:induction false} WholeReadsThrough(serve: (GroupResource, string) -> Listing, limit: int, log: seq<Step>)
    requires Ledger(serve, limit, log) && Whole(log)
    ensures ReadThrough(log, serve)
  {
    if log != [] {
      var init, last := log[..|log| - 1], log[|log| - 1];
      assert log == init + [last];
      WholeReadsThrough(serve, limit, init);
      OutcomeMeans(last.resource, serve, limit - Objects(init));
      hide ListOutcome, Unlistable;
      assert last in log;
      var all := serve(last.resource.gr, last.outcome.version.version).items;
      assert all[..|all|] == all;
    }
  }

  /** An incomplete enumeration has a cause: some tried resource cannot be listed, or the budget is used up
      with objects of the last resource or whole resources unread. */
  lemma IncompleteHasCause(rs: seq<Resource>, serve: (GroupResource, string) -> Listing, limit: int, log: seq<Step>)
    requires Ended(rs, serve, limit, log) && !Exhaustive(rs, serve, limit, log)
    ensures || (exists t, maximum: nat :: t in log && t.outcome.Unlisted? && Unlistable(t.resource, serve, maximum))
            || (Objects(log) >= limit && (Visited(log) != Namespaced(rs) || Cut(log)))
  {
    hide Visited, Namespaced, Unlistable;
    if t :| t in log && t.outcome.Unlisted? {
      var maximum := UnlistedStep(serve, limit, log, t);
    } else if Visited(log) == Namespaced(rs) {
      var t :| t in log && t.outcome.Items? && t.outcome.truncated;
      CutIsLast(serve, limit, log, t);
      ObjectsBounded(serve, limit, log);
    }
  }

  lemma {:induction false} UnlistedStep(serve: (GroupResource, string) -> Listing, limit: int, log: seq<Step>, t: Step)
    returns (maximum: nat)
    requires Ledger(serve, limit, log) && t in log && t.outcome.Unlisted?
    ensures Unlistable(t.resource, serve, maximum)
  {
    var init, last := log[..|log| - 1], log[|log| - 1];
    assert log == init + [last];
    if t == last {
      maximum := limit - Objects(init);
      OutcomeMeans(last.resource, serve, maximum);
    } else {
      maximum := UnlistedStep(serve, limit, init, t);
    }
  }

  lemma {:induction false} CutIsLast(serve: (GroupResource, string) -> Listing, limit: int, log: seq<Step>, t: Step)
    requires Ledger(serve, limit, log) && t in log && t.outcome.Items? && t.outcome.truncated
    ensures Cut(log)
  {
    hide ListOutcome;
    var init, last := log[..|log| - 1], log[|log| - 1];
    assert log == init + [last];
    if t != last {
      CutIsLast(serve, limit, init, t);
    }
  }

  lemma FinalizerItemsSnoc(hash: string -> string, policy: Policy.CompiledPolicy, r: Resource, v: Version, m: Meta,
                           fs: seq<string>, i: nat)
    requires i < |fs|
    ensures FinalizerItems(hash, policy, r, v, m, fs[..i + 1]) ==
              FinalizerItems(hash, policy, r, v, m, fs[..i])
              + [F(Identified(hash, RemainingFinalizer(r, v, m, fs[i]))),
                 A(FinalizerRemoval(hash, policy, Reference(r, v, m), fs[i], m.rv))]
  {
    assert fs[..i + 1][..i] == fs[..i];
  }

  method OfferObject(policy: Policy.CompiledPolicy, r: Resource, v: Version, m: Meta, evidence: Evidence)
    requires evidence.Valid()
    modifies evidence
    ensures evidence.Valid()
    ensures evidence.offers == old(evidence.offers) + ObjectItems(evidence.codec.hash, policy, r, v, m)
  {
    hide Identified, RemainingObject, RemainingFinalizer, FinalizerRemoval, Reference, OfferAll, Offer, Sorting.Sort;
    var hash := evidence.codec.hash;
    evidence.AddFinding(RemainingObject(r, v, m));
    var finalizers := Sorting.Sort(Sorting.Less, m.finalizers);
    ghost var start := evidence.offers;
    for i := 0 to |finalizers|
      invariant evidence.Valid()
      invariant evidence.offers == start + FinalizerItems(hash, policy, r, v, m, finalizers[..i])
    {
      FinalizerItemsSnoc(hash, policy, r, v, m, finalizers, i);
      evidence.AddFinding(RemainingFinalizer(r, v, m, finalizers[i]));
      evidence.AddAction(FinalizerRemoval(hash, policy, Reference(r, v, m), finalizers[i], m.rv));
    }
    assert finalizers[..|finalizers|] == finalizers;
  }

  lemma ReadingSnoc(hash: string -> string, policy: Policy.CompiledPolicy, rd: Reading, i: nat)
    requires i < |rd.items|
    ensures ReadingItems(hash, policy, rd.(items := rd.items[..i + 1])) ==
              ReadingItems(hash, policy, rd.(items := rd.items[..i]))
              + ObjectItems(hash, policy, rd.resource, rd.version, rd.items[i])
  {
    assert rd.items[..i + 1][..i] == rd.items[..i];
  }

  method OfferReading(policy: Policy.CompiledPolicy, rd: Reading, evidence: Evidence)
    requires evidence.Valid()
    modifies evidence
    ensures evidence.Valid() && evidence.offers == old(evidence.offers) + ReadingItems(evidence.codec.hash, policy, rd)
  {
    hide ObjectItems, OfferAll, Offer;
    var hash := evidence.codec.hash;
    for i := 0 to |rd.items|
      invariant evidence.Valid()
      invariant evidence.offers == old(evidence.offers) + ReadingItems(hash, policy, rd.(items := rd.items[..i]))
    {
      ReadingSnoc(hash, policy, rd, i);
      OfferObject(policy, rd.resource, rd.version, rd.items[i], evidence);
    }
    assert rd.items[..|rd.items|] == rd.items;
  }

  function Truncation(message: string, observed: int): Finding {
    Plain(RemainingResource, message).(count := Some(Int32(observed)), truncated := true)
  }

  const NAMESPACE_BOUND := "remaining-resource enumeration reached maxNamespaceObjects"

  /** The finding that says the limit was reached, when it left something unread. */
  function LimitItems(hash: string -> string, rs: seq<Resource>, log: seq<Step>): seq<Item> {
    if Visited(log) == Namespaced(rs) && !Cut(log) then []
    else [F(Identified(hash, Truncation(NAMESPACE_BOUND, Objects(log))))]
  }

  /** hasLaterNamespacedResource. */
  predicate AnyNamespaced(rs: seq<Resource>) { exists i :: 0 <= i < |rs| && rs[i].preferred.namespaced }

  lemma {:induction false} NamespacedSplit(rs: seq<Resource>, i: nat)
    requires i <= |rs|
    ensures Namespaced(rs[..i]) <= Namespaced(rs)
    ensures AnyNamespaced(rs[i..]) <==> Namespaced(rs[..i]) != Namespaced(rs)
    decreases |rs|
  {
    if i == |rs| {
      assert rs[..i] == rs;
    } else {
      var init, last := rs[..|rs| - 1], rs[|rs| - 1];
      NamespacedSplit(init, i);
      assert init[..i] == rs[..i] && rs[i..] == init[i..] + [last];
      LastNamespaced(init[i..], last);
    }
  }

  lemma LastNamespaced(rs: seq<Resource>, r: Resource)
    ensures AnyNamespaced(rs + [r]) <==> AnyNamespaced(rs) || r.preferred.namespaced
  {
    var all := rs + [r];
    assert all[|rs|] == r;
    if i :| 0 <= i < |rs| && rs[i].preferred.namespaced { assert all[i] == rs[i]; }
  }

  lemma NamespacedSnoc(rs: seq<Resource>, i: nat)
    requires i < |rs|
    ensures Namespaced(rs[..i + 1]) == Namespaced(rs[..i]) + if rs[i].preferred.namespaced then [rs[i]] else []
  {
    assert rs[..i + 1][..i] == rs[..i];
  }

  /** One more listing, when there is budget left. */
  lemma LedgerMore(hash: string -> string, policy: Policy.CompiledPolicy, serve: (GroupResource, string) -> Listing,
                   limit: int, log: seq<Step>, t: Step)
    requires Ledger(serve, limit, log) && Objects(log) < limit && !Cut(log)
    requires t.outcome == ListOutcome(t.resource, serve, limit - Objects(log))
    ensures var more := log + [t];
            && Ledger(serve, limit, more) && Visited(more) == Visited(log) + [t.resource]
            && Objects(more) == Objects(log) + (if t.outcome.Items? then |t.outcome.items| else 0)
            && LogItems(hash, policy, more) == LogItems(hash, policy, log) + StepItems(hash, policy, t)
            && (Cut(more) <==> t.outcome.Items? && t.outcome.truncated)
            && (Whole(more) <==> Whole(log) && t.outcome.Items? && !t.outcome.truncated)
  {
    hide ListOutcome, StepItems;
    assert (log + [t])[..|log|] == log;
    assert t in log + [t];
  }

  /** enumerateNamespace. The log says exactly what was listed and offered. Complete means: every
      namespaced resource of the catalog was read to its last page from one served version, and there are
      no more objects than the policy allows; it is incomplete exactly when that cannot be. */
  method EnumerateNamespace(catalog: Snapshot, policy: Policy.CompiledPolicy, serve: (GroupResource, string) -> Listing,
                            evidence: Evidence)
    returns (complete: bool, ghost log: seq<Step>)
    requires evidence.Valid() && forall gr, v :: Honours(serve(gr, v))
    modifies evidence
    ensures evidence.Valid() && Ended(catalog.ordered, serve, policy.settings.maxNamespaceObjects, log)
    ensures evidence.offers == old(evidence.offers) + LogItems(evidence.codec.hash, policy, log)
                               + LimitItems(evidence.codec.hash, catalog.ordered, log)
    ensures complete <==> Exhaustive(catalog.ordered, serve, policy.settings.maxNamespaceObjects, log)
    ensures complete <==> NamespaceRead(catalog.ordered, serve, policy.settings.maxNamespaceObjects)
    ensures complete ==>
              && Visited(log) == Namespaced(catalog.ordered) && ReadThrough(log, serve)
              && Objects(log) <= Max(0, policy.settings.maxNamespaceObjects)
  {
    hide OfferAll, Offer, Identified, ListOutcome, StepItems, Namespaced, Visited, LogItems, Unlistable, Ledger,
      Objects, Cut, Whole, AnyNamespaced, Plain, Truncation, ListProblem, NamespaceRead, ReadThrough, Exhaustive,
      LimitItems;
    var rs, limit, hash := catalog.ordered, policy.settings.maxNamespaceObjects, evidence.codec.hash;
    ghost var before := evidence.offers;
    var observed := 0;
    complete, log := true, [];
    NothingLogged(hash, policy, serve, limit);
    assert rs[..0] == [] && Namespaced([]) == [] by { NoneNamespaced(); }
    for i := 0 to |rs|
      invariant evidence.Valid() && evidence.offers == before + LogItems(hash, policy, log)
      invariant Ledger(serve, limit, log) && !Cut(log) && observed == Objects(log) && (complete <==> Whole(log))
      invariant Visited(log) == Namespaced(rs[..i])
    {
      NamespacedSnoc(rs, i);
      NamespacedSplit(rs, i);
      NamespacedSplit(rs, i + 1);
      var resource := rs[i];
      if !resource.preferred.namespaced { continue; }
      var remaining := limit - observed;
      if remaining <= 0 {
        NotAll(rs, i);
        evidence.AddFinding(Truncation(NAMESPACE_BOUND, observed));
        LimitFinding(hash, rs, log);
        assert evidence.offers == before + LogItems(hash, policy, log) + LimitItems(hash, rs, log);
        Concluded(rs, serve, limit, log, false);
        complete := false;
        return;
      }
      var outcome := ListNamespaceResource(resource, serve, remaining);
      ghost var t := Step(resource, outcome);
      LedgerMore(hash, policy, serve, limit, log, t);
      Regroup(before, LogItems(hash, policy, log), StepItems(hash, policy, t));
      log := log + [t];
      if outcome.Unlisted? {
        complete := false;
        evidence.AddFinding(ListProblem(resource));
        assert StepItems(hash, policy, t) == [F(Identified(hash, ListProblem(resource)))] by {
          StepOffers(hash, policy, t);
        }
        continue;
      }
      assert StepItems(hash, policy, t) == ReadingItems(hash, policy,
                                                        Reading(resource, outcome.version, outcome.items)) by {
        StepOffers(hash, policy, t);
      }
      OfferReading(policy, Reading(resource, outcome.version, outcome.items), evidence);
      observed := observed + |outcome.items|;
      assert evidence.offers == before + LogItems(hash, policy, log) && observed == Objects(log);
      if outcome.truncated || (observed >= limit && AnyNamespaced(rs[i + 1..])) {
        assert outcome.truncated ==> observed >= limit by { ObjectsBounded(serve, limit, log); }
        LimitFinding(hash, rs, log);
        assert LimitItems(hash, rs, log) == [F(Identified(hash, Truncation(NAMESPACE_BOUND, observed)))];
        evidence.AddFinding(Truncation(NAMESPACE_BOUND, observed));
        assert evidence.offers == before + LogItems(hash, policy, log) + LimitItems(hash, rs, log);
        Concluded(rs, serve, limit, log, false);
        complete := false;
        return;
      }
    }
    assert rs[..|rs|] == rs;
    LimitFinding(hash, rs, log);
    assert LimitItems(hash, rs, log) == [];
    assert evidence.offers == before + LogItems(hash, policy, log) + [];
    Concluded(rs, serve, limit, log, complete);
  }

  lemma Regroup(a: seq<Item>, b: seq<Item>, c: seq<Item>)
    ensures a + b + c == a + (b + c)
  {
  }

  lemma NoneNamespaced()
    ensures Namespaced([]) == []
  {
  }

  lemma LimitFinding(hash: string -> string, rs: seq<Resource>, log: seq<Step>)
    ensures LimitItems(hash, rs, log) ==
              if Visited(log) == Namespaced(rs) && !Cut(log) then []
              else [F(Identified(hash, Truncation(NAMESPACE_BOUND, Objects(log))))]
  {
  }

  lemma NothingLogged(hash: string -> string, policy: Policy.CompiledPolicy, serve: (GroupResource, string) -> Listing,
                      limit: int)
    ensures Ledger(serve, limit, []) && Visited([]) == [] && Objects([]) == 0 && LogItems(hash, policy, []) == []
    ensures !Cut([]) && Whole([])
  {
  }

  lemma StepOffers(hash: string -> string, policy: Policy.CompiledPolicy, t: Step)
    ensures t.outcome.Unlisted? ==> StepItems(hash, policy, t) == [F(Identified(hash, ListProblem(t.resource)))]
    ensures t.outcome.Items? ==>
              StepItems(hash, policy, t) == ReadingItems(hash, policy,
                                                         Reading(t.resource, t.outcome.version, t.outcome.items))
  {
  }

  lemma NotAll(rs: seq<Resource>, i: nat)
    requires i < |rs| && rs[i].preferred.namespaced
    ensures Namespaced(rs[..i]) != Namespaced(rs)
  {
    NamespacedSplit(rs, i);
    assert rs[i..][0] == rs[i];
  }

  /** A log that has ended decides. */
  lemma Concluded(rs: seq<Resource>, serve: (GroupResource, string) -> Listing, limit: int, log: seq<Step>,
                  complete: bool)
    requires Ended(rs, serve, limit, log) && (complete <==> Visited(log) == Namespaced(rs) && Whole(log))
    ensures complete <==> Exhaustive(rs, serve, limit, log)
    ensures complete <==> NamespaceRead(rs, serve, limit)
    ensures complete ==> Visited(log) == Namespaced(rs) && ReadThrough(log, serve) && Objects(log) <= Max(0, limit)
  {
    hide Visited, Namespaced, Whole, Ledger, Objects, ReadThrough;
    if NamespaceRead(rs, serve, limit) {
      var other :| Exhaustive(rs, serve, limit, other);
      EndedIsOnly(rs, serve, limit, log, other);
    }
    if complete { ExhaustiveMeans(rs, serve, limit, log); }
  }

  // ---- The actions among what is offered ----

  /** The action removes a finalizer of an object that was read. */
  ghost predicate RemovesRead(hash: string -> string, policy: Policy.CompiledPolicy, rd: Reading, a: Action) {
    exists m, f :: m in rd.items && f in m.finalizers
      && a == FinalizerRemoval(hash, policy, Reference(rd.resource, rd.version, m), f, m.rv)
  }

  ghost predicate RemovesFrom(hash: string -> string, policy: Policy.CompiledPolicy, log: seq<Step>, a: Action) {
    exists t :: t in log && t.outcome.Items?
      && RemovesRead(hash, policy, Reading(t.resource, t.outcome.version, t.outcome.items), a)
  }

  lemma {:induction false} FinalizerActions(hash: string -> string, policy: Policy.CompiledPolicy, r: Resource,
                                            v: Version, m: Meta, fs: seq<string>, a: Action)
    ensures A(a) in FinalizerItems(hash, policy, r, v, m, fs) <==>
            exists f :: f in fs && a == FinalizerRemoval(hash, policy, Reference(r, v, m), f, m.rv)
  {
    hide FinalizerRemoval, Reference, RemainingFinalizer, Identified;
    if fs != [] {
      var init, last := fs[..|fs| - 1], fs[|fs| - 1];
      assert fs == init + [last];
      FinalizerActions(hash, policy, r, v, m, init, a);
      assert A(a) in FinalizerItems(hash, policy, r, v, m, fs) <==>
             (A(a) in FinalizerItems(hash, policy, r, v, m, init)
              || a == FinalizerRemoval(hash, policy, Reference(r, v, m), last, m.rv));
      hide FinalizerItems;
    }
  }

  lemma SortMembers(fs: seq<string>)
    ensures forall f :: f in Sorting.Sort(Sorting.Less, fs) <==> f in fs
  {
    Sorting.LessIsStrictWeak();
    Sorting.SortSorts(Sorting.Less, fs);
    forall f ensures f in Sorting.Sort(Sorting.Less, fs) <==> f in fs {
      assert f in multiset(fs) <==> f in fs;
      assert f in multiset(Sorting.Sort(Sorting.Less, fs)) <==> f in Sorting.Sort(Sorting.Less, fs);
    }
  }

  lemma ObjectActions(hash: string -> string, policy: Policy.CompiledPolicy, r: Resource, v: Version, m: Meta,
                      a: Action)
    ensures A(a) in ObjectItems(hash, policy, r, v, m) <==>
            exists f :: f in m.finalizers && a == FinalizerRemoval(hash, policy, Reference(r, v, m), f, m.rv)
  {
    FinalizerActions(hash, policy, r, v, m, Sorting.Sort(Sorting.Less, m.finalizers), a);
    SortMembers(m.finalizers);
    hide FinalizerItems, FinalizerRemoval, Reference, RemainingObject, Identified, Sorting.Sort;
  }

  lemma {:induction false} ReadingActions(hash: string -> string, policy: Policy.CompiledPolicy, rd: Reading, a: Action)
    ensures A(a) in ReadingItems(hash, policy, rd) <==> RemovesRead(hash, policy, rd, a)
    decreases |rd.items|
  {
    hide FinalizerRemoval, Reference, ObjectItems;
    if rd.items != [] {
      var init, last := rd.(items := rd.items[..|rd.items| - 1]), rd.items[|rd.items| - 1];
      assert rd.items == init.items + [last];
      ReadingActions(hash, policy, init, a);
      ObjectActions(hash, policy, rd.resource, rd.version, last, a);
    }
  }

  /** Exactly the removals of finalizers of objects that were read are offered as actions. */
  lemma {:induction false} LogActions(hash: string -> string, policy: Policy.CompiledPolicy, log: seq<Step>, a: Action)
    ensures A(a) in LogItems(hash, policy, log) <==> RemovesFrom(hash, policy, log, a)
  {
    hide ReadingItems, RemovesRead, Identified, ListProblem;
    if log != [] {
      var init, last := log[..|log| - 1], log[|log| - 1];
      assert log == init + [last];
      LogActions(hash, policy, init, a);
      if last.outcome.Items? {
        ReadingActions(hash, policy, Reading(last.resource, last.outcome.version, last.outcome.items), a);
      }
    }
  }
}
