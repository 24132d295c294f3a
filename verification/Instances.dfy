/** enumerateCRDInstances (internal/diagnosis/analyzers.go): the instances of a custom resource over all
    its served versions, each object counted once. */
module Instances {
  import opened Types
  import opened Paging
  import opened Collector
  import Enumeration
  import Sorting

  datatype CRDVersion = CRDVersion(name: string, served: bool)

  datatype CRD = CRD(group: string, plural: string, kind: string, versions: seq<CRDVersion>)

  function ServedNames(vs: seq<CRDVersion>): seq<string> {
    if vs == [] then []
    else ServedNames(vs[..|vs| - 1]) + if vs[|vs| - 1].served then [vs[|vs| - 1].name] else []
  }

  /** The UIDs listed under any of the versions. */
  ghost function Uids(serve: string -> Listing, versions: seq<string>): set<string> {
    set v, k | v in versions && 0 <= k < |serve(v).items| :: serve(v).items[k].uid
  }

  ghost predicate EveryUidSet(serve: string -> Listing, versions: seq<string>) { "" !in Uids(serve, versions) }

  ghost predicate EveryListEnds(serve: string -> Listing, versions: seq<string>) {
    forall v :: v in versions ==> Walk(serve(v), Enumeration.PAGE_SIZE, 0).Complete?
  }

  /** Exactly when the instances of a definition can be enumerated. */
  ghost predicate Enumerable(serve: string -> Listing, versions: seq<string>, limit: int) {
    EveryListEnds(serve, versions) && EveryUidSet(serve, versions) && |Uids(serve, versions)| <= Max(0, limit)
  }

  function Instance(crd: CRD, version: string, m: Meta): Finding {
    Enumeration.Plain(RemainingResource, "custom resource " + m.ns + "/" + m.name + " remains")
    .(resourceRef := Some(TargetRef(crd.group, version, crd.plural, crd.kind, m.ns, m.name, m.uid)))
  }

  /** An object as it was listed under some version. */
  datatype Sighting = Sighting(version: string, meta: Meta)

  function Sightings(version: string, items: seq<Meta>): seq<Sighting> {
    if items == [] then [] else Sightings(version, items[..|items| - 1]) + [Sighting(version, items[|items| - 1])]
  }

  /** Everything listed, version by version. */
  function AllSightings(serve: string -> Listing, versions: seq<string>): seq<Sighting> {
    if versions == [] then []
    else
      var last := versions[|versions| - 1];
      AllSightings(serve, versions[..|versions| - 1]) + Sightings(last, serve(last).items)
  }

  ghost function UidsOf(s: seq<Sighting>): set<string> { set x | x in s :: x.meta.uid }

  /** One finding for each object, when it is first seen. */
  ghost function FirstSeen(hash: string -> string, crd: CRD, s: seq<Sighting>): seq<Item> {
    if s == [] then []
    else
      var init, last := s[..|s| - 1], s[|s| - 1];
      FirstSeen(hash, crd, init)
      + if last.meta.uid in UidsOf(init) then [] else [F(Identified(hash, Instance(crd, last.version, last.meta)))]
  }

  /** The items are findings about objects with pairwise different UIDs, which together are `uids`. */
  ghost predicate OnePerUid(items: seq<Item>, uids: set<string>) {
    && (forall i :: 0 <= i < |items| ==>
          items[i].F? && items[i].finding.resourceRef.Some? && items[i].finding.resourceRef.value.uid in uids)
    && (forall i, j :: 0 <= i < j < |items| ==>
          items[i].F? && items[j].F? && items[i].finding.resourceRef.Some? && items[j].finding.resourceRef.Some?
          && items[i].finding.resourceRef.value.uid != items[j].finding.resourceRef.value.uid)
    && |items| == |uids|
  }

  lemma OneMoreUid(items: seq<Item>, uids: set<string>, f: Finding)
    requires OnePerUid(items, uids) && f.resourceRef.Some? && f.resourceRef.value.uid !in uids
    ensures OnePerUid(items + [F(f)], uids + {f.resourceRef.value.uid})
  {
  }

  lemma UidsSnoc(s: seq<Sighting>, x: Sighting)
    ensures UidsOf(s + [x]) == UidsOf(s) + {x.meta.uid}
  {
    assert x in s + [x];
  }

  lemma FirstSeenSnoc(hash: string -> string, crd: CRD, s: seq<Sighting>, x: Sighting)
    ensures FirstSeen(hash, crd, s + [x]) ==
              FirstSeen(hash, crd, s)
              + if x.meta.uid in UidsOf(s) then [] else [F(Identified(hash, Instance(crd, x.version, x.meta)))]
  {
    assert (s + [x])[..|s|] == s;
  }

  /** There is exactly one finding per distinct UID. */
  lemma {:induction false} FirstSeenOncePerUid(hash: string -> string, crd: CRD, s: seq<Sighting>)
    ensures OnePerUid(FirstSeen(hash, crd, s), UidsOf(s))
  {
    hide OnePerUid, Identified, Instance, UidsOf;
    if s != [] {
      var init, last := s[..|s| - 1], s[|s| - 1];
      assert s == init + [last];
      FirstSeenOncePerUid(hash, crd, init);
      UidsSnoc(init, last);
      var f := Identified(hash, Instance(crd, last.version, last.meta));
      InstanceUid(hash, crd, last);
      if last.meta.uid in UidsOf(init) {
        assert UidsOf(s) == UidsOf(init);
        assert FirstSeen(hash, crd, s) == FirstSeen(hash, crd, init);
      } else {
        OneMoreUid(FirstSeen(hash, crd, init), UidsOf(init), f);
      }
    } else {
      NoneSeen();
    }
  }

  lemma InstanceUid(hash: string -> string, crd: CRD, x: Sighting)
    ensures var f := Identified(hash, Instance(crd, x.version, x.meta));
            f.resourceRef.Some? && f.resourceRef.value.uid == x.meta.uid
  {
  }

  lemma NoneSeen()
    ensures OnePerUid([], UidsOf([]))
  {
  }

  /** The running tally: UIDs seen, objects retained, and whether anything already went wrong. */
  datatype Tally = Tally(seen: set<string>, retained: nat, complete: bool)

  /** What the tally says about the lists: `read` is what was read of them. */
  ghost predicate Tallies(hash: string -> string, crd: CRD, t: Tally, read: seq<Sighting>, offered: seq<Item>,
                          limit: int) {
    && t.retained <= Max(0, limit)
    && t.seen == UidsOf(read) - {""}
    && ("" !in UidsOf(read) ==> t.retained == |t.seen|)
    && (t.complete ==> "" !in UidsOf(read) && offered == FirstSeen(hash, crd, read))
  }

  /** Something read has no UID, or there are too many UIDs. */
  ghost predicate Hopeless(read: seq<Sighting>, limit: int) { "" in UidsOf(read) || |UidsOf(read)| > Max(0, limit) }

  const INSTANCE_BOUND := "custom-resource enumeration reached maxCRDInstances"

  /** One object. It stops only when the object is new and the limit is used up. */
  method Count(crd: CRD, version: string, m: Meta, limit: int, t: Tally, ghost read: seq<Sighting>,
               ghost before: seq<Item>, evidence: Evidence)
    returns (t': Tally, stop: bool)
    requires evidence.Valid() && before <= evidence.offers
    requires Tallies(evidence.codec.hash, crd, t, read, evidence.offers[|before|..], limit)
    modifies evidence
    ensures evidence.Valid() && before <= evidence.offers && NoActions(old(evidence.offers), evidence.offers)
    ensures !stop ==>
              Tallies(evidence.codec.hash, crd, t', read + [Sighting(version, m)], evidence.offers[|before|..], limit)
    ensures !stop ==> (t'.complete <==> t.complete && m.uid != "")
    ensures stop ==> Hopeless(read + [Sighting(version, m)], limit)
  {
    hide OfferAll, Offer, Identified, Tallies, Hopeless, Enumeration.Plain, Enumeration.Truncation, Instance;
    ghost var hash, x := evidence.codec.hash, Sighting(version, m);
    t', stop := t, false;
    if m.uid != "" && m.uid in t.seen {
      SeenBefore(hash, crd, t, read, x, evidence.offers[|before|..], limit);
      return;
    }
    if t.retained >= limit {
      LimitReached(hash, crd, t, read, x, evidence.offers[|before|..], limit);
      evidence.AddFinding(Enumeration.Truncation(INSTANCE_BOUND, t.retained));
      stop := true;
      return;
    }
    if m.uid == "" {
      evidence.AddFinding(Enumeration.Plain(UnknownFinding, "CRD instance " + m.ns + "/" + m.name + " has no UID"));
      NoUid(hash, crd, t, read, x, old(evidence.offers)[|before|..], limit, evidence.offers[|before|..]);
      t' := t.(retained := t.retained + 1, complete := false);
      return;
    }
    NewUid(hash, crd, t, read, x, evidence.offers[|before|..], limit);
    evidence.AddFinding(Instance(crd, version, m));
    assert evidence.offers[|before|..] ==
           old(evidence.offers)[|before|..] + [F(Identified(hash, Instance(crd, version, m)))];
    t' := t.(seen := t.seen + {m.uid}, retained := t.retained + 1);
  }

  lemma SeenBefore(hash: string -> string, crd: CRD, t: Tally, read: seq<Sighting>, x: Sighting, offered: seq<Item>,
                   limit: int)
    requires Tallies(hash, crd, t, read, offered, limit) && x.meta.uid in t.seen
    ensures Tallies(hash, crd, t, read + [x], offered, limit)
  {
    UidsSnoc(read, x);
    FirstSeenSnoc(hash, crd, read, x);
    hide UidsOf, FirstSeen;
    assert UidsOf(read + [x]) == UidsOf(read);
  }

  lemma LimitReached(hash: string -> string, crd: CRD, t: Tally, read: seq<Sighting>, x: Sighting, offered: seq<Item>,
                     limit: int)
    requires Tallies(hash, crd, t, read, offered, limit) && (x.meta.uid == "" || x.meta.uid !in t.seen)
    requires t.retained >= limit
    ensures Hopeless(read + [x], limit)
  {
    UidsSnoc(read, x);
    hide UidsOf, FirstSeen;
    if "" !in UidsOf(read + [x]) {
      assert t.seen == UidsOf(read) && |UidsOf(read + [x])| == |UidsOf(read)| + 1;
    }
  }

  lemma NoUid(hash: string -> string, crd: CRD, t: Tally, read: seq<Sighting>, x: Sighting, offered: seq<Item>,
              limit: int, more: seq<Item>)
    requires Tallies(hash, crd, t, read, offered, limit) && t.retained < limit && x.meta.uid == ""
    ensures Tallies(hash, crd, t.(retained := t.retained + 1, complete := false), read + [x], more, limit)
  {
    UidsSnoc(read, x);
    hide UidsOf, FirstSeen;
    assert UidsOf(read + [x]) - {""} == UidsOf(read) - {""};
  }

  lemma NewUid(hash: string -> string, crd: CRD, t: Tally, read: seq<Sighting>, x: Sighting, offered: seq<Item>,
               limit: int)
    requires Tallies(hash, crd, t, read, offered, limit) && t.retained < limit && x.meta.uid != ""
    requires x.meta.uid !in t.seen
    ensures Tallies(hash, crd, t.(seen := t.seen + {x.meta.uid}, retained := t.retained + 1), read + [x],
                    offered + [F(Identified(hash, Instance(crd, x.version, x.meta)))], limit)
  {
    UidsSnoc(read, x);
    FirstSeenSnoc(hash, crd, read, x);
    hide UidsOf, FirstSeen, Identified, Instance;
    assert t.seen + {x.meta.uid} == UidsOf(read + [x]) - {""};
  }

  ghost predicate NoActions(before: seq<Item>, after: seq<Item>) {
    before <= after && forall k :: |before| <= k < |after| ==> after[k].F?
  }

  lemma SightingsSnoc(version: string, items: seq<Meta>, i: nat)
    requires i < |items|
    ensures Sightings(version, items[..i + 1]) == Sightings(version, items[..i]) + [Sighting(version, items[i])]
  {
    assert items[..i + 1][..i] == items[..i];
  }

  lemma {:induction false} SightingsConcat(version: string, a: seq<Meta>, b: seq<Meta>)
    ensures Sightings(version, a + b) == Sightings(version, a) + Sightings(version, b)
  {
    if b == [] {
      assert a + b == a;
    } else {
      SightingsConcat(version, a, b[..|b| - 1]);
      assert (a + b)[..|a + b| - 1] == a + b[..|b| - 1];
    }
  }

  lemma SightingsUpTo(version: string, items: seq<Meta>, from: nat, n: nat)
    requires from + n <= |items|
    ensures Sightings(version, items[..from]) + Sightings(version, items[from..][..n]) ==
              Sightings(version, items[..from + n])
  {
    assert items[..from] + items[from..][..n] == items[..from + n];
    SightingsConcat(version, items[..from], items[from..][..n]);
  }

  lemma Regroup(a: seq<Sighting>, b: seq<Sighting>, c: seq<Sighting>)
    ensures a + b + c == a + (b + c)
  {
  }

  /** One page; `n` of its objects were looked at. */
  method CountPage(crd: CRD, version: string, items: seq<Meta>, limit: int, t: Tally, ghost read: seq<Sighting>,
                   ghost before: seq<Item>, evidence: Evidence)
    returns (t': Tally, stop: bool, ghost n: nat)
    requires evidence.Valid() && before <= evidence.offers
    requires Tallies(evidence.codec.hash, crd, t, read, evidence.offers[|before|..], limit)
    modifies evidence
    ensures evidence.Valid() && before <= evidence.offers && NoActions(old(evidence.offers), evidence.offers)
    ensures n <= |items| && (!stop ==> n == |items|)
    ensures !stop ==>
              Tallies(evidence.codec.hash, crd, t', read + Sightings(version, items),
                      evidence.offers[|before|..], limit)
    ensures !stop ==> (t'.complete <==> t.complete && "" !in UidsOf(read + Sightings(version, items)))
    ensures stop ==> Hopeless(read + Sightings(version, items[..n]), limit)
  {
    hide Tallies, OfferAll, Offer, Hopeless;
    t', stop, n := t, false, 0;
    assert read + Sightings(version, items[..0]) == read;
    assert t.complete ==>
             "" !in UidsOf(read) by {
               TalliesUids(evidence.codec.hash, crd, t, read, evidence.offers[|before|..], limit);
             }
    for i := 0 to |items|
      invariant evidence.Valid() && before <= evidence.offers && NoActions(old(evidence.offers), evidence.offers)
      invariant Tallies(evidence.codec.hash, crd, t', read + Sightings(version, items[..i]),
                        evidence.offers[|before|..], limit)
      invariant t'.complete <==> t.complete && "" !in UidsOf(read + Sightings(version, items[..i]))
    {
      SightingsSnoc(version, items, i);
      Regroup(read, Sightings(version, items[..i]), [Sighting(version, items[i])]);
      UidsSnoc(read + Sightings(version, items[..i]), Sighting(version, items[i]));
      ghost var sofar := read + Sightings(version, items[..i]);
      assert read + Sightings(version, items[..i + 1]) == sofar + [Sighting(version, items[i])];
      hide UidsOf, Sightings;
      t', stop := Count(crd, version, items[i], limit, t', sofar, before, evidence);
      n := i + 1;
      if stop { return; }
    }
    assert items[..|items|] == items;
    n := |items|;
  }

  lemma TalliesUids(hash: string -> string, crd: CRD, t: Tally, read: seq<Sighting>, offered: seq<Item>, limit: int)
    requires Tallies(hash, crd, t, read, offered, limit)
    ensures t.complete ==> "" !in UidsOf(read)
  {
  }

  lemma UidsGrow(a: seq<Sighting>, b: seq<Sighting>)
    ensures UidsOf(a) <= UidsOf(a + b)
  {
  }

  /** One served version, page by page; `n` of its objects were looked at. A failed request ends the version
      and spoils completeness. */
  method CountVersion(crd: CRD, version: string, l: Listing, limit: int, t: Tally, ghost read: seq<Sighting>,
                      ghost before: seq<Item>, evidence: Evidence)
    returns (t': Tally, stop: bool, ghost n: nat)
    requires Honours(l) && evidence.Valid() && before <= evidence.offers
    requires Tallies(evidence.codec.hash, crd, t, read, evidence.offers[|before|..], limit)
    modifies evidence
    ensures evidence.Valid() && before <= evidence.offers && NoActions(old(evidence.offers), evidence.offers)
    ensures n <= |l.items|
    ensures !stop ==>
              Tallies(evidence.codec.hash, crd, t', read + Sightings(version, l.items[..n]),
                      evidence.offers[|before|..], limit)
    ensures !stop && Walk(l, Enumeration.PAGE_SIZE, 0).Complete? ==> n == |l.items|
    ensures !stop ==>
              (t'.complete <==> t.complete && Walk(l, Enumeration.PAGE_SIZE, 0).Complete?
                                && "" !in UidsOf(read + Sightings(version, l.items[..n])))
    ensures stop ==> Hopeless(read + Sightings(version, l.items[..n]), limit)
  {
    hide Tallies, OfferAll, Offer, UidsOf, Enumeration.Plain, Sightings, Hopeless;
    t', stop, n := t, false, 0;
    var offset := 0;
    NoSightings(version, l.items, read);
    TalliesUids(evidence.codec.hash, crd, t, read, evidence.offers[|before|..], limit);
    while true
      invariant evidence.Valid() && before <= evidence.offers && NoActions(old(evidence.offers), evidence.offers)
      invariant 0 <= offset <= |l.items| && (offset > 0 ==> offset < |l.items|)
      invariant Tallies(evidence.codec.hash, crd, t', read + Sightings(version, l.items[..offset]),
                        evidence.offers[|before|..], limit)
      invariant t'.complete <==> t.complete && "" !in UidsOf(read + Sightings(version, l.items[..offset]))
      invariant Walk(l, Enumeration.PAGE_SIZE, 0) == Walk(l, Enumeration.PAGE_SIZE, offset)
      decreases |l.items| - offset
    {
      ghost var sofar := read + Sightings(version, l.items[..offset]);
      var reply := Ask(l, offset, Enumeration.PAGE_SIZE);
      if !reply.Found? {
        n := offset;
        ghost var already := evidence.offers;
        evidence.AddFinding(Enumeration.Plain(DiscoveryFailure, "list CRD instances for " + crd.group + "/" + version));
        Spoiled(evidence.codec.hash, crd, t', sofar, already[|before|..], limit, evidence.offers[|before|..]);
        t' := t'.(complete := false);
        return;
      }
      var next := offset + reply.value.count;
      ghost var m;
      t', stop, m := CountPage(crd, version, l.items[offset..next], limit, t', sofar, before, evidence);
      n := offset + m;
      PageSightings(version, l.items, offset, next, m, read);
      UidsGrow(sofar, Sightings(version, l.items[offset..next]));
      if stop { return; }
      offset := next;
      if !reply.value.more {
        assert l.items[..offset] == l.items;
        return;
      }
    }
  }

  lemma NoSightings(version: string, items: seq<Meta>, read: seq<Sighting>)
    ensures read + Sightings(version, items[..0]) == read
  {
  }

  /** Reading on within a page extends what was read. */
  lemma PageSightings(version: string, items: seq<Meta>, offset: nat, next: nat, m: nat, read: seq<Sighting>)
    requires offset <= next <= |items| && m <= next - offset
    ensures read + Sightings(version, items[..offset]) + Sightings(version, items[offset..next][..m])
              == read + Sightings(version, items[..offset + m])
    ensures items[offset..next][..next - offset] == items[offset..next]
  {
    assert items[offset..next][..m] == items[offset..][..m];
    SightingsUpTo(version, items, offset, m);
    hide Sightings;
    Regroup(read, Sightings(version, items[..offset]), Sightings(version, items[offset..next][..m]));
  }

  lemma Spoiled(hash: string -> string, crd: CRD, t: Tally, read: seq<Sighting>, offered: seq<Item>, limit: int,
                more: seq<Item>)
    requires Tallies(hash, crd, t, read, offered, limit)
    ensures Tallies(hash, crd, t.(complete := false), read, more, limit)
  {
  }

  lemma {:induction false} SightingUids(version: string, items: seq<Meta>)
    ensures UidsOf(Sightings(version, items)) == set m | m in items :: m.uid
  {
    if items != [] {
      var init, last := items[..|items| - 1], items[|items| - 1];
      assert items == init + [last];
      SightingUids(version, init);
      UidsSnoc(Sightings(version, init), Sighting(version, last));
      hide UidsOf, Sightings;
      assert last in items;
    }
  }

  lemma UidsTogether(a: seq<Sighting>, b: seq<Sighting>)
    ensures UidsOf(a + b) == UidsOf(a) + UidsOf(b)
  {
  }

  lemma UidsOneMore(serve: string -> Listing, versions: seq<string>, i: nat)
    requires i < |versions|
    ensures Uids(serve, versions[..i + 1]) ==
              Uids(serve, versions[..i]) + UidsOf(Sightings(versions[i], serve(versions[i]).items))
  {
    var v, items := versions[i], serve(versions[i]).items;
    SightingUids(v, items);
    assert versions[..i + 1] == versions[..i] + [v];
    forall u | u in UidsOf(Sightings(v, items)) ensures u in Uids(serve, versions[..i + 1]) {
      var m :| m in items && m.uid == u;
      var k :| 0 <= k < |items| && items[k] == m;
      assert v in versions[..i + 1];
    }
    hide UidsOf;
    forall u | u in Uids(serve, versions[..i + 1])
      ensures u in Uids(serve, versions[..i]) + UidsOf(Sightings(v, items))
    {
      var w, k :| w in versions[..i + 1] && 0 <= k < |serve(w).items| && serve(w).items[k].uid == u;
      if w == v { assert items[k] in items; }
    }
  }

  lemma UidsWithin(serve: string -> Listing, versions: seq<string>, i: nat)
    requires i <= |versions|
    ensures Uids(serve, versions[..i]) <= Uids(serve, versions)
  {
  }

  lemma PartOfVersion(version: string, items: seq<Meta>, n: nat)
    requires n <= |items|
    ensures UidsOf(Sightings(version, items[..n])) <= UidsOf(Sightings(version, items))
  {
    SightingUids(version, items);
    SightingUids(version, items[..n]);
  }

  lemma EndsOneMore(serve: string -> Listing, versions: seq<string>, i: nat)
    requires i < |versions|
    ensures EveryListEnds(serve, versions[..i + 1]) <==>
            (EveryListEnds(serve, versions[..i]) && Walk(serve(versions[i]), Enumeration.PAGE_SIZE, 0).Complete?)
  {
    assert versions[..i + 1] == versions[..i] + [versions[i]];
    assert versions[i] in versions[..i + 1];
  }

  lemma AllSightingsSnoc(serve: string -> Listing, versions: seq<string>, i: nat)
    requires i < |versions|
    ensures AllSightings(serve, versions[..i + 1]) ==
              AllSightings(serve, versions[..i]) + Sightings(versions[i], serve(versions[i]).items)
  {
    assert versions[..i + 1][..i] == versions[..i];
  }

  lemma SetSizes(a: set<string>, b: set<string>)
    requires a <= b
    ensures |a| <= |b|
  {
    assert b == a + (b - a);
  }

  lemma ServedOneMore(vs: seq<CRDVersion>, i: nat)
    requires i < |vs|
    ensures ServedNames(vs[..i + 1]) == ServedNames(vs[..i]) + if vs[i].served then [vs[i].name] else []
  {
    assert vs[..i + 1][..i] == vs[..i];
  }

  /** The served version names in ascending order. */
  method ServedVersions(crd: CRD) returns (versions: seq<string>)
    ensures versions == Sorting.Sort(Sorting.Less, ServedNames(crd.versions))
    ensures multiset(versions) == multiset(ServedNames(crd.versions)) && Sorting.Sorted(Sorting.Less, versions)
  {
    versions := [];
    for i := 0 to |crd.versions|
      invariant versions == ServedNames(crd.versions[..i])
    {
      ServedOneMore(crd.versions, i);
      if crd.versions[i].served {
        versions := versions + [crd.versions[i].name];
      }
    }
    assert crd.versions[..|crd.versions|] == crd.versions;
    Sorting.LessIsStrictWeak();
    Sorting.SortSorts(Sorting.Less, versions);
    versions := Sorting.Sort(Sorting.Less, versions);
  }

  /** What is known after some versions were read to the end or to a failure. */
  ghost predicate Consumed(serve: string -> Listing, versions: seq<string>, t: Tally, read: seq<Sighting>) {
    && UidsOf(read) <= Uids(serve, versions)
    && (t.complete <==> EveryListEnds(serve, versions) && "" !in UidsOf(read))
    && (EveryListEnds(serve, versions) ==>
          read == AllSightings(serve, versions) && UidsOf(read) == Uids(serve, versions))
  }

  lemma ConsumedMore(serve: string -> Listing, versions: seq<string>, i: nat, t: Tally, read: seq<Sighting>, t': Tally,
                     n: nat)
    requires i < |versions| && Consumed(serve, versions[..i], t, read) && n <= |serve(versions[i]).items|
    requires var ends := Walk(serve(versions[i]), Enumeration.PAGE_SIZE, 0).Complete?;
             && (ends ==> n == |serve(versions[i]).items|)
             && (t'.complete <==>
                   t.complete && ends && "" !in UidsOf(read + Sightings(versions[i], serve(versions[i]).items[..n])))
    ensures Consumed(serve, versions[..i + 1], t', read + Sightings(versions[i], serve(versions[i]).items[..n]))
  {
    var items := serve(versions[i]).items;
    UidsOneMore(serve, versions, i);
    EndsOneMore(serve, versions, i);
    AllSightingsSnoc(serve, versions, i);
    PartOfVersion(versions[i], items, n);
    UidsTogether(read, Sightings(versions[i], items[..n]));
    assert items[..|items|] == items;
    hide Uids, UidsOf, EveryListEnds, Sightings, AllSightings;
  }

  /** A UID is missing or there are too many, so the instances are not enumerable. */
  lemma NotEnumerable(serve: string -> Listing, versions: seq<string>, i: nat, t: Tally, read: seq<Sighting>, n: nat,
                      limit: int)
    requires i < |versions| && Consumed(serve, versions[..i], t, read) && n <= |serve(versions[i]).items|
    requires Hopeless(read + Sightings(versions[i], serve(versions[i]).items[..n]), limit)
    ensures !Enumerable(serve, versions, limit)
  {
    var items := serve(versions[i]).items;
    UidsOneMore(serve, versions, i);
    UidsWithin(serve, versions, i + 1);
    PartOfVersion(versions[i], items, n);
    UidsTogether(read, Sightings(versions[i], items[..n]));
    hide Uids, UidsOf, EveryListEnds, Sightings, AllSightings;
    SetSizes(UidsOf(read + Sightings(versions[i], items[..n])), Uids(serve, versions));
  }

  lemma AllConsumed(hash: string -> string, crd: CRD, serve: string -> Listing, versions: seq<string>, limit: int,
                    t: Tally, read: seq<Sighting>, offered: seq<Item>)
    requires Consumed(serve, versions, t, read) && Tallies(hash, crd, t, read, offered, limit)
    ensures t.complete <==> Enumerable(serve, versions, limit)
    ensures t.complete ==>
              offered == FirstSeen(hash, crd, AllSightings(serve, versions))
              && OnePerUid(offered, Uids(serve, versions))
  {
    FirstSeenOncePerUid(hash, crd, read);
    hide Uids, UidsOf, OnePerUid, EveryListEnds, AllSightings, FirstSeen;
    if t.complete { assert t.seen == UidsOf(read); }
  }

  lemma SameNames(serve: string -> Listing, a: seq<string>, b: seq<string>, limit: int)
    requires multiset(a) == multiset(b)
    ensures Uids(serve, a) == Uids(serve, b) && Enumerable(serve, a, limit) == Enumerable(serve, b, limit)
  {
    forall v ensures v in a <==> v in b { assert v in multiset(a) <==> v in multiset(b); }
    assert Uids(serve, a) == Uids(serve, b);
  }

  /** What is offered for a definition whose instances can be enumerated. */
  ghost function InstanceItems(hash: string -> string, crd: CRD, serve: string -> Listing): seq<Item> {
    FirstSeen(hash, crd, AllSightings(serve, Sorting.Sort(Sorting.Less, ServedNames(crd.versions))))
  }

  /** enumerateCRDInstances: true exactly when every served version lists to its end, no object lacks a
      UID and there are at most `limit` distinct UIDs over all versions; then exactly one finding per
      distinct UID was offered, when it was first seen in the ascending order of the versions. */
  method EnumerateCRDInstances(crd: CRD, serve: string -> Listing, limit: int, evidence: Evidence)
    returns (complete: bool)
    requires evidence.Valid() && forall v :: Honours(serve(v))
    modifies evidence
    ensures evidence.Valid() && NoActions(old(evidence.offers), evidence.offers)
    ensures complete <==> Enumerable(serve, ServedNames(crd.versions), limit)
    ensures complete ==> OnePerUid(evidence.offers[|old(evidence.offers)|..], Uids(serve, ServedNames(crd.versions)))
    ensures complete ==> evidence.offers == old(evidence.offers) + InstanceItems(evidence.codec.hash, crd, serve)
  {
    hide Tallies, Consumed, Enumerable, Uids, UidsOf, OnePerUid, OfferAll, Offer, FirstSeen, AllSightings, Sightings,
      Hopeless;
    var versions := ServedVersions(crd);
    SameNames(serve, versions, ServedNames(crd.versions), limit);
    ghost var before, read: seq<Sighting> := evidence.offers, [];
    var t := Tally({}, 0, true);
    Start(evidence.codec.hash, crd, serve, versions, limit);
    assert before[|before|..] == [];
    for i := 0 to |versions|
      invariant evidence.Valid() && NoActions(before, evidence.offers)
      invariant Tallies(evidence.codec.hash, crd, t, read, evidence.offers[|before|..], limit)
      invariant Consumed(serve, versions[..i], t, read)
    {
      var t', stop, n := CountVersion(crd, versions[i], serve(versions[i]), limit, t, read, before, evidence);
      if stop {
        NotEnumerable(serve, versions, i, t, read, n, limit);
        return false;
      }
      ConsumedMore(serve, versions, i, t, read, t', n);
      t, read := t', read + Sightings(versions[i], serve(versions[i]).items[..n]);
    }
    assert versions[..|versions|] == versions;
    AllConsumed(evidence.codec.hash, crd, serve, versions, limit, t, read, evidence.offers[|before|..]);
    complete := t.complete;
    assert evidence.offers == before + evidence.offers[|before|..];
  }

  lemma Start(hash: string -> string, crd: CRD, serve: string -> Listing, versions: seq<string>, limit: int)
    ensures Tallies(hash, crd, Tally({}, 0, true), [], [], limit)
    ensures Consumed(serve, versions[..0], Tally({}, 0, true), [])
  {
  }

  lemma {:induction false} FirstSeenFindings(hash: string -> string, crd: CRD, s: seq<Sighting>)
    ensures forall x :: x in FirstSeen(hash, crd, s) ==> x.F?
  {
    if s != [] {
      FirstSeenFindings(hash, crd, s[..|s| - 1]);
      hide Identified, Instance, UidsOf;
    }
  }
}
