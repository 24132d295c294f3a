/** The bounded evidence collector of internal/diagnosis/engine.go: an online algorithm that decides
    item by item what fits into the persisted status. */
module Collector {
  import opened Types
  import opened Framing
  import Sorting

  const MAX_BYTES: nat := 384 * 1024
  const MAX_FINDINGS: nat := 512
  const MAX_ACTIONS: nat := 256
  const MAX_MESSAGE: nat := 1024

  /** An item offered to the collector, findings already truncated and identified. */
  datatype Item = F(finding: Finding) | A(action: Action)

  /** The encoded size of an item, `None` when it cannot be encoded, and the digest behind finding IDs. */
  datatype Codec = Codec(size: Item -> Option<nat>, hash: string -> string)

  function FindingId(hash: string -> string, f: Finding): string { "finding-" + hash(Join(FindingParts(f))) }

  /** What addFinding does to a finding before looking at it. */
  function Identified(hash: string -> string, f: Finding): Finding {
    var g := f.(message := if |f.message| <= MAX_MESSAGE then f.message else f.message[..MAX_MESSAGE]);
    g.(id := FindingId(hash, g))
  }

  /** A Go conversion to int32. */
  function Int32(n: int): int { (n + 0x8000_0000) % 0x1_0000_0000 - 0x8000_0000 }

  // ---- The collector as a value ----

  datatype Kept = Kept(findings: map<string, Finding>, actions: map<string, Action>, bytes: nat,
                       omittedFindings: nat, omittedActions: nat)

  const NOTHING := Kept(map[], map[], 0, 0, 0)

  predicate Known(k: Kept, i: Item) {
    match i
    case F(f) => f.id in k.findings
    case A(a) => a.id in k.actions
  }

  predicate Fits(c: Codec, k: Kept, i: Item) {
    && c.size(i).Some?
    && (if i.F? then |k.findings| < MAX_FINDINGS else |k.actions| < MAX_ACTIONS)
    && k.bytes + c.size(i).value <= MAX_BYTES
  }

  function Offer(c: Codec, k: Kept, i: Item): Kept {
    if Known(k, i) then k
    else if !Fits(c, k, i) then
      if i.F? then k.(omittedFindings := k.omittedFindings + 1) else k.(omittedActions := k.omittedActions + 1)
    else match i
      case F(f) => k.(bytes := k.bytes + c.size(i).value, findings := k.findings[f.id := f])
      case A(a) => k.(bytes := k.bytes + c.size(i).value, actions := k.actions[a.id := a])
  }

  function OfferAll(c: Codec, items: seq<Item>): Kept {
    if items == [] then NOTHING else Offer(c, OfferAll(c, items[..|items| - 1]), items[|items| - 1])
  }

  lemma OfferAllSnoc(c: Codec, items: seq<Item>, i: Item)
    ensures OfferAll(c, items + [i]) == Offer(c, OfferAll(c, items), i)
  {
    assert (items + [i])[..|items|] == items;
  }

  lemma {:induction false} KeptWereOffered(c: Codec, items: seq<Item>)
    ensures forall id :: id in OfferAll(c, items).findings ==> F(OfferAll(c, items).findings[id]) in items
    ensures forall id :: id in OfferAll(c, items).actions ==> A(OfferAll(c, items).actions[id]) in items
  {
    if items != [] {
      KeptWereOffered(c, items[..|items| - 1]);
      hide Known, Fits;
    }
  }

  /** Without overflow every offered action is there, under its ID. */
  lemma {:induction false} OfferedActionsKept(c: Codec, items: seq<Item>)
    requires !Overflow(OfferAll(c, items))
    ensures forall a :: A(a) in items ==> a.id in OfferAll(c, items).actions
  {
    if items != [] {
      OfferedActionsKept(c, items[..|items| - 1]);
      assert items == items[..|items| - 1] + [items[|items| - 1]];
      hide Fits;
    }
  }

  /** Likewise every offered finding. */
  lemma {:induction false} OfferedFindingsKept(c: Codec, items: seq<Item>)
    requires !Overflow(OfferAll(c, items))
    ensures forall f :: F(f) in items ==> f.id in OfferAll(c, items).findings
  {
    if items != [] {
      OfferedFindingsKept(c, items[..|items| - 1]);
      assert items == items[..|items| - 1] + [items[|items| - 1]];
      hide Fits;
    }
  }

  predicate Overflow(k: Kept) { k.omittedFindings > 0 || k.omittedActions > 0 }

  class Evidence {
    const codec: Codec
    var findings: map<string, Finding>
    var actions: map<string, Action>
    var persistedBytes: nat
    var omittedFindings: nat
    var omittedActions: nat
    /** Everything offered so far, in order. */
    ghost var offers: seq<Item>

    ghost predicate Valid()
      reads this
    {
      Contents() == OfferAll(codec, offers)
    }

    function Contents(): Kept
      reads this
    {
      Kept(findings, actions, persistedBytes, omittedFindings, omittedActions)
    }

    constructor (codec: Codec)
      ensures this.codec == codec && Valid() && offers == []
    {
      this.codec := codec;
      findings, actions, persistedBytes, omittedFindings, omittedActions := map[], map[], 0, 0, 0;
      offers := [];
    }

    method AddFinding(offered: Finding)
      requires Valid()
      modifies this
      ensures Valid() && offers == old(offers) + [F(Identified(codec.hash, offered))]
      ensures Contents() == Offer(codec, old(Contents()), F(Identified(codec.hash, offered)))
    {
      hide OfferAll, Identified;
      var finding := Identified(codec.hash, offered);
      OfferAllSnoc(codec, offers, F(finding));
      offers := offers + [F(finding)];
      if finding.id in findings { return; }
      var size := codec.size(F(finding));
      if size.None? || |findings| >= MAX_FINDINGS || persistedBytes + size.value > MAX_BYTES {
        omittedFindings := omittedFindings + 1;
        return;
      }
      persistedBytes := persistedBytes + size.value;
      findings := findings[finding.id := finding];
    }

    method AddAction(action: Action)
      requires Valid()
      modifies this
      ensures Valid() && offers == old(offers) + [A(action)]
      ensures Contents() == Offer(codec, old(Contents()), A(action))
    {
      hide OfferAll;
      OfferAllSnoc(codec, offers, A(action));
      offers := offers + [A(action)];
      if action.id in actions { return; }
      var size := codec.size(A(action));
      if size.None? || |actions| >= MAX_ACTIONS || persistedBytes + size.value > MAX_BYTES {
        omittedActions := omittedActions + 1;
        return;
      }
      persistedBytes := persistedBytes + size.value;
      actions := actions[action.id := action];
    }

    /** The result, findings and actions each in the order of their IDs; on overflow a summary finding
        with the number of omitted items is added. */
    method Result() returns (fs: seq<Finding>, acts: seq<Action>, overflow: bool)
      requires Valid()
      ensures overflow == Overflow(Contents())
      ensures Sorting.Sorted(FindingLess, fs) && Sorting.Sorted(ActionLess, acts)
      ensures multiset(fs) == FindingBag(Contents())
                              + if overflow then multiset{Summary(codec.hash, Contents())} else multiset{}
      ensures multiset(acts) == ActionBag(Contents())
      ensures |fs| <= MAX_FINDINGS + 1 && |acts| <= MAX_ACTIONS
      ensures forall i, j :: 0 <= i < j < |fs| ==> !Sorting.Less(fs[j].id, fs[i].id)
      ensures forall i, j :: 0 <= i < j < |acts| ==> !Sorting.Less(acts[j].id, acts[i].id)
      ensures overflow ==> exists s :: s in fs && Summarizes(s, omittedFindings + omittedActions)
      ensures forall a :: a in acts ==> A(a) in offers
      ensures !overflow ==> forall a :: A(a) in offers ==> exists b :: b in acts && A(b) in offers && b.id == a.id
    {
      hide FindingLess, ActionLess, Summary;
      overflow := omittedFindings > 0 || omittedActions > 0;
      fs := ValuesOf(findings);
      if overflow {
        fs := fs + [Summary(codec.hash, Contents())];
      }
      acts := ValuesOf(actions);
      OrdersAreStrictWeak();
      Sorting.SortSorts(FindingLess, fs);
      Sorting.SortSorts(ActionLess, acts);
      fs, acts := Sorting.Sort(FindingLess, fs), Sorting.Sort(ActionLess, acts);
      AlwaysWithinLimits(codec, offers);
      OnlyOfferedActions(codec, offers, acts);
      if !overflow { EveryOfferedAction(codec, offers, acts); }
      ById(fs, acts);
      if overflow {
        ghost var summary := Summary(codec.hash, Contents());
        SummaryCounts(codec.hash, Contents());
        assert summary in multiset(fs);
        assert summary in fs && Summarizes(summary, omittedFindings + omittedActions);
      }
    }
  }

  lemma ById(fs: seq<Finding>, acts: seq<Action>)
    requires Sorting.Sorted(FindingLess, fs) && Sorting.Sorted(ActionLess, acts)
    ensures forall i, j :: 0 <= i < j < |fs| ==> !Sorting.Less(fs[j].id, fs[i].id)
    ensures forall i, j :: 0 <= i < j < |acts| ==> !Sorting.Less(acts[j].id, acts[i].id)
  {
    assert forall i, j :: 0 <= i < j < |fs| ==> !FindingLess(fs[j], fs[i]);
    assert forall i, j :: 0 <= i < j < |acts| ==> !ActionLess(acts[j], acts[i]);
    hide Sorting.Less;
  }

  /** A truncated finding of unknown type that counts what was omitted, modulo 32 bits. */
  ghost predicate Summarizes(s: Finding, omitted: nat) {
    && s.typ.UnknownFinding? && s.truncated && s.resourceRef.None? && s.count.Some?
    && -0x8000_0000 <= s.count.value < 0x8000_0000 && (s.count.value - omitted) % 0x1_0000_0000 == 0
  }

  lemma SummaryCounts(hash: string -> string, k: Kept)
    ensures Summarizes(Summary(hash, k), k.omittedFindings + k.omittedActions)
  {
    hide FindingId;
  }

  lemma OnlyOfferedActions(c: Codec, items: seq<Item>, acts: seq<Action>)
    requires multiset(acts) == ActionBag(OfferAll(c, items))
    ensures forall a :: a in acts ==> A(a) in items
  {
    var kept := OfferAll(c, items).actions;
    KeptWereOffered(c, items);
    hide OfferAll;
    forall a | a in acts ensures A(a) in items {
      assert a in multiset(acts);
      BagMembers(kept, kept.Keys, a);
    }
  }

  lemma EveryOfferedAction(c: Codec, items: seq<Item>, acts: seq<Action>)
    requires multiset(acts) == ActionBag(OfferAll(c, items)) && !Overflow(OfferAll(c, items))
    ensures forall a :: A(a) in items ==> exists b :: b in acts && A(b) in items && b.id == a.id
  {
    var kept := OfferAll(c, items).actions;
    OfferedActionsKept(c, items);
    KeptWereOffered(c, items);
    KeptUnderTheirIds(c, items);
    hide OfferAll;
    forall a | A(a) in items ensures exists b :: b in acts && A(b) in items && b.id == a.id {
      var b := kept[a.id];
      BagHolds(kept, kept.Keys, a.id);
      assert b in multiset(acts);
      assert A(b) in items;
    }
  }

  lemma {:induction false} KeptUnderTheirIds(c: Codec, items: seq<Item>)
    ensures Filed(OfferAll(c, items))
  {
    if items != [] {
      KeptUnderTheirIds(c, items[..|items| - 1]);
      hide Fits, Known;
    }
  }

  lemma BagHolds<V>(m: map<string, V>, keys: set<string>, k: string)
    requires keys <= m.Keys && k in keys
    ensures m[k] in BagOf(m, keys)
  {
    assert keys - {k} + {k} == keys;
    BagGrows(m, keys - {k}, k);
    assert BagOf(m, keys)[m[k]] == BagOf(m, keys - {k})[m[k]] + 1;
  }

  /** Ranging over a Go map, in no particular order. */
  method ValuesOf<V>(m: map<string, V>) returns (values: seq<V>)
    ensures multiset(values) == BagOf(m, m.Keys) && |values| == |m|
  {
    values := [];
    var todo := m.Keys;
    while todo != {}
      invariant todo <= m.Keys && |values| + |todo| == |m|
      invariant multiset(values) == BagOf(m, m.Keys - todo)
    {
      var id :| id in todo;
      BagGrows(m, m.Keys - todo, id);
      assert m.Keys - todo + {id} == m.Keys - (todo - {id});
      values := values + [m[id]];
      todo := todo - {id};
    }
    assert m.Keys - {} == m.Keys;
  }

  predicate FindingLess(a: Finding, b: Finding) { Sorting.Less(a.id, b.id) }

  predicate ActionLess(a: Action, b: Action) { Sorting.Less(a.id, b.id) }

  lemma OrdersAreStrictWeak()
    ensures Sorting.StrictWeak(FindingLess) && Sorting.StrictWeak(ActionLess)
  {
    Sorting.LessIsStrictWeak();
    forall x: Finding, y: Finding, z: Finding | FindingLess(x, z) ensures FindingLess(x, y) || FindingLess(y, z) {
      assert Sorting.Less(x.id, y.id) || Sorting.Less(y.id, z.id);
    }
    forall x: Action, y: Action, z: Action | ActionLess(x, z) ensures ActionLess(x, y) || ActionLess(y, z) {
      assert Sorting.Less(x.id, y.id) || Sorting.Less(y.id, z.id);
    }
  }

  function Summary(hash: string -> string, k: Kept): Finding {
    var f := Finding("", UnknownFinding, "diagnostic evidence exceeded the persisted status budget",
                     None, "", "", "", None,
                     Some(Int32(k.omittedFindings + k.omittedActions)), true);
    f.(id := FindingId(hash, f))
  }

  /** The values stored under some of a map's keys, with multiplicity. */
  ghost function BagOf<V>(m: map<string, V>, keys: set<string>): multiset<V>
    requires keys <= m.Keys
  {
    if keys == {} then multiset{} else var k :| k in keys; BagOf(m, keys - {k}) + multiset{m[k]}
  }

  lemma {:induction false} BagGrows<V>(m: map<string, V>, keys: set<string>, k: string)
    requires keys <= m.Keys && k in m && k !in keys
    ensures BagOf(m, keys + {k}) == BagOf(m, keys) + multiset{m[k]}
    decreases keys
  {
    var all := keys + {k};
    var j :| j in all && BagOf(m, all) == BagOf(m, all - {j}) + multiset{m[j]};
    if j == k {
      assert all - {j} == keys;
    } else {
      assert all - {j} == (keys - {j}) + {k};
      BagGrows(m, keys - {j}, k);
      assert (keys - {j}) + {j} == keys;
      BagGrows(m, keys - {j}, j);
    }
  }

  ghost function FindingBag(k: Kept): multiset<Finding> { BagOf(k.findings, k.findings.Keys) }

  ghost function ActionBag(k: Kept): multiset<Action> { BagOf(k.actions, k.actions.Keys) }

  // ---- The offline specification ----

  predicate SameKey(i: Item, j: Item) {
    (i.F? && j.F? && i.finding.id == j.finding.id) || (i.A? && j.A? && i.action.id == j.action.id)
  }

  /** Everything encodes, and items with equal IDs are equal. */
  ghost predicate Coherent(c: Codec, items: seq<Item>) {
    && (forall i :: i in items ==> c.size(i).Some?)
    && (forall i, j :: i in items && j in items && SameKey(i, j) ==> i == j)
  }

  ghost function Distinct(items: seq<Item>): set<Item> { set i | i in items }

  ghost function FindingsIn(s: set<Item>): set<Item> { set i | i in s && i.F? }

  ghost function ActionsIn(s: set<Item>): set<Item> { set i | i in s && i.A? }

  function SizeOf(c: Codec, i: Item): nat { if c.size(i).Some? then c.size(i).value else 0 }

  ghost function Total(c: Codec, s: set<Item>): nat {
    if s == {} then 0 else var i :| i in s; SizeOf(c, i) + Total(c, s - {i})
  }

  /** The distinct items do not fit: too many findings, too many actions or too many bytes. */
  ghost predicate Exceeds(c: Codec, s: set<Item>) {
    |FindingsIn(s)| > 512 || |ActionsIn(s)| > 256 || Total(c, s) > 384 * 1024
  }

  lemma {:induction false} TotalAdds(c: Codec, s: set<Item>, i: Item)
    requires i !in s
    ensures Total(c, s + {i}) == Total(c, s) + SizeOf(c, i)
    decreases s
  {
    var all := s + {i};
    var j :| j in all && Total(c, all) == SizeOf(c, j) + Total(c, all - {j});
    if j == i {
      assert all - {j} == s;
    } else {
      assert all - {j} == (s - {j}) + {i};
      TotalAdds(c, s - {j}, i);
      assert (s - {j}) + {j} == s;
      TotalAdds(c, s - {j}, j);
    }
  }

  lemma {:induction false} TotalMonotone(c: Codec, s: set<Item>, t: set<Item>)
    requires s <= t
    ensures Total(c, s) <= Total(c, t)
    decreases t - s
  {
    if exists i :: i in t && i !in s {
      var i :| i in t && i !in s;
      TotalAdds(c, s, i);
      TotalMonotone(c, s + {i}, t);
    } else {
      assert s == t;
    }
  }

  lemma SubsetSmaller(s: set<Item>, t: set<Item>)
    requires s <= t
    ensures |s| <= |t|
  {
    assert t == s + (t - s);
  }

  lemma ExceedsMonotone(c: Codec, s: set<Item>, t: set<Item>)
    requires s <= t && Exceeds(c, s)
    ensures Exceeds(c, t)
  {
    TotalMonotone(c, s, t);
    assert FindingsIn(s) <= FindingsIn(t) && ActionsIn(s) <= ActionsIn(t);
    SubsetSmaller(FindingsIn(s), FindingsIn(t));
    SubsetSmaller(ActionsIn(s), ActionsIn(t));
  }

  // ---- Online equals offline ----

  ghost function KeptFindings(k: Kept): set<Item> { set id | id in k.findings :: F(k.findings[id]) }

  ghost function KeptActions(k: Kept): set<Item> { set id | id in k.actions :: A(k.actions[id]) }

  ghost function Retained(k: Kept): set<Item> { KeptFindings(k) + KeptActions(k) }

  ghost predicate Filed(k: Kept) {
    (forall id :: id in k.findings ==> k.findings[id].id == id)
      && (forall id :: id in k.actions ==> k.actions[id].id == id)
  }

  /** The tracked state: what is kept, its exact size, the limits, and what an omission means. */
  ghost predicate Tracks(c: Codec, items: seq<Item>, k: Kept) {
    && Measured(c, k) && Retained(k) <= Distinct(items)
    && |k.findings| <= MAX_FINDINGS && |k.actions| <= MAX_ACTIONS && k.bytes <= MAX_BYTES
    && (if Overflow(k) then Exceeds(c, Distinct(items)) else Retained(k) == Distinct(items))
  }

  lemma KnownMeansRetained(c: Codec, items: seq<Item>, k: Kept, i: Item)
    requires Filed(k) && Retained(k) <= Distinct(items) && Coherent(c, items) && i in items && Known(k, i)
    ensures i in Retained(k)
  {
    var j := if i.F? then F(k.findings[i.finding.id]) else A(k.actions[i.action.id]);
    assert j in Retained(k);
    assert j in items && SameKey(i, j);
  }

  /** The sets behind the limits: sizes of what is kept, and their byte total. */
  ghost predicate Measured(c: Codec, k: Kept) {
    && Filed(k)
    && |KeptFindings(k)| == |k.findings| && |KeptActions(k)| == |k.actions| && k.bytes == Total(c, Retained(k))
  }

  lemma NewFinding(k: Kept, f: Finding)
    requires Filed(k) && f.id !in k.findings
    ensures F(f) !in Retained(k)
    ensures FindingsIn(Retained(k) + {F(f)}) == KeptFindings(k) + {F(f)}
    ensures ActionsIn(Retained(k) + {F(f)}) == KeptActions(k)
  {
    assert F(f) !in KeptFindings(k);
    KindsApart(k);
    hide KeptFindings, KeptActions, Filed;
  }

  lemma NewAction(k: Kept, a: Action)
    requires Filed(k) && a.id !in k.actions
    ensures A(a) !in Retained(k)
    ensures FindingsIn(Retained(k) + {A(a)}) == KeptFindings(k)
    ensures ActionsIn(Retained(k) + {A(a)}) == KeptActions(k) + {A(a)}
  {
    assert A(a) !in KeptActions(k);
    KindsApart(k);
    hide KeptFindings, KeptActions, Filed;
  }

  lemma KindsApart(k: Kept)
    ensures forall i :: i in KeptFindings(k) ==> i.F?
    ensures forall i :: i in KeptActions(k) ==> i.A?
  {
  }

  lemma UnknownIsNew(k: Kept, i: Item)
    requires Filed(k) && !Known(k, i)
    ensures i !in Retained(k)
    ensures |FindingsIn(Retained(k) + {i})| == |KeptFindings(k)| + if i.F? then 1 else 0
    ensures |ActionsIn(Retained(k) + {i})| == |KeptActions(k)| + if i.A? then 1 else 0
  {
    if i.F? {
      NewFinding(k, i.finding);
    } else {
      NewAction(k, i.action);
    }
    hide KeptFindings, KeptActions, FindingsIn, ActionsIn, Filed, Known;
  }

  lemma OmissionExceeds(c: Codec, k: Kept, i: Item, s: set<Item>)
    requires Measured(c, k) && !Known(k, i) && !Fits(c, k, i) && c.size(i).Some?
    requires Retained(k) <= s && i in s
    ensures Exceeds(c, s)
  {
    var r := Retained(k) + {i};
    UnknownIsNew(k, i);
    TotalAdds(c, Retained(k), i);
    assert Exceeds(c, r) by {
      hide Total, FindingsIn, ActionsIn, KeptFindings, KeptActions, Filed;
    }
    assert r <= s;
    hide Exceeds, Total, Measured, Fits, Known;
    ExceedsMonotone(c, r, s);
  }

  lemma KeepFinding(c: Codec, k: Kept, f: Finding)
    requires Filed(k) && !Known(k, F(f)) && Fits(c, k, F(f))
    ensures var k' := Offer(c, k, F(f));
            && KeptFindings(k') == KeptFindings(k) + {F(f)} && k'.actions == k.actions
            && Filed(k')
  {
    var k' := Offer(c, k, F(f));
    assert k'.findings == k.findings[f.id := f];
    hide Offer, Fits;
    forall i ensures i in KeptFindings(k') <==> i in KeptFindings(k) + {F(f)} {
      if i in KeptFindings(k) {
        var id :| id in k.findings && i == F(k.findings[id]);
        assert k'.findings[id] == k.findings[id];
      }
      if i == F(f) { assert k'.findings[f.id] == f; }
    }
  }

  lemma KeepAction(c: Codec, k: Kept, a: Action)
    requires Filed(k) && !Known(k, A(a)) && Fits(c, k, A(a))
    ensures var k' := Offer(c, k, A(a));
            && KeptActions(k') == KeptActions(k) + {A(a)} && k'.findings == k.findings
            && Filed(k')
  {
    var k' := Offer(c, k, A(a));
    assert k'.actions == k.actions[a.id := a];
    hide Offer, Fits;
    forall i ensures i in KeptActions(k') <==> i in KeptActions(k) + {A(a)} {
      if i in KeptActions(k) {
        var id :| id in k.actions && i == A(k.actions[id]);
        assert k'.actions[id] == k.actions[id];
      }
      if i == A(a) { assert k'.actions[a.id] == a; }
    }
  }

  lemma KeepsSets(c: Codec, k: Kept, i: Item)
    requires Filed(k) && !Known(k, i) && Fits(c, k, i)
    ensures var k' := Offer(c, k, i); Retained(k') == Retained(k) + {i} && Filed(k')
    ensures KeptFindings(Offer(c, k, i)) == KeptFindings(k) + if i.F? then {i} else {}
    ensures KeptActions(Offer(c, k, i)) == KeptActions(k) + if i.A? then {i} else {}
  {
    hide Offer, Fits, Filed;
    if i.F? {
      KeepFinding(c, k, i.finding);
    } else {
      KeepAction(c, k, i.action);
    }
    hide Known, KeptFindings, KeptActions;
  }

  lemma KeepsSizes(c: Codec, k: Kept, i: Item)
    requires !Known(k, i) && Fits(c, k, i)
    ensures var k' := Offer(c, k, i);
            && |k'.findings| == |k.findings| + (if i.F? then 1 else 0)
            && |k'.actions| == |k.actions| + (if i.A? then 1 else 0)
            && k'.bytes == k.bytes + SizeOf(c, i)
  {
  }

  lemma KeptCounts(c: Codec, k: Kept, i: Item)
    requires Filed(k) && !Known(k, i) && Fits(c, k, i)
    ensures |KeptFindings(Offer(c, k, i))| == |KeptFindings(k)| + (if i.F? then 1 else 0)
    ensures |KeptActions(Offer(c, k, i))| == |KeptActions(k)| + (if i.A? then 1 else 0)
  {
    UnknownIsNew(k, i);
    KeepsSets(c, k, i);
    hide KeptFindings, KeptActions, Filed, FindingsIn, ActionsIn, Known, Fits, Offer;
  }

  lemma KeepOne(c: Codec, k: Kept, i: Item)
    requires Measured(c, k) && !Known(k, i) && Fits(c, k, i)
    ensures Measured(c, Offer(c, k, i)) && Retained(Offer(c, k, i)) == Retained(k) + {i}
  {
    hide Total, KeptFindings, KeptActions, Filed, FindingsIn, ActionsIn, Known, Fits, Offer, SizeOf, Retained;
    UnknownIsNew(k, i);
    TotalAdds(c, Retained(k), i);
    KeepsSets(c, k, i);
    KeepsSizes(c, k, i);
    KeptCounts(c, k, i);
  }

  lemma TracksKept(c: Codec, items: seq<Item>, k: Kept, i: Item)
    requires Tracks(c, items, k) && !Known(k, i) && Fits(c, k, i)
    ensures Tracks(c, items + [i], Offer(c, k, i))
  {
    hide Exceeds, Total, Retained, Measured, Filed, Distinct, Fits, Known, Offer, Overflow;
    DistinctGrows(c, items, i);
    KeepOne(c, k, i);
    KeptLimits(c, k, i);
  }

  lemma OmittingChangesNothing(c: Codec, k: Kept, i: Item)
    requires !Known(k, i) && !Fits(c, k, i)
    ensures var k' := Offer(c, k, i);
            && k'.findings == k.findings && k'.actions == k.actions && k'.bytes == k.bytes
            && Overflow(k')
  {
    hide Known, Fits;
  }

  lemma SameMapsSameSets(c: Codec, k: Kept, l: Kept)
    requires k.findings == l.findings && k.actions == l.actions && k.bytes == l.bytes && Measured(c, k)
    ensures Retained(k) == Retained(l) && Measured(c, l)
  {
    hide Total;
  }

  lemma TracksOmitted(c: Codec, items: seq<Item>, k: Kept, i: Item)
    requires Tracks(c, items, k) && !Known(k, i) && !Fits(c, k, i) && c.size(i).Some?
    ensures Tracks(c, items + [i], Offer(c, k, i))
  {
    hide Exceeds, Measured, Distinct, Fits, Known, Retained, Offer, Overflow;
    DistinctGrows(c, items, i);
    OmittingChangesNothing(c, k, i);
    SameMapsSameSets(c, k, Offer(c, k, i));
    OmissionExceeds(c, k, i, Distinct(items + [i]));
  }

  lemma TracksKnown(c: Codec, items: seq<Item>, k: Kept, i: Item)
    requires Tracks(c, items, k) && Known(k, i) && Coherent(c, items + [i])
    ensures Tracks(c, items + [i], Offer(c, k, i))
  {
    hide Exceeds, Total, Retained, Filed, Distinct, Fits, Known, Overflow, Coherent;
    DistinctGrows(c, items, i);
    KnownMeansRetained(c, items + [i], k, i);
    assert Offer(c, k, i) == k;
    if !Overflow(k) { assert Retained(k) == Distinct(items + [i]); }
  }

  lemma DistinctGrows(c: Codec, items: seq<Item>, i: Item)
    ensures Distinct(items + [i]) == Distinct(items) + {i} && i in items + [i]
    ensures Exceeds(c, Distinct(items)) ==> Exceeds(c, Distinct(items + [i]))
  {
    hide Exceeds;
    if Exceeds(c, Distinct(items)) { ExceedsMonotone(c, Distinct(items), Distinct(items + [i])); }
  }

  lemma StepTracks(c: Codec, items: seq<Item>, k: Kept, i: Item)
    requires Tracks(c, items, k) && Coherent(c, items + [i])
    ensures Tracks(c, items + [i], Offer(c, k, i))
  {
    hide Tracks, Offer, Known, Fits;
    assert i in items + [i];
    if Known(k, i) {
      TracksKnown(c, items, k, i);
    } else if Fits(c, k, i) {
      TracksKept(c, items, k, i);
    } else {
      TracksOmitted(c, items, k, i);
    }
  }

  lemma KeptLimits(c: Codec, k: Kept, i: Item)
    requires !Known(k, i) && Fits(c, k, i) && |k.findings| <= MAX_FINDINGS && |k.actions| <= MAX_ACTIONS
    ensures var k' := Offer(c, k, i);
            |k'.findings| <= MAX_FINDINGS && |k'.actions| <= MAX_ACTIONS && k'.bytes <= MAX_BYTES
            && Overflow(k') == Overflow(k)
  {
  }

  /** Within the limits, and the tracked byte count is the exact size of what is kept. */
  ghost predicate Bounded(c: Codec, k: Kept) {
    Measured(c, k) && |k.findings| <= MAX_FINDINGS && |k.actions| <= MAX_ACTIONS && k.bytes <= MAX_BYTES
  }

  lemma StepBounded(c: Codec, k: Kept, i: Item)
    requires Bounded(c, k)
    ensures Bounded(c, Offer(c, k, i))
  {
    hide Measured, Fits, Known, Offer, Overflow;
    if Known(k, i) {
      assert Offer(c, k, i) == k by { KnownIsKept(c, k, i); }
    } else if Fits(c, k, i) {
      KeepOne(c, k, i);
      KeptLimits(c, k, i);
    } else {
      OmittingChangesNothing(c, k, i);
      SameMapsSameSets(c, k, Offer(c, k, i));
    }
  }

  lemma KnownIsKept(c: Codec, k: Kept, i: Item)
    requires Known(k, i)
    ensures Offer(c, k, i) == k
  {
  }

  /** Whatever is offered, coherent or not: the tracked bytes are the exact size of what is kept, and
      what is kept stays within every limit. */
  lemma {:induction false} AlwaysWithinLimits(c: Codec, items: seq<Item>)
    ensures OfferAll(c, items).bytes == Total(c, Retained(OfferAll(c, items))) <= MAX_BYTES
    ensures |OfferAll(c, items).findings| <= MAX_FINDINGS && |OfferAll(c, items).actions| <= MAX_ACTIONS
    ensures Bounded(c, OfferAll(c, items))
  {
    if items != [] {
      AlwaysWithinLimits(c, items[..|items| - 1]);
      hide Bounded, Offer;
      StepBounded(c, OfferAll(c, items[..|items| - 1]), items[|items| - 1]);
    }
    MeasuredMeans(c, OfferAll(c, items));
  }

  lemma MeasuredMeans(c: Codec, k: Kept)
    requires Bounded(c, k)
    ensures k.bytes == Total(c, Retained(k)) <= MAX_BYTES && |k.findings| <= MAX_FINDINGS && |k.actions| <= MAX_ACTIONS
  {
    hide Total, Filed, KeptFindings, KeptActions;
  }

  lemma {:induction false} AllTracks(c: Codec, items: seq<Item>)
    requires Coherent(c, items)
    ensures Tracks(c, items, OfferAll(c, items))
  {
    if items != [] {
      var init, last := items[..|items| - 1], items[|items| - 1];
      assert items == init + [last];
      AllTracks(c, init);
      StepTracks(c, init, OfferAll(c, init), last);
    }
  }

  /** The online collector agrees with the offline specification, whatever the order of the offers: it
      reports overflow exactly when the distinct items exceed a limit; otherwise it keeps exactly the
      distinct items. */
  lemma OnlineIsOffline(c: Codec, items: seq<Item>)
    requires Coherent(c, items)
    ensures Overflow(OfferAll(c, items)) <==> Exceeds(c, Distinct(items))
    ensures !Overflow(OfferAll(c, items)) ==> Retained(OfferAll(c, items)) == Distinct(items)
  {
    AllTracks(c, items);
    var k := OfferAll(c, items);
    if !Overflow(k) {
      assert FindingsIn(Distinct(items)) == KeptFindings(k);
      assert ActionsIn(Distinct(items)) == KeptActions(k);
    }
  }

  /** Without overflow the offers' order leaves no trace: two sequences with the same items end in the
      same contents, and so does every sorted result built from them. */
  lemma OrderLeavesNoTrace(c: Codec, items: seq<Item>, other: seq<Item>)
    requires Coherent(c, items) && Coherent(c, other) && Distinct(items) == Distinct(other)
    ensures Overflow(OfferAll(c, items)) == Overflow(OfferAll(c, other))
    ensures !Overflow(OfferAll(c, items)) ==> OfferAll(c, items) == OfferAll(c, other)
  {
    OnlineIsOffline(c, items);
    OnlineIsOffline(c, other);
    AllTracks(c, items);
    AllTracks(c, other);
    var k, l := OfferAll(c, items), OfferAll(c, other);
    if !Overflow(k) {
      SameContents(k, l);
    }
  }

  lemma SameContents(k: Kept, l: Kept)
    requires Filed(k) && Filed(l) && Retained(k) == Retained(l)
    ensures k.findings == l.findings && k.actions == l.actions
  {
    SameMaps(k, l);
    SameMaps(l, k);
  }

  lemma SameMaps(k: Kept, l: Kept)
    requires Filed(k) && Filed(l) && Retained(k) == Retained(l)
    ensures forall id :: id in k.findings ==> id in l.findings && l.findings[id] == k.findings[id]
    ensures forall id :: id in k.actions ==> id in l.actions && l.actions[id] == k.actions[id]
  {
    forall id | id in k.findings ensures id in l.findings && l.findings[id] == k.findings[id] {
      assert F(k.findings[id]) in Retained(l);
    }
    forall id | id in k.actions ensures id in l.actions && l.actions[id] == k.actions[id] {
      assert A(k.actions[id]) in Retained(l);
    }
  }

  /** Results with the same contents are the same sequences, in spite of Go's random map order. */
  lemma ResultDetermined(k: Kept, fs: seq<Finding>, gs: seq<Finding>, acts: seq<Action>, bcts: seq<Action>)
    requires Filed(k) && multiset(fs) == FindingBag(k) == multiset(gs)
    requires multiset(acts) == ActionBag(k) == multiset(bcts)
    requires Sorting.Sorted(FindingLess, fs) && Sorting.Sorted(FindingLess, gs)
    requires Sorting.Sorted(ActionLess, acts) && Sorting.Sorted(ActionLess, bcts)
    ensures fs == gs && acts == bcts
  {
    FindingsDetermined(k, fs, gs);
    ActionsDetermined(k, acts, bcts);
  }

  lemma FindingsDetermined(k: Kept, fs: seq<Finding>, gs: seq<Finding>)
    requires Filed(k) && multiset(fs) == FindingBag(k) && multiset(gs) == FindingBag(k)
    requires Sorting.Sorted(FindingLess, fs) && Sorting.Sorted(FindingLess, gs)
    ensures fs == gs
  {
    OrdersAreStrictWeak();
    forall x, y | x in fs && y in fs && x != y ensures FindingLess(x, y) || FindingLess(y, x) {
      assert x in multiset(fs) && y in multiset(fs);
      BagMembers(k.findings, k.findings.Keys, x);
      BagMembers(k.findings, k.findings.Keys, y);
      Sorting.LessTrichotomy(x.id, y.id);
    }
    Sorting.SortedUnique(FindingLess, fs, gs);
  }

  lemma ActionsDetermined(k: Kept, acts: seq<Action>, bcts: seq<Action>)
    requires Filed(k) && multiset(acts) == ActionBag(k) && multiset(bcts) == ActionBag(k)
    requires Sorting.Sorted(ActionLess, acts) && Sorting.Sorted(ActionLess, bcts)
    ensures acts == bcts
  {
    OrdersAreStrictWeak();
    forall x, y | x in acts && y in acts && x != y ensures ActionLess(x, y) || ActionLess(y, x) {
      assert x in multiset(acts) && y in multiset(acts);
      BagMembers(k.actions, k.actions.Keys, x);
      BagMembers(k.actions, k.actions.Keys, y);
      Sorting.LessTrichotomy(x.id, y.id);
    }
    Sorting.SortedUnique(ActionLess, acts, bcts);
  }

  lemma {:induction false} BagMembers<V>(m: map<string, V>, keys: set<string>, v: V)
    requires keys <= m.Keys && v in BagOf(m, keys)
    ensures exists k :: k in keys && m[k] == v
    decreases keys
  {
    var k :| k in keys && BagOf(m, keys) == BagOf(m, keys - {k}) + multiset{m[k]};
    if m[k] != v {
      BagMembers(m, keys - {k}, v);
    }
  }
}
