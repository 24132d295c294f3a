/** internal/policy/engine.go: compiling a TerminationPolicy against a catalog, matching targets,
    choosing the winning policy and classifying actions. */
module Policy {
  import opened Types
  import opened Discovery
  import Sorting

  // ---- Label selectors ----

  type Labels = map<string, string>

  /** `BadOperator` stands for every operator string the selector parser rejects. */
  datatype Operator = In | NotIn | Exists | DoesNotExist | BadOperator

  datatype Requirement = Requirement(key: string, op: Operator, values: set<string>)

  datatype LabelSelector = LabelSelector(matchLabels: map<string, string>, exprs: seq<Requirement>)

  predicate ValidRequirement(r: Requirement) {
    match r.op
    case In => r.values != {}
    case NotIn => r.values != {}
    case Exists => r.values == {}
    case DoesNotExist => r.values == {}
    case BadOperator => false
  }

  predicate ValidSelector(s: LabelSelector) {
    forall i :: 0 <= i < |s.exprs| ==> ValidRequirement(s.exprs[i])
  }

  predicate Satisfies(r: Requirement, labels: Labels) {
    match r.op
    case In => r.key in labels && labels[r.key] in r.values
    case NotIn => r.key !in labels || labels[r.key] !in r.values
    case Exists => r.key in labels
    case DoesNotExist => r.key !in labels
    case BadOperator => false
  }

  /** `None` is labels.Everything(). */
  predicate Selects(s: Option<LabelSelector>, labels: Labels) {
    s.Some? ==>
      && (forall k :: k in s.value.matchLabels ==> k in labels && labels[k] == s.value.matchLabels[k])
      && (forall i :: 0 <= i < |s.value.exprs| ==> Satisfies(s.value.exprs[i], labels))
  }

  /** What the operators mean to each other and to the labels: In asks for one of the values, NotIn is its
      complement and so holds without the key, DoesNotExist is the complement of Exists, and a selector asks for
      all its labels and all its requirements. */
  lemma SelectorLaws(key: string, values: set<string>, s: LabelSelector, labels: Labels)
    ensures Satisfies(Requirement(key, In, values), labels) <==> exists v :: v in values && (key, v) in labels.Items
    ensures Satisfies(Requirement(key, NotIn, values), labels) <==> !Satisfies(Requirement(key, In, values), labels)
    ensures Satisfies(Requirement(key, Exists, {}), labels) <==> key in labels.Keys
    ensures Satisfies(Requirement(key, DoesNotExist, {}), labels) <==>
            !Satisfies(Requirement(key, Exists, {}), labels)
    ensures Selects(None, labels)
    ensures Selects(Some(s), labels) <==>
            s.matchLabels.Items <= labels.Items && forall r :: r in s.exprs ==> Satisfies(r, labels)
  {
    assert Satisfies(Requirement(key, In, values), labels) ==> (key, labels[key]) in labels.Items;
    if s.matchLabels.Items <= labels.Items {
      forall k | k in s.matchLabels ensures k in labels && labels[k] == s.matchLabels[k] {
        assert (k, s.matchLabels[k]) in s.matchLabels.Items;
      }
    }
    assert forall i :: 0 <= i < |s.exprs| ==> s.exprs[i] in s.exprs;
    hide Satisfies;
  }

  // ---- Sources and compiled policies ----

  datatype TargetRule = TargetRule(
    apiGroups: seq<string>, resources: seq<string>,
    nsSelector: Option<LabelSelector>, objSelector: Option<LabelSelector>, excluded: seq<string>)

  datatype Owner = Owner(finalizer: string, ref: ControllerRef)

  datatype Spec = Spec(
    priority: int, rules: seq<TargetRule>, terminationAge: int,
    maxNamespaceObjects: int, maxCRDInstances: int, owners: seq<Owner>,
    maxRisk: Risk, allowedFinalizers: seq<string>, allowNamespaceForce: bool,
    approvalTTL: int, resolvedTTL: int)

  datatype Source = Source(name: string, uid: string, generation: nat, spec: Spec)

  datatype Settings = Settings(
    terminationAge: int, maxNamespaceObjects: int, maxCRDInstances: int,
    approvalTTL: int, resolvedTTL: int, maxRisk: Risk, allowNamespaceForce: bool)

  datatype CompiledRule = CompiledRule(
    resources: map<GroupResource, Resource>,
    nsSelector: Option<LabelSelector>, objSelector: Option<LabelSelector>, excluded: set<string>)

  datatype CompiledPolicy = CompiledPolicy(
    name: string, uid: string, generation: nat, priority: int, ready: bool,
    rules: seq<CompiledRule>, owners: map<string, ControllerRef>, allowed: set<string>, settings: Settings)

  /** A validation message, without its wording. */
  datatype Problem =
    | BadNamespaceSelector(rule: nat)
    | BadObjectSelector(rule: nat)
    | Unresolved(rule: nat, group: string, resource: string)
    | BadConfiguration(field: string)

  datatype Condition = Condition(ok: bool, problems: seq<Problem>, generation: nat, transition: int)

  datatype Status = Status(
    observedGeneration: nat, ready: Condition, discovery: Condition, selectors: Condition,
    validated: int, resolvedCount: nat)

  datatype Target = Target(
    gr: GroupResource, namespaced: bool, ns: string, labels: Labels, nsLabels: Labels)

  const ANY := "*"

  predicate MatchesToken(tokens: seq<string>, value: string) { ANY in tokens || value in tokens }

  // ---- Resolving one rule ----

  /** A rule that mentions the resource wildcard skips high-churn resources, even named ones. */
  predicate RuleResolves(rule: TargetRule, r: Resource) {
    && MatchesToken(rule.apiGroups, r.gr.group)
    && MatchesToken(rule.resources, r.gr.resource)
    && (ANY in rule.resources ==> r.EligibleForWildcard())
  }

  function Resolved(rule: TargetRule, rs: seq<Resource>): seq<Resource> {
    if rs == [] then []
    else Resolved(rule, rs[..|rs| - 1]) + (if RuleResolves(rule, rs[|rs| - 1]) then [rs[|rs| - 1]] else [])
  }

  lemma {:induction false} ResolvedMembers(rule: TargetRule, rs: seq<Resource>)
    ensures forall r :: r in Resolved(rule, rs) <==> r in rs && RuleResolves(rule, r)
  {
    if rs != [] {
      ResolvedMembers(rule, rs[..|rs| - 1]);
      assert rs == rs[..|rs| - 1] + [rs[|rs| - 1]];
    }
  }

  method ResolveRule(rule: TargetRule, rs: seq<Resource>) returns (resolved: seq<Resource>)
    ensures resolved == Resolved(rule, rs)
  {
    resolved := [];
    var wildcard := ANY in rule.resources;
    for i := 0 to |rs|
      invariant resolved == Resolved(rule, rs[..i])
    {
      assert rs[..i + 1][..i] == rs[..i];
      if !MatchesToken(rule.apiGroups, rs[i].gr.group) || !MatchesToken(rule.resources, rs[i].gr.resource) {
        continue;
      }
      if wildcard && !rs[i].EligibleForWildcard() {
        continue;
      }
      resolved := resolved + [rs[i]];
    }
    assert rs[..|rs|] == rs;
  }

  function WithoutWildcard(tokens: seq<string>): (r: seq<string>)
    ensures forall t :: t in r <==> t in tokens && t != ANY
  {
    if tokens == [] then []
    else
      assert tokens == tokens[..|tokens| - 1] + [tokens[|tokens| - 1]];
      WithoutWildcard(tokens[..|tokens| - 1]) +
      (if tokens[|tokens| - 1] != ANY then [tokens[|tokens| - 1]] else [])
  }

  predicate Offers(rs: seq<Resource>, p: Resource -> bool) { exists i :: 0 <= i < |rs| && p(rs[i]) }

  /** What the rule asks for explicitly and the catalog does not have. */
  predicate Misses(rule: TargetRule, catalog: Snapshot, group: string, resource: string) {
    var groups, resources := WithoutWildcard(rule.apiGroups), WithoutWildcard(rule.resources);
    if group != ANY && resource != ANY then
      group in groups && resource in resources && catalog.Resolve(GroupResource(group, resource)).None?
    else if resource != ANY then
      ANY in rule.apiGroups && resource in resources
      && !Offers(catalog.ordered, (c: Resource) => c.gr.resource == resource)
    else if group != ANY then
      ANY in rule.resources && group in groups
      && !Offers(catalog.ordered, (c: Resource) => c.gr.group == group && c.EligibleForWildcard())
    else
      ANY in rule.resources && ANY in rule.apiGroups
      && !Offers(catalog.ordered, (c: Resource) => c.EligibleForWildcard())
  }

  ghost predicate ReportsMisses(index: nat, rule: TargetRule, catalog: Snapshot, problems: seq<Problem>) {
    && (forall p :: p in problems ==>
          p.Unresolved? && p.rule == index && Misses(rule, catalog, p.group, p.resource))
    && (forall g, r :: Misses(rule, catalog, g, r) ==> Unresolved(index, g, r) in problems)
  }

  function ExactMisses(index: nat, groups: seq<string>, resources: seq<string>, catalog: Snapshot): seq<Problem>
    decreases |groups|, |resources|
  {
    if groups == [] || resources == [] then []
    else if |groups| == 1 then
      var g, r := groups[0], resources[|resources| - 1];
      ExactMisses(index, groups, resources[..|resources| - 1], catalog) +
      (if catalog.Resolve(GroupResource(g, r)).None? then [Unresolved(index, g, r)] else [])
    else
      ExactMisses(index, groups[..|groups| - 1], resources, catalog) +
      ExactMisses(index, [groups[|groups| - 1]], resources, catalog)
  }

  function AnyGroupMisses(index: nat, resources: seq<string>, rs: seq<Resource>): seq<Problem> {
    if resources == [] then []
    else
      var r := resources[|resources| - 1];
      AnyGroupMisses(index, resources[..|resources| - 1], rs) +
      (if Offers(rs, (c: Resource) => c.gr.resource == r) then [] else [Unresolved(index, ANY, r)])
  }

  function AnyResourceMisses(index: nat, groups: seq<string>, rs: seq<Resource>): seq<Problem> {
    if groups == [] then []
    else
      var g := groups[|groups| - 1];
      AnyResourceMisses(index, groups[..|groups| - 1], rs) +
      (if Offers(rs, (c: Resource) => c.gr.group == g && c.EligibleForWildcard()) then []
       else [Unresolved(index, g, ANY)])
  }

  /** unresolvedSelections. */
  function UnresolvedSelections(index: nat, rule: TargetRule, catalog: Snapshot): seq<Problem> {
    var groups, resources := WithoutWildcard(rule.apiGroups), WithoutWildcard(rule.resources);
    ExactMisses(index, groups, resources, catalog)
      + (if ANY in rule.apiGroups then AnyGroupMisses(index, resources, catalog.ordered) else [])
      + (if ANY in rule.resources then AnyResourceMisses(index, groups, catalog.ordered) else [])
      + (if ANY in rule.resources && ANY in rule.apiGroups
            && !Offers(catalog.ordered, (c: Resource) => c.EligibleForWildcard())
         then [Unresolved(index, ANY, ANY)] else [])
  }

  lemma {:induction false} ExactMissesMembers(index: nat, groups: seq<string>, resources: seq<string>,
                                              catalog: Snapshot)
    ensures forall p :: p in ExactMisses(index, groups, resources, catalog) <==>
              p.Unresolved? && p.rule == index && p.group in groups && p.resource in resources
              && catalog.Resolve(GroupResource(p.group, p.resource)).None?
    decreases |groups|, |resources|
  {
    if groups == [] || resources == [] {
    } else if |groups| == 1 {
      ExactMissesMembers(index, groups, resources[..|resources| - 1], catalog);
      assert resources == resources[..|resources| - 1] + [resources[|resources| - 1]];
    } else {
      ExactMissesMembers(index, groups[..|groups| - 1], resources, catalog);
      ExactMissesMembers(index, [groups[|groups| - 1]], resources, catalog);
      assert groups == groups[..|groups| - 1] + [groups[|groups| - 1]];
    }
  }

  lemma {:induction false} AnyGroupMissesMembers(index: nat, resources: seq<string>, rs: seq<Resource>)
    ensures forall p :: p in AnyGroupMisses(index, resources, rs) <==>
              p.Unresolved? && p.rule == index && p.group == ANY && p.resource in resources
              && !Offers(rs, (c: Resource) => c.gr.resource == p.resource)
  {
    if resources != [] {
      AnyGroupMissesMembers(index, resources[..|resources| - 1], rs);
      assert resources == resources[..|resources| - 1] + [resources[|resources| - 1]];
    }
  }

  lemma {:induction false} AnyResourceMissesMembers(index: nat, groups: seq<string>, rs: seq<Resource>)
    ensures forall p :: p in AnyResourceMisses(index, groups, rs) <==>
              p.Unresolved? && p.rule == index && p.resource == ANY && p.group in groups
              && !Offers(rs, (c: Resource) => c.gr.group == p.group && c.EligibleForWildcard())
  {
    if groups != [] {
      AnyResourceMissesMembers(index, groups[..|groups| - 1], rs);
      assert groups == groups[..|groups| - 1] + [groups[|groups| - 1]];
    }
  }

  lemma ReportedExactly(index: nat, rule: TargetRule, catalog: Snapshot, p: Problem)
    ensures p in UnresolvedSelections(index, rule, catalog) <==>
            p.Unresolved? && p.rule == index && Misses(rule, catalog, p.group, p.resource)
  {
    var groups, resources := WithoutWildcard(rule.apiGroups), WithoutWildcard(rule.resources);
    ExactMissesMembers(index, groups, resources, catalog);
    AnyGroupMissesMembers(index, resources, catalog.ordered);
    AnyResourceMissesMembers(index, groups, catalog.ordered);
    hide ExactMisses, AnyGroupMisses, AnyResourceMisses, WithoutWildcard;
  }

  /** The reported problems are exactly the selections the catalog misses. */
  lemma UnresolvedIsMisses(index: nat, rule: TargetRule, catalog: Snapshot)
    ensures ReportsMisses(index, rule, catalog, UnresolvedSelections(index, rule, catalog))
  {
    hide UnresolvedSelections, Misses;
    var problems := UnresolvedSelections(index, rule, catalog);
    forall p | p in problems
      ensures p.Unresolved? && p.rule == index && Misses(rule, catalog, p.group, p.resource)
    {
      ReportedExactly(index, rule, catalog, p);
    }
    forall g, r | Misses(rule, catalog, g, r) ensures Unresolved(index, g, r) in problems {
      ReportedExactly(index, rule, catalog, Unresolved(index, g, r));
    }
  }

  // ---- Compile ----

  function Indexed(rs: seq<Resource>): map<GroupResource, Resource> {
    if rs == [] then map[] else Indexed(rs[..|rs| - 1])[rs[|rs| - 1].gr := rs[|rs| - 1]]
  }

  /** An invalid selector leaves "everything" in place; the policy is then not ready. */
  function UsableSelector(s: Option<LabelSelector>): Option<LabelSelector> {
    if s.Some? && ValidSelector(s.value) then s else None
  }

  function CompileRule(rule: TargetRule, rs: seq<Resource>): CompiledRule {
    CompiledRule(Indexed(Resolved(rule, rs)), UsableSelector(rule.nsSelector), UsableSelector(rule.objSelector),
                 set n | n in rule.excluded)
  }

  function CompileRules(rules: seq<TargetRule>, rs: seq<Resource>): (c: seq<CompiledRule>)
    ensures |c| == |rules|
    ensures forall i :: 0 <= i < |rules| ==> c[i] == CompileRule(rules[i], rs)
  {
    if rules == [] then []
    else CompileRules(rules[..|rules| - 1], rs) + [CompileRule(rules[|rules| - 1], rs)]
  }

  function SelectorProblems(index: nat, rule: TargetRule): seq<Problem> {
    (if rule.nsSelector.Some? && !ValidSelector(rule.nsSelector.value) then [BadNamespaceSelector(index)] else [])
    + (if rule.objSelector.Some? && !ValidSelector(rule.objSelector.value) then [BadObjectSelector(index)] else [])
  }

  function AllSelectorProblems(rules: seq<TargetRule>): seq<Problem> {
    if rules == [] then []
    else AllSelectorProblems(rules[..|rules| - 1]) + SelectorProblems(|rules| - 1, rules[|rules| - 1])
  }

  function AllUnresolved(rules: seq<TargetRule>, catalog: Snapshot): seq<Problem> {
    if rules == [] then []
    else AllUnresolved(rules[..|rules| - 1], catalog) + UnresolvedSelections(|rules| - 1, rules[|rules| - 1], catalog)
  }

  function ResolvedKeys(rules: seq<TargetRule>, rs: seq<Resource>): set<GroupResource> {
    if rules == [] then {}
    else ResolvedKeys(rules[..|rules| - 1], rs) + (set r | r in Resolved(rules[|rules| - 1], rs) :: r.gr)
  }

  predicate ValidRisk(r: Risk) { !r.RiskUnknown? }

  predicate ExactFinalizer(f: string) { f != "" && '*' !in f }

  predicate ValidConfiguration(spec: Spec) {
    && spec.rules != []
    && (forall i :: 0 <= i < |spec.rules| ==> spec.rules[i].apiGroups != [] && spec.rules[i].resources != [])
    && spec.terminationAge > 0 && spec.approvalTTL > 0 && spec.resolvedTTL > 0
    && 1 <= spec.maxNamespaceObjects <= 100000 && 1 <= spec.maxCRDInstances <= 100000
    && ValidRisk(spec.maxRisk)
    && (forall i :: 0 <= i < |spec.owners| ==> ExactFinalizer(spec.owners[i].finalizer))
    && (forall i :: 0 <= i < |spec.allowedFinalizers| ==> ExactFinalizer(spec.allowedFinalizers[i]))
  }

  function ConfigurationProblems(spec: Spec): seq<Problem> {
    if ValidConfiguration(spec) then [] else [BadConfiguration("spec")]
  }

  function OwnerMap(owners: seq<Owner>): map<string, ControllerRef> {
    if owners == [] then map[]
    else OwnerMap(owners[..|owners| - 1])[owners[|owners| - 1].finalizer := owners[|owners| - 1].ref]
  }

  predicate ReadySpec(spec: Spec, catalog: Snapshot) {
    AllSelectorProblems(spec.rules) == [] && AllUnresolved(spec.rules, catalog) == [] && ValidConfiguration(spec)
  }

  function SettingsOf(spec: Spec): Settings {
    Settings(spec.terminationAge, spec.maxNamespaceObjects, spec.maxCRDInstances,
             spec.approvalTTL, spec.resolvedTTL, spec.maxRisk, spec.allowNamespaceForce)
  }

  /** The policy a source compiles to. */
  function Compiled(source: Source, catalog: Snapshot): CompiledPolicy {
    CompiledPolicy(source.name, source.uid, source.generation, source.spec.priority,
                   ReadySpec(source.spec, catalog), CompileRules(source.spec.rules, catalog.ordered),
                   OwnerMap(source.spec.owners), (set f | f in source.spec.allowedFinalizers),
                   SettingsOf(source.spec))
  }

  function ConditionOf(generation: nat, now: int, problems: seq<Problem>): Condition {
    Condition(problems == [], problems, generation, now)
  }

  /** The status written for a source compiled at `now`. */
  function StatusOf(source: Source, catalog: Snapshot, now: int): Status {
    var selectors, unresolved := AllSelectorProblems(source.spec.rules), AllUnresolved(source.spec.rules, catalog);
    Status(source.generation,
           ConditionOf(source.generation, now, selectors + unresolved + ConfigurationProblems(source.spec)),
           ConditionOf(source.generation, now, unresolved),
           ConditionOf(source.generation, now, selectors),
           now, |ResolvedKeys(source.spec.rules, catalog.ordered)|)
  }

  lemma CompileOneMore(rules: seq<TargetRule>, i: nat, catalog: Snapshot)
    requires i < |rules|
    ensures CompileRules(rules[..i + 1], catalog.ordered)
              == CompileRules(rules[..i], catalog.ordered) + [CompileRule(rules[i], catalog.ordered)]
    ensures AllSelectorProblems(rules[..i + 1]) == AllSelectorProblems(rules[..i]) + SelectorProblems(i, rules[i])
    ensures AllUnresolved(rules[..i + 1], catalog)
              == AllUnresolved(rules[..i], catalog) + UnresolvedSelections(i, rules[i], catalog)
    ensures ResolvedKeys(rules[..i + 1], catalog.ordered)
              == ResolvedKeys(rules[..i], catalog.ordered) + set r | r in Resolved(rules[i], catalog.ordered) :: r.gr
  {
    assert rules[..i + 1][..i] == rules[..i] && rules[..i + 1][i] == rules[i];
  }

  method Compile(source: Source, catalog: Snapshot, now: int) returns (compiled: CompiledPolicy, status: Status)
    ensures compiled == Compiled(source, catalog)
    ensures status == StatusOf(source, catalog, now)
    ensures compiled.ready <==> status.ready.ok
    ensures CarriesOver(source, compiled) && (compiled.ready <==> Usable(source.spec, catalog))
    ensures Reports(source, catalog, now, status)
  {
    var rules := source.spec.rules;
    var compiledRules: seq<CompiledRule> := [];
    var selectorErrors: seq<Problem>, resolutionErrors: seq<Problem> := [], [];
    var resolved: set<GroupResource> := {};
    for i := 0 to |rules|
      invariant compiledRules == CompileRules(rules[..i], catalog.ordered)
      invariant selectorErrors == AllSelectorProblems(rules[..i])
      invariant resolutionErrors == AllUnresolved(rules[..i], catalog)
      invariant resolved == ResolvedKeys(rules[..i], catalog.ordered)
    {
      CompileOneMore(rules, i, catalog);
      var hits := ResolveRule(rules[i], catalog.ordered);
      selectorErrors := selectorErrors + SelectorProblems(i, rules[i]);
      compiledRules := compiledRules +
        [CompiledRule(Indexed(hits), UsableSelector(rules[i].nsSelector), UsableSelector(rules[i].objSelector),
                      set n | n in rules[i].excluded)];
      resolved := resolved + set r | r in hits :: r.gr;
      resolutionErrors := resolutionErrors + UnresolvedSelections(i, rules[i], catalog);
    }
    assert rules[..|rules|] == rules;
    var configurationErrors := ConfigurationProblems(source.spec);
    compiled := CompiledPolicy(
      source.name, source.uid, source.generation, source.spec.priority,
      selectorErrors == [] && resolutionErrors == [] && configurationErrors == [],
      compiledRules, OwnerMap(source.spec.owners), (set f | f in source.spec.allowedFinalizers),
      SettingsOf(source.spec));
    status := Status(
      source.generation,
      ConditionOf(source.generation, now, selectorErrors + resolutionErrors + configurationErrors),
      ConditionOf(source.generation, now, resolutionErrors),
      ConditionOf(source.generation, now, selectorErrors),
      now, |resolved|);
    ReadyExactly(source.spec, catalog);
    CompiledCarriesOver(source, catalog);
    StatusReports(source, catalog, now);
  }

  // ---- What a compiled policy and its status say, by the spec ----

  /** Every field that matching, eligibility, limits and times are decided by is the spec's own. */
  ghost predicate CarriesOver(source: Source, p: CompiledPolicy) {
    && p.name == source.name && p.uid == source.uid && p.generation == source.generation
    && p.priority == source.spec.priority
    && p.settings.terminationAge == source.spec.terminationAge
    && p.settings.approvalTTL == source.spec.approvalTTL && p.settings.resolvedTTL == source.spec.resolvedTTL
    && p.settings.maxNamespaceObjects == source.spec.maxNamespaceObjects
    && p.settings.maxCRDInstances == source.spec.maxCRDInstances
    && p.settings.maxRisk == source.spec.maxRisk
    && p.settings.allowNamespaceForce == source.spec.allowNamespaceForce
    && (forall f :: f in p.allowed <==> f in source.spec.allowedFinalizers)
    && (forall f :: f in p.owners <==> exists o :: o in source.spec.owners && o.finalizer == f)
    && (forall i :: 0 <= i < |source.spec.owners| && !NamedLater(source.spec.owners, i) ==>
          source.spec.owners[i].finalizer in p.owners
          && p.owners[source.spec.owners[i].finalizer] == source.spec.owners[i].ref)
  }

  /** A later entry for the same finalizer takes its place. */
  ghost predicate NamedLater(owners: seq<Owner>, i: nat)
    requires i < |owners|
  {
    exists j :: i < j < |owners| && owners[j].finalizer == owners[i].finalizer
  }

  lemma {:induction false} OwnersCarryOver(owners: seq<Owner>)
    ensures forall f :: f in OwnerMap(owners) <==> exists o :: o in owners && o.finalizer == f
    ensures forall i :: 0 <= i < |owners| && !NamedLater(owners, i) ==>
              owners[i].finalizer in OwnerMap(owners) && OwnerMap(owners)[owners[i].finalizer] == owners[i].ref
  {
    if owners != [] {
      var init, last := owners[..|owners| - 1], owners[|owners| - 1];
      assert owners == init + [last] && last in owners;
      OwnersCarryOver(init);
      forall i | 0 <= i < |owners| && !NamedLater(owners, i)
        ensures owners[i].finalizer in OwnerMap(owners) && OwnerMap(owners)[owners[i].finalizer] == owners[i].ref
      {
        if i < |init| {
          assert init[i] == owners[i] && owners[|init|] == last;
          assert forall j :: i < j < |init| ==> owners[j] == init[j];
        }
      }
    }
  }

  lemma CompiledCarriesOver(source: Source, catalog: Snapshot)
    ensures CarriesOver(source, Compiled(source, catalog))
  {
    OwnersCarryOver(source.spec.owners);
    hide OwnerMap, ReadySpec, CompileRules, NamedLater;
  }

  lemma SettingsCarryOver(source: Source, catalog: Snapshot)
    ensures var p := Compiled(source, catalog).settings;
            && p.approvalTTL == source.spec.approvalTTL && p.resolvedTTL == source.spec.resolvedTTL
            && p.terminationAge == source.spec.terminationAge
            && p.maxNamespaceObjects == source.spec.maxNamespaceObjects
            && p.maxCRDInstances == source.spec.maxCRDInstances
  {
    CompiledCarriesOver(source, catalog);
    hide NamedLater;
  }

  /** A spec that compiles: its selectors parse, the catalog has what its rules name, and its numbers and names
      are in range. */
  ghost predicate Usable(spec: Spec, catalog: Snapshot) {
    && (forall i :: 0 <= i < |spec.rules| ==> SelectorsParse(spec.rules[i]) && NothingMissed(spec.rules[i], catalog))
    && InRange(spec)
  }

  ghost predicate SelectorsParse(rule: TargetRule) {
    && (rule.nsSelector.Some? ==> ValidSelector(rule.nsSelector.value))
    && (rule.objSelector.Some? ==> ValidSelector(rule.objSelector.value))
  }

  ghost predicate InRange(spec: Spec) {
    && |spec.rules| > 0 && (forall r :: r in spec.rules ==> |r.apiGroups| > 0 && |r.resources| > 0)
    && spec.terminationAge > 0 && spec.approvalTTL > 0 && spec.resolvedTTL > 0
    && 1 <= spec.maxNamespaceObjects <= 100000 && 1 <= spec.maxCRDInstances <= 100000 && spec.maxRisk != RiskUnknown
    && (forall o :: o in spec.owners ==> o.finalizer != "" && '*' !in o.finalizer)
    && (forall f :: f in spec.allowedFinalizers ==> f != "" && '*' !in f)
  }

  lemma RangeExactly(spec: Spec)
    ensures ValidConfiguration(spec) <==> InRange(spec)
  {
    assert forall i :: 0 <= i < |spec.rules| ==> spec.rules[i] in spec.rules;
    assert forall i :: 0 <= i < |spec.owners| ==> spec.owners[i] in spec.owners;
    assert forall i :: 0 <= i < |spec.allowedFinalizers| ==> spec.allowedFinalizers[i] in spec.allowedFinalizers;
  }

  lemma SelectorsExactly(index: nat, rule: TargetRule)
    ensures SelectorProblems(index, rule) == [] <==> SelectorsParse(rule)
  {
  }

  lemma MissesExactly(index: nat, rule: TargetRule, catalog: Snapshot)
    ensures UnresolvedSelections(index, rule, catalog) == [] <==> NothingMissed(rule, catalog)
  {
    var problems := UnresolvedSelections(index, rule, catalog);
    UnresolvedIsMisses(index, rule, catalog);
    hide UnresolvedSelections, Misses;
    ReportedIsMissed(index, rule, catalog, problems);
    if !NothingMissed(rule, catalog) {
      var g, r :| Misses(rule, catalog, g, r);
      assert Unresolved(index, g, r) in problems;
    }
  }

  lemma {:induction false} AllSelectorsExactly(rules: seq<TargetRule>)
    ensures AllSelectorProblems(rules) == [] <==> forall i :: 0 <= i < |rules| ==> SelectorsParse(rules[i])
  {
    hide SelectorsParse, SelectorProblems;
    if rules != [] {
      var init, n := rules[..|rules| - 1], |rules| - 1;
      AllSelectorsExactly(init);
      SelectorsExactly(n, rules[n]);
      assert forall i :: 0 <= i < n ==> init[i] == rules[i];
      assert AllSelectorProblems(rules) == AllSelectorProblems(init) + SelectorProblems(n, rules[n]);
      hide AllSelectorProblems;
    }
  }

  lemma {:induction false} AllMissesExactly(rules: seq<TargetRule>, catalog: Snapshot)
    ensures AllUnresolved(rules, catalog) == [] <==> forall i :: 0 <= i < |rules| ==> NothingMissed(rules[i], catalog)
  {
    hide NothingMissed, UnresolvedSelections;
    if rules != [] {
      var init, n := rules[..|rules| - 1], |rules| - 1;
      AllMissesExactly(init, catalog);
      MissesExactly(n, rules[n], catalog);
      assert forall i :: 0 <= i < n ==> init[i] == rules[i];
      assert AllUnresolved(rules, catalog) == AllUnresolved(init, catalog) + UnresolvedSelections(n, rules[n], catalog);
      hide AllUnresolved;
    }
  }

  lemma RulesExactly(rules: seq<TargetRule>, catalog: Snapshot)
    ensures AllSelectorProblems(rules) == [] <==> forall i :: 0 <= i < |rules| ==> SelectorsParse(rules[i])
    ensures AllUnresolved(rules, catalog) == [] <==> forall i :: 0 <= i < |rules| ==> NothingMissed(rules[i], catalog)
  {
    AllSelectorsExactly(rules);
    AllMissesExactly(rules, catalog);
    hide AllSelectorProblems, AllUnresolved, SelectorsParse, NothingMissed;
  }

  /** A policy is ready exactly when its spec is usable. */
  lemma ReadyExactly(spec: Spec, catalog: Snapshot)
    ensures ReadySpec(spec, catalog) <==> Usable(spec, catalog)
  {
    hide ValidConfiguration, InRange, SelectorsParse, NothingMissed;
    RulesExactly(spec.rules, catalog);
    RangeExactly(spec);
  }

  /** The resource types that some rule selects. */
  ghost function SelectedTypes(spec: Spec, catalog: Snapshot): set<GroupResource> {
    set r, k | r in catalog.ordered && 0 <= k < |spec.rules| && RuleResolves(spec.rules[k], r) :: r.gr
  }

  /** The status: each condition true exactly when there is nothing to complain about. */
  ghost predicate Reports(source: Source, catalog: Snapshot, now: int, st: Status) {
    && st.observedGeneration == source.generation && st.validated == now
    && (st.selectors.ok <==> forall i :: 0 <= i < |source.spec.rules| ==> SelectorsParse(source.spec.rules[i]))
    && (st.discovery.ok <==> forall i :: 0 <= i < |source.spec.rules| ==> NothingMissed(source.spec.rules[i], catalog))
    && (st.ready.ok <==> Usable(source.spec, catalog))
    && st.ready.generation == source.generation && st.ready.transition == now
    && st.discovery.generation == source.generation && st.discovery.transition == now
    && st.selectors.generation == source.generation && st.selectors.transition == now
    && st.resolvedCount == |SelectedTypes(source.spec, catalog)|
  }

  lemma StatusReports(source: Source, catalog: Snapshot, now: int)
    ensures Reports(source, catalog, now, StatusOf(source, catalog, now))
  {
    hide AllSelectorProblems, AllUnresolved, ResolvedKeys, SelectedTypes, ValidConfiguration, Usable, SelectorsParse,
      NothingMissed;
    RulesExactly(source.spec.rules, catalog);
    ReadyExactly(source.spec, catalog);
    TypesCounted(source.spec, catalog);
  }

  lemma TypesCounted(spec: Spec, catalog: Snapshot)
    ensures ResolvedKeys(spec.rules, catalog.ordered) == SelectedTypes(spec, catalog)
  {
    KeysAreTypes(spec.rules, catalog.ordered);
    hide ResolvedKeys, RuleResolves;
  }

  lemma {:induction false} KeysAreTypes(rules: seq<TargetRule>, rs: seq<Resource>)
    ensures ResolvedKeys(rules, rs) ==
            set r, k | r in rs && 0 <= k < |rules| && RuleResolves(rules[k], r) :: r.gr
  {
    hide RuleResolves;
    if rules != [] {
      var init, n := rules[..|rules| - 1], |rules| - 1;
      KeysAreTypes(init, rs);
      ResolvedMembers(rules[n], rs);
      assert forall k :: 0 <= k < n ==> init[k] == rules[k];
      forall gr ensures gr in ResolvedKeys(rules, rs) <==>
                        exists r, k :: r in rs && 0 <= k < |rules| && RuleResolves(rules[k], r) && r.gr == gr
      {
        if r, k :| r in rs && 0 <= k < |rules| && RuleResolves(rules[k], r) && r.gr == gr {
          if k < n { assert RuleResolves(init[k], r); }
        }
      }
    }
  }

  // ---- Match ----

  predicate RuleMatches(rule: CompiledRule, t: Target) {
    && t.gr in rule.resources
    && rule.resources[t.gr].preferred.namespaced == t.namespaced
    && Selects(rule.objSelector, t.labels)
    && (t.namespaced ==> t.ns !in rule.excluded && Selects(rule.nsSelector, t.nsLabels))
  }

  predicate Match(p: CompiledPolicy, t: Target) {
    p.ready && exists i :: 0 <= i < |p.rules| && RuleMatches(p.rules[i], t)
  }

  lemma {:induction false} IndexedFinds(rs: seq<Resource>, gr: GroupResource)
    ensures gr in Indexed(rs) ==> Indexed(rs)[gr] in rs && Indexed(rs)[gr].gr == gr
    ensures gr !in Indexed(rs) ==> forall r :: r in rs ==> r.gr != gr
  {
    if rs != [] {
      IndexedFinds(rs[..|rs| - 1], gr);
      assert rs == rs[..|rs| - 1] + [rs[|rs| - 1]];
    }
  }

  /** A rule as its author reads it. */
  ghost predicate RuleIntends(rule: TargetRule, catalog: Snapshot, t: Target) {
    && catalog.Resolve(t.gr).Some?
    && (ANY in rule.apiGroups || t.gr.group in rule.apiGroups)
    && (if ANY in rule.resources
        then t.gr.resource != "events" && t.gr != GroupResource("coordination.k8s.io", "leases")
        else t.gr.resource in rule.resources)
    && catalog.Resolve(t.gr).value.preferred.namespaced == t.namespaced
    && Selects(rule.objSelector, t.labels)
    && (t.namespaced ==> t.ns !in rule.excluded && Selects(rule.nsSelector, t.nsLabels))
  }

  lemma CompiledRuleResolves(rule: TargetRule, catalog: Snapshot, gr: GroupResource)
    requires Consistent(catalog)
    ensures var m := CompileRule(rule, catalog.ordered).resources;
            && (gr in m <==> catalog.Resolve(gr).Some? && RuleResolves(rule, catalog.Resolve(gr).value))
            && (gr in m ==> catalog.Resolve(gr) == Some(m[gr]))
  {
    IndexedFinds(Resolved(rule, catalog.ordered), gr);
    ResolvedMembers(rule, catalog.ordered);
  }

  lemma {:induction false} NoSelectorProblems(rules: seq<TargetRule>, i: nat)
    requires AllSelectorProblems(rules) == [] && i < |rules|
    ensures UsableSelector(rules[i].nsSelector) == rules[i].nsSelector
    ensures UsableSelector(rules[i].objSelector) == rules[i].objSelector
  {
    var init, last := rules[..|rules| - 1], rules[|rules| - 1];
    assert AllSelectorProblems(init) == [] && SelectorProblems(|rules| - 1, last) == [];
    if i < |rules| - 1 {
      NoSelectorProblems(init, i);
    }
  }

  /** Matching a compiled policy is matching one of its rules as written, against the catalog it was
      compiled with. */
  lemma MatchIsIntent(source: Source, catalog: Snapshot, t: Target)
    requires Consistent(catalog)
    ensures Match(Compiled(source, catalog), t) <==>
              ReadySpec(source.spec, catalog)
              && exists i :: 0 <= i < |source.spec.rules| && RuleIntends(source.spec.rules[i], catalog, t)
  {
    if ReadySpec(source.spec, catalog) {
      var p, rules := Compiled(source, catalog), source.spec.rules;
      forall i | 0 <= i < |rules| ensures RuleMatches(p.rules[i], t) <==> RuleIntends(rules[i], catalog, t) {
        NoSelectorProblems(rules, i);
        CompiledRuleResolves(rules[i], catalog, t.gr);
      }
    }
  }

  ghost predicate NothingMissed(rule: TargetRule, catalog: Snapshot) {
    forall g, r :: !Misses(rule, catalog, g, r)
  }

  lemma NoProblemsNothingMissed(index: nat, rule: TargetRule, catalog: Snapshot)
    requires UnresolvedSelections(index, rule, catalog) == []
    ensures NothingMissed(rule, catalog)
  {
    UnresolvedIsMisses(index, rule, catalog);
    forall g, r ensures !Misses(rule, catalog, g, r) {
      assert Unresolved(index, g, r) !in UnresolvedSelections(index, rule, catalog);
    }
  }

  lemma NoProblemsSplit(rules: seq<TargetRule>, catalog: Snapshot)
    requires AllUnresolved(rules, catalog) == [] && rules != []
    ensures AllUnresolved(rules[..|rules| - 1], catalog) == []
    ensures UnresolvedSelections(|rules| - 1, rules[|rules| - 1], catalog) == []
  {
  }

  lemma {:induction false} NoneUnresolved(rules: seq<TargetRule>, catalog: Snapshot, i: nat)
    requires AllUnresolved(rules, catalog) == [] && i < |rules|
    ensures NothingMissed(rules[i], catalog)
  {
    NoProblemsSplit(rules, catalog);
    if i < |rules| - 1 {
      NoneUnresolved(rules[..|rules| - 1], catalog, i);
    } else {
      NoProblemsNothingMissed(i, rules[i], catalog);
    }
  }

  /** In a ready policy a resource a rule names explicitly is selected, unless the same rule also
      uses the resource wildcard and the resource is excluded from wildcards. */
  lemma NamedResourceSelected(source: Source, catalog: Snapshot, i: nat, group: string, resource: string)
    requires Consistent(catalog) && ReadySpec(source.spec, catalog) && i < |source.spec.rules|
    requires group in source.spec.rules[i].apiGroups && resource in source.spec.rules[i].resources
    requires group != ANY && resource != ANY
    ensures var gr := GroupResource(group, resource);
            && catalog.Resolve(gr).Some?
            && (gr in Compiled(source, catalog).rules[i].resources <==>
                  (ANY !in source.spec.rules[i].resources || catalog.Resolve(gr).value.EligibleForWildcard()))
  {
    var gr, rule := GroupResource(group, resource), source.spec.rules[i];
    NoneUnresolved(source.spec.rules, catalog, i);
    assert !Misses(rule, catalog, group, resource);
    CompiledRuleResolves(rule, catalog, gr);
  }

  const EVENTS := Resource(GroupResource("", "events"), Version("v1", "Event", true, ["get", "list"]), [])
  const PODS := Resource(GroupResource("", "pods"), Version("v1", "Pod", true, ["get", "list"]), [])
  const CORE := Snapshot(map[EVENTS.gr := EVENTS, PODS.gr := PODS], [EVENTS, PODS])
  const CORE_RULE := TargetRule([""], [ANY, "events"], None, None, [])

  lemma CoreIsConsistent()
    ensures Consistent(CORE) && EVENTS.gr in CORE.resources && CORE.ordered[1] == PODS
  {
  }

  lemma CoreMissesNothing(group: string, resource: string)
    ensures !Misses(CORE_RULE, CORE, group, resource)
  {
    CoreIsConsistent();
    hide Consistent;
    assert PODS.EligibleForWildcard() && PODS.gr.group == "";
    assert GroupResource("", "events") == EVENTS.gr;
  }

  lemma ReportedIsMissed(index: nat, rule: TargetRule, catalog: Snapshot, problems: seq<Problem>)
    requires ReportsMisses(index, rule, catalog, problems)
    ensures problems != [] ==> exists g, r :: Misses(rule, catalog, g, r)
  {
    hide Misses;
    if problems != [] {
      assert problems[0] in problems;
    }
  }

  lemma OneRuleReady(spec: Spec, rule: TargetRule, catalog: Snapshot)
    requires spec.rules == [rule] && UnresolvedSelections(0, rule, catalog) == [] && SelectorProblems(0, rule) == []
    requires ValidConfiguration(spec)
    ensures ReadySpec(spec, catalog)
  {
    hide UnresolvedSelections, SelectorProblems, ValidConfiguration;
    var rules := spec.rules;
    assert |rules| == 1 && rules[..0] == [] && rules[0] == rule;
    assert AllUnresolved(rules, catalog) == AllUnresolved([], catalog) + UnresolvedSelections(0, rule, catalog);
    assert AllSelectorProblems(rules) == AllSelectorProblems([]) + SelectorProblems(0, rule);
  }

  /** So a ready policy may miss what it names: a rule for `*` and `events` in the core group does not select
      the catalogued events. */
  lemma EventsNamedNotSelected(source: Source)
    requires source.spec == Spec(0, [CORE_RULE], 60, 100, 100, [], RiskLow, [], false, 60, 60)
    ensures Consistent(CORE) && Compiled(source, CORE).ready && CORE_RULE.resources == [ANY, "events"]
    ensures CORE.Resolve(EVENTS.gr).Some? && EVENTS.gr !in Compiled(source, CORE).rules[0].resources
  {
    CoreIsConsistent();
    forall g, r ensures !Misses(CORE_RULE, CORE, g, r) { CoreMissesNothing(g, r); }
    UnresolvedIsMisses(0, CORE_RULE, CORE);
    hide Consistent, Misses, UnresolvedSelections, ReportsMisses;
    ReportedIsMissed(0, CORE_RULE, CORE, UnresolvedSelections(0, CORE_RULE, CORE));
    OneRuleReady(source.spec, CORE_RULE, CORE);
    hide ReadySpec;
    NamedResourceSelected(source, CORE, 0, "", "events");
  }

  lemma RuleHits(rule: TargetRule, catalog: Snapshot, k: nat)
    requires Consistent(catalog) && k < |catalog.ordered| && RuleResolves(rule, catalog.ordered[k])
    ensures catalog.ordered[k].gr in CompileRule(rule, catalog.ordered).resources
  {
    assert catalog.ordered[k] in catalog.ordered;
    CompiledRuleResolves(rule, catalog, catalog.ordered[k].gr);
  }

  lemma NothingMissedSomethingHit(rule: TargetRule, catalog: Snapshot)
    requires Consistent(catalog) && rule.apiGroups != [] && rule.resources != []
    requires NothingMissed(rule, catalog)
    ensures exists gr :: gr in CompileRule(rule, catalog.ordered).resources
  {
    var g := if ANY in rule.apiGroups then ANY else rule.apiGroups[0];
    var r := if ANY in rule.resources then ANY else rule.resources[0];
    assert !Misses(rule, catalog, g, r);
    if g != ANY && r != ANY {
      CompiledRuleResolves(rule, catalog, GroupResource(g, r));
    } else if r != ANY {
      var k :| 0 <= k < |catalog.ordered| && catalog.ordered[k].gr.resource == r;
      RuleHits(rule, catalog, k);
    } else if g != ANY {
      var k :| 0 <= k < |catalog.ordered| && catalog.ordered[k].gr.group == g
      && catalog.ordered[k].EligibleForWildcard();
      RuleHits(rule, catalog, k);
    } else {
      var k :| 0 <= k < |catalog.ordered| && catalog.ordered[k].EligibleForWildcard();
      RuleHits(rule, catalog, k);
    }
  }

  /** Every rule of a ready policy selects at least one resource type. */
  lemma ReadyRuleNotEmpty(source: Source, catalog: Snapshot, i: nat)
    requires Consistent(catalog) && ReadySpec(source.spec, catalog) && i < |source.spec.rules|
    ensures exists gr :: gr in Compiled(source, catalog).rules[i].resources
  {
    NoneUnresolved(source.spec.rules, catalog, i);
    NothingMissedSomethingHit(source.spec.rules[i], catalog);
  }

  // ---- Winner ----

  /** Higher priority first, then the smaller name. */
  predicate Beats(a: CompiledPolicy, b: CompiledPolicy) {
    a.priority > b.priority || (a.priority == b.priority && Sorting.Less(a.name, b.name))
  }

  ghost predicate Wins(ps: seq<CompiledPolicy>, t: Target, w: CompiledPolicy) {
    && w in ps && Match(w, t)
    && forall p :: p in ps && Match(p, t) && p != w ==>
         w.priority > p.priority || (w.priority == p.priority && Sorting.Less(w.name, p.name))
  }

  ghost predicate DistinctPolicyNames(ps: seq<CompiledPolicy>) {
    forall i, j :: 0 <= i < j < |ps| ==> ps[i].name != ps[j].name
  }

  lemma BeatsIsStrictWeak()
    ensures Sorting.StrictWeak(Beats)
  {
    Sorting.LessIsStrictWeak();
    forall x, y, z | Beats(x, z) ensures Beats(x, y) || Beats(y, z) {
      assert Sorting.Less(x.name, z.name) ==> Sorting.Less(x.name, y.name) || Sorting.Less(y.name, z.name);
    }
  }

  lemma BeatsTotal(a: CompiledPolicy, b: CompiledPolicy)
    requires a.name != b.name
    ensures Beats(a, b) != Beats(b, a)
  {
    Sorting.LessTrichotomy(a.name, b.name);
  }

  /** A better match takes over. */
  lemma Overtaken(ps: seq<CompiledPolicy>, t: Target, w: CompiledPolicy, p: CompiledPolicy)
    requires Wins(ps, t, w) && Match(p, t) && Beats(p, w)
    ensures Wins(ps + [p], t, p)
  {
    BeatsIsStrictWeak();
    hide Match, Sorting.Less;
    forall q | q in ps + [p] && Match(q, t) && q != p ensures Beats(p, q) {
      if q != w { assert Beats(w, q); }
    }
  }

  lemma Defended(ps: seq<CompiledPolicy>, t: Target, w: CompiledPolicy, p: CompiledPolicy)
    requires Wins(ps, t, w) && (Match(p, t) ==> Beats(w, p))
    ensures Wins(ps + [p], t, w)
  {
    hide Match, Sorting.Less;
  }

  /** SelectWinning: the matching policy of highest priority, ties going to the smallest name. */
  method SelectWinning(ps: seq<CompiledPolicy>, t: Target) returns (winner: Option<CompiledPolicy>)
    requires DistinctPolicyNames(ps)
    ensures winner.Some? ==> Wins(ps, t, winner.value)
    ensures winner.None? ==> forall p :: p in ps ==> !Match(p, t)
  {
    hide Sorting.Less, Match;
    winner := None;
    for i := 0 to |ps|
      invariant winner.Some? ==> Wins(ps[..i], t, winner.value)
      invariant winner.None? ==> forall p :: p in ps[..i] ==> !Match(p, t)
    {
      assert ps[..i + 1] == ps[..i] + [ps[i]];
      if !Match(ps[i], t) {
        if winner.Some? { Defended(ps[..i], t, winner.value, ps[i]); }
        continue;
      }
      if winner.None? {
        winner := Some(ps[i]);
      } else {
        var w := winner.value;
        assert ps[i].name != w.name by { NamesApart(ps, i, w); }
        BeatsTotal(ps[i], w);
        if ps[i].priority > w.priority || (ps[i].priority == w.priority && Sorting.Less(ps[i].name, w.name)) {
          Overtaken(ps[..i], t, w, ps[i]);
          winner := Some(ps[i]);
        } else {
          Defended(ps[..i], t, w, ps[i]);
        }
      }
    }
    assert ps[..|ps|] == ps;
  }

  lemma NamesApart(ps: seq<CompiledPolicy>, i: nat, w: CompiledPolicy)
    requires DistinctPolicyNames(ps) && i < |ps| && w in ps[..i]
    ensures w.name != ps[i].name
  {
    var k :| 0 <= k < i && ps[..i][k] == w;
    assert ps[k] == w;
  }

  /** compiledPolicies.selectWinning: the first match of a list sorted best first. */
  function FirstMatch(ps: seq<CompiledPolicy>, t: Target): Option<CompiledPolicy> {
    if ps == [] then None
    else if Match(ps[0], t) then Some(ps[0])
    else FirstMatch(ps[1..], t)
  }

  /** The first one that matches, if any does. */
  lemma {:induction false} FirstMatchExactly(ps: seq<CompiledPolicy>, t: Target)
    ensures FirstMatch(ps, t).Some? <==> exists p :: p in ps && Match(p, t)
    ensures FirstMatch(ps, t).Some? ==>
              exists i :: 0 <= i < |ps| && ps[i] == FirstMatch(ps, t).value && Match(ps[i], t)
                && forall j :: 0 <= j < i ==> !Match(ps[j], t)
  {
    hide Match;
    if ps != [] {
      FirstMatchExactly(ps[1..], t);
      assert ps == [ps[0]] + ps[1..];
      if Match(ps[0], t) {
        assert ps[0] in ps;
      } else if FirstMatch(ps[1..], t).Some? {
        var i :| 0 <= i < |ps[1..]| && ps[1..][i] == FirstMatch(ps[1..], t).value && Match(ps[1..][i], t)
                 && forall j :: 0 <= j < i ==> !Match(ps[1..][j], t);
        assert ps[i + 1] == ps[1..][i] && forall j :: 1 <= j < i + 1 ==> ps[j] == ps[1..][j - 1];
      }
    }
  }

  lemma {:induction false} FirstMatchWins(ps: seq<CompiledPolicy>, t: Target)
    requires Sorting.Sorted(Beats, ps) && DistinctPolicyNames(ps)
    ensures FirstMatch(ps, t).Some? ==> Wins(ps, t, FirstMatch(ps, t).value)
    ensures FirstMatch(ps, t).None? ==> forall p :: p in ps ==> !Match(p, t)
  {
    if ps == [] {
    } else if Match(ps[0], t) {
      forall p | p in ps && p != ps[0] ensures Beats(ps[0], p) {
        var k :| 0 <= k < |ps| && ps[k] == p;
        BeatsTotal(ps[0], p);
      }
    } else {
      FirstMatchWins(ps[1..], t);
      assert ps == [ps[0]] + ps[1..];
    }
  }

  // ---- Risk and eligibility ----

  predicate ProtectiveFinalizer(f: string) {
    f == "foregroundDeletion" || f == "kubernetes.io/pv-protection" || f == "kubernetes.io/pvc-protection"
    || f == "customresourcecleanup.apiextensions.k8s.io"
  }

  function RiskFor(t: ActionType, f: string): Risk {
    match t
    case ForceFinalizeNamespace => RiskCritical
    case RemoveCRDFinalizer => RiskHigh
    case RemoveResourceFinalizer => if ProtectiveFinalizer(f) then RiskHigh else RiskMedium
    case UnsupportedAction => RiskNone
  }

  function RiskRank(r: Risk): int {
    match r
    case RiskNone => 0
    case RiskLow => 1
    case RiskMedium => 2
    case RiskHigh => 3
    case RiskCritical => 4
    case RiskUnknown => -1
  }

  predicate Eligible(p: CompiledPolicy, t: ActionType, f: string) {
    && p.ready
    && (t.ForceFinalizeNamespace? ==> p.settings.allowNamespaceForce)
    && (t.RemoveResourceFinalizer? || t.RemoveCRDFinalizer? ==> f in p.allowed)
    && RiskFor(t, f) != RiskNone
    && RiskRank(RiskFor(t, f)) <= RiskRank(p.settings.maxRisk)
  }

  /** ActionEligibility's stable reason, empty exactly for an eligible action. */
  function IneligibleReason(p: CompiledPolicy, t: ActionType, f: string): (reason: string)
    ensures reason == "" <==> Eligible(p, t, f)
  {
    if !p.ready then "active policy is not ready"
    else if t.ForceFinalizeNamespace? && !p.settings.allowNamespaceForce then
      "policy does not allow namespace force-finalization"
    else if (t.RemoveResourceFinalizer? || t.RemoveCRDFinalizer?) && f !in p.allowed then
      "finalizer is not in policy allowedFinalizers"
    else if RiskFor(t, f) == RiskNone then "action type is not supported"
    else if RiskRank(RiskFor(t, f)) > RiskRank(p.settings.maxRisk) then "action risk exceeds policy maxRisk"
    else ""
  }

  /** The risk that the operator sees in an action, whatever a policy says. */
  lemma RiskExactly(t: ActionType, f: string)
    ensures t.ForceFinalizeNamespace? ==> RiskFor(t, f) == RiskCritical
    ensures t.RemoveCRDFinalizer? ==> RiskFor(t, f) == RiskHigh
    ensures t.RemoveResourceFinalizer? ==> RiskFor(t, f) == if Protects(f) then RiskHigh else RiskMedium
    ensures t.UnsupportedAction? ==> RiskFor(t, f) == RiskNone
  {
  }

  ghost predicate Protects(f: string) {
    f in ["foregroundDeletion", "kubernetes.io/pv-protection", "kubernetes.io/pvc-protection",
          "customresourcecleanup.apiextensions.k8s.io"]
  }

  /** What a spec allows, by its own fields: which maximal risk admits which action. */
  ghost predicate SpecAllows(spec: Spec, t: ActionType, f: string) {
    match t
    case ForceFinalizeNamespace => spec.allowNamespaceForce && spec.maxRisk == RiskCritical
    case RemoveCRDFinalizer => f in spec.allowedFinalizers && spec.maxRisk in {RiskHigh, RiskCritical}
    case RemoveResourceFinalizer =>
      f in spec.allowedFinalizers
      && spec.maxRisk in (if Protects(f) then {RiskHigh, RiskCritical} else {RiskMedium, RiskHigh, RiskCritical})
    case UnsupportedAction => false
  }

  /** An action is eligible exactly when the policy is usable and its spec allows the action. */
  lemma EligibleBySpec(source: Source, catalog: Snapshot, t: ActionType, f: string)
    ensures Eligible(Compiled(source, catalog), t, f) <==>
            Usable(source.spec, catalog) && SpecAllows(source.spec, t, f)
  {
    ReadyExactly(source.spec, catalog);
    CompiledCarriesOver(source, catalog);
    hide Usable, ReadySpec, CompileRules, OwnerMap, SettingsOf;
  }

  /** Eligibility under a revision does not depend on the catalog beyond readiness, so it survives a
      discovery refresh between two compilations of the same revision. */
  lemma EligibilityIsPerRevision(source: Source, before: Snapshot, after: Snapshot, t: ActionType, f: string)
    requires Eligible(Compiled(source, before), t, f) && Compiled(source, after).ready
    ensures Eligible(Compiled(source, after), t, f)
  {
  }
}
