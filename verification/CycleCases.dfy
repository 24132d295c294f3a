/** Two cycles of the scanner: one that leaves an Active incident as it is although nothing was observed, and
    one that revives a resolved incident and deletes it all the same (internal/scanner/cycle.go,
    internal/scanner/scanner.go). */
module CycleCases {
  import opened Types
  import opened Discovery
  import opened Paging
  import opened TargetLists
  import opened Coverage
  import opened CycleFacts
  import opened Cycle
  import Policy
  import Incidents

  // ---- One stuck deployment, one policy, and a resolved incident about it ----

  const TARGET := TargetRef("apps", "v1", "deployments", "Deployment", "shop", "web", "u")
  const SERVED := Version("v1", "Deployment", true, ["get", "list"])
  const DEPLOYMENTS := Resource(GroupResource("apps", "deployments"), SERVED, [])
  const CATALOG := Snapshot(map[DEPLOYMENTS.gr := DEPLOYMENTS], [DEPLOYMENTS])

  /** Resolved incidents are kept for 10 seconds. */
  const POLICY := Policy.CompiledPolicy(
    "p", "policy-uid", 1, 0, true, [Policy.CompiledRule(CATALOG.resources, None, None, {})], map[], {},
    Policy.Settings(60, 100, 100, 60, 10, RiskLow, false))

  const STUCK := Meta("shop", "web", "u", "7", map[], ["example.com/hold"], Some(0))

  const LISTING := Listing([STUCK], (offset: nat, limit: nat) => Found(Page(if offset == 0 then 1 else 0, false)))

  const SCENE := Scene(CATALOG, Scope([POLICY], map[]), (gr: GroupResource, v: string) => LISTING, 500, 100,
                       [0, 0, 0, 0], [0])

  /** The diagnosis finds the target, past its threshold, and is complete. */
  const RESULT := Incidents.Result(true, true, true, true, Incidents.NO_SNAPSHOT, [], [])

  const INPUTS := Inputs(true, true, true, true, false, false, None, SCENE, map[POLICY.uid := POLICY],
                         (o: Observation) => Some(RESULT), 100)

  /** Resolved at time 0, and annotated with a retention that is not the policy's. */
  const INCIDENT := Entry(
    IncidentName("u"), Some(5),
    Incidents.Incident("i", TARGET, Incidents.EMPTY_STATUS.(phase := Incidents.Resolved, resolvedTime := Some(0))))

  const BEFORE: Store := map[IncidentName("u") := INCIDENT]

  /** Only the first call after the incidents are listed meets a conflict. */
  function OneConflict(k: nat): ApiReply { if k == 1 then Conflict else Done }

  // ---- What is listed ----

  lemma SceneIsValid()
    ensures ValidScene(SCENE) && ValidInputs(INPUTS)
  {
  }

  lemma Selected()
    ensures Winner(SCENE.scope, DEPLOYMENTS.gr, SERVED, STUCK) == Some(POLICY)
    ensures Stuck(SCENE.scope, DEPLOYMENTS.gr, SERVED, STUCK)
  {
    var t := TargetOf(SCENE.scope, DEPLOYMENTS.gr, SERVED, STUCK);
    assert Policy.RuleMatches(POLICY.rules[0], t);
    assert Policy.Match(POLICY, t);
  }

  lemma OneVersion()
    ensures Ordered(DEPLOYMENTS, "v1") == [SERVED]
  {
    var vs := DEPLOYMENTS.Versions();
    assert vs == [SERVED] && vs[..0] == [];
    assert Requested(vs, "v1") == [SERVED];
    assert AppendAll([SERVED], vs) == AppendVersion(AppendAll([SERVED], []), SERVED);
  }

  /** The policy selects the one catalogued resource, so there is one job. */
  lemma OneJob(list: seq<Entry>, u: Setup)
    requires SetupFor(SCENE, list, u)
    ensures |u.jobs| == 1 && u.jobs[0].resource == DEPLOYMENTS && u.jobs[0].versions == [SERVED]
  {
    OneVersion();
    hide Ordered, JobTracks, ResourceLess;
    assert SelectsResource(POLICY, DEPLOYMENTS.gr) by { assert DEPLOYMENTS.gr in POLICY.rules[0].resources; }
    assert POLICY in SCENE.scope.policies;
    assert Wanted(SCENE.scope.policies, list, DEPLOYMENTS.gr);
    hide Wanted;
    assert CATALOG.Resolve(DEPLOYMENTS.gr) == Some(DEPLOYMENTS);
    var job :| job in u.jobs && job.resource == DEPLOYMENTS;
    forall k | 0 <= k < |u.jobs| ensures u.jobs[k].resource == DEPLOYMENTS {
      assert u.jobs[k] in u.jobs;
      assert CATALOG.Resolve(u.jobs[k].resource.gr) == Some(u.jobs[k].resource);
    }
    assert |u.jobs| > 1 ==> u.jobs[0].resource.gr != u.jobs[1].resource.gr;
  }

  /** The job's worker after each of its actions. */
  const STARTED := Reading(0, 0, 0, true, [])
  const PAGED := Reading(0, 1, 0, false, [])
  const LOOKED := Reading(0, 1, 1, false, [STUCK])
  const DONE := Finished(Listed([STUCK], SERVED))

  ghost predicate OneDeployments(u: Setup) {
    && u == Setup(SCENE.scope, u.jobs, SCENE.serve, SCENE.pageSize, SCENE.maxTargets) && |u.jobs| == 1
    && u.jobs[0].resource == DEPLOYMENTS && u.jobs[0].versions == [SERVED]
  }

  lemma WorkerReads(u: Setup)
    requires OneDeployments(u)
    ensures Next(u, u.jobs[0], {}, Waiting) == (STARTED, {}) && Next(u, u.jobs[0], {}, STARTED) == (PAGED, {})
    ensures Next(u, u.jobs[0], {"u"}, LOOKED) == (DONE, {"u"})
  {
    hide Stuck, Winner, IsTracked;
  }

  lemma WorkerLooks(u: Setup)
    requires OneDeployments(u)
    ensures Next(u, u.jobs[0], {}, PAGED) == (LOOKED, {"u"})
  {
    Selected();
    hide Stuck, Winner, IsTracked;
    assert Reserve(100, {}, "u") == (true, {"u"}) && [] + [STUCK] == [STUCK];
    assert NextItem(u, u.jobs[0], {}, PAGED, STUCK) == (LOOKED, {"u"});
    assert Next(u, u.jobs[0], {}, PAGED) == NextItem(u, u.jobs[0], {}, PAGED, STUCK);
  }

  lemma FourActions(u: Setup, r: set<string>, a: Worker, b: Worker, c: Worker, d: Worker)
    requires |u.jobs| == 1 && Next(u, u.jobs[0], {}, Waiting) == (a, {}) && Next(u, u.jobs[0], {}, a) == (b, {})
    requires Next(u, u.jobs[0], {}, b) == (c, r) && Next(u, u.jobs[0], r, c) == (d, r)
    ensures Run(u, [0, 0, 0, 0]).workers == [d]
  {
    hide Next, Run;
    RunOne(u, [], {}, Waiting);
    assert [] + [0] == [0];
    RunOne(u, [0], {}, a);
    assert [0] + [0] == [0, 0];
    RunOne(u, [0, 0], {}, b);
    assert [0, 0] + [0] == [0, 0, 0];
    RunOne(u, [0, 0, 0], r, c);
    assert [0, 0, 0] + [0] == [0, 0, 0, 0];
  }

  /** Its worker starts, receives a page, retains the stuck object and reports it. */
  lemma WorkerReports(u: Setup)
    requires OneDeployments(u)
    ensures Run(u, SCENE.schedule).workers == [DONE]
  {
    WorkerReads(u);
    WorkerLooks(u);
    hide Next, Run;
    FourActions(u, {"u"}, STARTED, PAGED, LOOKED, DONE);
  }

  lemma RunOne(u: Setup, schedule: seq<nat>, reserved: set<string>, w: Worker)
    requires |u.jobs| == 1 && (schedule != [] ==> Run(u, schedule) == State(reserved, [w]))
    requires schedule == [] ==> reserved == {} && w == Waiting
    ensures var n := Next(u, u.jobs[0], reserved, w); Run(u, schedule + [0]) == State(n.1, [n.0])
  {
    hide Next;
    assert (schedule + [0])[..|schedule|] == schedule;
  }

  const REPORT := Result(DEPLOYMENTS.gr, Listed([STUCK], SERVED))

  lemma OneResult(list: seq<Entry>, u: Setup)
    requires SetupFor(SCENE, list, u)
    ensures AllDelivered(SCENE, u) && ResultsOf(SCENE, u) == [REPORT]
  {
    OneJob(list, u);
    hide JobsFor;
    WorkerReports(u);
    var s := Run(u, SCENE.schedule);
    hide Run;
    OneDelivery(u, s);
  }

  lemma OneDelivery(u: Setup, s: State)
    requires |u.jobs| == 1 && u.jobs[0].resource == DEPLOYMENTS && s.workers == [Finished(Listed([STUCK], SERVED))]
    ensures Deliveries(u, s, [0]) == [REPORT]
  {
    assert [0][..0] == [] && Deliveries(u, s, []) == [] && !Delivered([], DEPLOYMENTS.gr);
  }

  /** What is concluded from the report. */
  lemma ReportSays(o: Observation)
    ensures Delivers(SCENE.scope, REPORT, "u")
    ensures IsSource(SCENE.scope, REPORT, o) ==> o.target.uid == "u" && o.policy == POLICY
  {
    Selected();
    hide Stuck, Winner;
    assert STUCK in REPORT.outcome.items;
    assert "u" in StuckIn(SCENE.scope, DEPLOYMENTS.gr, SERVED, [STUCK]);
  }

  lemma ReportObserved(observations: map<string, Observation>)
    requires Observes(SCENE.scope, [REPORT], observations)
    ensures observations.Keys == {"u"} && observations["u"].policy == POLICY
  {
    hide IsSource, Delivers;
    assert REPORT in [REPORT];
    forall uid | uid in observations ensures uid == "u" && observations[uid].policy == POLICY {
      ReportSays(observations[uid]);
    }
    assert "u" in observations by { ReportSays(Observation(TARGET, POLICY, STUCK)); }
  }

  /** Exactly the one target is observed, under the policy. */
  lemma OneObserved(list: seq<Entry>, u: Setup, scan: Scan)
    requires Account(SCENE, list, u, scan)
    ensures AllDelivered(SCENE, u)
    ensures scan.observations.Keys == {"u"} && scan.observations["u"].policy == POLICY
  {
    hide SetupFor, ResultsOf, AllDelivered, Covers, Observes;
    OneResult(list, u);
    ScopeOf(list, u);
    ReportObserved(scan.observations);
  }

  lemma ScopeOf(list: seq<Entry>, u: Setup)
    requires SetupFor(SCENE, list, u)
    ensures u.scope == SCENE.scope
  {
    hide JobsFor;
  }

  // ---- The cycle ----

  lemma {:induction false} ConflictsFew(a: nat, b: nat)
    ensures Conflicts(OneConflict, a, b) <= if b <= 1 then 0 else 1
    decreases b
  {
    if a < b { ConflictsFew(a, b - 1); }
  }

  lemma NoTrouble(from: nat, to: nat)
    ensures !Trouble(OneConflict, from, to)
  {
    forall a: nat, b: nat ensures Conflicts(OneConflict, a, b) < RETRY_STEPS { ConflictsFew(a, b); }
  }

  /** The target's turn begins with the stage. */
  lemma FirstTurn(cfg: Incidents.Config, calls: nat, entries: seq<Entry>, list: seq<Entry>,
                  diagnosed: map<string, Diagnosed>, turns: map<string, nat>)
    requires ListIs(cfg, OneConflict, 1, calls, entries, list, diagnosed, turns) && diagnosed.Keys == {"u"}
    ensures "u" in turns && turns["u"] == 1
  {
    hide EntryIs;
    assert turns.Keys == {"u"} && turns != map[];
    var v :| v in turns && turns[v] == 1;
    assert v in turns.Keys;
  }

  lemma Kept(o: Observation, d: Diagnosed)
    requires o.policy == POLICY && DiagnosedFrom(d, o, INPUTS.diagnose, INPUTS.now)
    ensures d.result == RESULT && d.KeptFor() == Some(10) && Revives(d.result)
    ensures INCIDENT.Resolved() && INCIDENT.retention != d.KeptFor()
    ensures Expired(INCIDENT.(retention := d.KeptFor()), INPUTS.byUID, INPUTS.now)
  {
  }

  /** Although the target was found and its diagnosis is complete, the conflict on the annotation has the
      incident deleted. */
  lemma DeletedAtTheEnd(cfg: Incidents.Config, calls: nat, entries: seq<Entry>, list: seq<Entry>, end: Store,
                        u: Setup, scan: Scan, diagnosed: map<string, Diagnosed>, turns: map<string, nat>)
    requires Lists(entries, BEFORE) && Account(SCENE, entries, u, scan)
    requires AllFrom(diagnosed, scan.observations, INPUTS.diagnose, INPUTS.now)
    requires ListIs(cfg, OneConflict, 1, calls, entries, list, diagnosed, turns)
    requires ExactlySettled(cfg, INPUTS, OneConflict, BEFORE, end, scan, diagnosed, turns)
    ensures "u" in diagnosed && diagnosed["u"].result == RESULT && end == map[]
  {
    hide Account, Lists, ListIs, Expired, Trouble, Fated, Follows, Desired, EndsRight;
    OneObserved(entries, u, scan);
    assert "u" in scan.observations && "u" in diagnosed;
    assert diagnosed.Keys == {"u"} by {
      forall v | v in diagnosed.Keys ensures v == "u" { assert v in scan.observations.Keys; }
    }
    Kept(scan.observations["u"], diagnosed["u"]);
    FirstTurn(cfg, calls, entries, list, diagnosed, turns);
    NoTrouble(1, calls);
    assert Canonical(BEFORE) && BEFORE[IncidentName("u")] == INCIDENT;
    RevivedLostExactly(cfg, INPUTS, OneConflict, 1, calls, entries, list, BEFORE, end, scan, diagnosed, turns, "u");
    forall n ensures n !in end {
      assert n in end ==> n in BEFORE || exists v :: v in scan.observations && n == IncidentName(v);
      assert n in BEFORE ==> n == IncidentName("u");
      assert forall v :: v in scan.observations ==> v in scan.observations.Keys;
    }
  }

  /** A resolved incident whose target is found stuck again, with a complete diagnosis, is gone at the end of a
      cycle that reports no error. */
  method RevivedThenDeleted() returns (report: Report, after: Store, ghost diagnosed: map<string, Diagnosed>)
    ensures report.scopeListed && !report.degraded && report.listed && !report.lost
    ensures "u" in diagnosed && diagnosed["u"].result == RESULT && Warrants(RESULT) && RESULT.complete
    ensures IncidentName("u") in BEFORE && after == map[]
  {
    hide Account, Lists, ListIs, Trouble, ExactlySettled, AllDelivered, AllFrom, ValidScene, Honest, AnyBound,
      ResultsOf, FullyObserved, Unlistable, AnyActs, AnyOutdates, CountIn, PhaseNames, LeftAlone, AllSettled,
      AllDisarmed, ResolvedTruthfully, SomeDiagnosisFails;
    SceneIsValid();
    var cfg := Incidents.Config(60, 60);
    var scanner := new Scanner(cfg, OneConflict, BEFORE);
    ghost var entries, setup, scan, turns;
    report, entries, diagnosed, setup, scan, turns := scanner.Run(INPUTS);
    after := scanner.store;
    NoTrouble(0, scanner.calls);
    OneObserved(entries, setup, scan);
    DeletedAtTheEnd(cfg, scanner.calls, entries, scanner.list, after, setup, scan, diagnosed, turns);
  }

  // ---- A refused listing ----

  /** A cycle whose first incident listing is refused while everything else works: an Active incident keeps
      its actions and its evidence. */
  method FailedScopeListing() returns (before: Store, after: Store)
    ensures var name := IncidentName("u");
            && name in before && before[name].incident.status.phase.Active?
            && before[name].incident.status.actions != []
            && before[name].incident.status.evidenceTime.Some? && name in after && after[name] == before[name]
  {
    var action := Action("action-1", RemoveResourceFinalizer, RiskLow, TARGET, "example.com/hold", true, "", "7", "");
    var status := Incidents.EMPTY_STATUS.(phase := Incidents.Active, actions := [action], evidenceTime := Some(0),
                                          evidenceExpires := Some(180));
    var name := IncidentName("u");
    before := map[name := Entry(name, None, Incidents.Incident("i", TARGET, status))];
    SceneIsValid();
    hide ValidScene;
    var scanner := new Scanner(Incidents.Config(60, 60), (k: nat) => if k == 0 then Rejected else Done, before);
    assert scanner.oracle(scanner.calls) == Rejected;
    var report, entries, diagnosed, setup, scan, turns := scanner.Run(INPUTS);
    after := scanner.store;
    assert before[name].Target().GR() in CATALOG.resources;
  }
}
