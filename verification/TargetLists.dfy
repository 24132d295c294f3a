/** listResource and listResourceVersion (internal/scanner/scanner.go) as concurrent workers that read
    lists item by item and share one target budget. */
module TargetLists {
  import opened Types
  import opened Discovery
  import opened Paging
  import Policy

  /** What decides whether an object is selected: the ready policies, best first, and namespace labels. */
  datatype Scope = Scope(policies: seq<Policy.CompiledPolicy>, nsLabels: map<string, Labels>)

  function TargetOf(scope: Scope, gr: GroupResource, v: Version, m: Meta): Policy.Target {
    Policy.Target(gr, v.namespaced, m.ns, m.labels, if m.ns in scope.nsLabels then scope.nsLabels[m.ns] else map[])
  }

  function Winner(scope: Scope, gr: GroupResource, v: Version, m: Meta): Option<Policy.CompiledPolicy> {
    Policy.FirstMatch(scope.policies, TargetOf(scope, gr, v, m))
  }

  /** Selected by a policy and being deleted. */
  predicate Stuck(scope: Scope, gr: GroupResource, v: Version, m: Meta) {
    m.deletion.Some? && Winner(scope, gr, v, m).Some?
  }

  /** An object is stuck when it is being deleted and a policy of the scope selects its resource, scope, namespace
      and labels, with the labels of its namespace; its policy is the first that does. */
  lemma StuckExactly(scope: Scope, gr: GroupResource, v: Version, m: Meta)
    ensures var t := Policy.Target(gr, v.namespaced, m.ns, m.labels,
                                   if m.ns in scope.nsLabels then scope.nsLabels[m.ns] else map[]);
            && (Stuck(scope, gr, v, m) <==>
                  m.deletion.Some? && exists p :: p in scope.policies && Policy.Match(p, t))
            && (Winner(scope, gr, v, m).Some? ==>
                  exists i :: 0 <= i < |scope.policies| && scope.policies[i] == Winner(scope, gr, v, m).value
                    && Policy.Match(scope.policies[i], t)
                    && forall j :: 0 <= j < i ==> !Policy.Match(scope.policies[j], t))
  {
    hide Policy.Match, Policy.FirstMatch;
    Policy.FirstMatchExactly(scope.policies, TargetOf(scope, gr, v, m));
  }

  /** UIDs and namespaced names that open incidents refer to. */
  datatype Tracked = Tracked(uids: set<string>, identities: set<string>)

  function Identity(ns: string, name: string): string { ns + "\0" + name }

  predicate IsTracked(t: Tracked, m: Meta) { m.uid in t.uids || Identity(m.ns, m.name) in t.identities }

  /** One resource to list: its versions in the order they are tried and what must be kept of it. */
  datatype Job = Job(resource: Resource, versions: seq<Version>, tracked: Tracked)

  function Retain(scope: Scope, job: Job, v: Version, items: seq<Meta>): seq<Meta> {
    if items == [] then []
    else
      var m := items[|items| - 1];
      Retain(scope, job, v, items[..|items| - 1])
      + if Stuck(scope, job.resource.gr, v, m) || IsTracked(job.tracked, m) then [m] else []
  }

  lemma {:induction false} RetainMembers(scope: Scope, job: Job, v: Version, items: seq<Meta>)
    ensures forall m :: m in Retain(scope, job, v, items) <==>
              m in items && (Stuck(scope, job.resource.gr, v, m) || IsTracked(job.tracked, m))
  {
    if items != [] {
      RetainMembers(scope, job, v, items[..|items| - 1]);
      assert items == items[..|items| - 1] + [items[|items| - 1]];
    }
  }

  lemma RetainSnoc(scope: Scope, job: Job, v: Version, items: seq<Meta>, k: nat)
    requires k < |items|
    ensures Retain(scope, job, v, items[..k + 1]) ==
              Retain(scope, job, v, items[..k])
              + if Stuck(scope, job.resource.gr, v, items[k])
              || IsTracked(job.tracked, items[k]) then [items[k]] else []
  {
    assert items[..k + 1][..k] == items[..k];
  }

  /** targetBudget.reserve, atomic under its mutex. */
  function Reserve(maximum: int, reserved: set<string>, uid: string): (r: (bool, set<string>))
    ensures r.0 ==> uid in r.1
    ensures !r.0 ==> r.1 == reserved && |reserved| >= maximum
    ensures r.0 <==> uid in reserved || |reserved| < maximum
    ensures r.1 <= reserved + {uid}
    ensures reserved <= r.1 && (|reserved| <= Max(0, maximum) ==> |r.1| <= Max(0, maximum))
  {
    if uid in reserved then (true, reserved)
    else if |reserved| >= maximum then (false, reserved)
    else (true, reserved + {uid})
  }

  /** `Listed` is a success, `Bound` is errTargetBound with what was retained until then. */
  datatype Outcome =
    | Listed(items: seq<Meta>, version: Version)
    | Bound(items: seq<Meta>, version: Version)
    | Failed

  /** A worker between two of its atomic actions: version `at`, `fetched` items received, `seen` of them
      looked at. */
  datatype Worker =
    | Waiting
    | Reading(at: nat, fetched: nat, seen: nat, more: bool, retained: seq<Meta>)
    | Finished(outcome: Outcome)

  datatype Setup = Setup(scope: Scope, jobs: seq<Job>, serve: (GroupResource, string) -> Listing, pageSize: nat,
                         maxTargets: int)

  ghost predicate ValidSetup(u: Setup) {
    && u.pageSize > 0 && u.maxTargets > 0 && (forall gr, v :: Honours(u.serve(gr, v)))
    && forall job :: job in u.jobs ==> job.versions == Ordered(job.resource, job.resource.preferred.version)
  }

  datatype State = State(reserved: set<string>, workers: seq<Worker>)

  function ListOf(u: Setup, job: Job, v: Version): Listing { u.serve(job.resource.gr, v.version) }

  function StartVersion(job: Job, at: nat): Worker {
    if at < |job.versions| then Reading(at, 0, 0, true, []) else Finished(Failed)
  }

  /** Ask for the next page. */
  function NextPage(u: Setup, job: Job, w: Worker): Worker
    requires w.Reading? && w.at < |job.versions|
  {
    var reply := ListOf(u, job, job.versions[w.at]).answer(w.fetched, u.pageSize);
    if reply.Found? then w.(fetched := w.fetched + reply.value.count, more := reply.value.more)
    else if Unavailable(reply) then StartVersion(job, w.at + 1)
    else Finished(Failed)
  }

  /** Look at the next item of the current page. */
  function NextItem(u: Setup, job: Job, reserved: set<string>, w: Worker, m: Meta): (Worker, set<string>)
    requires w.Reading? && w.at < |job.versions|
  {
    var v := job.versions[w.at];
    var stuck := Stuck(u.scope, job.resource.gr, v, m);
    if !stuck && !IsTracked(job.tracked, m) then (w.(seen := w.seen + 1), reserved)
    else
      var kept := w.(seen := w.seen + 1, retained := w.retained + [m]);
      if !stuck then (kept, reserved)
      else
        var r := Reserve(u.maxTargets, reserved, m.uid);
        if r.0 then (kept, r.1) else (Finished(Bound(w.retained, v)), r.1)
  }

  /** One atomic action of a worker. A version number or an item number out of range never occurs. */
  function Next(u: Setup, job: Job, reserved: set<string>, w: Worker): (Worker, set<string>) {
    match w
    case Waiting => (StartVersion(job, 0), reserved)
    case Reading(at, fetched, seen, more, retained) =>
      if at >= |job.versions| then (w, reserved)
      else
        var items := ListOf(u, job, job.versions[at]).items;
        if seen < fetched then if seen < |items| then NextItem(u, job, reserved, w, items[seen]) else (w, reserved)
        else if more then (NextPage(u, job, w), reserved)
        else (Finished(Listed(retained, job.versions[at])), reserved)
    case Finished(_) => (w, reserved)
  }

  // ---- What holds of every worker ----

  /** Every stuck object among the items has its UID reserved. */
  ghost predicate AllReserved(u: Setup, job: Job, v: Version, items: seq<Meta>, reserved: set<string>) {
    forall m :: m in items && Stuck(u.scope, job.resource.gr, v, m) ==> m.uid in reserved
  }

  /** How reading a version's list with the configured page size ends. */
  function EndAt(u: Setup, job: Job, v: Version): End { Walk(ListOf(u, job, v), u.pageSize, 0) }

  ghost predicate MissingUpTo(u: Setup, job: Job, n: nat) {
    forall k :: 0 <= k < n && k < |job.versions| ==> EndAt(u, job, job.versions[k]).Missing?
  }

  /** The version is tried: every version before it is missing. */
  ghost predicate Tried(u: Setup, job: Job, v: Version) {
    exists k :: 0 <= k < |job.versions| && job.versions[k] == v && MissingUpTo(u, job, k)
  }

  /** Every version of the resource is missing, or the first that is not missing breaks. */
  ghost predicate Unlistable(u: Setup, job: Job) {
    MissingUpTo(u, job, |job.versions|) || exists v :: Tried(u, job, v) && EndAt(u, job, v).Broken?
  }

  /** What a worker may report: all that matters of the first version that is not missing, read to its
      end; a part of it when the budget is used up; or a failure that the server caused. */
  ghost predicate OutcomeOk(u: Setup, job: Job, reserved: set<string>, o: Outcome) {
    match o
    case Listed(items, v) =>
      && Tried(u, job, v) && EndAt(u, job, v).Complete?
      && items == Retain(u.scope, job, v, ListOf(u, job, v).items) && AllReserved(u, job, v, items, reserved)
    case Bound(items, v) =>
      && Tried(u, job, v) && AllReserved(u, job, v, items, reserved) && |reserved| >= u.maxTargets
      && (exists n ::
            0 <= n <= |ListOf(u, job, v).items| && items == Retain(u.scope, job, v, ListOf(u, job, v).items[..n]))
    case Failed => Unlistable(u, job)
  }

  ghost predicate ReadingOk(u: Setup, job: Job, reserved: set<string>, w: Worker)
    requires w.Reading?
  {
    && w.at < |job.versions| && MissingUpTo(u, job, w.at)
    && var v := job.versions[w.at];
    && var l := ListOf(u, job, v);
    && w.seen <= w.fetched <= |l.items|
    && (if w.more then EndAt(u, job, v) == Walk(l, u.pageSize, w.fetched)
        else w.fetched == |l.items| && EndAt(u, job, v).Complete?)
    && w.retained == Retain(u.scope, job, v, l.items[..w.seen])
    && AllReserved(u, job, v, w.retained, reserved)
  }

  ghost predicate WorkerOk(u: Setup, job: Job, reserved: set<string>, w: Worker) {
    match w
    case Waiting => true
    case Reading(_, _, _, _, _) => ReadingOk(u, job, reserved, w)
    case Finished(o) => OutcomeOk(u, job, reserved, o)
  }

  lemma StartOk(u: Setup, job: Job, reserved: set<string>, at: nat)
    requires at <= |job.versions| && MissingUpTo(u, job, at)
    ensures WorkerOk(u, job, reserved, StartVersion(job, at))
  {
  }

  lemma PageOk(u: Setup, job: Job, reserved: set<string>, w: Worker)
    requires ValidSetup(u) && w.Reading? && w.more && ReadingOk(u, job, reserved, w)
    ensures WorkerOk(u, job, reserved, NextPage(u, job, w))
  {
    hide Retain, AllReserved;
    var v := job.versions[w.at];
    var reply := ListOf(u, job, v).answer(w.fetched, u.pageSize);
    if !reply.Found? {
      assert Tried(u, job, v);
      if Unavailable(reply) { StartOk(u, job, reserved, w.at + 1); }
    }
    hide StartVersion;
  }

  lemma ItemOk(u: Setup, job: Job, reserved: set<string>, w: Worker)
    requires ValidSetup(u) && w.Reading? && ReadingOk(u, job, reserved, w) && w.seen < w.fetched
    ensures var n := NextItem(u, job, reserved, w, ListOf(u, job, job.versions[w.at]).items[w.seen]);
            && WorkerOk(u, job, n.1, n.0) && reserved <= n.1
            && (|reserved| <= Max(0, u.maxTargets) ==> |n.1| <= Max(0, u.maxTargets))
  {
    hide Stuck, Retain, IsTracked, Reserve, Walk, MissingUpTo;
    var l := ListOf(u, job, job.versions[w.at]);
    assert Tried(u, job, job.versions[w.at]);
    RetainSnoc(u.scope, job, job.versions[w.at], l.items, w.seen);
    hide ListOf;
  }

  lemma NextOk(u: Setup, job: Job, reserved: set<string>, w: Worker)
    requires ValidSetup(u) && WorkerOk(u, job, reserved, w)
    ensures var n := Next(u, job, reserved, w);
            && WorkerOk(u, job, n.1, n.0) && reserved <= n.1
            && (|reserved| <= Max(0, u.maxTargets) ==> |n.1| <= Max(0, u.maxTargets))
  {
    hide Stuck, Retain, IsTracked, NextItem, NextPage, AllReserved, Walk, MissingUpTo;
    match w
    case Waiting =>
      assert MissingUpTo(u, job, 0) by { NoneMissing(u, job); }
      StartOk(u, job, reserved, 0);
    case Reading(at, fetched, seen, more, retained) =>
      if seen < fetched {
        ItemOk(u, job, reserved, w);
      } else if more {
        PageOk(u, job, reserved, w);
      } else {
        assert ListOf(u, job, job.versions[at]).items[..seen] == ListOf(u, job, job.versions[at]).items;
        assert Tried(u, job, job.versions[at]);
      }
    case Finished(_) =>
  }

  lemma NoneMissing(u: Setup, job: Job)
    ensures MissingUpTo(u, job, 0)
  {
  }

  /** Reservations by other workers do no harm. */
  lemma OthersDoNoHarm(u: Setup, job: Job, reserved: set<string>, more: set<string>, w: Worker)
    requires WorkerOk(u, job, reserved, w) && reserved <= more
    ensures WorkerOk(u, job, more, w)
  {
    hide Stuck, Retain;
    Larger(reserved, more);
  }

  lemma Larger(a: set<string>, b: set<string>)
    requires a <= b
    ensures |a| <= |b|
  {
    assert b == a + (b - a);
  }

  // ---- Every interleaving ----

  ghost predicate Invariant(u: Setup, s: State) {
    && |s.workers| == |u.jobs| && |s.reserved| <= u.maxTargets
    && forall j :: 0 <= j < |u.jobs| ==> WorkerOk(u, u.jobs[j], s.reserved, s.workers[j])
  }

  function Step(u: Setup, s: State, j: nat): State
  {
    if j < |u.jobs| && j < |s.workers| then
      var n := Next(u, u.jobs[j], s.reserved, s.workers[j]);
      State(n.1, s.workers[j := n.0])
    else s
  }

  lemma StepKeepsInvariant(u: Setup, s: State, j: nat)
    requires ValidSetup(u) && Invariant(u, s)
    ensures Invariant(u, Step(u, s, j))
  {
    hide WorkerOk;
    if j < |u.jobs| {
      NextOk(u, u.jobs[j], s.reserved, s.workers[j]);
      var s' := Step(u, s, j);
      hide Next;
      forall k | 0 <= k < |u.jobs| ensures WorkerOk(u, u.jobs[k], s'.reserved, s'.workers[k]) {
        if k != j { OthersDoNoHarm(u, u.jobs[k], s.reserved, s'.reserved, s.workers[k]); }
      }
    }
  }

  function Idle(n: nat): (ws: seq<Worker>)
    ensures |ws| == n && forall k :: 0 <= k < n ==> ws[k].Waiting?
  {
    if n == 0 then [] else Idle(n - 1) + [Waiting]
  }

  /** The state after a schedule that names the worker of each atomic action. */
  function Run(u: Setup, schedule: seq<nat>): State {
    if schedule == [] then State({}, Idle(|u.jobs|))
    else Step(u, Run(u, schedule[..|schedule| - 1]), schedule[|schedule| - 1])
  }

  /** Under every interleaving the budget is never exceeded, every stuck object a worker retained has
      its UID reserved, and what a worker reports is exact. */
  lemma {:induction false} EveryInterleaving(u: Setup, schedule: seq<nat>)
    requires ValidSetup(u)
    ensures Invariant(u, Run(u, schedule))
  {
    if schedule != [] {
      EveryInterleaving(u, schedule[..|schedule| - 1]);
      StepKeepsInvariant(u, Run(u, schedule[..|schedule| - 1]), schedule[|schedule| - 1]);
    }
  }

  // ---- Every worker finishes ----

  /** The most actions that reading the versions from `at` on takes: every item may come on a page of its own
      and is looked at, a last page may be empty, and the list is closed. */
  function Work(u: Setup, job: Job, at: nat): (n: nat)
    decreases |job.versions| - at
  {
    if at >= |job.versions| then 0
    else 2 * |ListOf(u, job, job.versions[at]).items| + 2 + Work(u, job, at + 1)
  }

  /** The most actions a worker takes from its start to its outcome. */
  function Allowance(u: Setup, job: Job): nat { Work(u, job, 0) + 1 }

  /** The most actions it has left. */
  function Left(u: Setup, job: Job, w: Worker): int {
    match w
    case Waiting => Allowance(u, job)
    case Reading(at, fetched, seen, more, _) =>
      if at >= |job.versions| then 0
      else
        var n := |ListOf(u, job, job.versions[at]).items|;
        (n - seen) + (n - fetched) + (if more then 2 else 1) + Work(u, job, at + 1)
    case Finished(_) => 0
  }

  lemma LeftAtStart(u: Setup, job: Job, at: nat)
    ensures Left(u, job, StartVersion(job, at)) == Work(u, job, at)
  {
  }

  lemma PageProgress(u: Setup, job: Job, reserved: set<string>, w: Worker)
    requires ValidSetup(u) && w.Reading? && w.more && ReadingOk(u, job, reserved, w)
    ensures Left(u, job, NextPage(u, job, w)) < Left(u, job, w)
  {
    hide Retain, AllReserved, Walk, MissingUpTo, Work, StartVersion;
    LeftAtStart(u, job, w.at + 1);
    assert Honours(ListOf(u, job, job.versions[w.at]));
  }

  /** Every action of an unfinished worker leaves it fewer. */
  lemma Progress(u: Setup, job: Job, reserved: set<string>, w: Worker)
    requires ValidSetup(u) && WorkerOk(u, job, reserved, w) && !w.Finished?
    ensures 0 < Left(u, job, w) && Left(u, job, Next(u, job, reserved, w).0) < Left(u, job, w)
  {
    hide Stuck, Retain, IsTracked, NextPage, AllReserved, Walk, MissingUpTo, Reserve, Work, StartVersion;
    LeftAtStart(u, job, 0);
    if w.Reading? && w.seen >= w.fetched && w.more { PageProgress(u, job, reserved, w); }
  }

  lemma {:induction false} TurnsCount(u: Setup, schedule: seq<nat>, j: nat)
    requires ValidSetup(u) && j < |u.jobs|
    ensures |Run(u, schedule).workers| == |u.jobs|
    ensures var w := Run(u, schedule).workers[j];
            w.Finished? || Left(u, u.jobs[j], w) + multiset(schedule)[j] <= Allowance(u, u.jobs[j])
  {
    hide WorkerOk, Next, Left, Allowance;
    EveryInterleaving(u, schedule);
    if schedule == [] {
      assert Left(u, u.jobs[j], Waiting) == Allowance(u, u.jobs[j]) by { LeftWaiting(u, u.jobs[j]); }
    } else {
      var init, k := schedule[..|schedule| - 1], schedule[|schedule| - 1];
      assert schedule == init + [k];
      TurnsCount(u, init, j);
      EveryInterleaving(u, init);
      var s := Run(u, init);
      if s.workers[j].Finished? {
        StaysFinished(u, u.jobs[j], s.reserved, s.workers[j]);
      } else if j == k {
        Progress(u, u.jobs[j], s.reserved, s.workers[j]);
      }
    }
  }

  lemma LeftWaiting(u: Setup, job: Job)
    ensures Left(u, job, Waiting) == Allowance(u, job)
  {
  }

  lemma StaysFinished(u: Setup, job: Job, reserved: set<string>, w: Worker)
    requires w.Finished?
    ensures Next(u, job, reserved, w).0 == w
  {
  }

  /** A worker that gets enough turns finishes, whatever the server answers and whatever the others do in
      between. */
  lemma EveryWorkerFinishes(u: Setup, schedule: seq<nat>, j: nat)
    requires ValidSetup(u) && j < |u.jobs| && multiset(schedule)[j] >= Allowance(u, u.jobs[j])
    ensures |Run(u, schedule).workers| == |u.jobs| && Run(u, schedule).workers[j].Finished?
  {
    hide WorkerOk, Next, Left, Allowance, Run;
    TurnsCount(u, schedule, j);
    EveryInterleaving(u, schedule);
    var s := Run(u, schedule);
    if !s.workers[j].Finished? { Progress(u, u.jobs[j], s.reserved, s.workers[j]); }
  }

  function Repeated(j: nat, k: nat): (s: seq<nat>)
    ensures multiset(s)[j] == k && |s| == k
  {
    if k == 0 then [] else Repeated(j, k - 1) + [j]
  }

  /** A schedule under which every worker finishes: one after the other. */
  function InTurn(u: Setup, n: nat): (schedule: seq<nat>)
    requires n <= |u.jobs|
    ensures forall j :: 0 <= j < n ==> multiset(schedule)[j] >= Allowance(u, u.jobs[j])
  {
    if n == 0 then [] else InTurn(u, n - 1) + Repeated(n - 1, Allowance(u, u.jobs[n - 1]))
  }
}
