/** Values behind a scanner cycle: stored incidents, the cached list, API replies, and what it means for
    an incident to be dealt with (internal/scanner/scanner.go, internal/scanner/cycle.go). */
module CycleFacts {
  import opened Types
  import opened Discovery
  import opened TargetLists
  import opened Coverage
  import Policy
  import Framing
  import Incidents

  /** The number of attempts of RetryOnConflict with the default backoff. */
  const RETRY_STEPS: nat := 4

  // ---- API replies ----

  /** The answer to an API call: `Lost` was applied although the caller sees an error. A call that only
      reads fails on a fatal reply. */
  datatype ApiReply = Done | Conflict | TooLarge | Rejected | Lost

  predicate Fatal(r: ApiReply) { r.TooLarge? || r.Rejected? || r.Lost? }

  predicate Applied(r: ApiReply) { r.Done? || r.Lost? }

  ghost function Conflicts(oracle: nat -> ApiReply, from: nat, to: nat): nat {
    if to <= from then 0 else Conflicts(oracle, from, to - 1) + if oracle(to - 1).Conflict? then 1 else 0
  }

  /** The most calls that the attempts of one retry loop make: a read, a patch and a status update each. */
  const RETRY_CALLS: nat := 3 * RETRY_STEPS

  /** So many conflicts in a row of calls that one retry loop may have used up all its attempts. */
  ghost predicate RetriesUsedUp(oracle: nat -> ApiReply, from: nat, to: nat) {
    exists a: nat, b: nat :: from <= a <= b <= to && b - a <= RETRY_CALLS && Conflicts(oracle, a, b) >= RETRY_STEPS
  }

  /** Among the calls of a period one failed, or there were enough conflicts close together to use up the
      retries of one loop. */
  ghost predicate Trouble(oracle: nat -> ApiReply, from: nat, to: nat) {
    (exists k :: from <= k < to && Fatal(oracle(k))) || RetriesUsedUp(oracle, from, to)
  }

  lemma {:induction false} ConflictsSplit(oracle: nat -> ApiReply, a: nat, b: nat, c: nat)
    requires a <= b <= c
    ensures Conflicts(oracle, a, c) == Conflicts(oracle, a, b) + Conflicts(oracle, b, c)
    decreases c
  {
    if b < c { ConflictsSplit(oracle, a, b, c - 1); }
  }

  lemma TroubleGrows(oracle: nat -> ApiReply, a: nat, b: nat, c: nat, d: nat)
    requires a <= b <= c <= d && Trouble(oracle, b, c)
    ensures Trouble(oracle, a, d)
  {
  }

  /** Trouble in either of two consecutive periods is trouble in both together. */
  lemma TroubleEither(oracle: nat -> ApiReply, a: nat, b: nat, c: nat)
    requires a <= b <= c
    ensures Trouble(oracle, a, b) || Trouble(oracle, b, c) ==> Trouble(oracle, a, c)
  {
    hide Trouble;
    if Trouble(oracle, a, b) { TroubleGrows(oracle, a, a, b, c); }
    if Trouble(oracle, b, c) { TroubleGrows(oracle, a, b, c, c); }
  }

  lemma EnoughConflicts(oracle: nat -> ApiReply, a: nat, b: nat)
    requires a <= b <= a + RETRY_CALLS && Conflicts(oracle, a, b) >= RETRY_STEPS
    ensures Trouble(oracle, a, b)
  {
  }

  // ---- Incidents and their names ----

  function IncidentName(uid: string): string { "deletion-" + uid }

  lemma NamesIdentifyUids(u: string, v: string)
    requires IncidentName(u) == IncidentName(v)
    ensures u == v
  {
    assert u == IncidentName(u)[9..] && v == IncidentName(v)[9..];
  }

  type Store = map<string, Entry>

  /** Every incident is stored under the name the scanner gives it. */
  ghost predicate Canonical(store: Store) {
    forall n :: n in store ==> store[n].name == n && n == IncidentName(store[n].Target().uid)
  }

  /** The cached list: one entry per stored incident it names. */
  ghost predicate Named(list: seq<Entry>, store: Store) {
    && (forall i, j :: 0 <= i < j < |list| ==> list[i].name != list[j].name)
    && (forall i :: 0 <= i < |list| ==> list[i].name in store && list[i].Target() == store[list[i].name].Target())
  }

  ghost predicate InList(list: seq<Entry>, name: string) { exists i :: 0 <= i < |list| && list[i].name == name }

  /** List and store agree on every incident's phase; an incident the list misses has none yet. */
  ghost predicate SamePhases(list: seq<Entry>, store: Store) {
    && (forall i :: 0 <= i < |list| && list[i].name in store ==>
          list[i].incident.status.phase == store[list[i].name].incident.status.phase)
    && (forall n :: n in store ==> InList(list, n) || store[n].incident.status.phase.NoPhase?)
  }

  /** What one attempt to refresh an incident came to. */
  datatype Attempt = Refreshed | Again | Oversized | Error

  function AttemptOf(reply: ApiReply): Attempt {
    match reply
    case Done => Refreshed
    case Conflict => Again
    case TooLarge => Oversized
    case Rejected => Error
    case Lost => Error
  }

  /** An attempt that did not succeed met a conflict or a fatal reply. */
  ghost predicate Explained(oracle: nat -> ApiReply, from: nat, to: nat, a: Attempt) {
    && (a.Again? ==> Conflicts(oracle, from, to) >= 1)
    && (a.Oversized? || a.Error? ==> exists k :: from <= k < to && Fatal(oracle(k)))
  }

  lemma OneCallExplains(oracle: nat -> ApiReply, at: nat)
    ensures Explained(oracle, at, at + 1, AttemptOf(oracle(at)))
    ensures Fatal(oracle(at)) ==> Explained(oracle, at, at + 1, Error)
  {
    assert Conflicts(oracle, at, at + 1) == Conflicts(oracle, at, at) + if oracle(at).Conflict? then 1 else 0;
  }

  lemma NothingToExplain(oracle: nat -> ApiReply, at: nat)
    ensures Explained(oracle, at, at, Refreshed)
  {
  }

  lemma ExplainedLater(oracle: nat -> ApiReply, a: nat, b: nat, c: nat, t: Attempt)
    requires a <= b <= c && Explained(oracle, b, c, t)
    ensures Explained(oracle, a, c, t)
  {
    ConflictsSplit(oracle, a, b, c);
  }

  lemma AttemptCounts(oracle: nat -> ApiReply, a: nat, b: nat, c: nat, attempt: nat, t: Attempt)
    requires a <= b <= c && Explained(oracle, b, c, t) && Conflicts(oracle, a, b) >= attempt
    ensures t.Again? ==> Conflicts(oracle, a, c) >= attempt + 1
    ensures t.Oversized? || t.Error? ==> Trouble(oracle, a, c)
  {
    ConflictsSplit(oracle, a, b, c);
  }

  /** A first attempt that met a conflict and further ones that did not succeed are trouble. */
  lemma RetriesEnd(oracle: nat -> ApiReply, a: nat, b: nat, c: nat, t: Attempt)
    requires a <= b <= a + 3 && b <= c <= b + 3 * (RETRY_STEPS - 1) && Conflicts(oracle, a, b) >= 1
    requires t.Again? ==> Conflicts(oracle, b, c) >= RETRY_STEPS - 1
    requires t.Oversized? || t.Error? ==> Trouble(oracle, b, c)
    ensures !t.Refreshed? ==> Trouble(oracle, a, c)
  {
    ConflictsSplit(oracle, a, b, c);
    if t.Again? {
      EnoughConflicts(oracle, a, c);
    } else if !t.Refreshed? {
      TroubleGrows(oracle, a, b, c, c);
    }
  }

  /** What one cycle knows when it diagnoses an observed target. */
  datatype Diagnosed = Diagnosed(observed: Observation, result: Incidents.Result, now: int) {
    function Ref(): PolicyRef { PolicyRef(observed.policy.name, observed.policy.uid, observed.policy.generation) }
    function Name(): string { IncidentName(observed.target.uid) }
    function KeptFor(): Option<int> { Some(observed.policy.settings.resolvedTTL) }
  }

  function Desired(cfg: Incidents.Config, cur: Incidents.Status, d: Diagnosed): Incidents.Status {
    Incidents.Refreshed(cfg, cur, d.Ref(), d.observed.meta.deletion, d.result, d.now)
  }

  function WithStatus(e: Entry, st: Incidents.Status): Entry { e.(incident := e.incident.(status := st)) }

  /** Only the named incident may have changed, and not its identity. */
  ghost predicate OnlyTouches(before: Store, after: Store, name: string) {
    && after.Keys == before.Keys
    && (forall n :: n in before && n != name ==> after[n] == before[n])
    && (name in before ==> after[name].name == before[name].name && after[name].Target() == before[name].Target())
  }

  /** The list keeps its names, and no entry becomes resolved in place. */
  ghost predicate SameNames(before: seq<Entry>, after: seq<Entry>) {
    && |after| == |before|
    && forall i :: 0 <= i < |before| ==>
         after[i].name == before[i].name && after[i].Target() == before[i].Target()
         && (after[i].Resolved() ==> before[i].Resolved())
  }

  lemma SameNamesOnlyTouches(before: seq<Entry>, after: seq<Entry>, store: Store, store': Store, name: string)
    requires Named(before, store) && SameNames(before, after) && OnlyTouches(store, store', name) && Canonical(store)
    ensures Named(after, store') && Canonical(store')
  {
  }

  /** The status an incident should have once its diagnosis is persisted. */
  function StatusAfter(cfg: Incidents.Config, cur: Incidents.Status, d: Diagnosed): Incidents.Status {
    if !d.result.targetFound then Incidents.ResolvedAs(cur, "TargetAbsent", d.now)
    else if !d.result.uidMatches then Incidents.ResolvedAs(cur, "TargetReplaced", d.now)
    else Desired(cfg, cur, d)
  }

  /** A target without an incident gets one. */
  predicate Warrants(r: Incidents.Result) { r.targetFound && r.uidMatches && r.thresholdElapsed }

  /** The target was found: its incident is refreshed, and a resolved one is revived. */
  predicate Revives(r: Incidents.Result) { r.targetFound && r.uidMatches }

  /** The incident once its diagnosis is persisted. */
  function EntryAfter(cfg: Incidents.Config, e: Entry, d: Diagnosed): Entry {
    WithStatus(if Revives(d.result) then e.(retention := d.KeptFor()) else e, StatusAfter(cfg, e.incident.status, d))
  }

  /** The incident's entry in the cached list once its diagnosis is persisted. The list follows in place,
      except when the target was not found, and when the very first call, a patch of the retention
      annotation, is not answered well: then only the annotation follows. `first` is that answer. */
  function ListedAfter(cfg: Incidents.Config, e: Entry, d: Diagnosed, first: ApiReply): Entry {
    if !Revives(d.result) then e
    else if e.retention != d.KeptFor() && !first.Done? then e.(retention := d.KeptFor())
    else EntryAfter(cfg, e, d)
  }

  /** When the list keeps an entry as resolved. */
  predicate StaysResolved(e: Entry, d: Diagnosed, first: ApiReply) {
    e.Resolved() && (Revives(d.result) ==> e.retention != d.KeptFor() && !first.Done?)
  }

  lemma WhenStaysResolved(cfg: Incidents.Config, e: Entry, d: Diagnosed, first: ApiReply)
    ensures ListedAfter(cfg, e, d, first).Resolved() <==> StaysResolved(e, d, first)
    ensures StaysResolved(e, d, first) ==>
              ListedAfter(cfg, e, d, first) == if Revives(d.result) then e.(retention := d.KeptFor()) else e
    ensures !Revives(d.result) ==> ListedAfter(cfg, e, d, first) == e
  {
    DesiredIsOpen(cfg, e.incident.status, d);
  }

  lemma CreatedAfter(cfg: Incidents.Config, d: Diagnosed, uid: string)
    requires Revives(d.result)
    ensures EntryAfter(cfg, WithStatus(Created(cfg, d, uid), Incidents.EMPTY_STATUS), d) == Created(cfg, d, uid)
  {
    hide Desired;
  }

  /** A new incident as it is first persisted; the API server chooses its UID. */
  function Created(cfg: Incidents.Config, d: Diagnosed, uid: string): Entry {
    Entry(d.Name(), d.KeptFor(),
          Incidents.Incident(uid, d.observed.target, Desired(cfg, Incidents.EMPTY_STATUS, d)))
  }

  /** What persisting a diagnosis comes to: a known incident is exactly what its diagnosis calls for, and an
      unknown one is created exactly when the diagnosis warrants it. */
  ghost predicate Persisted(cfg: Incidents.Config, before: Store, after: Store, d: Diagnosed) {
    if d.Name() in before then d.Name() in after && after[d.Name()] == EntryAfter(cfg, before[d.Name()], d)
    else if Warrants(d.result) then
      d.Name() in after && after[d.Name()] == Created(cfg, d, after[d.Name()].incident.uid)
    else d.Name() !in after
  }

  /** Refreshing an incident changes its phase. */
  predicate PhaseMoves(cfg: Incidents.Config, e: Entry, d: Diagnosed) {
    e.incident.status.phase != Desired(cfg, e.incident.status, d).phase
  }

  /** Persisting a diagnosis makes the cached list stale: an incident is created, resolved or changes its
      phase. */
  predicate Outdates(cfg: Incidents.Config, store: Store, d: Diagnosed) {
    if d.Name() in store then !Revives(d.result) || PhaseMoves(cfg, store[d.Name()], d) else Warrants(d.result)
  }

  /** Two stores agree about a name. */
  ghost predicate SameAt(a: Store, b: Store, n: string) { (n in a <==> n in b) && (n in a ==> a[n] == b[n]) }

  ghost predicate OthersKept(before: seq<Entry>, after: seq<Entry>, name: string) {
    |after| == |before| && forall i :: 0 <= i < |before| && before[i].name != name ==> after[i] == before[i]
  }

  lemma StandStill(list: seq<Entry>, name: string)
    ensures SameNames(list, list) && OthersKept(list, list, name)
  {
  }

  lemma SameNamesTrans(a: seq<Entry>, b: seq<Entry>, c: seq<Entry>)
    requires SameNames(a, b) && SameNames(b, c)
    ensures SameNames(a, c)
  {
  }

  lemma DesiredIsOpen(cfg: Incidents.Config, cur: Incidents.Status, d: Diagnosed)
    ensures !Desired(cfg, cur, d).phase.Resolved?
  {
  }

  /** Replacing an entry by one of the same identity and phase, in the list, in the store, in both or
      in neither. */
  lemma InPlace(list: seq<Entry>, store: Store, slot: Option<nat>, e: Entry)
    requires Named(list, store) && e.name in store && e.Target() == store[e.name].Target()
    requires e.Resolved() ==> store[e.name].Resolved()
    requires slot.Some? ==> slot.value < |list| && list[slot.value] == store[e.name] && list[slot.value].name == e.name
    ensures var after := if slot.Some? then list[slot.value := e] else list;
            && SameNames(list, after) && OthersKept(list, after, e.name)
            && (SamePhases(list, store) && e.incident.status.phase == store[e.name].incident.status.phase ==>
                  SamePhases(after, store) && SamePhases(after, store[e.name := e]))
  {
    var after := if slot.Some? then list[slot.value := e] else list;
    forall n | InList(list, n) ensures InList(after, n) {
      var i :| 0 <= i < |list| && list[i].name == n;
      assert after[i].name == n;
    }
  }

  lemma Creating(list: seq<Entry>, store: Store, e: Entry)
    requires Canonical(store) && Named(list, store) && e.name !in store && e.name == IncidentName(e.Target().uid)
    requires e.incident.status == Incidents.EMPTY_STATUS
    ensures Canonical(store[e.name := e]) && Named(list, store[e.name := e])
    ensures SamePhases(list, store) ==> SamePhases(list, store[e.name := e])
  {
  }

  /** The named incident may be new or changed, and nothing else. */
  ghost predicate Grows(before: Store, after: Store, name: string) {
    && before.Keys <= after.Keys <= before.Keys + {name}
    && (forall n :: n in before && n != name ==> after[n] == before[n])
    && (name in before ==> after[name].Target() == before[name].Target())
  }

  lemma TouchedCanonical(before: Store, after: Store, name: string)
    requires Canonical(before) && OnlyTouches(before, after, name)
    ensures Canonical(after)
  {
  }

  lemma OneEntryCanonical(before: Store, after: Store, name: string)
    requires Canonical(before)
    requires forall n :: n != name ==> (n in after <==> n in before) && (n in after ==> after[n] == before[n])
    requires name in after ==>
               name in before && after[name].Target() == before[name].Target() && after[name].name == before[name].name
    ensures Canonical(after)
  {
  }

  // ---- When an incident is dealt with ----

  /** An incomplete diagnosis recommends nothing. */
  ghost predicate Honest(r: Incidents.Result) { !r.complete ==> r.actions == [] }

  /** An incident without actions and evidence. */
  ghost predicate Disarmed(st: Incidents.Status) {
    st.phase.DiagnosisFailed? && st.actions == [] && st.evidenceTime.None? && st.evidenceExpires.None?
  }

  /** Active with exactly what a complete diagnosis of this cycle found. */
  ghost predicate Current(st: Incidents.Status, d: Diagnosed) {
    && st.phase.Active? && d.result.complete && st.policyRef == Some(d.Ref())
    && st.findings == d.result.findings && st.actions == d.result.actions && st.snapshot == d.result.snapshot
  }

  ghost predicate SettledBy(st: Incidents.Status, d: Diagnosed) {
    st.phase.Resolved? || Current(st, d) || Disarmed(st)
  }

  lemma ResolvedSettles(cur: Incidents.Status, reason: string, d: Diagnosed)
    ensures SettledBy(Incidents.ResolvedAs(cur, reason, d.now), d)
  {
  }

  lemma FailedSettles(cur: Incidents.Status, d: Diagnosed)
    ensures SettledBy(Incidents.Failed(cur), d)
  {
  }

  lemma DesiredSettles(cfg: Incidents.Config, cur: Incidents.Status, d: Diagnosed)
    requires Honest(d.result)
    ensures SettledBy(Desired(cfg, cur, d), d)
  {
  }

  lemma FailedDisarms(cur: Incidents.Status)
    ensures Incidents.Failed(cur).phase.Resolved? || Disarmed(Incidents.Failed(cur))
  {
  }

  ghost predicate AllDisarmed(store: Store) {
    forall n :: n in store ==> store[n].Resolved() || Disarmed(store[n].incident.status)
  }

  ghost predicate Settled(st: Incidents.Status, uid: string, diagnosed: map<string, Diagnosed>) {
    st.phase.Resolved? || Disarmed(st) || (uid in diagnosed && Current(st, diagnosed[uid]))
  }

  /** The entry is as it was, or only its retention has been set. */
  ghost predicate SameButRetention(before: Entry, after: Entry, d: Diagnosed) {
    after == before || after == before.(retention := d.KeptFor())
  }

  lemma NothingButRetention(e: Entry, d: Diagnosed)
    ensures SameButRetention(e, e, d)
  {
  }

  /** Setting the retention twice is setting it once, and what is persisted does not depend on it. */
  lemma RetentionApart(cfg: Incidents.Config, first: Entry, before: Entry, after: Entry, d: Diagnosed)
    requires SameButRetention(first, before, d) && Revives(d.result)
    ensures SameButRetention(before, after, d) ==> SameButRetention(first, after, d)
    ensures EntryAfter(cfg, before, d) == EntryAfter(cfg, first, d)
    ensures PhaseMoves(cfg, before, d) <==> PhaseMoves(cfg, first, d)
  {
    hide Desired;
  }

  lemma EntrySettles(cfg: Incidents.Config, e: Entry, d: Diagnosed)
    requires Honest(d.result) && Revives(d.result)
    ensures SettledBy(EntryAfter(cfg, e, d).incident.status, d)
  {
    DesiredSettles(cfg, e.incident.status, d);
    hide SettledBy, Desired;
  }

  // ---- Diagnosing the observed targets ----

  /** The result assumed when a diagnosis fails. */
  function Inconclusive(o: Observation, now: int): Incidents.Result {
    var elapsed := o.meta.deletion.Some? && now >= o.meta.deletion.value + o.policy.settings.terminationAge;
    Incidents.Result(true, true, elapsed, false, Incidents.NO_SNAPSHOT, [], [])
  }

  /** The diagnosis of an observation in this cycle. */
  ghost predicate DiagnosedFrom(d: Diagnosed, o: Observation, diagnose: Observation -> Option<Incidents.Result>,
                                now: int) {
    d == Diagnosed(o, if diagnose(o).Some? then diagnose(o).value else Inconclusive(o, now), now)
  }

  lemma DiagnosisOk(d: Diagnosed, o: Observation, diagnose: Observation -> Option<Incidents.Result>, now: int)
    requires (diagnose(o).Some? ==> Honest(diagnose(o).value)) && DiagnosedFrom(d, o, diagnose, now)
    ensures Honest(d.result)
  {
  }

  /** The list as it was read from the store. */
  ghost predicate Synced(list: seq<Entry>, store: Store) {
    && (forall i, j :: 0 <= i < j < |list| ==> list[i].name != list[j].name)
    && (forall i :: 0 <= i < |list| ==> list[i].name in store && list[i] == store[list[i].name])
  }

  /** Listed incidents about other targets are as they were, in the list and in the store. */
  ghost predicate Untouched(list0: seq<Entry>, store0: Store, list: seq<Entry>, store: Store, done: set<string>) {
    && |list| == |list0|
    && (forall n :: n in store0 ==> n in store)
    && (forall u :: u !in done ==> SameAt(store0, store, IncidentName(u)))
    && (forall i :: 0 <= i < |list0| && list0[i].Target().uid !in done ==>
          list[i] == list0[i] && list0[i].name in store0 && list0[i].name in store
          && store[list0[i].name] == store0[list0[i].name])
  }

  lemma WeakerUntouched(list0: seq<Entry>, store0: Store, list: seq<Entry>, store: Store, done: set<string>,
                        more: set<string>)
    requires Untouched(list0, store0, list, store, done) && done <= more
    ensures Untouched(list0, store0, list, store, more)
  {
  }

  /** A known incident that has not been dealt with is in the list exactly as in the store. */
  lemma KnownSynced(list0: seq<Entry>, store0: Store, list: seq<Entry>, store: Store, done: set<string>, i: nat,
                    uid: string)
    requires Synced(list0, store0) && Canonical(store0) && Untouched(list0, store0, list, store, done)
    requires i < |list0| && list0[i].Target().uid == uid && uid !in done
    ensures i < |list| && IncidentName(uid) in store && list[i] == store[IncidentName(uid)]
  {
  }

  lemma UntouchedMore(list0: seq<Entry>, store0: Store, was: seq<Entry>, before: Store, list: seq<Entry>, store: Store,
                      done: set<string>, uid: string)
    requires Untouched(list0, store0, was, before, done) && Canonical(store0) && Synced(list0, store0)
    requires Grows(before, store, IncidentName(uid)) && OthersKept(was, list, IncidentName(uid))
    requires SameNames(list0, was)
    ensures Untouched(list0, store0, list, store, done + {uid})
  {
    forall i | 0 <= i < |list0| && list0[i].Target().uid !in done + {uid}
      ensures list[i] == list0[i] && list0[i].name in store && store[list0[i].name] == store0[list0[i].name]
    {
      var n := list0[i].name;
      assert n == IncidentName(list0[i].Target().uid);
      if n == IncidentName(uid) { NamesIdentifyUids(list0[i].Target().uid, uid); }
      assert n != IncidentName(uid);
    }
    forall u | u !in done + {uid} ensures SameAt(store0, store, IncidentName(u)) {
      if IncidentName(u) == IncidentName(uid) { NamesIdentifyUids(u, uid); }
      assert IncidentName(u) != IncidentName(uid);
    }
  }

  /** Every listed incident about one of the targets is settled. */
  ghost predicate ObservedSettled(list0: seq<Entry>, store: Store, done: set<string>, diagnosed: map<string, Diagnosed>)
  {
    forall i :: 0 <= i < |list0| && list0[i].Target().uid in done ==>
      list0[i].name in store && Settled(store[list0[i].name].incident.status, list0[i].Target().uid, diagnosed)
  }

  lemma SettledMore(list0: seq<Entry>, store0: Store, before: Store, store: Store, done: set<string>,
                    diagnosed: map<string, Diagnosed>, uid: string, d: Diagnosed, known: map<string, nat>)
    requires Canonical(store0) && Synced(list0, store0) && ObservedSettled(list0, before, done, diagnosed)
    requires uid !in done
    requires Grows(before, store, IncidentName(uid)) && forall i :: 0 <= i < |list0| ==> list0[i].Target().uid in known
    requires uid in known ==> IncidentName(uid) in store && SettledBy(store[IncidentName(uid)].incident.status, d)
    ensures ObservedSettled(list0, store, done + {uid}, diagnosed[uid := d])
  {
    hide Current, Disarmed;
    forall i | 0 <= i < |list0| && list0[i].Target().uid in done + {uid}
      ensures list0[i].name in store
      ensures Settled(store[list0[i].name].incident.status, list0[i].Target().uid, diagnosed[uid := d])
    {
      var u := list0[i].Target().uid;
      assert list0[i].name == IncidentName(u);
      if u != uid {
        if IncidentName(u) == IncidentName(uid) { NamesIdentifyUids(u, uid); }
        assert IncidentName(u) != IncidentName(uid);
      }
    }
  }

  /** The diagnosis of each of the targets is persisted. */
  ghost predicate ObservedExact(cfg: Incidents.Config, store0: Store, store: Store, done: set<string>,
                                diagnosed: map<string, Diagnosed>) {
    forall u :: u in done ==>
      u in diagnosed && diagnosed[u].observed.target.uid == u && Persisted(cfg, store0, store, diagnosed[u])
  }

  lemma ExactMore(cfg: Incidents.Config, store0: Store, before: Store, store: Store, done: set<string>,
                  diagnosed: map<string, Diagnosed>, uid: string, d: Diagnosed)
    requires ObservedExact(cfg, store0, before, done, diagnosed) && uid !in done && d.observed.target.uid == uid
    requires SameAt(store0, before, IncidentName(uid)) && Grows(before, store, IncidentName(uid))
    requires Persisted(cfg, before, store, d)
    ensures ObservedExact(cfg, store0, store, done + {uid}, diagnosed[uid := d])
  {
    hide EntryAfter, Created, Warrants;
    forall u | u in done + {uid}
      ensures u in diagnosed[uid := d] && diagnosed[uid := d][u].observed.target.uid == u
              && Persisted(cfg, store0, store, diagnosed[uid := d][u])
    {
      if u != uid {
        if IncidentName(u) == IncidentName(uid) { NamesIdentifyUids(u, uid); }
        assert IncidentName(u) != IncidentName(uid);
      }
    }
  }

  lemma StartDiagnosing(cfg: Incidents.Config, list: seq<Entry>, store: Store)
    requires Synced(list, store)
    ensures Named(list, store) && SameNames(list, list) && Untouched(list, store, list, store, {})
    ensures ObservedSettled(list, store, {}, map[])
    ensures ObservedExact(cfg, store, store, {}, map[])
  {
  }

  /** Everything diagnosed was observed and diagnosed in this cycle. */
  ghost predicate AllFrom(diagnosed: map<string, Diagnosed>, observations: map<string, Observation>,
                          diagnose: Observation -> Option<Incidents.Result>, now: int)
  {
    forall u :: u in diagnosed ==> u in observations && DiagnosedFrom(diagnosed[u], observations[u], diagnose, now)
  }

  /** Some observed target cannot be diagnosed. */
  ghost predicate AnyFails(observations: map<string, Observation>, diagnose: Observation -> Option<Incidents.Result>) {
    exists u :: u in observations && diagnose(observations[u]).None?
  }

  lemma OneFails(observations: map<string, Observation>, diagnose: Observation -> Option<Incidents.Result>, u: string)
    requires u in observations && diagnose(observations[u]).None?
    ensures AnyFails(observations, diagnose)
  {
  }

  lemma NoneDiagnosed(observations: map<string, Observation>, diagnose: Observation -> Option<Incidents.Result>,
                      now: int)
    ensures AllFrom(map[], observations, diagnose, now)
    ensures var none: map<string, Diagnosed> := map[]; Partition(observations.Keys, observations.Keys, none.Keys)
  {
  }

  lemma OneMoreFrom(diagnosed: map<string, Diagnosed>, observations: map<string, Observation>,
                    diagnose: Observation -> Option<Incidents.Result>, now: int, uid: string, d: Diagnosed)
    requires AllFrom(diagnosed, observations, diagnose, now) && uid in observations
    requires DiagnosedFrom(d, observations[uid], diagnose, now)
    ensures AllFrom(diagnosed[uid := d], observations, diagnose, now)
  {
    hide DiagnosedFrom;
  }

  ghost predicate IndexOf(known: map<string, nat>, entries: seq<Entry>) {
    && (forall i :: 0 <= i < |entries| ==> entries[i].Target().uid in known)
    && (forall u :: u in known ==> known[u] < |entries| && entries[known[u]].Target().uid == u)
  }

  /** What is left and what is done make up everything. */
  ghost predicate Partition(all: set<string>, todo: set<string>, done: set<string>) {
    todo <= all && done == all - todo
  }

  lemma Nothing(all: set<string>, done: set<string>)
    requires Partition(all, {}, done)
    ensures done == all
  {
  }

  lemma DoneIsPart(all: set<string>, todo: set<string>, done: set<string>)
    requires Partition(all, todo, done)
    ensures done <= all
  {
  }

  lemma NextIsNew(all: set<string>, todo: set<string>, diagnosed: map<string, Diagnosed>, x: string)
    requires Partition(all, todo, diagnosed.Keys) && x in todo
    ensures x in all && x !in diagnosed
  {
  }

  lemma Moves(all: set<string>, todo: set<string>, diagnosed: map<string, Diagnosed>, x: string, d: Diagnosed)
    requires Partition(all, todo, diagnosed.Keys) && x in todo
    ensures Partition(all, todo - {x}, diagnosed[x := d].Keys)
  {
    assert diagnosed[x := d].Keys == diagnosed.Keys + {x};
  }

  lemma FromDiagnosis(d: Diagnosed, o: Observation, diagnose: Observation -> Option<Incidents.Result>, now: int)
    requires d == Diagnosed(o, if diagnose(o).Some? then diagnose(o).value else Inconclusive(o, now), now)
    ensures DiagnosedFrom(d, o, diagnose, now)
  {
  }

  /** What is known while targets are being diagnosed; those in `diagnosed` are done. */
  ghost predicate StageOk(cfg: Incidents.Config, oracle: nat -> ApiReply, first: nat, calls: nat, list0: seq<Entry>,
                          store0: Store, list: seq<Entry>, store: Store, diagnosed: map<string, Diagnosed>, lost: bool)
  {
    && SameNames(list0, list) && Untouched(list0, store0, list, store, diagnosed.Keys)
    && (lost ==> Trouble(oracle, first, calls))
    && (!lost ==> ObservedSettled(list0, store, diagnosed.Keys, diagnosed))
    && (!Trouble(oracle, first, calls) ==> ObservedExact(cfg, store0, store, diagnosed.Keys, diagnosed))
  }

  lemma StageBegins(cfg: Incidents.Config, oracle: nat -> ApiReply, first: nat, list: seq<Entry>, store: Store)
    requires Synced(list, store)
    ensures StageOk(cfg, oracle, first, first, list, store, list, store, map[], false) && Named(list, store)
  {
    StartDiagnosing(cfg, list, store);
    hide Synced, Untouched, SameNames, Trouble, ObservedSettled, ObservedExact;
    var none: map<string, Diagnosed> := map[];
    assert none.Keys == {};
  }

  lemma StageEnds(cfg: Incidents.Config, oracle: nat -> ApiReply, first: nat, calls: nat, list0: seq<Entry>,
                  store0: Store, list: seq<Entry>, store: Store, diagnosed: map<string, Diagnosed>, lost: bool)
    requires StageOk(cfg, oracle, first, calls, list0, store0, list, store, diagnosed, lost)
    ensures SameNames(list0, list) && Untouched(list0, store0, list, store, diagnosed.Keys)
    ensures lost ==> Trouble(oracle, first, calls)
    ensures !lost ==> ObservedSettled(list0, store, diagnosed.Keys, diagnosed)
    ensures !Trouble(oracle, first, calls) ==> ObservedExact(cfg, store0, store, diagnosed.Keys, diagnosed)
  {
    hide SameNames, Untouched, Trouble, ObservedSettled, ObservedExact;
  }

  lemma StageNames(cfg: Incidents.Config, oracle: nat -> ApiReply, first: nat, calls: nat, list0: seq<Entry>,
                   store0: Store, list: seq<Entry>, store: Store, diagnosed: map<string, Diagnosed>, lost: bool)
    requires StageOk(cfg, oracle, first, calls, list0, store0, list, store, diagnosed, lost)
    ensures SameNames(list0, list) && Untouched(list0, store0, list, store, diagnosed.Keys)
  {
    hide SameNames, Untouched, Trouble, ObservedSettled, ObservedExact;
  }

  lemma StageInterrupted(cfg: Incidents.Config, oracle: nat -> ApiReply, first: nat, calls: nat, list0: seq<Entry>,
                         store0: Store, list: seq<Entry>, store: Store, diagnosed: map<string, Diagnosed>, lost: bool,
                         all: set<string>)
    requires StageOk(cfg, oracle, first, calls, list0, store0, list, store, diagnosed, lost) && diagnosed.Keys <= all
    ensures SameNames(list0, list) && Untouched(list0, store0, list, store, all)
    ensures lost ==> Trouble(oracle, first, calls)
  {
    hide SameNames, Untouched, Trouble, ObservedSettled, ObservedExact;
    WeakerUntouched(list0, store0, list, store, diagnosed.Keys, all);
  }

  lemma StageKnows(cfg: Incidents.Config, oracle: nat -> ApiReply, first: nat, calls: nat, list0: seq<Entry>,
                   store0: Store, list: seq<Entry>, store: Store, diagnosed: map<string, Diagnosed>, lost: bool, i: nat,
                   uid: string)
    requires StageOk(cfg, oracle, first, calls, list0, store0, list, store, diagnosed, lost)
    requires Synced(list0, store0) && Canonical(store0) && i < |list0| && list0[i].Target().uid == uid
    requires uid !in diagnosed
    ensures i < |list| && IncidentName(uid) in store && list[i] == store[IncidentName(uid)]
  {
    hide SameNames, Untouched, Trouble, ObservedSettled, ObservedExact, Synced, Canonical;
    KnownSynced(list0, store0, list, store, diagnosed.Keys, i, uid);
  }

  /** What persisting one diagnosis does to everything known about the stage so far. */
  lemma Aftermath(cfg: Incidents.Config, oracle: nat -> ApiReply, first: nat, begun: nat, calls: nat,
                  list0: seq<Entry>, store0: Store, was: seq<Entry>, before: Store, list: seq<Entry>, store: Store,
                  diagnosed: map<string, Diagnosed>, uid: string, d: Diagnosed, known: map<string, nat>,
                  err: bool, lostBefore: bool, lost: bool)
    requires first <= begun <= calls && Canonical(store0) && Synced(list0, store0) && uid !in diagnosed
    requires StageOk(cfg, oracle, first, begun, list0, store0, was, before, diagnosed, lostBefore)
    requires SameNames(was, list)
    requires Grows(before, store, IncidentName(uid)) && OthersKept(was, list, IncidentName(uid))
    requires IndexOf(known, list0)
    requires (err ==> Trouble(oracle, begun, calls)) && (lost ==> err)
    requires !lost && uid in known ==>
               IncidentName(uid) in store && SettledBy(store[IncidentName(uid)].incident.status, d)
    requires (!err ==> Persisted(cfg, before, store, d)) && d.observed.target.uid == uid
    ensures StageOk(cfg, oracle, first, calls, list0, store0, list, store, diagnosed[uid := d], lostBefore || lost)
  {
    hide Canonical, Synced, Untouched, SameNames, Grows, OthersKept, Trouble, ObservedSettled, ObservedExact, SettledBy,
      Persisted, SameAt;
    var done := diagnosed.Keys;
    NotYetDone(list0, store0, was, before, done, uid);
    assert diagnosed[uid := d].Keys == done + {uid};
    SameNamesTrans(list0, was, list);
    UntouchedMore(list0, store0, was, before, list, store, done, uid);
    TroubleEither(oracle, first, begun, calls);
    if !lost && !lostBefore { SettledMore(list0, store0, before, store, done, diagnosed, uid, d, known); }
    if !Trouble(oracle, first, calls) { ExactMore(cfg, store0, before, store, done, diagnosed, uid, d); }
  }

  lemma NotYetDone(list0: seq<Entry>, store0: Store, list: seq<Entry>, store: Store, done: set<string>, uid: string)
    requires Untouched(list0, store0, list, store, done) && uid !in done
    ensures SameAt(store0, store, IncidentName(uid))
  {
  }

  /** The cached list while targets are being diagnosed, in full: entries about targets that had their turn are
      what that made of them, all others are as they were. `turns` says at which call each turn began; the
      first one began with the stage. */
  ghost predicate ListIs(cfg: Incidents.Config, oracle: nat -> ApiReply, first: nat, calls: nat, list0: seq<Entry>,
                         list: seq<Entry>, diagnosed: map<string, Diagnosed>, turns: map<string, nat>)
  {
    && |list| == |list0| && turns.Keys == diagnosed.Keys
    && (forall u :: u in turns ==> first <= turns[u] <= calls)
    && (turns != map[] ==> exists u :: u in turns && turns[u] == first)
    && (forall i :: 0 <= i < |list0| ==> EntryIs(cfg, oracle, calls, list0[i], list[i], diagnosed, turns))
    && (forall i, j :: 0 <= i < j < |list0| ==> TurnsApart(list0[i], list0[j], diagnosed, turns))
  }

  /** The target's turn patches the retention annotation of the incident. */
  ghost predicate Patches(e: Entry, diagnosed: map<string, Diagnosed>) {
    && e.Target().uid in diagnosed && Revives(diagnosed[e.Target().uid].result)
    && e.retention != diagnosed[e.Target().uid].KeptFor()
  }

  /** Two turns that patch an annotation do not begin with the same call. */
  ghost predicate TurnsApart(e: Entry, f: Entry, diagnosed: map<string, Diagnosed>, turns: map<string, nat>)
    requires turns.Keys == diagnosed.Keys
  {
    Patches(e, diagnosed) && Patches(f, diagnosed) ==> turns[e.Target().uid] != turns[f.Target().uid]
  }

  ghost predicate EntryIs(cfg: Incidents.Config, oracle: nat -> ApiReply, calls: nat, e: Entry, now: Entry,
                          diagnosed: map<string, Diagnosed>, turns: map<string, nat>)
    requires turns.Keys == diagnosed.Keys
  {
    var u := e.Target().uid;
    if u in diagnosed then
      && now == ListedAfter(cfg, e, diagnosed[u], oracle(turns[u]))
      && (Patches(e, diagnosed) ==> turns[u] < calls)
    else now == e
  }

  lemma ListBegins(cfg: Incidents.Config, oracle: nat -> ApiReply, first: nat, list: seq<Entry>)
    ensures ListIs(cfg, oracle, first, first, list, list, map[], map[])
  {
  }

  lemma ListLater(cfg: Incidents.Config, oracle: nat -> ApiReply, first: nat, calls: nat, later: nat,
                  list0: seq<Entry>, list: seq<Entry>, diagnosed: map<string, Diagnosed>, turns: map<string, nat>)
    requires ListIs(cfg, oracle, first, calls, list0, list, diagnosed, turns) && calls <= later
    ensures ListIs(cfg, oracle, first, later, list0, list, diagnosed, turns)
  {
    hide ListedAfter;
    forall i | 0 <= i < |list0| ensures EntryIs(cfg, oracle, later, list0[i], list[i], diagnosed, turns) {
      assert EntryIs(cfg, oracle, calls, list0[i], list[i], diagnosed, turns);
    }
  }

  /** So the list keeps its names, and what it shows as resolved was resolved. */
  lemma ListKeepsNames(cfg: Incidents.Config, oracle: nat -> ApiReply, first: nat, calls: nat, list0: seq<Entry>,
                       list: seq<Entry>, diagnosed: map<string, Diagnosed>, turns: map<string, nat>)
    requires ListIs(cfg, oracle, first, calls, list0, list, diagnosed, turns)
    ensures SameNames(list0, list)
  {
    forall i | 0 <= i < |list0|
      ensures list[i].name == list0[i].name && list[i].Target() == list0[i].Target()
      ensures list[i].Resolved() ==> list0[i].Resolved()
    {
      var u := list0[i].Target().uid;
      assert EntryIs(cfg, oracle, calls, list0[i], list[i], diagnosed, turns);
      if u in diagnosed { WhenStaysResolved(cfg, list0[i], diagnosed[u], oracle(turns[u])); }
    }
  }

  lemma ListMore(cfg: Incidents.Config, oracle: nat -> ApiReply, first: nat, begun: nat, calls: nat,
                 list0: seq<Entry>, store0: Store, was: seq<Entry>, list: seq<Entry>,
                 diagnosed: map<string, Diagnosed>, turns: map<string, nat>, uid: string, d: Diagnosed,
                 known: map<string, nat>)
    requires Canonical(store0) && Synced(list0, store0) && IndexOf(known, list0) && uid !in diagnosed
    requires ListIs(cfg, oracle, first, begun, list0, was, diagnosed, turns) && first <= begun <= calls
    requires SameNames(list0, was) && OthersKept(was, list, IncidentName(uid))
    requires turns == map[] ==> begun == first
    requires uid !in known ==> list == was
    requires uid in known ==>
               && list[known[uid]] == ListedAfter(cfg, was[known[uid]], d, oracle(begun))
               && (Revives(d.result) && was[known[uid]].retention != d.KeptFor() ==> begun < calls)
    ensures ListIs(cfg, oracle, first, calls, list0, list, diagnosed[uid := d], turns[uid := begun])
  {
    hide ListedAfter;
    var diagnosed', turns' := diagnosed[uid := d], turns[uid := begun];
    assert turns'.Keys == diagnosed'.Keys && uid in turns';
    if turns != map[] {
      var u :| u in turns && turns[u] == first;
      assert turns'[u] == first;
    } else {
      assert turns'[uid] == first;
    }
    forall i | 0 <= i < |list0| ensures EntryIs(cfg, oracle, calls, list0[i], list[i], diagnosed', turns') {
      var u := list0[i].Target().uid;
      assert list0[i].name == IncidentName(u) && EntryIs(cfg, oracle, begun, list0[i], was[i], diagnosed, turns);
      if u == uid {
        assert list0[known[uid]].name == IncidentName(uid);
        assert known[uid] == i;
      } else {
        if IncidentName(u) == IncidentName(uid) { NamesIdentifyUids(u, uid); }
        assert was[i].name != IncidentName(uid);
      }
    }
    forall i, j | 0 <= i < j < |list0| ensures TurnsApart(list0[i], list0[j], diagnosed', turns') {
      TurnApart(cfg, oracle, first, begun, list0, store0, was, diagnosed, turns, uid, d, i, j);
    }
  }

  lemma TurnApart(cfg: Incidents.Config, oracle: nat -> ApiReply, first: nat, begun: nat, list0: seq<Entry>,
                  store0: Store, was: seq<Entry>, diagnosed: map<string, Diagnosed>, turns: map<string, nat>,
                  uid: string, d: Diagnosed, i: nat, j: nat)
    requires Canonical(store0) && Synced(list0, store0) && uid !in diagnosed && i < j < |list0|
    requires ListIs(cfg, oracle, first, begun, list0, was, diagnosed, turns)
    ensures diagnosed[uid := d].Keys == turns[uid := begun].Keys
    ensures TurnsApart(list0[i], list0[j], diagnosed[uid := d], turns[uid := begun])
  {
    hide ListedAfter, Revives;
    assert diagnosed[uid := d].Keys == turns[uid := begun].Keys;
    assert TurnsApart(list0[i], list0[j], diagnosed, turns);
    assert list0[i].name == IncidentName(list0[i].Target().uid) && list0[j].name == IncidentName(list0[j].Target().uid);
    assert EntryIs(cfg, oracle, begun, list0[i], was[i], diagnosed, turns);
    assert EntryIs(cfg, oracle, begun, list0[j], was[j], diagnosed, turns);
  }

  /** Some diagnosis made the cached list stale. */
  ghost predicate AnyOutdates(cfg: Incidents.Config, store0: Store, diagnosed: map<string, Diagnosed>) {
    exists u :: u in diagnosed && Outdates(cfg, store0, diagnosed[u])
  }

  /** Without trouble the list is marked stale exactly when a diagnosis made it stale. */
  ghost predicate MarkedRight(cfg: Incidents.Config, oracle: nat -> ApiReply, first: nat, calls: nat, store0: Store,
                              diagnosed: map<string, Diagnosed>, dirty: bool)
  {
    !Trouble(oracle, first, calls) ==> (dirty <==> AnyOutdates(cfg, store0, diagnosed))
  }

  lemma MarkingBegins(cfg: Incidents.Config, oracle: nat -> ApiReply, first: nat, store: Store)
    ensures MarkedRight(cfg, oracle, first, first, store, map[], false)
  {
  }

  lemma MarkedMore(cfg: Incidents.Config, oracle: nat -> ApiReply, first: nat, begun: nat, calls: nat, store0: Store,
                   before: Store, diagnosed: map<string, Diagnosed>, uid: string, d: Diagnosed, was: bool, dirty: bool)
    requires first <= begun <= calls && uid !in diagnosed && d.observed.target.uid == uid
    requires MarkedRight(cfg, oracle, first, begun, store0, diagnosed, was)
    requires SameAt(store0, before, IncidentName(uid))
    requires !Trouble(oracle, begun, calls) ==> (dirty <==> was || Outdates(cfg, before, d))
    ensures MarkedRight(cfg, oracle, first, calls, store0, diagnosed[uid := d], dirty)
  {
    hide Trouble, PhaseMoves, Warrants, Revives;
    TroubleEither(oracle, first, begun, calls);
    assert Outdates(cfg, before, d) <==> Outdates(cfg, store0, d);
    hide Outdates;
    var more := diagnosed[uid := d];
    if AnyOutdates(cfg, store0, diagnosed) {
      var u :| u in diagnosed && Outdates(cfg, store0, diagnosed[u]);
      assert u in more && more[u] == diagnosed[u];
    }
    assert more[uid] == d;
  }

  /** A target that is not among the listed incidents has none. */
  lemma UnknownHasNone(list0: seq<Entry>, store0: Store, list: seq<Entry>, store: Store, done: set<string>,
                       known: map<string, nat>, uid: string)
    requires Canonical(store0) && Lists(list0, store0) && IndexOf(known, list0) && uid !in known && uid !in done
    requires Untouched(list0, store0, list, store, done)
    ensures IncidentName(uid) !in store
  {
    var n := IncidentName(uid);
    assert SameAt(store0, store, n);
    if n in store0 {
      assert InList(list0, n);
      var i :| 0 <= i < |list0| && list0[i].name == n;
      assert list0[i] == store0[n];
      NamesIdentifyUids(list0[i].Target().uid, uid);
      assert false;
    }
  }

  // ---- Lifecycle ----

  /** incidentRetention. */
  function Retention(e: Entry, byUID: map<string, Policy.CompiledPolicy>): Option<int> {
    var uid := if e.incident.status.policyRef.Some? then e.incident.status.policyRef.value.uid else "";
    if uid in byUID && byUID[uid].settings.resolvedTTL > 0 then Some(byUID[uid].settings.resolvedTTL)
    else if e.retention.Some? && e.retention.value > 0 then e.retention
    else None
  }

  /** A resolved incident whose retention has passed: that of the policy its status names, if there is one and it
      is positive, and otherwise that of its annotation. */
  predicate Expired(e: Entry, byUID: map<string, Policy.CompiledPolicy>, now: int) {
    && e.Resolved() && e.incident.status.resolvedTime.Some?
    && var st := e.incident.status;
       var policy := if st.policyRef.Some? then st.policyRef.value.uid else "";
       if policy in byUID && byUID[policy].settings.resolvedTTL > 0
       then now >= st.resolvedTime.value + byUID[policy].settings.resolvedTTL
       else e.retention.Some? && e.retention.value > 0 && now >= st.resolvedTime.value + e.retention.value
  }

  /** Lifecycle does something about an incident. */
  predicate Acts(e: Entry, scan: Scan, catalog: Snapshot, byUID: map<string, Policy.CompiledPolicy>, now: int) {
    if e.Resolved() then Expired(e, byUID, now)
    else !Fated(e, scan, catalog).Processed? && !Fated(e, scan, catalog).Uncovered?
  }

  function Fated(e: Entry, scan: Scan, catalog: Snapshot): Coverage.Verdict {
    VerdictFor(e.Target(), scan.observations, catalog, scan.coverage)
  }

  function ReasonText(r: Reason): string {
    match r
    case ResourceTypeRemoved => "ResourceTypeRemoved"
    case TargetAbsent => "TargetAbsent"
    case TargetReplaced => "TargetReplaced"
    case PolicyNoLongerMatches => "PolicyNoLongerMatches"
    case TargetNoLongerDeleting => "TargetNoLongerDeleting"
  }

  /** What a verdict does to an open incident; after an error it may have done nothing. */
  ghost predicate Follows(before: Entry, after: Entry, v: Coverage.Verdict, now: int, err: bool) {
    match v
    case Processed => after == before
    case Uncovered => after == before
    case Incomplete => (err && after == before) || after == WithStatus(before, Incidents.Failed(before.incident.status))
    case Resolve(reason) =>
      (err && after == before)
      || after == WithStatus(before, Incidents.ResolvedAs(before.incident.status, ReasonText(reason), now))
  }

  lemma ErrorExcuses(before: Entry, after: Entry, v: Coverage.Verdict, now: int)
    ensures Follows(before, after, v, now, false) ==> Follows(before, after, v, now, true)
  {
  }

  lemma KeepsName(before: Store, after: Store, name: string)
    requires OnlyTouches(before, after, name)
    ensures name in before <==> name in after
  {
  }

  lemma InListMore(entries: seq<Entry>, e: Entry)
    ensures InList(entries + [e], e.name) && forall n :: InList(entries, n) ==> InList(entries + [e], n)
  {
    assert (entries + [e])[|entries|] == e;
    forall n | InList(entries, n) ensures InList(entries + [e], n) {
      var i :| 0 <= i < |entries| && entries[i].name == n;
      assert (entries + [e])[i].name == n;
    }
  }

  /** Entries not yet looked at, and everything that is not among the entries, are stored as they were. */
  ghost predicate Pending(entries: seq<Entry>, k: nat, start: Store, store: Store) {
    && (forall i :: k <= i < |entries| ==> entries[i].name in start && SameAt(start, store, entries[i].name))
    && (forall n :: !InList(entries, n) ==> SameAt(start, store, n))
  }

  /** The open entries looked at have been treated as their verdicts say. */
  ghost predicate Handled(entries: seq<Entry>, k: nat, start: Store, store: Store, scan: Scan, catalog: Snapshot,
                          now: int, lost: bool) {
    forall i :: 0 <= i < k && i < |entries| && !entries[i].Resolved() ==>
      && entries[i].name in start && entries[i].name in store
      && Follows(start[entries[i].name], store[entries[i].name], Fated(entries[i], scan, catalog), now, lost)
  }

  lemma LifecycleBegins(entries: seq<Entry>, store: Store, scan: Scan, catalog: Snapshot, now: int)
    requires Named(entries, store)
    ensures Pending(entries, 0, store, store) && Handled(entries, 0, store, store, scan, catalog, now, false)
  {
  }

  lemma LifecycleEnds(entries: seq<Entry>, start: Store, store: Store, scan: Scan, catalog: Snapshot, now: int,
                      lost: bool)
    requires Pending(entries, |entries|, start, store)
    requires Handled(entries, |entries|, start, store, scan, catalog, now, lost)
    ensures forall n :: !InList(entries, n) ==> SameAt(start, store, n)
    ensures forall i :: 0 <= i < |entries| && !entries[i].Resolved() ==>
              && entries[i].name in start && entries[i].name in store
              && Follows(start[entries[i].name], store[entries[i].name], Fated(entries[i], scan, catalog), now, lost)
  {
  }

  lemma OneSettled(entries: seq<Entry>, k: nat, start: Store, before: Store, after: Store, scan: Scan,
                   catalog: Snapshot, now: int, lost: bool, err: bool)
    requires k < |entries| && (forall i, j :: 0 <= i < j < |entries| ==> entries[i].name != entries[j].name)
    requires Pending(entries, k, start, before) && Handled(entries, k, start, before, scan, catalog, now, lost)
    requires forall n :: n != entries[k].name ==>
               (n in after <==> n in before) && (n in after ==> after[n] == before[n])
    requires !entries[k].Resolved() ==> OnlyTouches(before, after, entries[k].name)
    requires !entries[k].Resolved() && entries[k].name in after ==>
               Follows(before[entries[k].name], after[entries[k].name], Fated(entries[k], scan, catalog), now, err)
    ensures Pending(entries, k + 1, start, after)
    ensures Handled(entries, k + 1, start, after, scan, catalog, now, lost || err)
  {
    hide Follows, Fated, OnlyTouches;
    assert InList(entries, entries[k].name);
    if !entries[k].Resolved() { KeepsName(before, after, entries[k].name); }
    forall i | 0 <= i <= k && !entries[i].Resolved()
      ensures && entries[i].name in start && entries[i].name in after
              && Follows(start[entries[i].name], after[entries[i].name], Fated(entries[i], scan, catalog), now, lost
                         || err)
    {
      ErrorExcuses(start[entries[i].name], after[entries[i].name], Fated(entries[i], scan, catalog), now);
    }
  }

  /** Of the resolved entries looked at exactly those past their retention are gone. */
  ghost predicate Swept(entries: seq<Entry>, k: nat, start: Store, store: Store,
                        byUID: map<string, Policy.CompiledPolicy>, now: int, lost: bool)
  {
    forall i :: 0 <= i < k && i < |entries| && entries[i].Resolved() ==>
      if Expired(entries[i], byUID, now) then !lost ==> entries[i].name !in store
      else SameAt(start, store, entries[i].name)
  }

  lemma ResolvedActs(e: Entry, scan: Scan, catalog: Snapshot, byUID: map<string, Policy.CompiledPolicy>, now: int)
    requires e.Resolved()
    ensures Acts(e, scan, catalog, byUID, now) <==> Expired(e, byUID, now)
  {
  }

  lemma SweepBegins(entries: seq<Entry>, store: Store, byUID: map<string, Policy.CompiledPolicy>, now: int)
    ensures Swept(entries, 0, store, store, byUID, now, false)
  {
  }

  lemma OneSwept(entries: seq<Entry>, k: nat, start: Store, before: Store, after: Store,
                 byUID: map<string, Policy.CompiledPolicy>, now: int, lost: bool, err: bool)
    requires k < |entries| && (forall i, j :: 0 <= i < j < |entries| ==> entries[i].name != entries[j].name)
    requires Pending(entries, k, start, before) && Swept(entries, k, start, before, byUID, now, lost)
    requires forall n :: n != entries[k].name ==>
               (n in after <==> n in before) && (n in after ==> after[n] == before[n])
    requires entries[k].Resolved() ==>
               if Expired(entries[k], byUID, now) then !err ==> entries[k].name !in after else after == before
    ensures Swept(entries, k + 1, start, after, byUID, now, lost || err)
  {
    hide Expired;
  }

  /** The entries looked at are resolved or disarmed. */
  ghost predicate DisarmedUpTo(entries: seq<Entry>, k: nat, store: Store) {
    forall i :: 0 <= i < k && i < |entries| ==>
      entries[i].name in store
      && (store[entries[i].name].Resolved() || Disarmed(store[entries[i].name].incident.status))
  }

  lemma DisarmingBegins(entries: seq<Entry>, store: Store)
    requires Synced(entries, store)
    ensures Pending(entries, 0, store, store) && DisarmedUpTo(entries, 0, store)
  {
  }

  lemma SkipResolved(entries: seq<Entry>, k: nat, start: Store, store: Store)
    requires k < |entries| && Synced(entries, start) && Pending(entries, k, start, store) && entries[k].Resolved()
    ensures Pending(entries, k + 1, start, store)
    ensures DisarmedUpTo(entries, k, store) ==> DisarmedUpTo(entries, k + 1, store)
  {
    hide Disarmed;
  }

  lemma OneDisarmed(entries: seq<Entry>, k: nat, start: Store, before: Store, after: Store, lost: bool, err: bool)
    requires k < |entries| && Synced(entries, start) && Pending(entries, k, start, before)
    requires OnlyTouches(before, after, entries[k].name)
    requires !lost ==> DisarmedUpTo(entries, k, before)
    requires !err ==> entries[k].name in before && entries[k].name in after
                      && after[entries[k].name].incident.status
                         == Incidents.Failed(before[entries[k].name].incident.status)
    ensures Pending(entries, k + 1, start, after) && (!lost && !err ==> DisarmedUpTo(entries, k + 1, after))
  {
    hide Disarmed;
    assert entries[k].name in before && InList(entries, entries[k].name);
    FailedDisarms(before[entries[k].name].incident.status);
  }

  lemma AllAreDisarmed(entries: seq<Entry>, start: Store, store: Store)
    requires (forall n :: n in start ==> InList(entries, n)) && store.Keys == start.Keys
    requires DisarmedUpTo(entries, |entries|, store)
    ensures AllDisarmed(store)
  {
    hide Disarmed;
    forall n | n in store ensures store[n].Resolved() || Disarmed(store[n].incident.status) {
      assert n in start.Keys;
      assert InList(entries, n);
    }
  }

  // ---- A whole cycle ----

  /** What a cycle goes by when the incidents could not be listed: nothing is observed and nothing covered. */
  const NO_SCAN: Scan := Scan(map[], map[], true)

  datatype ViewState = NoView | Fresh | Stale

  /** `degraded` is the degraded path; `scopeListed` and `listed` say that the incidents could be listed
      for the scan scope, and when the cycle listed them last; `lost` that a call on an incident failed for
      good. */
  datatype Report = Report(view: ViewState, degraded: bool, scopeListed: bool, listed: bool, lost: bool)

  /** What a cycle meets: which stages work, what a listing meets, the diagnoses, whether the context is
      cancelled where the cycle looks, and after how many dispatched targets a cancellation stops the
      dispatch. */
  datatype Inputs = Inputs(
    discovered: bool, policiesOk: bool, labelsOk: bool, snapshotOk: bool, cancelledEarly: bool, cancelledLate: bool,
    cutShort: Option<nat>, scene: Scene, byUID: map<string, Policy.CompiledPolicy>,
    diagnose: Observation -> Option<Incidents.Result>, now: int)

  ghost predicate ValidInputs(inp: Inputs) {
    ValidScene(inp.scene) && forall o :: inp.diagnose(o).Some? ==> Honest(inp.diagnose(o).value)
  }

  /** The stages before the incidents are listed pass. */
  predicate GetsToListing(inp: Inputs) { inp.discovered && inp.policiesOk && inp.labelsOk }

  /** No cancellation kept a listing or a diagnosis from being done. */
  ghost predicate Undisturbed(inp: Inputs, u: Setup, scan: Scan) {
    AllDelivered(inp.scene, u) && (inp.cutShort.None? || inp.cutShort.value >= |scan.observations|)
  }

  ghost predicate SomeDiagnosisFails(inp: Inputs, scan: Scan) { AnyFails(scan.observations, inp.diagnose) }

  lemma SomeFails(inp: Inputs, scan: Scan)
    ensures AnyFails(scan.observations, inp.diagnose) ==> SomeDiagnosisFails(inp, scan)
  {
  }

  /** The cycle is given up before diagnosis: a listing failed in a cancelled cycle, or the diagnosis
      snapshot failed. */
  predicate CutOff(inp: Inputs, scan: Scan) {
    (scan.failed && inp.cancelledEarly) || (|scan.observations| > 0 && !inp.snapshotOk)
  }

  /** Lifecycle does something about some incident of the list. */
  ghost predicate AnyActs(inp: Inputs, list: seq<Entry>, scan: Scan) {
    exists i :: 0 <= i < |list| && Acts(list[i], scan, inp.scene.catalog, inp.byUID, inp.now)
  }

  /** The incidents as they were listed for the scan scope, in some order. */
  ghost predicate Lists(entries: seq<Entry>, store: Store) {
    Synced(entries, store) && forall n :: n in store ==> InList(entries, n)
  }

  /** Every incident that was open ends resolved, current or disarmed. */
  ghost predicate AllSettled(start: Store, end: Store, diagnosed: map<string, Diagnosed>) {
    forall n :: n in start && !start[n].Resolved() ==>
      n in end && Settled(end[n].incident.status, start[n].Target().uid, diagnosed)
  }

  /** Open incidents about catalogued resources are untouched. */
  ghost predicate LeftAlone(catalog: Snapshot, start: Store, end: Store) {
    forall n :: n in start && !start[n].Resolved() && start[n].Target().GR() in catalog.resources ==>
      n in end && end[n] == start[n]
  }

  /** An open incident about an unobserved target ends resolved. */
  ghost predicate ResolvedUnobserved(before: Entry, after: Entry, observed: set<string>) {
    && !before.Resolved() && before.Target().uid !in observed && Framing.NulFree(before.Target().ns)
    && after.Resolved()
  }

  /** An open incident about an unobserved target that ends resolved carries a true reason. */
  ghost predicate ResolvedTruthfully(u: Setup, catalog: Snapshot, start: Store, end: Store, observed: set<string>) {
    NulFreeLists(u) ==>
      forall n :: n in start && n in end && ResolvedUnobserved(start[n], end[n], observed) ==>
        TrueText(u, catalog, start[n].Target(), end[n].incident.status.resolutionReason)
  }

  /** The text is one of the five reasons, and what it says is true. */
  ghost predicate TrueText(u: Setup, catalog: Snapshot, t: TargetRef, text: string) {
    || (text == "ResourceTypeRemoved" && Truthful(u, catalog, t, Reason.ResourceTypeRemoved))
    || (text == "TargetAbsent" && Truthful(u, catalog, t, TargetAbsent))
    || (text == "TargetReplaced" && Truthful(u, catalog, t, TargetReplaced))
    || (text == "PolicyNoLongerMatches" && Truthful(u, catalog, t, PolicyNoLongerMatches))
    || (text == "TargetNoLongerDeleting" && Truthful(u, catalog, t, TargetNoLongerDeleting))
  }

  lemma TrueReason(u: Setup, catalog: Snapshot, t: TargetRef, reason: Reason)
    requires Truthful(u, catalog, t, reason)
    ensures TrueText(u, catalog, t, ReasonText(reason))
  {
    hide Truthful;
  }

  /** A resolved incident whose target was observed is deleted all the same: the list has it as resolved and
      past its retention. `first` is the answer to the first call of the target's turn. */
  ghost predicate Forgotten(cfg: Incidents.Config, inp: Inputs, e: Entry, d: Diagnosed, first: ApiReply) {
    Expired(ListedAfter(cfg, e, d, first), inp.byUID, inp.now)
  }

  /** Exactly when: it was resolved, and past its retention if the target was not found; if it was found, the
      annotation had to change, its patch was not answered well, and with the new annotation the retention
      has passed. */
  lemma WhenForgotten(cfg: Incidents.Config, inp: Inputs, e: Entry, d: Diagnosed, first: ApiReply)
    ensures Forgotten(cfg, inp, e, d, first) <==>
            (if Revives(d.result) then
               && e.Resolved() && e.retention != d.KeptFor() && !first.Done?
               && Expired(e.(retention := d.KeptFor()), inp.byUID, inp.now)
             else Expired(e, inp.byUID, inp.now))
  {
    WhenStaysResolved(cfg, e, d, first);
    hide ListedAfter;
  }

  /** The store at the end, in full. The diagnosis of every observed target is persisted: known incidents are
      exactly what it calls for and missing ones are created exactly when it warrants them, except for the
      resolved ones that are forgotten. Every other incident that was open is treated as its verdict says,
      every other resolved one is gone exactly when its retention has passed, and nothing else appears. */
  ghost predicate ExactlySettled(cfg: Incidents.Config, inp: Inputs, oracle: nat -> ApiReply, start: Store, end: Store,
                                 scan: Scan, diagnosed: map<string, Diagnosed>, turns: map<string, nat>)
  {
    && (forall u :: u in scan.observations ==>
          && u in diagnosed && u in turns && diagnosed[u].observed.target.uid == u
          && EndsRight(cfg, inp, start, end, diagnosed[u], oracle(turns[u])))
    && (forall n :: n in start && start[n].Target().uid !in scan.observations ==>
          if !start[n].Resolved() then
            n in end && Follows(start[n], end[n], Fated(start[n], scan, inp.scene.catalog), inp.now, false)
          else if Expired(start[n], inp.byUID, inp.now) then n !in end
          else n in end && end[n] == start[n])
    && (forall n :: n in end ==> n in start || exists u :: u in scan.observations && n == IncidentName(u))
  }

  ghost predicate EndsRight(cfg: Incidents.Config, inp: Inputs, start: Store, end: Store, d: Diagnosed,
                            first: ApiReply) {
    if d.Name() in start && Forgotten(cfg, inp, start[d.Name()], d, first) then d.Name() !in end
    else Persisted(cfg, start, end, d)
  }

  /** The status that a diagnosis of a found target leaves, by what it found and what was there before. */
  ghost predicate DiagnosedInto(cfg: Incidents.Config, cur: Incidents.Status, d: Diagnosed, st: Incidents.Status) {
    && st.phase == (if d.result.complete then Incidents.Active else Incidents.DiagnosisFailed)
    && st.policyRef.Some? && st.policyRef.value.name == d.observed.policy.name
    && st.policyRef.value.uid == d.observed.policy.uid
    && st.policyRef.value.generation == d.observed.policy.generation
    && st.deletionTimestamp == d.observed.meta.deletion && st.snapshot == d.result.snapshot
    && st.findings == d.result.findings && st.actions == d.result.actions
    && st.resolvedTime == None && st.resolutionReason == ""
    && st.lastObserved == (if cur.lastObserved.Some? && d.now - cur.lastObserved.value < 300 then cur.lastObserved
                           else Some(d.now))
    && (if !d.result.complete || d.result.actions == [] then st.evidenceTime == None && st.evidenceExpires == None
        else if EvidenceLasts(cfg, cur, d) then
          st.evidenceTime == cur.evidenceTime && st.evidenceExpires == cur.evidenceExpires
        else
          st.evidenceTime == Some(d.now) && st.evidenceExpires == Some(d.now + cfg.timeout + 2 * cfg.interval))
  }

  /** The evidence of the same actions outlasts another interval and another timeout. */
  ghost predicate EvidenceLasts(cfg: Incidents.Config, cur: Incidents.Status, d: Diagnosed) {
    && cur.actions == d.result.actions && cur.evidenceTime.Some? && cur.evidenceExpires.Some?
    && cur.evidenceExpires.value > d.now + cfg.interval && cur.evidenceExpires.value > d.now + cfg.timeout
  }

  lemma RefreshedExactly(cfg: Incidents.Config, cur: Incidents.Status, d: Diagnosed)
    ensures DiagnosedInto(cfg, cur, d, Desired(cfg, cur, d))
  {
  }

  /** The incident of an observed target, by what the diagnosis found. */
  ghost predicate AsDiagnosed(cfg: Incidents.Config, start: Store, end: Store, d: Diagnosed) {
    var n, r := IncidentName(d.observed.target.uid), d.result;
    if n !in start then
      && (n in end <==> r.targetFound && r.uidMatches && r.thresholdElapsed)
      && (n in end ==>
            && end[n].name == n && end[n].Target() == d.observed.target
            && end[n].retention == Some(d.observed.policy.settings.resolvedTTL)
            && DiagnosedInto(cfg, Incidents.EMPTY_STATUS, d, end[n].incident.status))
    else
      n in end && KnownAsDiagnosed(cfg, start[n], end[n], d)
  }

  ghost predicate KnownAsDiagnosed(cfg: Incidents.Config, before: Entry, after: Entry, d: Diagnosed) {
    if !d.result.targetFound then ResolvedFor(before, after, "TargetAbsent", d.now)
    else if !d.result.uidMatches then ResolvedFor(before, after, "TargetReplaced", d.now)
    else
      && DiagnosedInto(cfg, before.incident.status, d, after.incident.status)
      && after == before.(retention := Some(d.observed.policy.settings.resolvedTTL),
                          incident := before.incident.(status := after.incident.status))
  }

  lemma PersistedMeans(cfg: Incidents.Config, start: Store, end: Store, d: Diagnosed)
    requires Persisted(cfg, start, end, d)
    ensures AsDiagnosed(cfg, start, end, d)
  {
    hide Desired, DiagnosedInto;
    RefreshedExactly(cfg, Incidents.EMPTY_STATUS, d);
    if d.Name() in start { RefreshedExactly(cfg, start[d.Name()].incident.status, d); }
  }

  /** In particular every incident that was open is as diagnosed, and a target without one has got one exactly
      when its diagnosis found it, with the UID observed, past the threshold. */
  lemma OpenOrNewPersisted(cfg: Incidents.Config, inp: Inputs, oracle: nat -> ApiReply, start: Store, end: Store,
                           scan: Scan, diagnosed: map<string, Diagnosed>, turns: map<string, nat>, u: string)
    requires ExactlySettled(cfg, inp, oracle, start, end, scan, diagnosed, turns) && u in scan.observations
    requires IncidentName(u) in start ==> !start[IncidentName(u)].Resolved()
    ensures u in diagnosed && diagnosed[u].observed.target.uid == u && AsDiagnosed(cfg, start, end, diagnosed[u])
  {
    hide Forgotten, Follows, Fated, Expired, AsDiagnosed, Persisted;
    var d := diagnosed[u];
    if IncidentName(u) in start {
      WhenForgotten(cfg, inp, start[IncidentName(u)], d, oracle(turns[u]));
      NotExpiredOpen(start[IncidentName(u)], inp);
    }
    PersistedMeans(cfg, start, end, d);
  }

  /** What a failed diagnosis is taken for: the target is there, and nothing is known about it. */
  lemma InconclusiveMeans(o: Observation, now: int)
    ensures var r := Inconclusive(o, now);
            && r.targetFound && r.uidMatches && !r.complete && r.findings == [] && r.actions == []
            && (r.thresholdElapsed <==>
                  o.meta.deletion.Some? && now >= o.meta.deletion.value + o.policy.settings.terminationAge)
  {
  }

  /** A resolved incident about a target that was not observed is gone at the end exactly when its retention has
      passed: the resolved-incident time of the policy that its status names when that is positive, otherwise its
      positive annotation; with neither, or without a time of resolution, it is kept. */
  lemma ResolvedGoneExactly(cfg: Incidents.Config, inp: Inputs, oracle: nat -> ApiReply, start: Store, end: Store,
                            scan: Scan, diagnosed: map<string, Diagnosed>, turns: map<string, nat>, n: string)
    requires ExactlySettled(cfg, inp, oracle, start, end, scan, diagnosed, turns)
    requires n in start && start[n].Resolved() && start[n].Target().uid !in scan.observations
    ensures var st, noted := start[n].incident.status, start[n].retention;
            var policy := if st.policyRef.Some? then st.policyRef.value.uid else "";
            n !in end <==>
            && st.resolvedTime.Some?
            && if policy in inp.byUID && inp.byUID[policy].settings.resolvedTTL > 0
               then inp.now >= st.resolvedTime.value + inp.byUID[policy].settings.resolvedTTL
               else noted.Some? && noted.value > 0 && inp.now >= st.resolvedTime.value + noted.value
  {
    hide EndsRight, Follows, Fated;
  }

  /** Resolved at the time of the cycle for a reason, and otherwise as it was: the actions are kept for audit. */
  ghost predicate ResolvedNow(before: Entry, after: Entry, text: string, now: int) {
    after == before.(incident := before.incident.(status := before.incident.status.(
        phase := Incidents.Resolved, resolvedTime := Some(now), resolutionReason := text)))
  }

  /** What was resolved already stays as it is. */
  ghost predicate ResolvedFor(before: Entry, after: Entry, text: string, now: int) {
    if before.Resolved() then after == before else ResolvedNow(before, after, text, now)
  }

  /** Without diagnosis, actions and evidence, and otherwise as it was. */
  ghost predicate DisarmedNow(before: Entry, after: Entry) {
    after == before.(incident := before.incident.(status := before.incident.status.(
        phase := Incidents.DiagnosisFailed, snapshot := Incidents.TargetSnapshot("", [], []), findings := [],
        actions := [], evidenceTime := None, evidenceExpires := None)))
  }

  /** What becomes of an open incident about a target that was not observed, in a cycle without trouble in which
      everything was delivered: resolved for the one true reason, or disarmed when its resource could not be
      listed in full. */
  lemma UnobservedEndsExactly(cfg: Incidents.Config, inp: Inputs, oracle: nat -> ApiReply, entries: seq<Entry>,
                              start: Store, end: Store, u: Setup, scan: Scan, diagnosed: map<string, Diagnosed>,
                              turns: map<string, nat>, n: string)
    requires ValidScene(inp.scene) && Account(inp.scene, entries, u, scan) && NulFreeLists(u)
    requires AllDelivered(inp.scene, u) && Lists(entries, start)
    requires ExactlySettled(cfg, inp, oracle, start, end, scan, diagnosed, turns)
    requires n in start && !start[n].Resolved() && start[n].Target().uid !in scan.observations
    requires Framing.NulFree(start[n].Target().ns)
    ensures n in end
    ensures start[n].Target().GR() !in inp.scene.catalog.resources ==>
              ResolvedNow(start[n], end[n], "ResourceTypeRemoved", inp.now)
    ensures start[n].Target().GR() in inp.scene.catalog.resources ==>
              exists job :: job in u.jobs && job.resource.gr == start[n].Target().GR()
                && if AnyBound(ResultsOf(inp.scene, u)) || Unlistable(u, job) then DisarmedNow(start[n], end[n])
                   else exists text :: TrueText(u, inp.scene.catalog, start[n].Target(), text)
                          && ResolvedNow(start[n], end[n], text, inp.now)
  {
    hide ValidScene, Account, NulFreeLists, AllDelivered, EndsRight, Truthful, VerdictFor, Expired, TrueText, AnyBound,
      Unlistable, ResultsOf;
    var e, t := start[n], start[n].Target();
    assert InList(entries, n);
    var i :| 0 <= i < |entries| && entries[i].name == n;
    assert entries[i] == e && e in entries;
    VerdictExactly(inp.scene, entries, u, scan, e);
    var verdict := VerdictFor(t, scan.observations, inp.scene.catalog, scan.coverage);
    assert Follows(e, end[n], verdict, inp.now, false);
    if t.GR() in inp.scene.catalog.resources && verdict.Resolve? {
      TrueReason(u, inp.scene.catalog, t, verdict.reason);
      assert ResolvedNow(e, end[n], ReasonText(verdict.reason), inp.now);
    }
  }

  lemma NotExpiredOpen(e: Entry, inp: Inputs)
    ensures Expired(e, inp.byUID, inp.now) ==> e.Resolved()
  {
  }

  /** A revived incident is gone at the end exactly when it was resolved at the start, its annotation differed,
      the patch of the annotation met a conflict, and by the new annotation its retention has passed. */
  lemma RevivedLostExactly(cfg: Incidents.Config, inp: Inputs, oracle: nat -> ApiReply, first: nat, calls: nat,
                           entries: seq<Entry>, list: seq<Entry>, start: Store, end: Store, scan: Scan,
                           diagnosed: map<string, Diagnosed>, turns: map<string, nat>, u: string)
    requires Canonical(start) && Lists(entries, start) && !Trouble(oracle, first, calls)
    requires ListIs(cfg, oracle, first, calls, entries, list, diagnosed, turns)
    requires ExactlySettled(cfg, inp, oracle, start, end, scan, diagnosed, turns) && u in scan.observations
    requires IncidentName(u) in start && Revives(diagnosed[u].result)
    ensures var e := start[IncidentName(u)];
            IncidentName(u) !in end <==>
            && e.Resolved() && e.retention != diagnosed[u].KeptFor() && oracle(turns[u]).Conflict?
            && Expired(e.(retention := diagnosed[u].KeptFor()), inp.byUID, inp.now)
  {
    hide Forgotten, Follows, Fated, Expired, EntryAfter, Canonical, Lists, ListIs, Trouble;
    var e, d := start[IncidentName(u)], diagnosed[u];
    WhenForgotten(cfg, inp, e, d, oracle(turns[u]));
    TurnOf(cfg, oracle, first, calls, entries, list, start, diagnosed, turns, u);
    if e.retention != d.KeptFor() { NotFatal(oracle, first, calls, turns[u]); }
  }

  /** A turn that patches an annotation made its first call where it says. */
  lemma TurnOf(cfg: Incidents.Config, oracle: nat -> ApiReply, first: nat, calls: nat, entries: seq<Entry>,
               list: seq<Entry>, start: Store, diagnosed: map<string, Diagnosed>, turns: map<string, nat>, u: string)
    requires Canonical(start) && Lists(entries, start) && u in diagnosed && IncidentName(u) in start
    requires ListIs(cfg, oracle, first, calls, entries, list, diagnosed, turns) && Revives(diagnosed[u].result)
    ensures u in turns && first <= turns[u] <= calls
    ensures start[IncidentName(u)].retention != diagnosed[u].KeptFor() ==> turns[u] < calls
  {
    hide ListedAfter, Revives;
    var n := IncidentName(u);
    assert u in turns.Keys && InList(entries, n);
    var i :| 0 <= i < |entries| && entries[i].name == n;
    assert entries[i] == start[n] && EntryIs(cfg, oracle, calls, entries[i], list[i], diagnosed, turns);
    NamesIdentifyUids(start[n].Target().uid, u);
  }

  lemma NotFatal(oracle: nat -> ApiReply, from: nat, to: nat, at: nat)
    requires from <= at < to && !Trouble(oracle, from, to)
    ensures !Fatal(oracle(at))
  {
  }

  lemma DisarmedSettles(start: Store, middle: Store, end: Store, diagnosed: map<string, Diagnosed>)
    requires AllDisarmed(end) && end.Keys == middle.Keys && forall n :: n in start ==> n in middle
    ensures AllSettled(start, end, diagnosed)
  {
    hide Current, Disarmed;
    forall n | n in start && !start[n].Resolved()
      ensures n in end && Settled(end[n].incident.status, start[n].Target().uid, diagnosed)
    {
      assert n in middle.Keys;
    }
  }

  lemma StartMirrored(entries: seq<Entry>, store: Store)
    requires Lists(entries, store)
    ensures SamePhases(entries, store) && Synced(entries, store)
  {
  }

  lemma KeptInStore(entries: seq<Entry>, start: Store, list: seq<Entry>, store: Store, done: set<string>)
    requires Untouched(entries, start, list, store, done)
    ensures forall n :: n in start ==> n in store
  {
  }

  /** Every verdict on a listed open incident that resolves it is true. */
  ghost predicate TrueVerdicts(u: Setup, catalog: Snapshot, entries: seq<Entry>, scan: Scan) {
    NulFreeLists(u) ==>
      forall e :: e in entries && !e.Resolved() && Framing.NulFree(e.Target().ns) ==>
        Fated(e, scan, catalog).Resolve? ==> Truthful(u, catalog, e.Target(), Fated(e, scan, catalog).reason)
  }

  lemma TruthOfVerdicts(x: Scene, entries: seq<Entry>, u: Setup, scan: Scan)
    requires ValidScene(x) && Account(x, entries, u, scan)
    ensures TrueVerdicts(u, x.catalog, entries, scan)
  {
    hide Account, VerdictFor, Truthful, ValidScene;
    if NulFreeLists(u) {
      forall e | e in entries && !e.Resolved() && Framing.NulFree(e.Target().ns) && Fated(e, scan, x.catalog).Resolve?
        ensures Truthful(u, x.catalog, e.Target(), Fated(e, scan, x.catalog).reason)
      {
        VerdictsAreTruthful(x, entries, u, scan, e);
      }
    }
  }

  lemma ObservationsFiled(x: Scene, entries: seq<Entry>, u: Setup, scan: Scan)
    requires Account(x, entries, u, scan)
    ensures forall uid :: uid in scan.observations ==> scan.observations[uid].target.uid == uid
  {
    hide SetupFor, ResultsOf, Covers, IsSource, Delivers;
  }

  /** Every catalogued resource with an open incident has a coverage record. */
  ghost predicate AllCovered(catalog: Snapshot, entries: seq<Entry>, scan: Scan) {
    forall e :: e in entries && !e.Resolved() && e.Target().GR() in catalog.resources ==>
      e.Target().GR() in scan.coverage
  }

  lemma CoveredAll(x: Scene, entries: seq<Entry>, u: Setup, scan: Scan)
    requires ValidScene(x) && Account(x, entries, u, scan)
    ensures AllDelivered(x, u) ==> AllCovered(x.catalog, entries, scan)
  {
    hide Account, AllDelivered, ValidScene;
    if AllDelivered(x, u) {
      forall e | e in entries && !e.Resolved() && e.Target().GR() in x.catalog.resources
        ensures e.Target().GR() in scan.coverage
      {
        OpenAreCovered(x, entries, u, scan, e);
      }
    }
  }

  /** One open incident through the whole cycle. */
  lemma IncidentSettles(before: Entry, after: Entry, v: Coverage.Verdict, now: int, uid: string,
                        diagnosed: map<string, Diagnosed>)
    requires Follows(before, after, v, now, false) && !v.Uncovered?
    requires v.Processed? ==> Settled(before.incident.status, uid, diagnosed)
    ensures Settled(after.incident.status, uid, diagnosed)
  {
  }

  lemma LifecycleSettles(inp: Inputs, entries: seq<Entry>, start: Store, list: seq<Entry>, middle: Store, end: Store,
                         diagnosed: map<string, Diagnosed>, scan: Scan, lost: bool, excused: bool)
    requires Lists(entries, start) && SameNames(entries, list)
    requires forall i :: 0 <= i < |list| && !list[i].Resolved() ==>
               && list[i].name in middle && list[i].name in end
               && Follows(middle[list[i].name], end[list[i].name],
                          Fated(list[i], scan, inp.scene.catalog), inp.now, lost)
    requires !excused ==> !lost && ObservedSettled(entries, middle, scan.observations.Keys, diagnosed)
    requires !excused ==> AllCovered(inp.scene.catalog, entries, scan)
    ensures !excused ==> AllSettled(start, end, diagnosed)
  {
    hide Follows, Settled, VerdictReason;
    if !excused {
      forall n | n in start && !start[n].Resolved()
        ensures n in end && Settled(end[n].incident.status, start[n].Target().uid, diagnosed)
      {
        var i :| 0 <= i < |entries| && entries[i].name == n;
        assert entries[i] == start[n] && !list[i].Resolved() && entries[i] in entries;
        IncidentSettles(middle[n], end[n], Fated(list[i], scan, inp.scene.catalog), inp.now,
                        start[n].Target().uid, diagnosed);
      }
    }
  }

  lemma ResolutionCarriesReason(before: Entry, after: Entry, v: Coverage.Verdict, now: int, err: bool)
    requires Follows(before, after, v, now, err) && !before.Resolved() && after.Resolved()
    ensures v.Resolve? && after.incident.status.resolutionReason == ReasonText(v.reason)
  {
  }

  lemma LifecycleTruthful(inp: Inputs, entries: seq<Entry>, start: Store, list: seq<Entry>, middle: Store, end: Store,
                          u: Setup, scan: Scan, lost: bool)
    requires Lists(entries, start) && SameNames(entries, list)
    requires Untouched(entries, start, list, middle, scan.observations.Keys)
    requires TrueVerdicts(u, inp.scene.catalog, entries, scan)
    requires forall i :: 0 <= i < |list| && !list[i].Resolved() ==>
               && list[i].name in middle && list[i].name in end
               && Follows(middle[list[i].name], end[list[i].name],
                          Fated(list[i], scan, inp.scene.catalog), inp.now, lost)
    ensures ResolvedTruthfully(u, inp.scene.catalog, start, end, scan.observations.Keys)
  {
    hide Follows, Truthful, VerdictFor, ReasonText, TrueText;
    if NulFreeLists(u) {
      forall n | n in start && !start[n].Resolved() && start[n].Target().uid !in scan.observations.Keys
                 && Framing.NulFree(start[n].Target().ns) && n in end && end[n].Resolved()
        ensures TrueText(u, inp.scene.catalog, start[n].Target(), end[n].incident.status.resolutionReason)
      {
        var i :| 0 <= i < |entries| && entries[i].name == n;
        assert entries[i] == start[n] && list[i] == entries[i] && middle[n] == start[n] && entries[i] in entries;
        var v := Fated(list[i], scan, inp.scene.catalog);
        ResolutionCarriesReason(middle[n], end[n], v, inp.now, lost);
        TrueReason(u, inp.scene.catalog, start[n].Target(), v.reason);
      }
    }
  }

  /** What lifecycle without errors did to the store. */
  ghost predicate LifecycleDone(inp: Inputs, list: seq<Entry>, middle: Store, end: Store, scan: Scan) {
    && (forall n :: !InList(list, n) ==> SameAt(middle, end, n))
    && Swept(list, |list|, middle, end, inp.byUID, inp.now, false)
    && (forall i :: 0 <= i < |list| && !list[i].Resolved() ==>
          && list[i].name in middle && list[i].name in end
          && Follows(middle[list[i].name], end[list[i].name], Fated(list[i], scan, inp.scene.catalog), inp.now, false))
  }

  lemma LifecycleIsDone(inp: Inputs, list: seq<Entry>, middle: Store, end: Store, scan: Scan)
    requires forall n :: !InList(list, n) ==> SameAt(middle, end, n)
    requires Swept(list, |list|, middle, end, inp.byUID, inp.now, false)
    requires forall i :: 0 <= i < |list| && !list[i].Resolved() ==>
               && list[i].name in middle && list[i].name in end
               && Follows(middle[list[i].name], end[list[i].name],
                          Fated(list[i], scan, inp.scene.catalog), inp.now, false)
    ensures LifecycleDone(inp, list, middle, end, scan)
  {
    hide InList, SameAt, Swept, Follows, Fated;
  }

  /** A fresh list when nothing was observed. */
  lemma ListedUnobserved(cfg: Incidents.Config, oracle: nat -> ApiReply, entries: seq<Entry>, store: Store)
    requires Lists(entries, store)
    ensures Named(entries, store) && SameNames(entries, entries)
    ensures Untouched(entries, store, entries, store, NO_SCAN.observations.Keys)
    ensures ObservedExact(cfg, store, store, NO_SCAN.observations.Keys, map[])
    ensures ListMade(cfg, oracle, entries, entries, map[], map[])
  {
    StartDiagnosing(cfg, entries, store);
    assert NO_SCAN.observations.Keys == {};
  }

  /** The list is what the turns made of the entries. */
  ghost predicate ListMade(cfg: Incidents.Config, oracle: nat -> ApiReply, entries: seq<Entry>, list: seq<Entry>,
                           diagnosed: map<string, Diagnosed>, turns: map<string, nat>)
  {
    && |list| == |entries| && turns.Keys == diagnosed.Keys
    && forall i :: 0 <= i < |entries| && entries[i].Target().uid in diagnosed ==>
         var u := entries[i].Target().uid;
         list[i] == ListedAfter(cfg, entries[i], diagnosed[u], oracle(turns[u]))
  }

  lemma ListIsMade(cfg: Incidents.Config, oracle: nat -> ApiReply, first: nat, calls: nat, list0: seq<Entry>,
                   list: seq<Entry>, diagnosed: map<string, Diagnosed>, turns: map<string, nat>)
    requires ListIs(cfg, oracle, first, calls, list0, list, diagnosed, turns)
    ensures ListMade(cfg, oracle, list0, list, diagnosed, turns)
  {
    hide ListedAfter;
    forall i | 0 <= i < |list0| && list0[i].Target().uid in diagnosed
      ensures var u := list0[i].Target().uid;
              list[i] == ListedAfter(cfg, list0[i], diagnosed[u], oracle(turns[u]))
    {
      assert EntryIs(cfg, oracle, calls, list0[i], list[i], diagnosed, turns);
    }
  }

  lemma LifecycleExact(cfg: Incidents.Config, inp: Inputs, oracle: nat -> ApiReply, entries: seq<Entry>, start: Store,
                       list: seq<Entry>, middle: Store, end: Store, diagnosed: map<string, Diagnosed>,
                       turns: map<string, nat>, scan: Scan)
    requires Canonical(start) && Canonical(middle) && Lists(entries, start) && SameNames(entries, list)
    requires Untouched(entries, start, list, middle, scan.observations.Keys)
    requires ObservedExact(cfg, start, middle, scan.observations.Keys, diagnosed)
    requires ListMade(cfg, oracle, entries, list, diagnosed, turns)
    requires LifecycleDone(inp, list, middle, end, scan)
    ensures ExactlySettled(cfg, inp, oracle, start, end, scan, diagnosed, turns)
  {
    hide Follows, Persisted, Fated, Expired, LifecycleDone, Untouched, ObservedExact, Lists, SameNames, Canonical,
      ListMade, EndsRight;
    forall u | u in scan.observations
      ensures && u in diagnosed && u in turns && diagnosed[u].observed.target.uid == u
              && EndsRight(cfg, inp, start, end, diagnosed[u], oracle(turns[u]))
    {
      ObservedEnd(cfg, inp, oracle, entries, start, list, middle, end, diagnosed, turns, scan, u);
    }
    forall n | n in start && start[n].Target().uid !in scan.observations
      ensures if !start[n].Resolved() then
                n in end && Follows(start[n], end[n], Fated(start[n], scan, inp.scene.catalog), inp.now, false)
              else if Expired(start[n], inp.byUID, inp.now) then n !in end
              else n in end && end[n] == start[n]
    {
      UnobservedEnd(inp, entries, start, list, middle, end, scan, n);
    }
    forall n | n in end ensures n in start || exists u :: u in scan.observations && n == IncidentName(u) {
      NothingElse(inp, entries, start, list, middle, end, scan, n);
    }
  }

  lemma ObservedEnd(cfg: Incidents.Config, inp: Inputs, oracle: nat -> ApiReply, entries: seq<Entry>, start: Store,
                    list: seq<Entry>, middle: Store, end: Store, diagnosed: map<string, Diagnosed>,
                    turns: map<string, nat>, scan: Scan, u: string)
    requires Canonical(start) && Lists(entries, start) && SameNames(entries, list)
    requires ObservedExact(cfg, start, middle, scan.observations.Keys, diagnosed)
    requires ListMade(cfg, oracle, entries, list, diagnosed, turns)
    requires LifecycleDone(inp, list, middle, end, scan) && u in scan.observations
    ensures u in diagnosed && u in turns && diagnosed[u].observed.target.uid == u
    ensures EndsRight(cfg, inp, start, end, diagnosed[u], oracle(turns[u]))
  {
    hide Follows, Persisted, Fated, Expired, Canonical, ListedAfter;
    var n, d := IncidentName(u), diagnosed[u];
    assert u in scan.observations.Keys && Persisted(cfg, start, middle, d);
    assert u in diagnosed.Keys && u in turns.Keys;
    if n in start {
      assert InList(entries, n);
      var i :| 0 <= i < |entries| && entries[i].name == n;
      ListedUid(entries, start, list, i, u);
      assert entries[i] == start[n] && list[i] == ListedAfter(cfg, start[n], d, oracle(turns[u]));
      assert list[i].name == n && list[i].Target().uid == u;
      if !list[i].Resolved() { ObservedStays(middle[n], end[n], list[i], scan, inp.scene.catalog, inp.now); }
      ExpiredIsResolved(list[i], inp.byUID, inp.now);
      if !Expired(list[i], inp.byUID, inp.now) { PersistedStays(cfg, start, middle, end, d); }
    } else {
      NotListed(entries, start, list, n);
      PersistedStays(cfg, start, middle, end, d);
    }
  }

  lemma ExpiredIsResolved(e: Entry, byUID: map<string, Policy.CompiledPolicy>, now: int)
    ensures Expired(e, byUID, now) ==> e.Resolved()
  {
  }

  /** The entry under a scanner's name is about that target. */
  lemma ListedUid(entries: seq<Entry>, start: Store, list: seq<Entry>, i: nat, u: string)
    requires Canonical(start) && Lists(entries, start) && SameNames(entries, list)
    requires i < |list| && list[i].name == IncidentName(u)
    ensures list[i].Target().uid == u && entries[i].Target().uid == u
  {
    assert entries[i].name == list[i].name && entries[i] == start[list[i].name];
    NamesIdentifyUids(entries[i].Target().uid, u);
  }

  lemma UnobservedEnd(inp: Inputs, entries: seq<Entry>, start: Store, list: seq<Entry>, middle: Store, end: Store,
                      scan: Scan, n: string)
    requires Lists(entries, start) && SameNames(entries, list)
    requires Untouched(entries, start, list, middle, scan.observations.Keys)
    requires LifecycleDone(inp, list, middle, end, scan)
    requires n in start && start[n].Target().uid !in scan.observations
    ensures if !start[n].Resolved() then
              n in end && Follows(start[n], end[n], Fated(start[n], scan, inp.scene.catalog), inp.now, false)
            else if Expired(start[n], inp.byUID, inp.now) then n !in end
            else n in end && end[n] == start[n]
  {
    hide Follows, Fated, Expired;
    assert InList(entries, n);
    var i :| 0 <= i < |entries| && entries[i].name == n;
    assert entries[i] == start[n] && list[i] == entries[i] && middle[n] == start[n];
  }

  lemma NothingElse(inp: Inputs, entries: seq<Entry>, start: Store, list: seq<Entry>, middle: Store, end: Store,
                    scan: Scan, n: string)
    requires Canonical(middle) && Lists(entries, start) && SameNames(entries, list)
    requires Untouched(entries, start, list, middle, scan.observations.Keys)
    requires LifecycleDone(inp, list, middle, end, scan) && n in end
    ensures n in start || exists u :: u in scan.observations && n == IncidentName(u)
  {
    hide Follows, Fated, Expired;
    if n !in start {
      NotListed(entries, start, list, n);
      assert SameAt(middle, end, n);
      var u := middle[n].Target().uid;
      assert n == IncidentName(u);
      assert u !in scan.observations.Keys ==> SameAt(start, middle, IncidentName(u));
    }
  }

  lemma PersistedStays(cfg: Incidents.Config, start: Store, middle: Store, end: Store, d: Diagnosed)
    requires Persisted(cfg, start, middle, d) && SameAt(middle, end, d.Name())
    ensures Persisted(cfg, start, end, d)
  {
    hide EntryAfter, Created, Warrants;
  }

  lemma NotListed(entries: seq<Entry>, start: Store, list: seq<Entry>, n: string)
    requires Synced(entries, start) && SameNames(entries, list) && n !in start
    ensures !InList(list, n)
  {
    forall i | 0 <= i < |list| ensures list[i].name != n { assert list[i].name == entries[i].name; }
  }

  lemma ObservedStays(before: Entry, after: Entry, e: Entry, scan: Scan, catalog: Snapshot, now: int)
    requires e.Target().uid in scan.observations && Follows(before, after, Fated(e, scan, catalog), now, false)
    ensures after == before
  {
  }

  lemma NothingConcluded(inp: Inputs, entries: seq<Entry>, start: Store, end: Store, lost: bool)
    requires Lists(entries, start)
    requires forall i :: 0 <= i < |entries| && !entries[i].Resolved() ==>
               && entries[i].name in start && entries[i].name in end
               && Follows(start[entries[i].name], end[entries[i].name],
                          Fated(entries[i], NO_SCAN, inp.scene.catalog), inp.now, lost)
    ensures LeftAlone(inp.scene.catalog, start, end)
  {
    forall n | n in start && !start[n].Resolved() && start[n].Target().GR() in inp.scene.catalog.resources
      ensures n in end && end[n] == start[n]
    {
      var i :| 0 <= i < |entries| && entries[i].name == n;
      assert Fated(entries[i], NO_SCAN, inp.scene.catalog).Uncovered?;
    }
  }

  // ---- Counting incidents by phase ----

  function CountIn(list: seq<Entry>, phase: Incidents.Phase): nat {
    if list == [] then 0
    else CountIn(list[..|list| - 1], phase) + if list[|list| - 1].incident.status.phase == phase then 1 else 0
  }

  ghost function PhaseNames(store: Store, phase: Incidents.Phase): set<string> {
    set n | n in store && store[n].incident.status.phase == phase
  }

  ghost function NamesIn(list: seq<Entry>, phase: Incidents.Phase): set<string> {
    set i | 0 <= i < |list| && list[i].incident.status.phase == phase :: list[i].name
  }

  ghost predicate DistinctEntries(list: seq<Entry>) {
    forall i, j :: 0 <= i < j < |list| ==> list[i].name != list[j].name
  }

  lemma {:induction false} CountIsCardinality(list: seq<Entry>, phase: Incidents.Phase)
    requires DistinctEntries(list)
    ensures CountIn(list, phase) == |NamesIn(list, phase)|
  {
    if list != [] {
      var init, last := list[..|list| - 1], list[|list| - 1];
      assert list == init + [last];
      CountIsCardinality(init, phase);
      LastIsNew(init, last, phase);
      NamesSnoc(init, last, phase);
      hide NamesIn, DistinctEntries;
    }
  }

  lemma LastIsNew(list: seq<Entry>, e: Entry, phase: Incidents.Phase)
    requires DistinctEntries(list + [e])
    ensures e.name !in NamesIn(list, phase)
  {
    forall i | 0 <= i < |list| ensures list[i].name != e.name {
      assert (list + [e])[i] == list[i] && (list + [e])[|list|] == e;
    }
  }

  lemma NamesSnoc(list: seq<Entry>, e: Entry, phase: Incidents.Phase)
    ensures NamesIn(list + [e], phase) == NamesIn(list,
                                                  phase) + if e.incident.status.phase == phase then {e.name} else {}
  {
    var all := list + [e];
    assert all[|list|] == e;
    forall i | 0 <= i < |list| ensures all[i] == list[i] {}
    forall x | x in NamesIn(list, phase) ensures x in NamesIn(all, phase) {
      var i :| 0 <= i < |list| && list[i].incident.status.phase == phase && list[i].name == x;
      assert all[i].name == x;
    }
    forall x | x in NamesIn(all, phase)
      ensures x in NamesIn(list, phase) || (x == e.name && e.incident.status.phase == phase)
    {
      var i :| 0 <= i < |all| && all[i].incident.status.phase == phase && all[i].name == x;
    }
  }

  /** A list that agrees with the store on phases counts, for each reported phase, what the store holds. */
  lemma CountsAgree(list: seq<Entry>, store: Store, phase: Incidents.Phase)
    requires Named(list, store) && SamePhases(list, store) && !phase.NoPhase?
    ensures CountIn(list, phase) == |PhaseNames(store, phase)|
  {
    CountIsCardinality(list, phase);
    forall n | n in PhaseNames(store, phase) ensures n in NamesIn(list, phase) {
      var i :| 0 <= i < |list| && list[i].name == n;
    }
    assert NamesIn(list, phase) == PhaseNames(store, phase);
  }
}
