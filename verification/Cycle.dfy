/** One scanner cycle over the stored incidents (internal/scanner/cycle.go and the incident writes of
    internal/scanner/scanner.go). */
module Cycle {
  import opened Types
  import opened Discovery
  import opened Paging
  import opened TargetLists
  import opened Coverage
  import opened CycleFacts
  import Policy
  import Incidents

  class Scanner {
    const cfg: Incidents.Config
    /** The API server's reply to each call; every statement holds for all replies. */
    const oracle: nat -> ApiReply
    var calls: nat
    var store: Store
    /** The cached incident list, updated in place. */
    var list: seq<Entry>
    /** Creates and phase changes have made the list stale. */
    var metricsDirty: bool

    constructor (cfg: Incidents.Config, oracle: nat -> ApiReply, store: Store)
      ensures this.cfg == cfg && this.oracle == oracle && this.store == store && calls == 0
    {
      this.cfg, this.oracle, this.store := cfg, oracle, store;
      calls, list, metricsDirty := 0, [], false;
    }

    method Call() returns (reply: ApiReply)
      modifies this`calls
      ensures reply == oracle(old(calls)) && calls == old(calls) + 1
    {
      reply := oracle(calls);
      calls := calls + 1;
    }

    /** resolveIncident. */
    method ResolveIncident(name: string, reason: string, now: int) returns (err: bool)
      modifies this`store, this`calls
      ensures OnlyTouches(old(store), store, name) && calls >= old(calls)
      ensures name in store ==>
                (store[name] == old(store)[name]
                 || store[name] == WithStatus(old(store)[name],
                                              Incidents.ResolvedAs(old(store)[name].incident.status, reason, now)))
      ensures !err && name in store ==>
                store[name] == WithStatus(old(store)[name],
                                          Incidents.ResolvedAs(old(store)[name].incident.status, reason, now))
      ensures err ==> Trouble(oracle, old(calls), calls)
    {
      for attempt := 0 to RETRY_STEPS
        invariant store == old(store) && old(calls) <= calls <= old(calls) + 2 * attempt
        invariant Conflicts(oracle, old(calls), calls) >= attempt
      {
        var read := Call();
        if Fatal(read) { return true; }
        if name !in store || store[name].Resolved() { return false; }
        var reply := Call();
        if Applied(reply) {
          store := store[name := WithStatus(store[name],
                                            Incidents.ResolvedAs(store[name].incident.status, reason, now))];
        }
        if !reply.Conflict? { return Fatal(reply); }
      }
      EnoughConflicts(oracle, old(calls), calls);
      err := true;
    }

    /** failIncidentDiagnosis. */
    method FailIncidentDiagnosis(name: string) returns (err: bool)
      modifies this`store, this`calls
      ensures OnlyTouches(old(store), store, name) && calls >= old(calls)
      ensures name in store ==>
                (store[name] == old(store)[name]
                 || store[name] == WithStatus(old(store)[name], Incidents.Failed(old(store)[name].incident.status)))
      ensures !err && name in store ==>
                store[name] == WithStatus(old(store)[name], Incidents.Failed(old(store)[name].incident.status))
      ensures err ==> Trouble(oracle, old(calls), calls)
    {
      for attempt := 0 to RETRY_STEPS
        invariant store == old(store) && old(calls) <= calls <= old(calls) + 2 * attempt
        invariant Conflicts(oracle, old(calls), calls) >= attempt
      {
        var read := Call();
        if Fatal(read) { return true; }
        if name !in store || store[name].Resolved() { return false; }
        var failed := Incidents.Failed(store[name].incident.status);
        if failed == store[name].incident.status { return false; }
        var reply := Call();
        if Applied(reply) { store := store[name := WithStatus(store[name], failed)]; }
        if !reply.Conflict? { return Fatal(reply); }
      }
      EnoughConflicts(oracle, old(calls), calls);
      err := true;
    }

    /** Set the retention annotation of the incident held in the list at `slot` or freshly read. */
    method Annotate(d: Diagnosed, slot: Option<nat>) returns (a: Attempt)
      requires Canonical(store) && Named(list, store) && (metricsDirty || SamePhases(list, store))
      requires d.Name() in store && (slot.Some? ==> slot.value < |list| && list[slot.value] == store[d.Name()])
      modifies this`store, this`list, this`calls
      ensures OnlyTouches(old(store), store, d.Name()) && SameNames(old(list), list)
      ensures OthersKept(old(list), list, d.Name())
      ensures metricsDirty || SamePhases(list, store)
      ensures store[d.Name()].incident == old(store)[d.Name()].incident
      ensures a.Refreshed? ==> store[d.Name()] == old(store)[d.Name()].(retention := d.KeptFor())
      ensures a.Again? || a.Oversized? ==> store == old(store)
      ensures slot.None? ==> list == old(list)
      ensures slot.Some? ==> list[slot.value] == old(list)[slot.value].(retention := d.KeptFor())
      ensures a.Refreshed? <==> old(store)[d.Name()].retention == d.KeptFor() || oracle(old(calls)).Done?
      ensures old(store)[d.Name()].retention != d.KeptFor() ==> calls == old(calls) + 1
      ensures old(calls) <= calls <= old(calls) + 1 && Explained(oracle, old(calls), calls, a)
    {
      hide SamePhases, SameNames, OthersKept;
      var name := d.Name();
      var current := store[name];
      StandStill(list, name);
      if current.retention == d.KeptFor() { return Refreshed; }
      current := current.(retention := d.KeptFor());
      InPlace(list, store, slot, current);
      if slot.Some? { list := list[slot.value := current]; }
      var reply := Call();
      if Applied(reply) { store := store[name := current]; }
      a := AttemptOf(reply);
      OneCallExplains(oracle, old(calls));
    }

    /** Write the desired status; a phase change is noted first. */
    method WriteStatus(d: Diagnosed, slot: Option<nat>) returns (a: Attempt)
      requires Canonical(store) && Named(list, store) && (metricsDirty || SamePhases(list, store))
      requires d.Name() in store && (slot.Some? ==> slot.value < |list| && list[slot.value] == store[d.Name()])
      modifies this
      ensures OnlyTouches(old(store), store, d.Name()) && SameNames(old(list), list)
      ensures OthersKept(old(list), list, d.Name())
      ensures metricsDirty || SamePhases(list, store)
      ensures metricsDirty <==>
              (old(metricsDirty)
               || old(store)[d.Name()].incident.status.phase !=
                  Desired(cfg, old(store)[d.Name()].incident.status, d).phase)
      ensures a.Refreshed? ==>
                store[d.Name()] == WithStatus(old(store)[d.Name()],
                                              Desired(cfg, old(store)[d.Name()].incident.status, d))
      ensures a.Again? || a.Oversized? ==> store == old(store)
      ensures slot.None? ==> list == old(list)
      ensures slot.Some? ==>
                list[slot.value] == WithStatus(old(list)[slot.value],
                                               Desired(cfg, old(list)[slot.value].incident.status, d))
      ensures old(calls) <= calls <= old(calls) + 1 && Explained(oracle, old(calls), calls, a)
    {
      hide Desired, SamePhases, SameNames, OthersKept, Explained;
      var name := d.Name();
      var current := store[name];
      StandStill(list, name);
      NothingToExplain(oracle, calls);
      var desired := Desired(cfg, current.incident.status, d);
      if current.incident.status == desired { return Refreshed; }
      if current.incident.status.phase != desired.phase { metricsDirty := true; }
      current := WithStatus(current, desired);
      DesiredIsOpen(cfg, store[name].incident.status, d);
      InPlace(list, store, slot, current);
      if slot.Some? { list := list[slot.value := current]; }
      var reply := Call();
      if Applied(reply) { store := store[name := current]; }
      a := AttemptOf(reply);
      OneCallExplains(oracle, old(calls));
    }

    /** One attempt to refresh an incident, from the list entry at `slot` or from a fresh read. */
    method Refresh(d: Diagnosed, slot: Option<nat>) returns (a: Attempt)
      requires Canonical(store) && Named(list, store) && (metricsDirty || SamePhases(list, store)) && d.Name() in store
      requires slot.Some? ==> slot.value < |list| && list[slot.value] == store[d.Name()]
      requires Revives(d.result)
      modifies this
      ensures OnlyTouches(old(store), store, d.Name()) && SameNames(old(list), list)
      ensures OthersKept(old(list), list, d.Name())
      ensures (old(metricsDirty) ==> metricsDirty) && (metricsDirty || SamePhases(list, store))
      ensures a.Refreshed? ==> store[d.Name()] == EntryAfter(cfg, old(store)[d.Name()], d)
      ensures metricsDirty ==> old(metricsDirty) || PhaseMoves(cfg, old(store)[d.Name()], d)
      ensures a.Refreshed? && PhaseMoves(cfg, old(store)[d.Name()], d) ==> metricsDirty
      ensures a.Again? || a.Oversized? ==> SameButRetention(old(store)[d.Name()], store[d.Name()], d)
      ensures slot.None? ==> list == old(list)
      ensures slot.Some? ==> list[slot.value] == ListedAfter(cfg, old(list)[slot.value], d, oracle(old(calls)))
      ensures slot.Some? && old(list)[slot.value].retention != d.KeptFor() ==> calls > old(calls)
      ensures old(calls) <= calls <= old(calls) + 3 && Explained(oracle, old(calls), calls, a)
    {
      hide Desired, SamePhases, Canonical, Named, Explained;
      var name := d.Name();
      if slot.None? {
        var read := Call();
        OneCallExplains(oracle, old(calls));
        if Fatal(read) { return Error; }
      }
      ghost var begun := calls;
      a := Annotate(d, slot);
      ExplainedLater(oracle, old(calls), begun, calls, a);
      SameNamesOnlyTouches(old(list), list, old(store), store, name);
      if a.Refreshed? {
        begun := calls;
        a := WriteStatus(d, slot);
        ExplainedLater(oracle, old(calls), begun, calls, a);
      }
    }

    /** Further attempts after a conflict, each from a fresh read; the list is left alone. */
    method RefreshAfresh(d: Diagnosed) returns (a: Attempt)
      requires Canonical(store) && Named(list, store) && (metricsDirty || SamePhases(list, store)) && d.Name() in store
      requires Revives(d.result)
      modifies this
      ensures Canonical(store) && Named(list, store) && (metricsDirty || SamePhases(list, store))
      ensures OnlyTouches(old(store), store, d.Name()) && list == old(list) && d.Name() in store
      ensures old(metricsDirty) ==> metricsDirty
      ensures a.Refreshed? ==> store[d.Name()] == EntryAfter(cfg, old(store)[d.Name()], d)
      ensures metricsDirty ==> old(metricsDirty) || PhaseMoves(cfg, old(store)[d.Name()], d)
      ensures a.Refreshed? && PhaseMoves(cfg, old(store)[d.Name()], d) ==> metricsDirty
      ensures a.Again? || a.Oversized? ==> SameButRetention(old(store)[d.Name()], store[d.Name()], d)
      ensures a.Again? ==> Conflicts(oracle, old(calls), calls) >= RETRY_STEPS - 1
      ensures a.Oversized? || a.Error? ==> Trouble(oracle, old(calls), calls)
      ensures old(calls) <= calls <= old(calls) + 3 * (RETRY_STEPS - 1)
    {
      hide Canonical, Named, SamePhases, Trouble, Explained, EntryAfter, SameButRetention, PhaseMoves;
      var name := d.Name();
      a := Again;
      NothingButRetention(store[name], d);
      for attempt := 0 to RETRY_STEPS - 1
        invariant Canonical(store) && Named(list, store) && (metricsDirty || SamePhases(list, store)) && name in store
        invariant OnlyTouches(old(store), store, name) && list == old(list) && a.Again?
        invariant SameButRetention(old(store)[name], store[name], d) && (old(metricsDirty) ==> metricsDirty)
        invariant metricsDirty ==> old(metricsDirty) || PhaseMoves(cfg, old(store)[name], d)
        invariant old(calls) <= calls <= old(calls) + 3 * attempt && Conflicts(oracle, old(calls), calls) >= attempt
      {
        ghost var before, begun := store, calls;
        a := Refresh(d, None);
        SameNamesOnlyTouches(list, list, before, store, name);
        AttemptCounts(oracle, old(calls), begun, calls, attempt, a);
        RetentionApart(cfg, old(store)[name], before[name], store[name], d);
        if !a.Again? { return; }
      }
    }

    /** The retry loop of persistDiagnosis, whose first attempt works on the list entry, with its fallback
        for an oversized status. */
    method RefreshWithRetries(d: Diagnosed, slot: Option<nat>) returns (err: bool, lost: bool)
      requires Canonical(store) && Named(list, store) && (metricsDirty || SamePhases(list, store)) && d.Name() in store
      requires slot.Some? ==> slot.value < |list| && list[slot.value] == store[d.Name()]
      requires Honest(d.result) && Revives(d.result)
      modifies this
      ensures Canonical(store) && Named(list, store) && (metricsDirty || SamePhases(list, store)) && d.Name() in store
      ensures OnlyTouches(old(store), store, d.Name()) && SameNames(old(list), list)
      ensures OthersKept(old(list), list, d.Name())
      ensures !lost ==> SettledBy(store[d.Name()].incident.status, d)
      ensures !err ==> store[d.Name()] == EntryAfter(cfg, old(store)[d.Name()], d)
      ensures !err ==> (metricsDirty <==> old(metricsDirty) || PhaseMoves(cfg, old(store)[d.Name()], d))
      ensures slot.None? ==> list == old(list)
      ensures slot.Some? ==> list[slot.value] == ListedAfter(cfg, old(list)[slot.value], d, oracle(old(calls)))
      ensures slot.Some? && old(list)[slot.value].retention != d.KeptFor() ==> calls > old(calls)
      ensures calls >= old(calls) && (lost ==> err) && (err ==> Trouble(oracle, old(calls), calls))
    {
      hide Canonical, Named, SamePhases, SettledBy, Trouble, Explained, EntryAfter, ListedAfter, SameButRetention,
        SameNames, OthersKept;
      var name := d.Name();
      var a := Refresh(d, slot);
      SameNamesOnlyTouches(old(list), list, old(store), store, name);
      AttemptCounts(oracle, old(calls), old(calls), calls, 0, a);
      if a.Again? {
        ghost var before, begun := store, calls;
        a := RefreshAfresh(d);
        RetentionApart(cfg, old(store)[name], before[name], store[name], d);
        RetriesEnd(oracle, old(calls), begun, calls, a);
      }
      err, lost := !a.Refreshed?, !a.Refreshed?;
      EntrySettles(cfg, old(store)[name], d);
      if a.Oversized? {
        metricsDirty := true;
        ghost var before, begun := store, calls;
        lost := FailIncidentDiagnosis(name);
        TroubleGrows(oracle, old(calls), old(calls), begun, calls);
        SameNamesOnlyTouches(list, list, before, store, name);
        FailedSettles(before[name].incident.status, d);
      }
    }

    /** The incident of a target that was not in the list: found by name, or created when the target is
        stuck past the threshold. */
    method FindOrCreate(d: Diagnosed) returns (stop: bool, err: bool)
      requires Canonical(store) && Named(list, store) && (metricsDirty || SamePhases(list, store))
      modifies this`store, this`metricsDirty, this`calls
      ensures Canonical(store) && Named(list, store) && (metricsDirty || SamePhases(list, store))
      ensures Grows(old(store), store, d.Name()) && calls >= old(calls)
      ensures !stop ==> d.Name() in store && metricsDirty && !err
      ensures d.Name() in old(store) ==> store == old(store) && (stop ==> err)
      ensures !stop && d.Name() !in old(store) ==>
                && Warrants(d.result)
                && store[d.Name()] == WithStatus(Created(cfg, d, store[d.Name()].incident.uid), Incidents.EMPTY_STATUS)
      ensures stop && !err ==> store == old(store) && !Warrants(d.result) && metricsDirty == old(metricsDirty)
      ensures err ==> Trouble(oracle, old(calls), calls)
    {
      var name := d.Name();
      stop, err := true, true;
      var read := Call();
      if Fatal(read) { return; }
      if name in store {
        metricsDirty := true;
        NamesIdentifyUids(store[name].Target().uid, d.observed.target.uid);
        return store[name].Target().uid != d.observed.target.uid, false;
      }
      if !Warrants(d.result) { return true, false; }
      var uid: string := *;
      var created := Entry(name, d.KeptFor(), Incidents.Incident(uid, d.observed.target, Incidents.EMPTY_STATUS));
      var reply := Call();
      if !Fatal(reply) || reply.Lost? {
        Creating(list, store, created);
        store := store[name := created];
      }
      if Fatal(reply) { return; }
      metricsDirty := true;
      stop, err := false, false;
    }

    /** persistDiagnosis. `slot` is the incident's place in the list when it was known at the start of
        the cycle. `lost` says that a call failed for good, so that the incident may be left as it was;
        an oversized status that the fallback replaced is an error but not lost. The list follows in place,
        but a resolved entry stays resolved in it exactly when the target was not found, or the annotation had
        to change and the answer to the first call, its patch, was not good: a conflict, for one, after which
        the incident is read afresh. */
    method PersistDiagnosis(d: Diagnosed, slot: Option<nat>) returns (err: bool, lost: bool)
      requires Canonical(store) && Named(list, store) && (metricsDirty || SamePhases(list, store))
      requires slot.Some? ==> slot.value < |list| && d.Name() in store && list[slot.value] == store[d.Name()]
      requires Honest(d.result)
      modifies this
      ensures Canonical(store) && Named(list, store) && (metricsDirty || SamePhases(list, store))
      ensures Grows(old(store), store, d.Name()) && SameNames(old(list), list) && OthersKept(old(list), list, d.Name())
      ensures !lost && slot.Some? ==> d.Name() in store && SettledBy(store[d.Name()].incident.status, d)
      ensures !err ==> Persisted(cfg, old(store), store, d)
      ensures !err && (slot.None? ==> d.Name() !in old(store)) ==>
                (metricsDirty <==> old(metricsDirty) || Outdates(cfg, old(store), d))
      ensures slot.None? ==> list == old(list)
      ensures slot.Some? ==> list[slot.value] == ListedAfter(cfg, old(list)[slot.value], d, oracle(old(calls)))
      ensures slot.Some? ==>
                (list[slot.value].Resolved() <==> StaysResolved(old(list)[slot.value], d, oracle(old(calls))))
      ensures slot.Some? && Revives(d.result) && old(list)[slot.value].retention != d.KeptFor() ==> calls > old(calls)
      ensures calls >= old(calls) && (lost ==> err) && (err ==> Trouble(oracle, old(calls), calls))
    {
      hide Canonical, Named, SamePhases, Desired, SettledBy, Trouble, SameNames, OthersKept, ListedAfter,
        StaysResolved, Created, PhaseMoves;
      var name := d.Name();
      StandStill(list, name);
      if slot.Some? { WhenStaysResolved(cfg, list[slot.value], d, oracle(calls)); }
      if slot.None? {
        var stop;
        stop, err := FindOrCreate(d);
        if stop { return err, err; }
      }
      ghost var before, begun := store, calls;
      if !d.result.targetFound || !d.result.uidMatches {
        metricsDirty := true;
        var reason := if !d.result.targetFound then "TargetAbsent" else "TargetReplaced";
        err := ResolveIncident(name, reason, d.now);
        SameNamesOnlyTouches(list, list, before, store, name);
        if err {
          TroubleGrows(oracle, old(calls), begun, calls, calls);
        } else {
          ResolvedSettles(before[name].incident.status, reason, d);
        }
        return err, err;
      }
      err, lost := RefreshWithRetries(d, slot);
      if err { TroubleGrows(oracle, old(calls), begun, calls, calls); }
      if !err && name !in old(store) { CreatedAfter(cfg, d, before[name].incident.uid); }
    }

    /** diagnoseTargets. The targets are diagnosed in any order; `interrupted` says that cancellation
        kept some from being dispatched. */
    method DiagnoseTargets(observations: map<string, Observation>, diagnose: Observation -> Option<Incidents.Result>,
                           now: int, cutShort: Option<nat>)
      returns (err: bool, lost: bool, interrupted: bool, ghost diagnosed: map<string, Diagnosed>,
               ghost turns: map<string, nat>)
      requires Canonical(store) && Lists(list, store) && !metricsDirty && SamePhases(list, store)
      requires forall u :: u in observations ==> observations[u].target.uid == u
      requires forall o :: diagnose(o).Some? ==> Honest(diagnose(o).value)
      modifies this
      ensures Canonical(store) && Named(list, store) && (metricsDirty || SamePhases(list, store))
      ensures SameNames(old(list), list)
      ensures Untouched(old(list), old(store), list, store, observations.Keys)
      ensures diagnosed.Keys <= observations.Keys && (!interrupted ==> diagnosed.Keys == observations.Keys)
      ensures AllFrom(diagnosed, observations, diagnose, now)
      ensures interrupted <==> cutShort.Some? && cutShort.value < |observations|
      ensures err ==> Trouble(oracle, old(calls), calls) || AnyFails(observations, diagnose)
      ensures !lost && !interrupted ==> ObservedSettled(old(list), store, observations.Keys, diagnosed)
      ensures calls >= old(calls) && (lost ==> Trouble(oracle, old(calls), calls))
      ensures !Trouble(oracle, old(calls), calls) && !interrupted ==>
                ObservedExact(cfg, old(store), store, observations.Keys, diagnosed)
      ensures ListIs(cfg, oracle, old(calls), calls, old(list), list, diagnosed, turns)
      ensures MarkedRight(cfg, oracle, old(calls), calls, old(store), diagnosed, metricsDirty)
    {
      hide Canonical, Named, SamePhases, Untouched, Synced, DiagnosedFrom, Honest, Trouble, StageOk, SameNames,
        ObservedSettled, ObservedExact, AllFrom, IndexOf, Partition, AnyFails, ListIs, Lists,
        MarkedRight;
      NoneDiagnosed(observations, diagnose, now);
      StartMirrored(list, store);
      StageBegins(cfg, oracle, calls, list, store);
      MarkingBegins(cfg, oracle, calls, store);
      ListBegins(cfg, oracle, calls, list);
      var known := KnownIncidents(list);
      err, lost, interrupted, diagnosed, turns := false, false, false, map[], map[];
      var todo, dispatched := observations.Keys, 0;
      while todo != {}
        invariant Partition(observations.Keys, todo, diagnosed.Keys)
        invariant dispatched + |todo| == |observations| && (cutShort.Some? ==> dispatched <= cutShort.value)
        invariant Canonical(store) && Named(list, store) && (metricsDirty || SamePhases(list, store))
        invariant calls >= old(calls)
        invariant AllFrom(diagnosed, observations, diagnose, now)
        invariant err ==> Trouble(oracle, old(calls), calls) || AnyFails(observations, diagnose)
        invariant StageOk(cfg, oracle, old(calls), calls, old(list), old(store), list, store, diagnosed, lost)
        invariant ListIs(cfg, oracle, old(calls), calls, old(list), list, diagnosed, turns)
        invariant turns == map[] ==> calls == old(calls)
        invariant MarkedRight(cfg, oracle, old(calls), calls, old(store), diagnosed, metricsDirty)
      {
        if cutShort.Some? && cutShort.value == dispatched {
          DoneIsPart(observations.Keys, todo, diagnosed.Keys);
          StageInterrupted(cfg, oracle, old(calls), calls, old(list), old(store), list, store, diagnosed, lost,
                           observations.Keys);
          interrupted := true;
          return;
        }
        var uid :| uid in todo;
        NextIsNew(observations.Keys, todo, diagnosed, uid);
        ghost var begun := calls;
        var e, l, d := DiagnoseOne(observations[uid], diagnose, now, known, old(calls), old(list), old(store),
                                   diagnosed, turns, lost);
        err, lost := err || e, lost || l;
        TroubleEither(oracle, old(calls), begun, calls);
        if diagnose(observations[uid]).None? { OneFails(observations, diagnose, uid); }
        Moves(observations.Keys, todo, diagnosed, uid, d);
        OneMoreFrom(diagnosed, observations, diagnose, now, uid, d);
        diagnosed, turns := diagnosed[uid := d], turns[uid := begun];
        todo, dispatched := todo - {uid}, dispatched + 1;
      }
      Nothing(observations.Keys, diagnosed.Keys);
      StageEnds(cfg, oracle, old(calls), calls, old(list), old(store), list, store, diagnosed, lost);
    }

    /** A worker's turn: diagnose one target and persist the result. */
    method DiagnoseOne(observed: Observation, diagnose: Observation -> Option<Incidents.Result>, now: int,
                       known: map<string, nat>, ghost first: nat, ghost list0: seq<Entry>, ghost store0: Store,
                       ghost diagnosed: map<string, Diagnosed>, ghost turns: map<string, nat>, ghost lostBefore: bool)
      returns (err: bool, lost: bool, ghost d: Diagnosed)
      requires Canonical(store) && Named(list, store) && (metricsDirty || SamePhases(list, store)) && first <= calls
      requires Canonical(store0) && Lists(list0, store0) && observed.target.uid !in diagnosed
      requires diagnose(observed).Some? ==> Honest(diagnose(observed).value)
      requires StageOk(cfg, oracle, first, calls, list0, store0, list, store, diagnosed, lostBefore)
      requires ListIs(cfg, oracle, first, calls, list0, list, diagnosed, turns) && (turns == map[] ==> calls == first)
      requires MarkedRight(cfg, oracle, first, calls, store0, diagnosed, metricsDirty)
      requires IndexOf(known, list0)
      modifies this
      ensures Canonical(store) && Named(list, store) && (metricsDirty || SamePhases(list, store)) && calls >= old(calls)
      ensures DiagnosedFrom(d, observed, diagnose, now)
      ensures err ==> Trouble(oracle, old(calls), calls) || diagnose(observed).None?
      ensures StageOk(cfg, oracle, first, calls, list0, store0, list, store, diagnosed[observed.target.uid := d],
                      lostBefore || lost)
      ensures ListIs(cfg, oracle, first, calls, list0, list, diagnosed[observed.target.uid := d],
                     turns[observed.target.uid := old(calls)])
      ensures MarkedRight(cfg, oracle, first, calls, store0, diagnosed[observed.target.uid := d], metricsDirty)
    {
      hide Canonical, Named, SamePhases, SettledBy, SameNames, Untouched, ObservedSettled, Synced, Grows, OthersKept,
        DiagnosedFrom, Honest, Trouble, ObservedExact, Persisted, StageOk, ListIs, ListedAfter, Revives, StaysResolved,
        Lists, MarkedRight, Outdates, SameAt;
      var uid, result := observed.target.uid, diagnose(observed);
      var diagnosis := Diagnosed(observed, if result.Some? then result.value else Inconclusive(observed, now), now);
      d := diagnosis;
      StartMirrored(list0, store0);
      FromDiagnosis(d, observed, diagnose, now);
      DiagnosisOk(d, observed, diagnose, now);
      var slot := if uid in known then Some(known[uid]) else None;
      if slot.Some? { StageKnows(cfg, oracle, first, calls, list0, store0, list, store, diagnosed, lostBefore,
                                 known[uid], uid); }
      ghost var before, was, begun, dirty := store, list, calls, metricsDirty;
      StageNames(cfg, oracle, first, begun, list0, store0, was, before, diagnosed, lostBefore);
      NotYetDone(list0, store0, was, before, diagnosed.Keys, uid);
      if slot.None? { UnknownHasNone(list0, store0, was, before, diagnosed.Keys, known, uid); }
      err, lost := PersistDiagnosis(diagnosis, slot);
      Aftermath(cfg, oracle, first, begun, calls, list0, store0, was, before, list, store, diagnosed, uid, d, known,
                err, lostBefore, lost);
      MarkedMore(cfg, oracle, first, begun, calls, store0, before, diagnosed, uid, d, dirty, metricsDirty);
      ListMore(cfg, oracle, first, begun, calls, list0, store0, was, list, diagnosed, turns, uid, d, known);
      err := err || result.None?;
    }

    /** The incidents of a list by target UID. */
    method KnownIncidents(entries: seq<Entry>) returns (known: map<string, nat>)
      ensures IndexOf(known, entries)
    {
      known := map[];
      for i := 0 to |entries|
        invariant forall k :: 0 <= k < i ==> entries[k].Target().uid in known
        invariant forall u :: u in known ==> known[u] < |entries| && entries[known[u]].Target().uid == u
      {
        known := known[entries[i].Target().uid := i];
      }
    }

    /** The action of reconcileLifecycle on one incident of the list. */
    method Settle(e: Entry, scan: Scan, catalog: Snapshot, byUID: map<string, Policy.CompiledPolicy>, now: int)
      returns (change: bool, err: bool)
      modifies this`store, this`calls
      ensures forall n :: n != e.name ==>
                (n in store <==> n in old(store)) && (n in store ==> store[n] == old(store)[n])
      ensures (change <==> Acts(e, scan, catalog, byUID, now)) && (!change ==> store == old(store))
      ensures e.Resolved() && change && !err ==> e.name !in store
      ensures !e.Resolved() ==> OnlyTouches(old(store), store, e.name)
      ensures !e.Resolved() && e.name in store ==>
                Follows(old(store)[e.name], store[e.name], Fated(e, scan, catalog), now, err)
      ensures e.name in store ==>
                e.name in old(store) && store[e.name].Target() == old(store)[e.name].Target()
                && store[e.name].name == old(store)[e.name].name
      ensures calls >= old(calls) && (err ==> Trouble(oracle, old(calls), calls))
    {
      hide VerdictFor;
      change, err := false, false;
      if e.Resolved() {
        var retention := Retention(e, byUID);
        if retention.Some? && e.incident.status.resolvedTime.Some?
        && now >= e.incident.status.resolvedTime.value + retention.value {
          change := true;
          var reply := Call();
          if !Fatal(reply) || reply.Lost? { store := store - {e.name}; }
          err := Fatal(reply);
        }
        return;
      }
      match Fated(e, scan, catalog)
      case Processed =>
      case Uncovered =>
      case Incomplete =>
        change := true;
        err := FailIncidentDiagnosis(e.name);
      case Resolve(reason) =>
        change := true;
        err := ResolveIncident(e.name, ReasonText(reason), now);
    }

    /** reconcileLifecycle over a list of incidents, `change` meaning that the list no longer mirrors
        the store. */
    method ReconcileLifecycle(entries: seq<Entry>, scan: Scan, catalog: Snapshot,
                              byUID: map<string, Policy.CompiledPolicy>, now: int)
      returns (change: bool, lost: bool)
      requires Canonical(store) && Named(entries, store)
      modifies this`store, this`calls
      ensures Canonical(store) && (!change ==> store == old(store))
      ensures forall n :: !InList(entries, n) ==> SameAt(old(store), store, n)
      ensures change <==> exists i :: 0 <= i < |entries| && Acts(entries[i], scan, catalog, byUID, now)
      ensures forall i :: 0 <= i < |entries| && !entries[i].Resolved() ==>
                && entries[i].name in old(store) && entries[i].name in store
                && Follows(old(store)[entries[i].name], store[entries[i].name], Fated(entries[i], scan, catalog),
                           now, lost)
      ensures Swept(entries, |entries|, old(store), store, byUID, now, lost)
      ensures calls >= old(calls) && (lost ==> Trouble(oracle, old(calls), calls))
    {
      hide Follows, Fated, OnlyTouches, Trouble, Acts, Handled, Pending, Canonical, SameAt, InList, Swept;
      change, lost := false, false;
      SweepBegins(entries, store, byUID, now);
      LifecycleBegins(entries, store, scan, catalog, now);
      for k := 0 to |entries|
        invariant Canonical(store) && (!change ==> store == old(store))
        invariant change <==> exists i :: 0 <= i < k && Acts(entries[i], scan, catalog, byUID, now)
        invariant Pending(entries, k, old(store), store)
        invariant Handled(entries, k, old(store), store, scan, catalog, now, lost)
        invariant Swept(entries, k, old(store), store, byUID, now, lost)
        invariant calls >= old(calls) && (lost ==> Trouble(oracle, old(calls), calls))
      {
        ghost var before, begun, lostBefore := store, calls, lost;
        var c, err := Settle(entries[k], scan, catalog, byUID, now);
        OneSettled(entries, k, old(store), before, store, scan, catalog, now, lost, err);
        if entries[k].Resolved() { ResolvedActs(entries[k], scan, catalog, byUID, now); }
        OneSwept(entries, k, old(store), before, store, byUID, now, lost, err);
        OneEntryCanonical(before, store, entries[k].name);
        if lost { TroubleGrows(oracle, old(calls), old(calls), begun, calls); }
        if err { TroubleGrows(oracle, old(calls), begun, calls, calls); }
        change, lost := change || c, lost || err;
      }
      LifecycleEnds(entries, old(store), store, scan, catalog, now, lost);
    }

    /** A complete list of the stored incidents, in any order. */
    method ListIncidents() returns (ok: bool, entries: seq<Entry>)
      requires Canonical(store)
      modifies this`calls
      ensures (ok <==> !Fatal(oracle(old(calls)))) && (ok ==> Lists(entries, store))
      ensures calls == old(calls) + 1 && (!ok ==> Trouble(oracle, old(calls), calls))
    {
      entries := [];
      var reply := Call();
      ok := !Fatal(reply);
      if !ok { return; }
      var todo := store.Keys;
      while todo != {}
        invariant calls == old(calls) + 1 && todo <= store.Keys
        invariant forall i :: 0 <= i < |entries| ==>
                    entries[i].name in store && entries[i].name !in todo && entries[i] == store[entries[i].name]
        invariant forall i, j :: 0 <= i < j < |entries| ==> entries[i].name != entries[j].name
        invariant forall n :: n in store && n !in todo ==> InList(entries, n)
      {
        var name :| name in todo;
        InListMore(entries, store[name]);
        entries := entries + [store[name]];
        todo := todo - {name};
      }
    }

    /** failActiveIncidentDiagnoses: every open incident loses its actions and its evidence. */
    method FailActiveIncidentDiagnoses() returns (listed: bool, lost: bool)
      requires Canonical(store)
      modifies this`store, this`calls
      ensures Canonical(store) && store.Keys == old(store).Keys
      ensures listed && !lost ==> AllDisarmed(store)
      ensures calls >= old(calls) && (!listed || lost ==> Trouble(oracle, old(calls), calls))
    {
      hide Disarmed, Trouble, AllDisarmed, DisarmedUpTo, Pending, Canonical, OnlyTouches;
      var entries;
      lost := false;
      listed, entries := ListIncidents();
      if !listed { return; }
      DisarmingBegins(entries, store);
      for k := 0 to |entries|
        invariant Canonical(store) && store.Keys == old(store).Keys && Pending(entries, k, old(store), store)
        invariant !lost ==> DisarmedUpTo(entries, k, store)
        invariant calls >= old(calls) && (lost ==> Trouble(oracle, old(calls), calls))
      {
        ghost var before, begun := store, calls;
        var err := false;
        if entries[k].Resolved() {
          SkipResolved(entries, k, old(store), store);
        } else {
          err := FailIncidentDiagnosis(entries[k].name);
          OneDisarmed(entries, k, old(store), before, store, lost, err);
          TouchedCanonical(before, store, entries[k].name);
        }
        if lost { TroubleGrows(oracle, old(calls), old(calls), begun, calls); }
        if err { TroubleGrows(oracle, old(calls), begun, calls, calls); }
        lost := lost || err;
      }
      if !lost { AllAreDisarmed(entries, old(store), store); }
    }

    /** The degraded end of a cycle. */
    method Degraded(report: Report) returns (r: Report)
      requires Canonical(store)
      modifies this`store, this`calls
      ensures Canonical(store) && store.Keys == old(store).Keys
      ensures r.view.Stale? && r.degraded && r.scopeListed == report.scopeListed
      ensures r.lost ==> report.lost || Trouble(oracle, old(calls), calls)
      ensures r.listed && !r.lost ==> AllDisarmed(store)
      ensures calls >= old(calls) && (!r.listed ==> Trouble(oracle, old(calls), calls))
    {
      var listed, lost := FailActiveIncidentDiagnoses();
      r := report.(view := Stale, degraded := true, listed := listed, lost := report.lost || lost);
    }

    /** The cycle once the incidents have been listed for the scan scope. */
    method RunListed(inp: Inputs, entries: seq<Entry>)
      returns (report: Report, ghost diagnosed: map<string, Diagnosed>, ghost turns: map<string, nat>,
               ghost setup: Setup, ghost scan: Scan)
      requires ValidInputs(inp) && Canonical(store) && Lists(entries, store)
      modifies this
      ensures Canonical(store) && report.scopeListed && Account(inp.scene, entries, setup, scan)
      ensures ListIs(cfg, oracle, old(calls), calls, entries, list, diagnosed, turns)
      ensures report.listed && !report.lost && (report.degraded || Undisturbed(inp, setup, scan)) ==>
                AllSettled(old(store), store, diagnosed)
      ensures report.degraded && report.listed && !report.lost ==> AllDisarmed(store)
      ensures !Trouble(oracle, old(calls), calls) && Undisturbed(inp, setup, scan) && !report.degraded ==>
                ExactlySettled(cfg, inp, oracle, old(store), store, scan, diagnosed, turns)
      ensures AllFrom(diagnosed, scan.observations, inp.diagnose, inp.now)
      ensures !report.degraded ==>
                ResolvedTruthfully(setup, inp.scene.catalog, old(store), store, scan.observations.Keys)
      ensures report.view.Fresh? ==> Named(list, store) && SamePhases(list, store)
      ensures !report.degraded ==> (report.view.Fresh? <==> !metricsDirty && !AnyActs(inp, list, scan))
      ensures !report.degraded && !Trouble(oracle, old(calls), calls) ==>
                (metricsDirty <==> AnyOutdates(cfg, old(store), diagnosed))
      ensures CutOff(inp, scan) ==> report.degraded
      ensures report.degraded && !CutOff(inp, scan) ==>
                inp.cancelledLate && (Trouble(oracle, old(calls), calls) || SomeDiagnosisFails(inp, scan))
      ensures calls >= old(calls) && (!report.listed || report.lost ==> Trouble(oracle, old(calls), calls))
    {
      hide Canonical, Named, SamePhases, AllDisarmed, Lists, SameNames, AllFrom, Honest, Trouble, Undisturbed,
        ResolvedTruthfully, AllSettled, ExactlySettled, ValidScene, TrueVerdicts, Account, AllCovered, AllDelivered,
        SomeDiagnosisFails, AnyActs, ListIs, AnyOutdates;
      list, metricsDirty, diagnosed, turns := entries, false, map[], map[];
      ListBegins(cfg, oracle, calls, list);
      var found;
      found, setup := ListTargets(inp.scene, entries);
      scan := found;
      TruthOfVerdicts(inp.scene, entries, setup, scan);
      ObservationsFiled(inp.scene, entries, setup, scan);
      CoveredAll(inp.scene, entries, setup, scan);
      if (found.failed && inp.cancelledEarly) || (|found.observations| > 0 && !inp.snapshotOk) {
        report := Degraded(Report(Fresh, false, true, true, false));
        NoneDiagnosed(scan.observations, inp.diagnose, inp.now);
        ListLater(cfg, oracle, old(calls), old(calls), calls, entries, list, diagnosed, turns);
        if report.listed && !report.lost { DisarmedSettles(old(store), old(store), store, diagnosed); }
        return;
      }
      report, diagnosed, turns := DiagnoseAndReconcile(inp, entries, found, setup);
    }

    /** The stages after listing: diagnosis and lifecycle. */
    method DiagnoseAndReconcile(inp: Inputs, entries: seq<Entry>, scan: Scan, ghost setup: Setup)
      returns (report: Report, ghost diagnosed: map<string, Diagnosed>, ghost turns: map<string, nat>)
      requires ValidInputs(inp) && Canonical(store) && Lists(entries, store)
      requires list == entries && !metricsDirty && TrueVerdicts(setup, inp.scene.catalog, entries, scan)
      requires forall uid :: uid in scan.observations ==> scan.observations[uid].target.uid == uid
      requires AllDelivered(inp.scene, setup) ==> AllCovered(inp.scene.catalog, entries, scan)
      modifies this
      ensures Canonical(store) && report.scopeListed
      ensures ListIs(cfg, oracle, old(calls), calls, entries, list, diagnosed, turns)
      ensures report.listed && !report.lost && (report.degraded || Undisturbed(inp, setup, scan)) ==>
                AllSettled(old(store), store, diagnosed)
      ensures report.degraded && report.listed && !report.lost ==> AllDisarmed(store)
      ensures !Trouble(oracle, old(calls), calls) && Undisturbed(inp, setup, scan) && !report.degraded ==>
                ExactlySettled(cfg, inp, oracle, old(store), store, scan, diagnosed, turns)
      ensures AllFrom(diagnosed, scan.observations, inp.diagnose, inp.now)
      ensures !report.degraded ==>
                ResolvedTruthfully(setup, inp.scene.catalog, old(store), store, scan.observations.Keys)
      ensures report.view.Fresh? ==> Named(list, store) && SamePhases(list, store)
      ensures !report.degraded ==> (report.view.Fresh? <==> !metricsDirty && !AnyActs(inp, list, scan))
      ensures !report.degraded && !Trouble(oracle, old(calls), calls) ==>
                (metricsDirty <==> AnyOutdates(cfg, old(store), diagnosed))
      ensures report.degraded ==>
                inp.cancelledLate && (Trouble(oracle, old(calls), calls) || SomeDiagnosisFails(inp, scan))
      ensures calls >= old(calls) && (!report.listed || report.lost ==> Trouble(oracle, old(calls), calls))
    {
      hide Canonical, Named, SamePhases, AllDisarmed, Lists, SameNames, Untouched, ObservedSettled, AllFrom, Honest,
        TrueVerdicts, ResolvedTruthfully, AllSettled, Fated, ValidScene, Follows, AllCovered, Trouble, ObservedExact,
        ExactlySettled, AllDelivered, SomeDiagnosisFails, SameAt, InList, Acts, Swept, ListIs, ListMade, LifecycleDone,
        AnyOutdates;
      StartMirrored(entries, store);
      var err, lost, cut;
      err, lost, cut, diagnosed, turns := DiagnoseTargets(scan.observations, inp.diagnose, inp.now, inp.cutShort);
      report := Report(if metricsDirty then Stale else Fresh, false, true, true, lost);
      ghost var middle, begun := store, calls;
      KeptInStore(entries, old(store), list, store, scan.observations.Keys);
      SomeFails(inp, scan);
      if err && inp.cancelledLate {
        report := Degraded(report);
        TroubleEither(oracle, old(calls), begun, calls);
        ListLater(cfg, oracle, old(calls), begun, calls, entries, list, diagnosed, turns);
        if report.listed && !report.lost { DisarmedSettles(old(store), middle, store, diagnosed); }
        return;
      }
      var change, lost' := ReconcileLifecycle(list, scan, inp.scene.catalog, inp.byUID, inp.now);
      TroubleEither(oracle, old(calls), begun, calls);
      ListLater(cfg, oracle, old(calls), begun, calls, entries, list, diagnosed, turns);
      report := report.(view := if change then Stale else report.view, lost := lost || lost');
      ghost var disturbed := !Undisturbed(inp, setup, scan);
      LifecycleSettles(inp, entries, old(store), list, middle, store, diagnosed, scan, lost', report.lost || disturbed);
      LifecycleTruthful(inp, entries, old(store), list, middle, store, setup, scan, lost');
      if !Trouble(oracle, old(calls), calls) && !disturbed {
        LifecycleIsDone(inp, list, middle, store, scan);
        ListIsMade(cfg, oracle, old(calls), begun, entries, list, diagnosed, turns);
        LifecycleExact(cfg, inp, oracle, entries, old(store), list, middle, store, diagnosed, turns, scan);
      }
    }

    /** The cycle when the incidents could not be listed for the scan scope: nothing is observed or
        covered, so nothing is diagnosed and lifecycle works on a list of its own. */
    method RunUnlisted(inp: Inputs) returns (report: Report)
      requires Canonical(store)
      modifies this`store, this`calls
      ensures Canonical(store) && !report.scopeListed && !report.view.Fresh? && calls >= old(calls)
      ensures report.degraded <==> inp.cancelledEarly
      ensures report.degraded && report.listed && !report.lost ==>
                AllDisarmed(store) && AllSettled(old(store), store, map[])
      ensures !report.degraded ==> LeftAlone(inp.scene.catalog, old(store), store)
      ensures !report.degraded && report.listed && !report.lost ==>
                ExactlySettled(cfg, inp, oracle, old(store), store, NO_SCAN, map[], map[])
      ensures report.lost || !report.listed ==> Trouble(oracle, old(calls), calls)
    {
      hide Canonical, Named, Fated, Follows, Trouble, SameAt, InList, AllDisarmed, AllSettled, ExactlySettled, Swept,
        Lists, SameNames, LifecycleDone, ListMade, ObservedExact, Untouched;
      report := Report(NoView, false, false, false, false);
      if inp.cancelledEarly {
        report := Degraded(report);
        if report.listed && !report.lost { DisarmedSettles(old(store), old(store), store, map[]); }
        return;
      }
      var listed, entries := ListIncidents();
      if !listed { return; }
      ghost var begun := calls;
      ListedUnobserved(cfg, oracle, entries, store);
      var change, lost := ReconcileLifecycle(entries, NO_SCAN, inp.scene.catalog, inp.byUID, inp.now);
      TroubleEither(oracle, old(calls), begun, calls);
      report := report.(view := if change then Stale else NoView, listed := true, lost := lost);
      NothingConcluded(inp, entries, old(store), store, lost);
      if !lost {
        LifecycleIsDone(inp, entries, old(store), store, NO_SCAN);
        LifecycleExact(cfg, inp, oracle, entries, old(store), entries, old(store), store, map[], map[], NO_SCAN);
      }
    }

    /** scanCycle.run. The ghost results are pinned: `entries` is the list of the incidents at the start,
        `setup` and `scan` are the account of listing the targets, `diagnosed` the diagnoses of observed
        targets, `turns` the calls at which their turns began; the cached list is what these make of `entries`.
        (1) When no incident call fails for good and no cancellation kept work from being done, every
        incident that was open at the start ends resolved, current or disarmed, whichever stage failed; a
        degraded cycle leaves none current.
        (2) Without any trouble a cycle that does not degrade leaves the whole store exactly as the diagnoses,
        the verdicts and the retentions call for: in particular every observed target without an incident has
        got one exactly when its diagnosis warrants it.
        (3) Resolutions by lifecycle give true reasons. (4) A view that is still fresh counts what the store
        holds, and without trouble it is fresh exactly when nothing made it stale. (5) When the incidents cannot
        be listed for the scan scope and the cycle is not cancelled there, open incidents about catalogued
        resources are left exactly as they were. */
    method Run(inp: Inputs)
      returns (report: Report, ghost entries: seq<Entry>, ghost diagnosed: map<string, Diagnosed>, ghost setup: Setup,
               ghost scan: Scan, ghost turns: map<string, nat>)
      requires ValidInputs(inp) && Canonical(store)
      modifies this
      ensures Canonical(store)
      // What the results speak of.
      ensures report.scopeListed <==> GetsToListing(inp) && !Fatal(oracle(old(calls)))
      ensures report.scopeListed ==> Lists(entries, old(store)) && Account(inp.scene, entries, setup, scan)
      ensures report.scopeListed ==> ListIs(cfg, oracle, old(calls) + 1, calls, entries, list, diagnosed, turns)
      ensures !report.scopeListed ==> scan == NO_SCAN && diagnosed == map[] && turns == map[]
      ensures AllFrom(diagnosed, scan.observations, inp.diagnose, inp.now)
      ensures calls >= old(calls) && (!report.listed || report.lost ==> Trouble(oracle, old(calls), calls))
      // When the cycle degrades.
      ensures !GetsToListing(inp) ==> report.degraded
      ensures GetsToListing(inp) && !report.scopeListed ==> (report.degraded <==> inp.cancelledEarly)
      ensures report.scopeListed && CutOff(inp, scan) ==> report.degraded
      ensures report.scopeListed && report.degraded && !CutOff(inp, scan) ==>
                inp.cancelledLate && (Trouble(oracle, old(calls), calls) || SomeDiagnosisFails(inp, scan))
      // What becomes of the incidents.
      ensures report.degraded && report.listed && !report.lost ==> AllDisarmed(store)
      ensures && report.listed && !report.lost
              && (report.degraded || (report.scopeListed && Undisturbed(inp, setup, scan))) ==>
                AllSettled(old(store), store, diagnosed)
      ensures report.scopeListed && !report.degraded && !Trouble(oracle, old(calls), calls)
              && Undisturbed(inp, setup, scan) ==>
                ExactlySettled(cfg, inp, oracle, old(store), store, scan, diagnosed, turns)
      ensures !report.scopeListed && !report.degraded && report.listed && !report.lost ==>
                ExactlySettled(cfg, inp, oracle, old(store), store, scan, diagnosed, turns)
      ensures report.scopeListed && !report.degraded && !Trouble(oracle, old(calls), calls)
              && Undisturbed(inp, setup, scan) ==>
                forall n :: n in old(store) && old(store)[n].Resolved()
                            && old(store)[n].Target().uid !in scan.observations ==>
                  var st, noted := old(store)[n].incident.status, old(store)[n].retention;
                  var policy := if st.policyRef.Some? then st.policyRef.value.uid else "";
                  n !in store <==>
                  && st.resolvedTime.Some?
                  && if policy in inp.byUID && inp.byUID[policy].settings.resolvedTTL > 0
                     then inp.now >= st.resolvedTime.value + inp.byUID[policy].settings.resolvedTTL
                     else noted.Some? && noted.value > 0 && inp.now >= st.resolvedTime.value + noted.value
      ensures report.scopeListed && !report.degraded ==>
                ResolvedTruthfully(setup, inp.scene.catalog, old(store), store, scan.observations.Keys)
      ensures GetsToListing(inp) && Fatal(oracle(old(calls))) && !inp.cancelledEarly ==>
                LeftAlone(inp.scene.catalog, old(store), store)
      // What is observed.
      ensures report.scopeListed ==> |scan.observations| <= inp.scene.maxTargets
      ensures report.scopeListed && AllDelivered(inp.scene, setup) && !AnyBound(ResultsOf(inp.scene, setup)) ==>
                forall job :: job in setup.jobs ==> FullyObserved(setup, job, scan) || Unlistable(setup, job)
      // The incident view.
      ensures report.scopeListed && !report.degraded ==>
                (report.view.Fresh? <==> !metricsDirty && !AnyActs(inp, list, scan))
      ensures report.scopeListed && !report.degraded && !Trouble(oracle, old(calls), calls) ==>
                (metricsDirty <==> AnyOutdates(cfg, old(store), diagnosed))
      ensures report.view.Fresh? ==>
                forall phase: Incidents.Phase :: !phase.NoPhase? ==> CountIn(list, phase) == |PhaseNames(store, phase)|
    {
      hide Canonical, Named, SamePhases, AllDisarmed, AllFrom, ResolvedTruthfully, AllSettled, LeftAlone, CountIn,
        PhaseNames, Trouble, ExactlySettled, AllDelivered, Undisturbed, Account, Lists, ValidScene, SomeDiagnosisFails,
        FullyObserved, Unlistable, AnyBound, ResultsOf, CutOff, AnyActs, ListIs, AnyOutdates;
      diagnosed, turns, entries := map[], map[], [];
      scan := NO_SCAN;
      setup := Setup(inp.scene.scope, [], inp.scene.serve, inp.scene.pageSize, inp.scene.maxTargets);
      NoneDiagnosed(scan.observations, inp.diagnose, inp.now);
      if !inp.discovered || !inp.policiesOk || !inp.labelsOk {
        report := Degraded(Report(NoView, true, false, true, false));
        if report.listed && !report.lost { DisarmedSettles(old(store), old(store), store, diagnosed); }
        return;
      }
      var listed, incidents := ListIncidents();
      entries := incidents;
      ghost var begun := calls;
      if !listed {
        report := RunUnlisted(inp);
        TroubleEither(oracle, old(calls), begun, calls);
        return;
      }
      report, diagnosed, turns, setup, scan := RunListed(inp, incidents);
      TroubleEither(oracle, old(calls), begun, calls);
      ObservedAreReserved(inp.scene, entries, setup, scan);
      if AllDelivered(inp.scene, setup) && !AnyBound(ResultsOf(inp.scene, setup)) {
        forall job | job in setup.jobs ensures FullyObserved(setup, job, scan) || Unlistable(setup, job) {
          EveryStuckObserved(inp.scene, entries, setup, scan, job);
        }
      }
      if !report.degraded && !Trouble(oracle, old(calls), calls) && Undisturbed(inp, setup, scan) {
        forall n | n in old(store) && old(store)[n].Resolved() && old(store)[n].Target().uid !in scan.observations
          ensures n !in store <==> Expired(old(store)[n], inp.byUID, inp.now)
        {
          ResolvedGoneExactly(cfg, inp, oracle, old(store), store, scan, diagnosed, turns, n);
        }
      }
      if report.view.Fresh? {
        forall phase: Incidents.Phase | !phase.NoPhase? ensures CountIn(list, phase) == |PhaseNames(store, phase)| {
          CountsAgree(list, store, phase);
        }
      }
    }
  }
}
