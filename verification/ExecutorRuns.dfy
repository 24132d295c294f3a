/** The safety invariant of the executor machine and its consequences for every reachable state. */
module ExecutorRuns {
  import opened Types
  import opened Framing
  import opened Discovery
  import opened Policy
  import opened JsonPatch
  import opened Executor
  import opened ExecutorSafety
  import Incidents

  // ---- How one act changes the stored objects ----

  /** Identifiers are only ever added, and at most the object at `at` changes, to an unused version. */
  ghost predicate Evolves(w: World, w': World, at: ObjId) {
    && w.rvs <= w'.rvs && w.uids <= w'.uids && w.clock <= w'.clock
    && (forall id :: id in w'.objects && id != at ==> id in w.objects && w'.objects[id] == w.objects[id])
    && (at in w'.objects ==>
          || (at in w.objects && w'.objects[at] == w.objects[at])
          || (w'.objects[at].rv !in w.rvs && w'.objects[at].rv in w'.rvs && w'.objects[at].uid in w'.uids))
  }

  const SOMEWHERE := ObjId("", "", "", "")

  function Place(s: State, act: Act): ObjId {
    match act
    case PutObject(id, _) => id
    case DeleteObject(id) => id
    case Step(name, _) =>
      if name in s.threads && s.threads[name].ExecMutate? then IdOf(s.threads[name].x.Act().target) else SOMEWHERE
    case _ => SOMEWHERE
  }

  lemma EnvironmentEvolves(cfg: Config, s: State, act: Act)
    requires s.hist != [] && Legal(cfg, s, act) && !act.Step?
    ensures Evolves(Now(s), Environment(cfg, Now(s), act), Place(s, act))
  {
    hide Incidents.Apply, ScannerWrite;
  }

  lemma MutateEvolves(cfg: Config, h: seq<World>, name: string, pc: Pc, inp: Input)
    requires h != [] && Accounted(h[|h| - 1]) && inp.rv !in h[|h| - 1].rvs
    requires pc.ExecMutate? && RequestOk(pc.x.Act(), pc.sel.cur.val, pc.req)
    ensures var w, w' := h[|h| - 1], Taken(cfg, h, name, pc, inp).w;
            Evolves(w, w', IdOf(pc.x.Act().target)) && w'.incidents == w.incidents
  {
    hide RequestOk, Serve, Vanishes, Accounted, Evolves, Store, Taken;
    var w, id := h[|h| - 1], IdOf(pc.x.Act().target);
    MutateStores(cfg, h, name, pc, inp);
    StandingStillEvolves(w, id);
    if id in w.objects && Serve(w.objects[id], pc.req).Some? {
      ServeKeepsUid(w.objects[id], pc.req, pc.x.Act(), pc.sel.cur.val);
      StoredUidKnown(w, id);
      StoreEvolves(w, id, Serve(w.objects[id], pc.req).value.(rv := inp.rv));
    }
  }

  /** The mutation changes nothing, or it stores what the request makes of the object. */
  lemma MutateStores(cfg: Config, h: seq<World>, name: string, pc: Pc, inp: Input)
    requires h != [] && pc.ExecMutate?
    ensures var w, w', id := h[|h| - 1], Taken(cfg, h, name, pc, inp).w, IdOf(pc.x.Act().target);
            || w' == w
            || (id in w.objects && Serve(w.objects[id], pc.req).Some?
                && w' == Store(w, id, Serve(w.objects[id], pc.req).value.(rv := inp.rv)))
  {
    hide Serve, Vanishes, Retry, Succeed, Store;
  }

  lemma StoreEvolves(w: World, id: ObjId, o: Obj)
    requires o.rv !in w.rvs && o.uid in w.uids
    ensures Evolves(w, Store(w, id, o), id) && Store(w, id, o).incidents == w.incidents
  {
    hide Vanishes;
  }

  lemma StandingStillEvolves(w: World, at: ObjId)
    ensures Evolves(w, w, at)
  {
  }

  lemma StoredUidKnown(w: World, id: ObjId)
    requires Accounted(w)
    ensures id in w.objects ==> w.objects[id].uid in w.uids
  {
  }

  lemma QuietEvolves(w: World, w': World)
    requires w'.objects == w.objects && w'.clock == w.clock && w'.uids == w.uids && w.rvs <= w'.rvs
    ensures Evolves(w, w', SOMEWHERE)
  {
  }

  lemma TakenEvolves(cfg: Config, s: State, name: string, inp: Input)
    requires s.hist != [] && Accounted(Now(s)) && name in s.threads && inp.rv !in Now(s).rvs
    requires Knows(cfg, s.hist, name, s.threads[name])
    ensures Evolves(Now(s), Taken(cfg, s.hist, name, s.threads[name], inp).w, Place(s, Step(name, inp)))
    ensures Taken(cfg, s.hist, name, s.threads[name], inp).w.incidents == Now(s).incidents
  {
    hide Taken, Accounted, Evolves, RequestOk, ExecOk, SelectionOk, Compiled;
    var pc := s.threads[name];
    if pc.ExecMutate? {
      MutateEvolves(cfg, s.hist, name, pc, inp);
    } else {
      QuietObjects(cfg, s.hist, name, pc, inp);
      QuietEvolves(Now(s), Taken(cfg, s.hist, name, pc, inp).w);
    }
  }

  lemma ServeKeepsUid(stored: Obj, req: Request, a: Action, read: Obj)
    requires RequestOk(a, read, req)
    ensures Serve(stored, req).Some? ==> Serve(stored, req).value.uid == stored.uid
  {
    ServedAsApproved(a, read, req, stored);
    hide Serve, IndexOf, FinalizerPatch;
  }

  /** No object and no incident changes: apart from the mutation itself a thread changes approvals and
      locks at most. */
  ghost predicate QuietEffect(w: World, e: Effect) {
    && e.w.objects == w.objects && e.w.incidents == w.incidents && e.w.clock == w.clock
    && e.w.uids == w.uids && w.rvs <= e.w.rvs && e.mutation.None?
  }

  lemma QuietOpening(cfg: Config, h: seq<World>, name: string, pc: Pc, inp: Input)
    requires h != []
    requires (pc.ReadApproval? || pc.ReadIncident? || pc.EnsureOwner? || pc.Decide? || pc.ReadPolicy?
              || pc.CheckPolicy? || pc.Acquire?)
    ensures QuietEffect(h[|h| - 1], Taken(cfg, h, name, pc, inp))
  {
    hide NextDecide, NextCheckPolicy, TargetKey;
  }

  lemma QuietLocked(cfg: Config, h: seq<World>, name: string, pc: Pc, inp: Input)
    requires h != [] && (pc.LockedReadApproval? || pc.LockedReadIncident? || pc.ReplayRead? || pc.CheckExpiry?
                         || pc.CheckEvidence?
        || pc.RereadPolicy? || pc.RecheckPolicy?)
    ensures QuietEffect(h[|h| - 1], Taken(cfg, h, name, pc, inp))
  {
    hide NextCheckExpiry, NextCheckEvidence, NextRecheckPolicy, GoalReached, FindAction;
  }

  lemma QuietUpdate(cfg: Config, h: seq<World>, name: string, pc: Pc, inp: Input)
    requires h != [] && (pc.UpdateRead? || pc.UpdateWrite? || pc.Backoff? || pc.Returning?)
    ensures QuietEffect(h[|h| - 1], Taken(cfg, h, name, pc, inp))
  {
    hide Continue, Mutate, NextBackoff;
  }

  lemma QuietExec(cfg: Config, h: seq<World>, name: string, pc: Pc, inp: Input)
    requires h != [] && (pc.ExecRead? || pc.ExecResolve? || pc.ExecIncidentTarget? || pc.ExecNamespace?)
    ensures QuietEffect(h[|h| - 1], Taken(cfg, h, name, pc, inp))
  {
    hide NextExecRead, NextExecResolve, NextExecIncidentTarget, NextExecNamespace;
  }

  lemma QuietObjects(cfg: Config, h: seq<World>, name: string, pc: Pc, inp: Input)
    requires h != [] && !pc.ExecMutate?
    ensures QuietEffect(h[|h| - 1], Taken(cfg, h, name, pc, inp))
  {
    hide Taken, QuietEffect;
    if pc.ReadApproval? || pc.ReadIncident? || pc.EnsureOwner? || pc.Decide? || pc.ReadPolicy? || pc.CheckPolicy?
    || pc.Acquire? {
      QuietOpening(cfg, h, name, pc, inp);
    } else if pc.UpdateRead? || pc.UpdateWrite? || pc.Backoff? || pc.Returning? {
      QuietUpdate(cfg, h, name, pc, inp);
    } else if pc.ExecRead? || pc.ExecResolve? || pc.ExecIncidentTarget? || pc.ExecNamespace? {
      QuietExec(cfg, h, name, pc, inp);
    } else {
      QuietLocked(cfg, h, name, pc, inp);
    }
  }

  // ---- Scanner-owned state ----

  /** Every recommended action is signed, evidence has its fixed lifetime and is not from the future. */
  ghost predicate ScannerOwned(cfg: Config, w: World, i: Incidents.Incident) {
    && Incidents.AllSigned(cfg.hash, i.status)
    && Incidents.EvidenceShape(cfg.scan, i.status)
    && (i.status.evidenceTime.Some? ==> i.status.evidenceTime.value <= w.clock)
  }

  ghost predicate IncidentsOk(cfg: Config, w: World) {
    forall i :: i in w.incidents ==> ScannerOwned(cfg, w, w.incidents[i])
  }

  lemma WriteKeepsIncident(cfg: Config, w: World, i: Incidents.Incident, write: Incidents.Write, policy: CompiledPolicy)
    requires ScannerOwned(cfg, w, i) && write.now <= w.clock && ScannerWrite(cfg, write, policy)
    ensures ScannerOwned(cfg, w, i.(status := Incidents.Apply(cfg.scan, i.status, write)))
  {
    Incidents.ShapePreserved(cfg.scan, i.status, write);
    var st := Incidents.Apply(cfg.scan, i.status, write);
    if write.Persist? {
      forall a | a in st.actions ensures st.policyRef.Some? && Incidents.Signed(cfg.hash, st.policyRef.value, a) {
        assert a == Incidents.NewAction(cfg.hash, policy, a.typ, a.target, a.finalizer, a.preRv, a.reason);
      }
    }
  }

  lemma EnvironmentKeepsIncidents(cfg: Config, s: State, act: Act)
    requires s.hist != [] && Legal(cfg, s, act) && !act.Step? && IncidentsOk(cfg, Now(s))
    ensures IncidentsOk(cfg, Environment(cfg, Now(s), act))
  {
    hide Incidents.Apply, ScannerWrite, Incidents.AllSigned, Incidents.EvidenceShape;
    if act.WriteIncident? {
      WriteKeepsIncident(cfg, Now(s), Now(s).incidents[act.incident], act.write, act.policy);
    } else if act.CreateIncident? {
      NewScannerOwned(cfg, Now(s), act.uid, act.target);
    }
  }

  lemma NewScannerOwned(cfg: Config, w: World, uid: string, target: TargetRef)
    ensures ScannerOwned(cfg, w, Incidents.Incident(uid, target, Incidents.EMPTY_STATUS))
  {
  }

  // ---- The invariant ----

  /** All resource versions ever stored are on record. */
  ghost predicate Recorded(h: seq<World>) {
    h != [] && forall i, id :: 0 <= i < |h| && id in h[i].objects ==> h[i].objects[id].rv in h[|h| - 1].rvs
  }

  ghost predicate ClockRuns(h: seq<World>) {
    forall i, j :: 0 <= i <= j < |h| ==> h[i].clock <= h[j].clock
  }

  ghost predicate HistoryOk(cfg: Config, h: seq<World>) {
    && Recorded(h) && Distinguished(h) && Accounted(h[|h| - 1]) && ClockRuns(h)
    && forall i :: 0 <= i < |h| ==> IncidentsOk(cfg, h[i])
  }

  ghost predicate ThreadsOk(cfg: Config, h: seq<World>, threads: map<string, Pc>) {
    forall name :: name in threads ==> Knows(cfg, h, name, threads[name]) && HoldsLock(h, name, threads[name])
  }

  ghost predicate LogOk(cfg: Config, h: seq<World>, log: seq<Mutation>) {
    forall k :: 0 <= k < |log| ==> Authorized(cfg, h, log[k])
  }

  /** A mutated object version is used up: nothing stored carries it any more. */
  ghost predicate Spent(w: World, log: seq<Mutation>) {
    && (forall k :: 0 <= k < |log| ==> log[k].before.rv in w.rvs)
    && (forall k, id :: 0 <= k < |log| && id in w.objects ==> w.objects[id].rv != log[k].before.rv)
    && (forall j, k :: 0 <= j < k < |log| ==> log[j].before.rv != log[k].before.rv)
  }

  ghost predicate Safe(cfg: Config, s: State) {
    && s.hist != []
    && HistoryOk(cfg, s.hist)
    && ThreadsOk(cfg, s.hist, s.threads)
    && LogOk(cfg, s.hist, s.log)
    && Spent(Now(s), s.log)
  }

  lemma InitialSafe(cfg: Config, s: State)
    requires Initial(s)
    ensures Safe(cfg, s)
  {
  }

  // ---- Preservation ----

  lemma DistinguishedOneMore(h: seq<World>, w: World, at: ObjId)
    requires Recorded(h) && Distinguished(h) && Evolves(h[|h| - 1], w, at)
    ensures Distinguished(h + [w])
  {
    var n, h' := |h|, h + [w];
    forall i, id | 0 <= i < n && id in h[i].objects && id in w.objects
      ensures h[i].objects[id].rv == w.objects[id].rv ==> h[i].objects[id] == w.objects[id]
    {
      assert h[i].objects[id].rv in h[n - 1].rvs;
    }
    forall i, j, id | 0 <= i < |h'| && 0 <= j < |h'| && id in h'[i].objects && id in h'[j].objects
      ensures h'[i].objects[id].rv == h'[j].objects[id].rv ==> h'[i].objects[id] == h'[j].objects[id]
    {
      assert i < n ==> h'[i] == h[i];
      assert j < n ==> h'[j] == h[j];
    }
  }

  lemma AccountedOneMore(h: seq<World>, w: World, at: ObjId)
    requires Recorded(h) && Accounted(h[|h| - 1]) && Evolves(h[|h| - 1], w, at)
    ensures Recorded(h + [w]) && Accounted(w)
  {
    var h' := h + [w];
    forall i, id | 0 <= i < |h'| && id in h'[i].objects ensures h'[i].objects[id].rv in w.rvs {
      if i < |h| {
        assert h'[i] == h[i] && h[i].objects[id].rv in h[|h| - 1].rvs;
      }
    }
  }

  lemma ClockOneMore(h: seq<World>, w: World)
    requires h != [] && ClockRuns(h) && h[|h| - 1].clock <= w.clock
    ensures ClockRuns(h + [w])
  {
  }

  lemma HistoryOneMore(cfg: Config, h: seq<World>, w: World, at: ObjId)
    requires HistoryOk(cfg, h) && Evolves(h[|h| - 1], w, at) && IncidentsOk(cfg, w)
    ensures HistoryOk(cfg, h + [w])
  {
    hide IncidentsOk, Evolves, Accounted, Distinguished, ClockRuns;
    DistinguishedOneMore(h, w, at);
    AccountedOneMore(h, w, at);
    EvolvesClock(h[|h| - 1], w, at);
    ClockOneMore(h, w);
    forall i | 0 <= i < |h + [w]| ensures IncidentsOk(cfg, (h + [w])[i]) {
      if i < |h| { assert (h + [w])[i] == h[i]; }
    }
  }

  lemma LaterIncidentsOk(cfg: Config, w: World, w': World)
    requires IncidentsOk(cfg, w) && w'.incidents == w.incidents && w.clock <= w'.clock
    ensures IncidentsOk(cfg, w')
  {
    hide Incidents.AllSigned, Incidents.EvidenceShape;
    forall i | i in w'.incidents ensures ScannerOwned(cfg, w', w'.incidents[i]) {
      assert ScannerOwned(cfg, w, w.incidents[i]);
    }
  }

  lemma LogOneMore(cfg: Config, h: seq<World>, w: World, log: seq<Mutation>)
    requires LogOk(cfg, h, log)
    ensures LogOk(cfg, h + [w], log)
  {
    hide Authorized;
    forall k | 0 <= k < |log| ensures Authorized(cfg, h + [w], log[k]) { AuthorizedStable(cfg, h, w, log[k]); }
  }

  lemma SpentOneMore(w: World, w': World, log: seq<Mutation>, at: ObjId)
    requires Spent(w, log) && Evolves(w, w', at)
    ensures Spent(w', log)
  {
  }

  /** Other threads keep what they know and hold. */
  lemma BystanderOk(cfg: Config, h: seq<World>, w: World, name: string, pc: Pc)
    requires h != [] && Knows(cfg, h, name, pc) && HoldsLock(h, name, pc)
    requires LockOf(pc).Some? && Owns(h[|h| - 1], LockOf(pc).value.0, name) ==> Owns(w, LockOf(pc).value.0, name)
    ensures Knows(cfg, h + [w], name, pc) && HoldsLock(h + [w], name, pc)
  {
    KnowsStable(cfg, h, w, name, pc);
    hide Knows, LockOf;
    if LockOf(pc).Some? {
      var (key, since) := LockOf(pc).value;
      assert Owns(h[|h| - 1], key, name);
      HeldOneMore(h, w, key, name, since);
    }
  }

  lemma EnvironmentSafe(cfg: Config, s: State, act: Act)
    requires Safe(cfg, s) && Legal(cfg, s, act) && !act.Step?
    ensures Safe(cfg, Do(cfg, s, act))
  {
    var h, w, w', s' := s.hist, Now(s), Environment(cfg, Now(s), act), Do(cfg, s, act);
    EnvironmentEvolves(cfg, s, act);
    EnvironmentKeepsIncidents(cfg, s, act);
    HistoryOneMore(cfg, h, w', Place(s, act));
    LogOneMore(cfg, h, w', s.log);
    SpentOneMore(w, w', s.log, Place(s, act));
    EnvironmentThreads(cfg, s, act);
    hide HistoryOk, LogOk, Spent, ThreadsOk, Environment, Legal, Place;
  }

  lemma EnvironmentThreads(cfg: Config, s: State, act: Act)
    requires s.hist != [] && ThreadsOk(cfg, s.hist, s.threads) && !act.Step?
    ensures ThreadsOk(cfg, s.hist + [Environment(cfg, Now(s), act)], Do(cfg, s, act).threads)
  {
    var h, w, w', s' := s.hist, Now(s), Environment(cfg, Now(s), act), Do(cfg, s, act);
    assert !act.Crash? ==> w'.locks == w.locks;
    hide Knows, LockOf, HoldsLock, Environment;
    forall name | name in s'.threads
      ensures Knows(cfg, h + [w'], name, s'.threads[name]) && HoldsLock(h + [w'], name, s'.threads[name])
    {
      if act.Begin? && name == act.approval {
        FirstPosition(cfg, h + [w'], name);
      } else {
        BystanderOk(cfg, h, w', name, s.threads[name]);
      }
    }
  }

  lemma FirstPosition(cfg: Config, h: seq<World>, name: string)
    ensures Knows(cfg, h, name, ReadApproval) && HoldsLock(h, name, ReadApproval)
  {
  }

  lemma LeaveSafe(cfg: Config, s: State, name: string, failed: bool)
    requires Safe(cfg, s) && name in s.threads
    ensures Safe(cfg, Leave(s, name, failed))
  {
    var h, w, w', s' := s.hist, Now(s), Unlock(Now(s), name), Leave(s, name, failed);
    assert Evolves(w, w', SOMEWHERE);
    LaterIncidentsOk(cfg, w, w');
    HistoryOneMore(cfg, h, w', SOMEWHERE);
    LogOneMore(cfg, h, w', s.log);
    SpentOneMore(w, w', s.log, SOMEWHERE);
    hide HistoryOk, LogOk, Spent, Knows, LockOf;
    forall other | other in s'.threads
      ensures Knows(cfg, h + [w'], other, s'.threads[other]) && HoldsLock(h + [w'], other, s'.threads[other])
    {
      BystanderOk(cfg, h, w', other, s.threads[other]);
    }
  }

  lemma StepThreads(cfg: Config, h: seq<World>, threads: map<string, Pc>, name: string, inp: Input)
    requires h != [] && ThreadsOk(cfg, h, threads) && name in threads && !Blocked(h[|h| - 1], threads[name])
    ensures var e := Taken(cfg, h, name, threads[name], inp); ThreadsOk(cfg, h + [e.w], threads[name := e.pc])
  {
    hide Knows, LockOf, Taken, HoldsLock, Blocked;
    var e := Taken(cfg, h, name, threads[name], inp);
    TakenKnows(cfg, h, name, threads[name], inp);
    TakenHolds(cfg, h, name, threads[name], inp);
    forall other | other in threads && other != name
      ensures Knows(cfg, h + [e.w], other, threads[other]) && HoldsLock(h + [e.w], other, threads[other])
    {
      StepBystander(cfg, h, threads, name, inp, other);
    }
  }

  lemma StepBystander(cfg: Config, h: seq<World>, threads: map<string, Pc>, name: string, inp: Input, other: string)
    requires h != [] && name in threads && !Blocked(h[|h| - 1], threads[name]) && other in threads
    requires Knows(cfg, h, other, threads[other]) && HoldsLock(h, other, threads[other])
    ensures var w := Taken(cfg, h, name, threads[name], inp).w;
            Knows(cfg, h + [w], other, threads[other]) && HoldsLock(h + [w], other, threads[other])
  {
    hide Knows, LockOf, Taken, HoldsLock, Blocked;
    var k := LockOf(threads[other]);
    if k.Some? && Owns(h[|h| - 1], k.value.0, other) {
      TakenSparesOthers(cfg, h, name, threads[name], inp, k.value.0, other);
    }
    BystanderOk(cfg, h, Taken(cfg, h, name, threads[name], inp).w, other, threads[other]);
  }

  lemma StepLog(cfg: Config, s: State, name: string, inp: Input)
    requires Safe(cfg, s) && name in s.threads && inp.rv !in Now(s).rvs
    ensures var e := Taken(cfg, s.hist, name, s.threads[name], inp);
            var log := if e.mutation.Some? then s.log + [e.mutation.value] else s.log;
            LogOk(cfg, s.hist + [e.w], log) && Spent(e.w, log)
  {
    hide Taken, Knows, HoldsLock, Place, Evolves, Spent, Authorized, Accounted, Distinguished, IncidentsOk, Recorded;
    var h, pc := s.hist, s.threads[name];
    var e := Taken(cfg, h, name, pc, inp);
    TakenEvolves(cfg, s, name, inp);
    MutationAuthorized(cfg, h, name, pc, inp);
    LogOneMore(cfg, h, e.w, s.log);
    SpentOneMore(Now(s), e.w, s.log, Place(s, Step(name, inp)));
    if e.mutation.Some? {
      MutationStamp(cfg, h, name, pc, inp);
      NewlySpent(cfg, s, e.w, e.mutation.value);
    }
  }

  lemma MutationStamp(cfg: Config, h: seq<World>, name: string, pc: Pc, inp: Input)
    requires h != [] && Taken(cfg, h, name, pc, inp).mutation.Some?
    ensures Taken(cfg, h, name, pc, inp).mutation.value.at == |h| - 1
  {
    OnlyMutateMutates(cfg, h, name, pc, inp);
    hide Serve, Vanishes;
  }

  lemma NewlySpent(cfg: Config, s: State, w': World, m: Mutation)
    requires Safe(cfg, s) && Spent(w', s.log) && Authorized(cfg, s.hist + [w'], m) && m.at == |s.hist| - 1
    ensures Spent(w', s.log + [m])
  {
    hide ExecOk, SelectionOk, TargetKey, FinalizerRemoved, ThreadsOk, LogOk, IncidentsOk, Distinguished, Vanishes;
    var h, w, id := s.hist, Now(s), IdOf(m.x.Act().target);
    assert (h + [w'])[m.at] == w && (h + [w'])[m.at + 1] == w';
    assert id in w.objects && w.objects[id] == m.before;
    assert w.objects[id].rv in w.rvs;
    forall other | other in w'.objects ensures w'.objects[other].rv != m.before.rv {
      if other != id { assert w'.objects[other] == w.objects[other]; }
    }
  }

  lemma StepSafe(cfg: Config, s: State, act: Act)
    requires Safe(cfg, s) && Legal(cfg, s, act) && act.Step?
    ensures Safe(cfg, Do(cfg, s, act))
  {
    hide Taken, HistoryOk, ThreadsOk, LogOk, Spent, Next, Blocked;
    var name, pc := act.approval, s.threads[act.approval];
    if pc.Returning? {
      LeaveSafe(cfg, s, name, pc.failed);
    } else {
      StepOnSafe(cfg, s, act);
    }
  }

  lemma StepOnSafe(cfg: Config, s: State, act: Act)
    requires Safe(cfg, s) && Legal(cfg, s, act) && act.Step? && !s.threads[act.approval].Returning?
    ensures Safe(cfg, Do(cfg, s, act))
  {
    hide Taken, Knows, HoldsLock, LogOk, Spent, IncidentsOk, Recorded, Distinguished, Accounted, Place, Evolves,
      Blocked, Next;
    var name, pc := act.approval, s.threads[act.approval];
    var e := Taken(cfg, s.hist, name, pc, act.inp);
    StepThreads(cfg, s.hist, s.threads, name, act.inp);
    StepLog(cfg, s, name, act.inp);
    TakenEvolves(cfg, s, name, act.inp);
    EvolvesClock(Now(s), e.w, Place(s, act));
    LaterIncidentsOk(cfg, Now(s), e.w);
    HistoryOneMore(cfg, s.hist, e.w, Place(s, act));
    DoTakes(cfg, s, act);
  }

  lemma EvolvesClock(w: World, w': World, at: ObjId)
    requires Evolves(w, w', at)
    ensures w.clock <= w'.clock
  {
  }

  lemma DoTakes(cfg: Config, s: State, act: Act)
    requires s.hist != [] && act.Step? && act.approval in s.threads && !s.threads[act.approval].Returning?
    ensures var e := Taken(cfg, s.hist, act.approval, s.threads[act.approval], act.inp);
            Do(cfg, s, act) == State(s.hist + [e.w], s.threads[act.approval := e.pc],
                                     if e.mutation.Some? then s.log + [e.mutation.value] else s.log,
                                     if e.wrote.Some? then s.writes + [e.wrote.value] else s.writes, s.calm)
  {
    hide Next;
  }

  lemma {:induction false} RunSafe(cfg: Config, s0: State, acts: seq<Act>, s: State)
    requires Initial(s0) && Run(cfg, s0, acts, s)
    ensures Safe(cfg, s)
    decreases |acts|
  {
    hide Safe, Do, Legal;
    if acts == [] {
      InitialSafe(cfg, s0);
    } else {
      var mid :| Run(cfg, s0, acts[..|acts| - 1], mid) && mid.hist != []
                 && Legal(cfg, mid, acts[|acts| - 1]) && s == Do(cfg, mid, acts[|acts| - 1]);
      RunSafe(cfg, s0, acts[..|acts| - 1], mid);
      if acts[|acts| - 1].Step? {
        StepSafe(cfg, mid, acts[|acts| - 1]);
      } else {
        EnvironmentSafe(cfg, mid, acts[|acts| - 1]);
      }
    }
  }

  lemma ReachableSafe(cfg: Config, s: State)
    requires Reachable(cfg, s)
    ensures Safe(cfg, s)
  {
    hide Safe, Run, Initial;
    var s0, acts :| Initial(s0) && Run(cfg, s0, acts, s);
    RunSafe(cfg, s0, acts, s);
  }

  // ---- Theorems ----

  /** The approval, incident and evidence as they were in the history under the lock. The incident's UID is
      that of the approval as it was first read. */
  ghost predicate ApprovedByIncident(cfg: Config, h: seq<World>, m: Mutation) {
    m.x.l.v.plan.Fresh? &&
    var l, x, a, ref := m.x.l, m.x, m.x.Act(), m.x.l.v.plan.ref;
    && l.since < l.a1.at < x.inc1.at < x.evAt < |h|
    && m.name in h[l.a1.at].approvals && h[l.a1.at].approvals[m.name] == l.a1.val
    && !Terminal(l.a1.val.status.phase) && !l.a1.val.spec.dryRun
    && l.a1.val.spec.actionID == a.id
    && l.a1.val.spec.incidentName in h[x.inc1.at].incidents
    && h[x.inc1.at].incidents[l.a1.val.spec.incidentName] == x.inc1.val
    && x.inc1.val.uid == l.v.a0.val.spec.incidentUid
    && x.inc1.val.status.phase.Active? && x.inc1.val.status.policyRef == Some(ref)
    && a in x.inc1.val.status.actions && Incidents.Signed(cfg.hash, ref, a)
    && Incidents.EvidenceCurrent(x.inc1.val.status, h[x.evAt].clock)
    && 0 <= h[x.evAt].clock - x.inc1.val.status.evidenceTime.value < cfg.scan.timeout + 2 * cfg.scan.interval
  }

  /** The policy revision, its verdict and its selection as they were under the lock: the object, scope and
      namespace labels that the policy matched are those stored when the thread looked. */
  ghost predicate PermittedByPolicy(cfg: Config, h: seq<World>, m: Mutation) {
    m.x.l.v.plan.Fresh? &&
    var x, a, ref := m.x, m.x.Act(), m.x.l.v.plan.ref;
    var spec := cfg.specOf(Revision(ref.uid, ref.generation));
    && x.evAt < x.polAt < x.compAt < m.at < |h|
    && ref.name in h[x.polAt].policies && h[x.polAt].policies[ref.name] == Revision(ref.uid, ref.generation)
    && x.policy == Compiled(SourceOf(cfg, ref), h[x.compAt].catalog)
    && Usable(spec, h[x.compAt].catalog) && SpecAllows(spec, a.typ, a.finalizer)
    && a.eligible && a.risk == RiskFor(a.typ, a.finalizer)
    && h[x.compAt].clock < x.l.a1.val.created + spec.approvalTTL
    && x.compAt < m.sel.chosen.at < m.at
    && IdOf(x.inc1.val.target) in h[m.sel.chosen.at].objects
    && h[m.sel.chosen.at].objects[IdOf(x.inc1.val.target)].uid == x.inc1.val.target.uid
    && SelectionOk(h, x, m.sel) && Match(x.policy, PolicyTarget(x, m.sel))
  }

  lemma EvidenceAge(cfg: Config, h: seq<World>, i: nat, j: nat, inc: Incidents.Incident)
    requires i <= j < |h| && ClockRuns(h)
    requires ScannerOwned(cfg, h[i], inc) && Incidents.EvidenceCurrent(inc.status, h[j].clock)
    ensures 0 <= h[j].clock - inc.status.evidenceTime.value < cfg.scan.timeout + 2 * cfg.scan.interval
  {
    Incidents.AcceptedEvidenceIsYoung(cfg.scan, inc.status, h[j].clock);
  }

  lemma AuthorizedIncident(cfg: Config, h: seq<World>, m: Mutation)
    requires HistoryOk(cfg, h) && Authorized(cfg, h, m)
    ensures ApprovedByIncident(cfg, h, m)
  {
    hide Compiled, Eligible, SelectionOk, TargetKey, FinalizerRemoved, Store, Recorded, Distinguished, Accounted,
      BelongsToIncident, IndexOf, FinalizerPatch, Terminal, ClockRuns, Incidents.AllSigned, Incidents.EvidenceShape,
      Incidents.EvidenceCurrent;
    var x := m.x;
    assert IncidentsOk(cfg, h[x.inc1.at]);
    assert ScannerOwned(cfg, h[x.inc1.at], x.inc1.val);
    EvidenceAge(cfg, h, x.inc1.at, x.evAt, x.inc1.val);
    SignedMember(cfg, h[x.inc1.at], x.inc1.val, x.l.v.plan.ref, x.Act());
  }

  lemma SignedMember(cfg: Config, w: World, inc: Incidents.Incident, ref: PolicyRef, a: Action)
    requires ScannerOwned(cfg, w, inc) && inc.status.policyRef == Some(ref) && a in inc.status.actions
    ensures Incidents.Signed(cfg.hash, ref, a)
  {
  }

  lemma AuthorizedPolicy(cfg: Config, h: seq<World>, m: Mutation)
    requires Authorized(cfg, h, m)
    ensures PermittedByPolicy(cfg, h, m)
  {
    hide Compiled, Eligible, TargetKey, FinalizerRemoved, Store, BelongsToIncident, IndexOf, FinalizerPatch, Terminal,
      Incidents.EvidenceCurrent, Match, Drafted, PolicyTarget, RiskFor, FindAction, Usable, SpecAllows;
    var v, source := m.x.l.v, SourceOf(cfg, m.x.l.v.plan.ref);
    EligibilityIsPerRevision(source, h[v.plan.compAt].catalog, h[m.x.compAt].catalog, v.action.typ, v.action.finalizer);
    EligibleBySpec(source, h[m.x.compAt].catalog, v.action.typ, v.action.finalizer);
    SettingsCarryOver(source, h[m.x.compAt].catalog);
  }

  /** In every run, however threads, users, scanner, discovery, clock and crashes interleave, each
      persisted mutation was approved by an unfinished, non-dry-run approval naming the ID of a signed
      action of an Active incident with unexpired evidence, permitted by the unchanged policy revision
      that still selects the incident's target, made while holding the target lock from before those
      checks to the change, and applied to exactly the approved UID and resource version. */
  lemma EveryMutationJustified(cfg: Config, s: State, k: nat)
    requires Reachable(cfg, s) && k < |s.log|
    ensures var m := s.log[k];
            && ApprovedByIncident(cfg, s.hist, m)
            && PermittedByPolicy(cfg, s.hist, m)
            && m.at + 1 < |s.hist|
            && (forall j :: m.x.l.since < j <= m.at + 1 ==> Owns(s.hist[j], TargetKey(m.x.Act().target), m.name))
            && ChangeOk(s.hist, m)
  {
    hide HistoryOk, ThreadsOk, Spent, ApprovedByIncident, PermittedByPolicy, ExecOk, SelectionOk, TargetKey, Reachable;
    ReachableSafe(cfg, s);
    AuthorizedIncident(cfg, s.hist, s.log[k]);
    AuthorizedPolicy(cfg, s.hist, s.log[k]);
  }

  /** For every target UID and resource version at most one executor mutation ever persists. */
  lemma AtMostOneMutationPerVersion(cfg: Config, s: State, j: nat, k: nat)
    requires Reachable(cfg, s) && j < |s.log| && k < |s.log|
    requires s.log[j].before.uid == s.log[k].before.uid && s.log[j].before.rv == s.log[k].before.rv
    ensures j == k
  {
    hide HistoryOk, ThreadsOk, LogOk, Reachable;
    ReachableSafe(cfg, s);
  }

  /** An action ID is carried out at most once, over any number of approvals, attempts and crashes. */
  lemma ActionIdExecutedOnce(cfg: Config, s: State, j: nat, k: nat)
    requires Reachable(cfg, s) && j < |s.log| && k < |s.log| && Incidents.Injective(cfg.hash)
    requires forall i :: 0 <= i < |s.log| && s.log[i].x.l.v.plan.Fresh? ==>
               Incidents.NulFreeAction(s.log[i].x.Act(), s.log[i].x.l.v.plan.ref)
    requires s.log[j].x.l.a1.val.spec.actionID == s.log[k].x.l.a1.val.spec.actionID
    ensures j == k
  {
    hide ApprovedByIncident, PermittedByPolicy, ChangeOk, Reachable, TargetKey, Incidents.NulFreeAction,
      Incidents.Injective;
    EveryMutationJustified(cfg, s, j);
    EveryMutationJustified(cfg, s, k);
    JustifiedFresh(cfg, s.hist, s.log[j]);
    JustifiedFresh(cfg, s.hist, s.log[k]);
    SameIdSameVersion(cfg, s.hist, s.log[j], s.log[k]);
    AtMostOneMutationPerVersion(cfg, s, j, k);
  }

  lemma JustifiedFresh(cfg: Config, h: seq<World>, m: Mutation)
    requires ApprovedByIncident(cfg, h, m)
    ensures m.x.l.v.plan.Fresh?
  {
  }

  lemma SameIdSameVersion(cfg: Config, h: seq<World>, m: Mutation, n: Mutation)
    requires Incidents.Injective(cfg.hash) && m.x.l.v.plan.Fresh? && n.x.l.v.plan.Fresh?
    requires ApprovedByIncident(cfg, h, m) && ApprovedByIncident(cfg, h, n) && ChangeOk(h, m) && ChangeOk(h, n)
    requires Incidents.NulFreeAction(m.x.Act(), m.x.l.v.plan.ref)
    requires Incidents.NulFreeAction(n.x.Act(), n.x.l.v.plan.ref)
    requires m.x.l.a1.val.spec.actionID == n.x.l.a1.val.spec.actionID
    ensures Incidents.BindingOf(m.x.Act(), m.x.l.v.plan.ref) == Incidents.BindingOf(n.x.Act(), n.x.l.v.plan.ref)
    ensures m.before.uid == n.before.uid && m.before.rv == n.before.rv
  {
    hide FinalizerRemoved, Store, Incidents.Signed, Incidents.NulFreeAction, Incidents.EvidenceCurrent, Terminal,
      Incidents.Injective;
    Incidents.IdBindsOperation(cfg.hash, m.x.Act(), m.x.l.v.plan.ref, n.x.Act(), n.x.l.v.plan.ref);
  }

  /** A persisted finalizer removal takes away exactly the first occurrence of the approved finalizer
      and keeps the rest in order; without duplicates none is left. */
  lemma FinalizerRemovalExact(cfg: Config, s: State, k: nat)
    requires Reachable(cfg, s) && k < |s.log|
    requires s.log[k].x.Act().typ.RemoveResourceFinalizer? || s.log[k].x.Act().typ.RemoveCRDFinalizer?
    ensures var m, f := s.log[k], s.log[k].x.Act().finalizer;
            && multiset(m.after.finalizers) == multiset(m.before.finalizers) - multiset{f}
            && (exists i :: 0 <= i <= |m.after.finalizers|
                  && m.before.finalizers == m.after.finalizers[..i] + [f] + m.after.finalizers[i..])
            && (NoDuplicates(m.before.finalizers) ==> f !in m.after.finalizers)
            && m.after == m.before.(rv := m.after.rv, finalizers := m.after.finalizers)
  {
    hide ApprovedByIncident, PermittedByPolicy, Reachable, TargetKey, FinalizerRemoved, Store, NoDuplicates;
    EveryMutationJustified(cfg, s, k);
    RemovedExactly(s.log[k].x.Act().finalizer, s.log[k].before, s.log[k].after);
  }

  lemma RemovedExactly(f: string, before: Obj, after: Obj)
    requires FinalizerRemoved(f, before, after)
    ensures multiset(after.finalizers) == multiset(before.finalizers) - multiset{f}
    ensures exists i :: 0 <= i <= |after.finalizers|
              && before.finalizers == after.finalizers[..i] + [f] + after.finalizers[i..]
    ensures NoDuplicates(before.finalizers) ==> f !in after.finalizers
    ensures after == before.(rv := after.rv, finalizers := after.finalizers)
  {
    RemoveFirst(before.finalizers, f);
    var i := IndexOf(before.finalizers, f).value;
    assert before.finalizers == after.finalizers[..i] + [f] + after.finalizers[i..];
  }

  /** Two reconciles never work under the lock of one target at the same time. */
  lemma OneReconcilePerTarget(cfg: Config, s: State, p: string, q: string)
    requires Reachable(cfg, s) && p in s.threads && q in s.threads
    requires LockOf(s.threads[p]).Some? && LockOf(s.threads[q]).Some?
    requires LockOf(s.threads[p]).value.0 == LockOf(s.threads[q]).value.0
    ensures p == q
  {
    hide HistoryOk, LogOk, Spent, Reachable, Knows, LockOf;
    ReachableSafe(cfg, s);
    assert HoldsLock(s.hist, p, s.threads[p]) && HoldsLock(s.hist, q, s.threads[q]);
    assert Owns(Now(s), LockOf(s.threads[p]).value.0, p) && Owns(Now(s), LockOf(s.threads[q]).value.0, q);
  }
}
