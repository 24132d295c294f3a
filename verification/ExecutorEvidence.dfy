/** Every mutation goes back to a diagnosis: the scanner's writes in a run stand behind the evidence that the
    executor accepted. */
module ExecutorEvidence {
  import opened Types
  import opened Discovery
  import opened Policy
  import opened Executor
  import opened ExecutorSafety
  import opened ExecutorRuns
  import Incidents

  /** Act `k` persisted a complete diagnosis of exactly the actions that the status lists, in the cycle whose
      start the status carries as its evidence time. */
  ghost predicate Diagnosed(acts: seq<Act>, k: nat, incident: string, st: Incidents.Status) {
    && k < |acts| && acts[k].WriteIncident? && acts[k].incident == incident && acts[k].write.Persist?
    && acts[k].write.result.complete && acts[k].write.result.actions == st.actions
    && st.evidenceTime == Some(acts[k].write.now)
  }

  /** The evidence of every stored incident was written by an earlier act. */
  ghost predicate Backed(acts: seq<Act>, w: World, j: nat) {
    forall n :: n in w.incidents && w.incidents[n].status.evidenceTime.Some? ==>
      exists k :: 0 <= k < j && Diagnosed(acts, k, n, w.incidents[n].status)
  }

  /** World `j` is the one after the first `j` acts. */
  ghost predicate History(acts: seq<Act>, h: seq<World>) {
    |h| == |acts| + 1 && forall j :: 0 <= j < |h| ==> Backed(acts, h[j], j)
  }

  lemma BackedLonger(acts: seq<Act>, act: Act, w: World, j: nat)
    requires Backed(acts, w, j) && j <= |acts|
    ensures Backed(acts + [act], w, j)
  {
    var all := acts + [act];
    forall n | n in w.incidents && w.incidents[n].status.evidenceTime.Some?
      ensures exists k :: 0 <= k < j && Diagnosed(all, k, n, w.incidents[n].status)
    {
      var k :| 0 <= k < j && Diagnosed(acts, k, n, w.incidents[n].status);
      assert all[k] == acts[k];
      assert Diagnosed(all, k, n, w.incidents[n].status);
    }
  }

  lemma BackedSame(acts: seq<Act>, w: World, w': World, j: nat)
    requires Backed(acts, w, j) && forall n :: n in w'.incidents ==>
               w'.incidents[n].status.evidenceTime.None? || (n in w.incidents && w'.incidents[n] == w.incidents[n])
    ensures Backed(acts, w', j + 1)
  {
    forall n | n in w'.incidents && w'.incidents[n].status.evidenceTime.Some?
      ensures exists k :: 0 <= k < j + 1 && Diagnosed(acts, k, n, w'.incidents[n].status)
    {
      var k :| 0 <= k < j && Diagnosed(acts, k, n, w.incidents[n].status);
    }
  }

  /** A status write keeps old evidence for the same actions, drops it, or is itself the evidence. */
  lemma WriteBacked(cfg: Config, acts: seq<Act>, w: World, act: Act)
    requires act.WriteIncident? && act.incident in w.incidents && Backed(acts, w, |acts|)
    ensures Backed(acts + [act], Environment(cfg, w, act), |acts| + 1)
  {
    var all, w' := acts + [act], Environment(cfg, w, act);
    BackedLonger(acts, act, w, |acts|);
    forall n | n in w'.incidents && w'.incidents[n].status.evidenceTime.Some?
      ensures exists k :: 0 <= k < |acts| + 1 && Diagnosed(all, k, n, w'.incidents[n].status)
    {
      var st := w'.incidents[n].status;
      if n != act.incident {
        var k :| 0 <= k < |acts| && Diagnosed(all, k, n, w.incidents[n].status);
      } else if act.write.Persist? && st.evidenceTime == Some(act.write.now) && act.write.result.complete {
        assert all[|acts|] == act;
        assert Diagnosed(all, |acts|, n, st);
      } else {
        KeptEvidence(cfg.scan, w.incidents[n].status, act.write);
        var k :| 0 <= k < |acts| && Diagnosed(all, k, n, w.incidents[n].status);
        assert Diagnosed(all, k, n, st);
      }
    }
  }

  lemma KeptEvidence(cfg: Incidents.Config, cur: Incidents.Status, write: Incidents.Write)
    ensures var st := Incidents.Apply(cfg, cur, write);
            || st.evidenceTime.None?
            || (write.Persist? && st.evidenceTime == Some(write.now) && write.result.complete)
            || (st.evidenceTime == cur.evidenceTime && st.actions == cur.actions)
  {
  }

  lemma EnvironmentBacked(cfg: Config, acts: seq<Act>, s: State, act: Act)
    requires s.hist != [] && Legal(cfg, s, act) && !act.Step? && Backed(acts, Now(s), |acts|)
    ensures Backed(acts + [act], Environment(cfg, Now(s), act), |acts| + 1)
  {
    hide Backed, Incidents.Apply, ScannerWrite;
    if act.WriteIncident? {
      WriteBacked(cfg, acts, Now(s), act);
    } else {
      BackedLonger(acts, act, Now(s), |acts|);
      BackedSame(acts + [act], Now(s), Environment(cfg, Now(s), act), |acts|);
    }
  }

  lemma StepBacked(cfg: Config, acts: seq<Act>, s: State, act: Act)
    requires Safe(cfg, s) && Legal(cfg, s, act) && act.Step? && Backed(acts, Now(s), |acts|)
    ensures Do(cfg, s, act).hist == s.hist + [Now(Do(cfg, s, act))]
    ensures Backed(acts + [act], Now(Do(cfg, s, act)), |acts| + 1)
  {
    hide Backed, Knows, HoldsLock, LogOk, Spent, HistoryOk, Next, Taken;
    var pc, s' := s.threads[act.approval], Do(cfg, s, act);
    assert Now(s').incidents == Now(s).incidents by {
      if !pc.Returning? { StepKeepsIncidents(cfg, s, act); }
    }
    BackedLonger(acts, act, Now(s), |acts|);
    BackedSame(acts + [act], Now(s), Now(s'), |acts|);
  }

  lemma StepKeepsIncidents(cfg: Config, s: State, act: Act)
    requires Safe(cfg, s) && Legal(cfg, s, act) && act.Step? && !s.threads[act.approval].Returning?
    ensures Now(Do(cfg, s, act)).incidents == Now(s).incidents
  {
    hide Knows, HoldsLock, LogOk, Spent, Taken, Accounted, Distinguished, Recorded, ClockRuns, IncidentsOk;
    TakenEvolves(cfg, s, act.approval, act.inp);
    DoTakes(cfg, s, act);
    hide Do;
  }

  lemma {:induction false} RunHistory(cfg: Config, s0: State, acts: seq<Act>, s: State)
    requires Initial(s0) && Run(cfg, s0, acts, s)
    ensures History(acts, s.hist)
    decreases |acts|
  {
    hide Safe, Legal, Do;
    if acts != [] {
      var init, act := acts[..|acts| - 1], acts[|acts| - 1];
      assert acts == init + [act];
      var mid :| Run(cfg, s0, init, mid) && mid.hist != [] && Legal(cfg, mid, act) && s == Do(cfg, mid, act);
      RunHistory(cfg, s0, init, mid);
      RunSafe(cfg, s0, init, mid);
      hide Run, Initial;
      HistoryOneAct(cfg, init, mid, act);
    }
  }

  lemma HistoryOneAct(cfg: Config, acts: seq<Act>, s: State, act: Act)
    requires History(acts, s.hist) && Safe(cfg, s) && Legal(cfg, s, act)
    ensures History(acts + [act], Do(cfg, s, act).hist)
  {
    var all, s' := acts + [act], Do(cfg, s, act);
    if act.Step? {
      StepBacked(cfg, acts, s, act);
    } else {
      EnvironmentBacked(cfg, acts, s, act);
      assert s'.hist == s.hist + [Environment(cfg, Now(s), act)];
    }
    hide Backed, Safe, Legal, Do, Environment;
    forall j | 0 <= j < |s'.hist| ensures Backed(all, s'.hist[j], j) {
      if j < |s.hist| {
        assert s'.hist[j] == s.hist[j];
        BackedLonger(acts, act, s.hist[j], j);
      }
    }
  }

  /** For each mutation the run contains an earlier complete diagnosis that recommended exactly this action
      for the incident, in a cycle that started less than `timeout + 2 * interval` before the executor
      checked the evidence. */
  lemma EveryMutationDiagnosed(cfg: Config, s0: State, acts: seq<Act>, s: State, k: nat) returns (i: nat)
    requires Initial(s0) && Run(cfg, s0, acts, s) && k < |s.log|
    ensures var x := s.log[k].x;
            && i < |acts| && acts[i].WriteIncident? && acts[i].incident == x.l.a1.val.spec.incidentName
            && acts[i].write.Persist?
            && i < x.inc1.at < x.evAt < |s.hist|
            && acts[i].write.result.complete && x.Act() in acts[i].write.result.actions
            && 0 <= s.hist[x.evAt].clock - acts[i].write.now < cfg.scan.timeout + 2 * cfg.scan.interval
  {
    hide Run, Initial, PermittedByPolicy, ChangeOk, Backed, Incidents.Signed, Incidents.EvidenceCurrent, Terminal;
    assert Reachable(cfg, s);
    EveryMutationJustified(cfg, s, k);
    RunHistory(cfg, s0, acts, s);
    var x := s.log[k].x;
    assert x.inc1.val.status.evidenceTime.Some? by { CurrentHasTime(x.inc1.val.status, s.hist[x.evAt].clock); }
    i := BackingAct(acts, s.hist[x.inc1.at], x.inc1.at, x.l.a1.val.spec.incidentName);
  }

  lemma CurrentHasTime(st: Incidents.Status, now: int)
    requires Incidents.EvidenceCurrent(st, now)
    ensures st.evidenceTime.Some?
  {
  }

  lemma BackingAct(acts: seq<Act>, w: World, j: nat, n: string) returns (k: nat)
    requires Backed(acts, w, j) && n in w.incidents && w.incidents[n].status.evidenceTime.Some?
    ensures k < j && Diagnosed(acts, k, n, w.incidents[n].status)
  {
    k :| 0 <= k < j && Diagnosed(acts, k, n, w.incidents[n].status);
  }
}
