/** keyedLocks (internal/executor/executor.go): reference-counted mutexes, one per key, run by any
    number of threads. Each section guarded by the table's own mutex is one step. */
module KeyedLocks {
  /** A thread inside an operation: blocked on its entry's mutex, holding it, or having unlocked it but
      not yet given up its reference. `e` is the entry the thread points to. */
  datatype Pc = Waiting(key: string, e: nat) | Holding(key: string, e: nat) | Releasing(key: string, e: nat)

  /** `entries` is the table; `users` the counters; `owner` says which entry mutex is locked by whom;
      `threads` are the threads inside an operation; entries are numbered in order of allocation. */
  datatype Locks = Locks(
    entries: map<string, nat>, users: map<nat, int>, owner: map<nat, nat>, threads: map<nat, Pc>, next: nat)

  datatype Op = Enter(t: nat, key: string) | Acquire(t: nat) | Unlock(t: nat) | Release(t: nat)

  predicate Enabled(s: Locks, op: Op) {
    match op
    case Enter(t, _) => t !in s.threads
    case Acquire(t) => t in s.threads && s.threads[t].Waiting? && s.threads[t].e !in s.owner
    case Unlock(t) => t in s.threads && s.threads[t].Holding?
    case Release(t) => t in s.threads && s.threads[t].Releasing?
  }

  function Count(s: Locks, e: nat): int { if e in s.users then s.users[e] else 0 }

  function Do(s: Locks, op: Op): Locks
    requires Enabled(s, op)
  {
    match op
    case Enter(t, key) =>
      if key in s.entries then
        var e := s.entries[key];
        s.(users := s.users[e := Count(s, e) + 1], threads := s.threads[t := Waiting(key, e)])
      else
        Locks(s.entries[key := s.next], s.users[s.next := 1], s.owner, s.threads[t := Waiting(key, s.next)], s.next + 1)
    case Acquire(t) =>
      var p := s.threads[t];
      s.(owner := s.owner[p.e := t], threads := s.threads[t := Holding(p.key, p.e)])
    case Unlock(t) =>
      var p := s.threads[t];
      s.(owner := s.owner - {p.e}, threads := s.threads[t := Releasing(p.key, p.e)])
    case Release(t) =>
      var p := s.threads[t];
      var left := Count(s, p.e) - 1;
      s.(users := s.users[p.e := left], entries := if left == 0 then s.entries - {p.key} else s.entries,
         threads := s.threads - {t})
  }

  ghost predicate Next(s: Locks, op: Op, s': Locks) { Enabled(s, op) && s' == Do(s, op) }

  const EMPTY := Locks(map[], map[], map[], map[], 0)

  ghost predicate Run(ops: seq<Op>, s: Locks) {
    if ops == [] then s == EMPTY
    else var last := ops[|ops| - 1]; exists mid :: Run(ops[..|ops| - 1], mid) && Next(mid, last, s)
  }

  // ---- Invariant ----

  /** The threads working on `key`. */
  function Workers(s: Locks, key: string): set<nat> { set t | t in s.threads && s.threads[t].key == key }

  /** Every thread inside an operation points at the entry that is in the table under its key. */
  ghost predicate OneEntryPerKey(s: Locks) {
    forall t :: t in s.threads ==> s.threads[t].key in s.entries && s.entries[s.threads[t].key] == s.threads[t].e
  }

  ghost predicate Counted(s: Locks) {
    forall k :: k in s.entries ==> Count(s, s.entries[k]) == |Workers(s, k)| > 0
  }

  ghost predicate DistinctEntries(s: Locks) {
    && (forall k :: k in s.entries ==> s.entries[k] < s.next)
    && (forall j, k :: j in s.entries && k in s.entries && j != k ==> s.entries[j] != s.entries[k])
  }

  /** A locked entry mutex has exactly the holder it belongs to. */
  ghost predicate Owned(s: Locks) {
    && (forall t :: t in s.threads && s.threads[t].Holding? ==>
          s.threads[t].e in s.owner && s.owner[s.threads[t].e] == t)
    && (forall e :: e in s.owner ==>
          s.owner[e] in s.threads && s.threads[s.owner[e]].Holding? && s.threads[s.owner[e]].e == e)
  }

  ghost predicate Inv(s: Locks) { OneEntryPerKey(s) && Counted(s) && DistinctEntries(s) && Owned(s) }

  lemma EnterWorkers(s: Locks, t: nat, key: string, k: string)
    requires OneEntryPerKey(s) && Enabled(s, Enter(t, key))
    ensures var s' := Do(s, Enter(t, key));
            && Workers(s', k) == Workers(s, k) + (if k == key then {t} else {}) && t !in Workers(s, k)
            && (key !in s.entries ==> Workers(s, key) == {})
  {
  }

  lemma EnterCounted(s: Locks, t: nat, key: string)
    requires OneEntryPerKey(s) && Counted(s) && DistinctEntries(s) && Enabled(s, Enter(t, key))
    ensures Counted(Do(s, Enter(t, key)))
  {
    var s' := Do(s, Enter(t, key));
    forall k | k in s'.entries ensures Count(s', s'.entries[k]) == |Workers(s', k)| > 0 {
      EnterWorkers(s, t, key, k);
      hide Workers;
      assert k != key ==> s'.entries[k] == s.entries[k];
    }
  }

  lemma EnterEntries(s: Locks, t: nat, key: string)
    requires OneEntryPerKey(s) && DistinctEntries(s) && Enabled(s, Enter(t, key))
    ensures OneEntryPerKey(Do(s, Enter(t, key))) && DistinctEntries(Do(s, Enter(t, key)))
  {
  }

  lemma EnterOwned(s: Locks, t: nat, key: string)
    requires Owned(s) && Enabled(s, Enter(t, key))
    ensures Owned(Do(s, Enter(t, key)))
  {
    var s' := Do(s, Enter(t, key));
    assert s'.owner == s.owner && forall u :: u in s.threads ==> s'.threads[u] == s.threads[u];
    forall u | u in s'.threads && s'.threads[u].Holding?
      ensures s'.threads[u].e in s'.owner && s'.owner[s'.threads[u].e] == u
    {
      assert u != t && s.threads[u].Holding?;
    }
  }

  lemma EnterInv(s: Locks, t: nat, key: string)
    requires Inv(s) && Enabled(s, Enter(t, key))
    ensures Inv(Do(s, Enter(t, key)))
  {
    hide OneEntryPerKey, Counted, DistinctEntries, Owned;
    EnterCounted(s, t, key);
    EnterEntries(s, t, key);
    EnterOwned(s, t, key);
  }

  /** Moving a thread along without changing its key or entry keeps the table facts. */
  lemma MoveKeepsTable(s: Locks, s': Locks)
    requires OneEntryPerKey(s) && Counted(s) && DistinctEntries(s)
    requires s'.entries == s.entries && s'.users == s.users && s'.next == s.next && s'.threads.Keys == s.threads.Keys
    requires forall t :: t in s.threads ==> s'.threads[t].key == s.threads[t].key && s'.threads[t].e == s.threads[t].e
    ensures OneEntryPerKey(s') && Counted(s') && DistinctEntries(s')
  {
    forall k | k in s'.entries ensures Count(s', s'.entries[k]) == |Workers(s', k)| > 0 {
      assert Workers(s', k) == Workers(s, k);
    }
  }

  lemma AcquireOwned(s: Locks, t: nat)
    requires Owned(s) && Enabled(s, Acquire(t))
    ensures Owned(Do(s, Acquire(t)))
  {
  }

  lemma UnlockOwned(s: Locks, t: nat)
    requires Owned(s) && Enabled(s, Unlock(t))
    ensures Owned(Do(s, Unlock(t)))
  {
    var s', e := Do(s, Unlock(t)), s.threads[t].e;
    forall u | u in s'.threads && s'.threads[u].Holding?
      ensures s'.threads[u].e in s'.owner && s'.owner[s'.threads[u].e] == u
    {
      assert u != t && s.owner[e] == t;
    }
    forall f | f in s'.owner
      ensures s'.owner[f] in s'.threads && s'.threads[s'.owner[f]].Holding? && s'.threads[s'.owner[f]].e == f
    {
      assert f != e && s'.owner[f] == s.owner[f];
    }
  }

  lemma AcquireInv(s: Locks, t: nat)
    requires Inv(s) && Enabled(s, Acquire(t))
    ensures Inv(Do(s, Acquire(t)))
  {
    hide OneEntryPerKey, Counted, DistinctEntries, Owned;
    MoveKeepsTable(s, Do(s, Acquire(t)));
    AcquireOwned(s, t);
  }

  lemma UnlockInv(s: Locks, t: nat)
    requires Inv(s) && Enabled(s, Unlock(t))
    ensures Inv(Do(s, Unlock(t)))
  {
    hide OneEntryPerKey, Counted, DistinctEntries, Owned;
    MoveKeepsTable(s, Do(s, Unlock(t)));
    UnlockOwned(s, t);
  }

  lemma ReleaseWorkers(s: Locks, t: nat, k: string)
    requires Enabled(s, Release(t))
    ensures Workers(Do(s, Release(t)), k) == Workers(s, k) - (if k == s.threads[t].key then {t} else {})
    ensures t in Workers(s, s.threads[t].key)
  {
  }

  lemma ReleaseCounted(s: Locks, t: nat)
    requires Inv(s) && Enabled(s, Release(t))
    ensures Counted(Do(s, Release(t)))
  {
    var s', p := Do(s, Release(t)), s.threads[t];
    forall k | k in s'.entries ensures Count(s', s'.entries[k]) == |Workers(s', k)| > 0 {
      ReleaseWorkers(s, t, k);
      ReleaseWorkers(s, t, p.key);
      hide Workers;
    }
  }

  lemma ReleaseEntries(s: Locks, t: nat)
    requires Inv(s) && Enabled(s, Release(t))
    ensures OneEntryPerKey(Do(s, Release(t))) && DistinctEntries(Do(s, Release(t)))
  {
    hide Owned;
    var s', p := Do(s, Release(t)), s.threads[t];
    ReleaseWorkers(s, t, p.key);
    assert Count(s, p.e) == |Workers(s, p.key)|;
    forall u | u in s'.threads ensures s'.threads[u].key in s'.entries {
      if s'.threads[u].key == p.key { InWorkers(s', u, Workers(s, p.key), t); }
    }
  }

  lemma InWorkers(s: Locks, u: nat, before: set<nat>, t: nat)
    requires u in s.threads && t in before && Workers(s, s.threads[u].key) == before - {t}
    ensures |before| > 1
  {
    assert u in Workers(s, s.threads[u].key) && before == (before - {t}) + {t};
    assert |before - {t}| > 0;
  }

  lemma ReleaseOwned(s: Locks, t: nat)
    requires Owned(s) && Enabled(s, Release(t))
    ensures Owned(Do(s, Release(t)))
  {
  }

  lemma ReleaseInv(s: Locks, t: nat)
    requires Inv(s) && Enabled(s, Release(t))
    ensures Inv(Do(s, Release(t)))
  {
    hide OneEntryPerKey, Counted, DistinctEntries, Owned, Do;
    ReleaseCounted(s, t);
    ReleaseEntries(s, t);
    ReleaseOwned(s, t);
  }

  lemma {:induction false} RunInv(ops: seq<Op>, s: Locks)
    requires Run(ops, s)
    ensures Inv(s)
    decreases |ops|
  {
    hide Inv, Do;
    if ops == [] {
      EmptyInv();
    } else {
      var last := ops[|ops| - 1];
      var mid :| Run(ops[..|ops| - 1], mid) && Next(mid, last, s);
      RunInv(ops[..|ops| - 1], mid);
      match last
      case Enter(t, key) => EnterInv(mid, t, key);
      case Acquire(t) => AcquireInv(mid, t);
      case Unlock(t) => UnlockInv(mid, t);
      case Release(t) => ReleaseInv(mid, t);
    }
  }

  lemma EmptyInv()
    ensures Inv(EMPTY)
  {
  }

  // ---- Theorems ----

  /** However many threads and keys: two threads hold one key's lock only if they are the same thread;
      everyone working on a key points at the one entry in the table; the counter is the number of
      them; and a key is in the table exactly while someone works on it. So removing an idle entry
      never splits a key into two locks, and no entry is left behind. */
  lemma LocksAreExclusive(ops: seq<Op>, s: Locks)
    requires Run(ops, s)
    ensures forall t, u :: t in s.threads && u in s.threads && s.threads[t].Holding? && s.threads[u].Holding? ==>
              (s.threads[t].key == s.threads[u].key ==> t == u)
    ensures forall t :: t in s.threads ==>
              s.threads[t].key in s.entries && s.entries[s.threads[t].key] == s.threads[t].e
    ensures forall k :: k in s.entries ==> Count(s, s.entries[k]) == |Workers(s, k)|
    ensures forall k :: k in s.entries <==> Workers(s, k) != {}
  {
    RunInv(ops, s);
    forall k | Workers(s, k) != {} ensures k in s.entries {
      var t :| t in Workers(s, k);
    }
  }

  /** No wake-up is lost: a waiting thread can take the lock as soon as nobody holds its key. */
  lemma WaiterCanProceed(ops: seq<Op>, s: Locks, t: nat)
    requires Run(ops, s) && t in s.threads && s.threads[t].Waiting?
    requires forall u :: u in s.threads && s.threads[u].Holding? ==> s.threads[u].key != s.threads[t].key
    ensures Enabled(s, Acquire(t))
  {
    RunInv(ops, s);
  }
}
