/** Where the two controllers meet: what the scanner persists is what the executor relies on. */
module Protocol {
  import opened Types
  import Incidents
  import Diagnosis
  import Executor
  import CycleFacts
  import Coverage

  /** Every result of a diagnosis makes a write that the executor's guarantees allow for: it recommends
      only actions built for the policy revision it names, and nothing when it is incomplete. */
  lemma DiagnosisFeedsExecutor(cfg: Executor.Config, k: Diagnosis.Case, observed: Coverage.Observation,
                               result: Incidents.Result, now: int)
    requires Diagnosis.Grounded(k, now, result)
    requires k.codec.hash == cfg.hash && observed.policy == k.policy
    ensures var d := CycleFacts.Diagnosed(observed, result, now);
            && Executor.ScannerWrite(cfg, Incidents.Persist(d.Ref(), observed.meta.deletion, result, now), k.policy)
            && CycleFacts.Honest(result)
  {
    hide Incidents.NewAction;
    forall a | a in result.actions
      ensures a == Incidents.NewAction(cfg.hash, k.policy, a.typ, a.target, a.finalizer, a.preRv, a.reason)
    {
      assert Diagnosis.Sound(k, a);
    }
  }
}
