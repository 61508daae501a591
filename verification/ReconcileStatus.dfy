/** The status that a Reconcile call builds up before it is saved. */
module ReconcileStatus {
  import opened Kube
  import opened Protocol

  /** An error after which a retry is pointless until something changes. */
  predicate Terminal(cause: Cause) {
    !cause.GetError?
  }

  class Status {
    var observedGeneration: nat
    var conditions: seq<Condition>

    constructor (s: ExportStatus)
      ensures observedGeneration == s.observedGeneration && conditions == s.conditions
    {
      observedGeneration, conditions := s.observedGeneration, s.conditions;
    }

    method RemoveAllConditions()
      modifies this`conditions
      ensures conditions == []
    {
      conditions := [];
    }

    /** The generation is current and the only condition is the new one, whatever was there. */
    method SetReconciling(generation: nat)
      modifies this
      ensures observedGeneration == generation && conditions == [Reconciling]
    {
      observedGeneration := generation;
      RemoveAllConditions();
      conditions := conditions + [Reconciling];
    }

    method SetReconcileCompleted(cause: Option<Cause>)
      modifies this`conditions
      ensures conditions == [if cause.Some? then ReconcileFailed(cause.value) else ReconcileSucceeded]
    {
      RemoveAllConditions();
      if cause.Some? {
        conditions := conditions + [ReconcileFailed(cause.value)];
      } else {
        conditions := conditions + [ReconcileSucceeded];
      }
    }

    /** Every error is recorded; only one that is not terminal goes back to the queue. */
    method WithReconcileCompleted(cause: Option<Cause>) returns (requeue: Option<Cause>)
      modifies this`conditions
      ensures conditions == [if cause.Some? then ReconcileFailed(cause.value) else ReconcileSucceeded]
      ensures requeue == if cause.Some? && !Terminal(cause.value) then cause else None
    {
      SetReconcileCompleted(cause);
      if cause.Some? && Terminal(cause.value) {
        return None;
      }
      return cause;
    }
  }
}
