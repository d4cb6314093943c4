/**
 * The fire-or-cancel rule of signalEvent: a compensation signal needs a host
 * that is no longer active and has completed; every other signal needs an
 * active host.
 */
module SignalDecision {
  import opened NodeInstances
  import opened HostSearch

  /** Fire: hand the signal to the event node's own handling. CancelSelf: cancel the boundary event. */
  datatype Action = Fire | CancelSelf

  /** Signal types of compensation requests start with this prefix. */
  const CompensationPrefix: string := "Compensation"

  predicate IsCompensation(signalType: string)
  {
    StartsWith(signalType, CompensationPrefix)
  }

  /**
   * The branch signalEvent takes, given the signal, the instances of the
   * boundary event's container, and the process instance's completed node
   * ids: a compensation signal fires exactly when no instance is an active
   * host and the host's node has completed; any other signal fires exactly
   * when some instance is an active host. Otherwise the boundary event cancels.
   */
  function SignalAction(nodes: seq<NodeInst>, q: Query, completed: set<string>): (a: Action)
    ensures IsCompensation(q.signalType) ==> (a == Fire <==> !HostActive(nodes, q) && q.attachedTo in completed)
    ensures !IsCompensation(q.signalType) ==> (a == Fire <==> HostActive(nodes, q))
  {
    SearchComplete(nodes, q);
    var hostActive := AttachedToNodeActive(nodes, q).Some?;
    var hostCompleted := q.attachedTo in completed;
    if IsCompensation(q.signalType) then
      if !hostActive && hostCompleted then Fire else CancelSelf
    else
      if hostActive then Fire else CancelSelf
  }

  /**
   * A compensation signal and an interrupting signal (a timer firing included)
   * for the same host never both fire against the same state: one needs the
   * host active, the other needs it inactive.
   */
  lemma {:induction false} CompensationExcludesInterrupt(nodes: seq<NodeInst>, qc: Query, qi: Query, completed: set<string>)
    requires IsCompensation(qc.signalType) && !IsCompensation(qi.signalType)
    requires qc.attachedTo == qi.attachedTo && qc.activating == qi.activating
    ensures !(SignalAction(nodes, qc, completed) == Fire && SignalAction(nodes, qi, completed) == Fire)
  {
    assert !IsTimerSignal(qc.signalType) by {
      assert qc.signalType[0] == 'C';
    }
    if HostActive(nodes, qi) {
      var x :| InForest(x, nodes) && IsHost(x, qi);
      assert IsHost(x, qc);
    }
  }

  /** While the host's UniqueId is activating, an interrupting signal always cancels. */
  lemma {:induction false} ActivatingHostCancelsInterrupt(nodes: seq<NodeInst>, q: Query, completed: set<string>)
    requires q.attachedTo in q.activating && !IsCompensation(q.signalType)
    ensures SignalAction(nodes, q, completed) == CancelSelf
  {
    ActivatingHostNotFound(nodes, q);
  }

  /**
   * A timer firing fires only when the forest holds an instance with the
   * host's UniqueId whose id the event names.
   */
  lemma {:induction false} TimerFiresOnlyForItsInstance(nodes: seq<NodeInst>, q: Query, completed: set<string>)
    requires IsTimerSignal(q.signalType)
    ensures SignalAction(nodes, q, completed) == Fire <==>
            exists x :: InForest(x, nodes) && x.uniqueId == Some(q.attachedTo) && q.attachedTo !in q.activating
                        && q.event == LongPayload(x.id)
  {
    assert !IsCompensation(q.signalType) by {
      assert q.signalType[0] == 'T';
    }
    TimerCorrelation(nodes, q);
  }
}
