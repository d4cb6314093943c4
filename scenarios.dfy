/**
 * Concrete situations of the host search and of the fire-or-cancel rule.
 */
module Scenarios {
  import opened NodeInstances
  import opened HostSearch
  import opened SignalDecision

  /** The host "N1", three composite levels deep, after a sibling that does not match. */
  function NestedForest(): seq<NodeInst>
  {
    var host := NodeInst(4, Some("N1"), Plain);
    var level3 := NodeInst(3, Some("C3"), Composite([host]));
    var level2 := NodeInst(2, Some("C2"), Composite([level3]));
    var level1 := NodeInst(1, Some("C1"), Composite([level2]));
    [NodeInst(0, Some("S"), Plain), level1]
  }

  /** A host nested three composite levels deep is found, and an interrupting signal then fires. */
  lemma NestedHostFound()
    ensures AttachedToNodeActive(NestedForest(), Query("N1", "Error1", NullPayload, {})) == Some(NodeInst(4, Some("N1"), Plain))
    ensures SignalAction(NestedForest(), Query("N1", "Error1", NullPayload, {}), {}) == Fire
  {
    var q := Query("N1", "Error1", NullPayload, {});
    var host := NodeInst(4, Some("N1"), Plain);
    var level3 := NodeInst(3, Some("C3"), Composite([host]));
    var level2 := NodeInst(2, Some("C2"), Composite([level3]));
    var level1 := NodeInst(1, Some("C1"), Composite([level2]));
    var plain := NodeInst(0, Some("S"), Plain);
    assert !IsTimerSignal("Error1") by { assert "Error1"[0] != 'T'; }
    assert !IsCompensation("Error1") by { assert "Error1"[0] != 'C'; }
    SearchOne(host, q);
    SearchOne(level3, q);
    SearchOne(level2, q);
    SearchOne(level1, q);
    SearchOne(plain, q);
    SearchSiblings([plain], [level1], q);
    assert [plain] + [level1] == NestedForest();
  }

  /** Two instances of the same host node, ids 7 and 123. */
  function TwinHosts(): seq<NodeInst>
  {
    [NodeInst(7, Some("N1"), Plain), NodeInst(123, Some("N1"), Plain)]
  }

  /**
   * A firing of "Timer-123" carrying 123 finds the instance with id 123, not
   * its earlier sibling of the same node; carrying no Long it finds nothing,
   * and the boundary event cancels.
   */
  lemma TimerPicksItsInstance()
    ensures AttachedToNodeActive(TwinHosts(), Query("N1", "Timer-123", LongPayload(123), {})) == Some(NodeInst(123, Some("N1"), Plain))
    ensures SignalAction(TwinHosts(), Query("N1", "Timer-123", NullPayload, {}), {}) == CancelSelf
  {
    var q := Query("N1", "Timer-123", LongPayload(123), {});
    var a := NodeInst(7, Some("N1"), Plain);
    var b := NodeInst(123, Some("N1"), Plain);
    assert IsTimerSignal("Timer-123") by { assert "Timer-123"[..6] == "Timer-"; }
    SearchOne(a, q);
    SearchOne(b, q);
    SearchSiblings([a], [b], q);
    assert [a] + [b] == TwinHosts();
    TimerFiresOnlyForItsInstance(TwinHosts(), Query("N1", "Timer-123", NullPayload, {}), {});
  }

  /** While the host is active, a compensation signal cancels even when the host's node has completed before. */
  lemma CompensationWhileHostActiveCancels()
    ensures SignalAction(TwinHosts(), Query("N1", "Compensation", NullPayload, {}), {"N1"}) == CancelSelf
  {
    var q := Query("N1", "Compensation", NullPayload, {});
    assert IsCompensation("Compensation");
    assert !IsTimerSignal("Compensation") by { assert "Compensation"[0] != 'T'; }
    var a := NodeInst(7, Some("N1"), Plain);
    assert InForest(a, TwinHosts()) by { assert InSubtree(a, TwinHosts()[0]); }
  }
}
