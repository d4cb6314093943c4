/**
 * The output map a boundary event builds on completion when its node has
 * output data associations.
 */
module OutputData {
  import opened NodeInstances

  /** The objects the map can hold. */
  datatype Value =
    | EventValue(p: Payload)
    | NodeValue(host: Option<NodeInst>)
    | SignalValue(signalType: string)
    | WorkItemValue(workItem: WorkItemRef)

  const NodeInstanceKey: string := "nodeInstance"
  const SignalKey: string := "signal"
  const EventKey: string := "event"
  const WorkItemKey: string := "workItem"

  /** The host found is a work-item node instance. */
  predicate IsWorkItemHost(host: Option<NodeInst>)
  {
    host.Some? && host.value.kind.WorkItemNode?
  }

  /**
   * `m` is the output map for the given first source name, host, signal type
   * and event: exactly the keys put, with the value of the last put under each
   * key. The first source name is put first, so any of the normalized keys
   * replaces it; "workItem" is put only for a work-item host.
   */
  ghost predicate IsOutputData(m: map<string, Value>, firstSource: string, host: Option<NodeInst>, signalType: string, event: Payload)
  {
    && m.Keys == {firstSource, NodeInstanceKey, SignalKey, EventKey} + (if IsWorkItemHost(host) then {WorkItemKey} else {})
    && m[NodeInstanceKey] == NodeValue(host)
    && m[SignalKey] == SignalValue(signalType)
    && m[EventKey] == EventValue(event)
    && (IsWorkItemHost(host) ==> m[WorkItemKey] == WorkItemValue(host.value.kind.workItem))
    && (firstSource !in {NodeInstanceKey, SignalKey, EventKey, WorkItemKey} ==> m[firstSource] == EventValue(event))
    && (firstSource == WorkItemKey && !IsWorkItemHost(host) ==> m[WorkItemKey] == EventValue(event))
  }

  /**
   * Builds the map by putting, in order, the first source name of the first
   * association, "nodeInstance", "signal", "event", and "workItem" when the
   * host is a work-item node instance.
   */
  method BuildOutputData(firstSource: string, host: Option<NodeInst>, signalType: string, event: Payload)
    returns (m: map<string, Value>)
    ensures IsOutputData(m, firstSource, host, signalType, event)
  {
    m := map[];
    m := m[firstSource := EventValue(event)];
    m := m[NodeInstanceKey := NodeValue(host)];
    m := m[SignalKey := SignalValue(signalType)];
    m := m[EventKey := EventValue(event)];
    if IsWorkItemHost(host) {
      m := m[WorkItemKey := WorkItemValue(host.value.kind.workItem)];
    }
  }
}
