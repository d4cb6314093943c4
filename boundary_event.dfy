/**
 * A boundary event node instance: its process instance, its container, and
 * the three operations signalEvent, triggerCompleted and cancel.
 *
 * What the event node's own handling does (the base signalEvent, the base
 * triggerCompleted and the mapping of output data onto variables) is
 * recorded, call by call, in the logs baseSignals, outputs and completions.
 */
module BoundaryEvent {
  import opened NodeInstances
  import opened HostSearch
  import opened SignalDecision
  import opened OutputData
  import opened Removal

  /** Opaque handle on an event listener. */
  type ListenerRef = nat

  /** An output data association: its source names (only the first is read here) and its target. */
  datatype DataAssociation = DataAssociation(sources: seq<string>, target: string)

  /** The boundary event node definition: the UniqueId of its host, its event type, its output associations. */
  datatype BoundaryEventNode = BoundaryEventNode(attachedTo: string, eventType: string, outAssociations: seq<DataAssociation>)

  /** The process instance state a boundary event consults or changes. */
  class ProcessInstance {
    var externalListeners: Registry<ListenerRef>
    var completedNodeIds: set<string>
    var activatingNodeIds: set<string>

    constructor (listeners: Registry<ListenerRef>, completed: set<string>, activating: set<string>)
      ensures externalListeners == listeners && completedNodeIds == completed && activatingNodeIds == activating
    {
      externalListeners := listeners;
      completedNodeIds := completed;
      activatingNodeIds := activating;
    }
  }

  /** The node instance container the boundary event instance lives in. */
  class NodeInstanceContainer {
    var nodeInstances: seq<NodeInst>

    constructor (nodes: seq<NodeInst>)
      ensures nodeInstances == nodes
    {
      nodeInstances := nodes;
    }
  }

  /** triggerCompleted either completes, or fails reading the first source of the first association. */
  datatype CompletionStatus = Completed | MissingSource

  class BoundaryEventNodeInstance {
    /** This instance as it is listed in its container. */
    const instance: NodeInst
    const node: BoundaryEventNode
    /** The listener this instance registered for its event type. */
    const listener: ListenerRef
    const processInstance: ProcessInstance
    const container: NodeInstanceContainer

    /** Signals handed to the event node's own signal handling. */
    var baseSignals: seq<(string, Payload)>
    /** Output maps handed to the mapping of output data onto variables. */
    var outputs: seq<map<string, Value>>
    /** Number of times the event node's own completion ran. */
    var completions: nat

    constructor (instance: NodeInst, node: BoundaryEventNode, listener: ListenerRef,
                 processInstance: ProcessInstance, container: NodeInstanceContainer)
      ensures this.instance == instance && this.node == node && this.listener == listener
      ensures this.processInstance == processInstance && this.container == container
      ensures baseSignals == [] && outputs == [] && completions == 0
    {
      this.instance := instance;
      this.node := node;
      this.listener := listener;
      this.processInstance := processInstance;
      this.container := container;
      baseSignals := [];
      outputs := [];
      completions := 0;
    }

    /** The search this instance runs for a signal of the given type and event. */
    function QueryFor(signalType: string, event: Payload): Query
      reads processInstance
    {
      Query(node.attachedTo, signalType, event, processInstance.activatingNodeIds)
    }

    /**
     * isAttachedToNodeCompleted: the host's UniqueId is among the process
     * instance's completed node ids. When no instance is an active host, this
     * alone decides whether a compensation signal fires.
     */
    predicate IsAttachedToNodeCompleted(): (c: bool)
      reads processInstance, container
      ensures c <==> node.attachedTo in processInstance.completedNodeIds
      ensures forall t, e :: IsCompensation(t) && !HostActive(container.nodeInstances, QueryFor(t, e)) ==>
                (SignalAction(container.nodeInstances, QueryFor(t, e), processInstance.completedNodeIds) == Fire <==> c)
    {
      node.attachedTo in processInstance.completedNodeIds
    }

    /** This instance is registered and listed at most once, so one cancel removes it entirely. */
    ghost predicate AtMostOnce()
      reads this, processInstance, container
    {
      RegisteredAtMostOnce(processInstance.externalListeners, node.eventType, listener)
      && Count(container.nodeInstances, instance) <= 1
    }

    /** This instance is neither registered for its event type nor listed in its container. */
    ghost predicate Detached()
      reads this, processInstance, container
    {
      (node.eventType in processInstance.externalListeners ==> listener !in processInstance.externalListeners[node.eventType])
      && instance !in container.nodeInstances
    }

    /**
     * signalEvent: either hands the signal to the event node's own handling
     * or cancels this instance, never both, as SignalAction decides.
     */
    method SignalEvent(signalType: string, event: Payload) returns (action: Action)
      modifies this`baseSignals, processInstance`externalListeners, container`nodeInstances
      ensures action == SignalAction(old(container.nodeInstances), QueryFor(signalType, event), processInstance.completedNodeIds)
      ensures action == Fire ==>
                && baseSignals == old(baseSignals) + [(signalType, event)]
                && processInstance.externalListeners == old(processInstance.externalListeners)
                && container.nodeInstances == old(container.nodeInstances)
      ensures action == CancelSelf ==>
                && baseSignals == old(baseSignals)
                && processInstance.externalListeners == RemoveListener(old(processInstance.externalListeners), node.eventType, listener)
                && container.nodeInstances == RemoveFirst(old(container.nodeInstances), instance)
    {
      var q := QueryFor(signalType, event);
      var active := IsAttachedToNodeActive(container.nodeInstances, q);
      SearchComplete(container.nodeInstances, q);
      if IsCompensation(signalType) {
        if !active && IsAttachedToNodeCompleted() {
          baseSignals := baseSignals + [(signalType, event)];
          action := Fire;
        } else {
          Cancel();
          action := CancelSelf;
        }
      } else {
        if active {
          baseSignals := baseSignals + [(signalType, event)];
          action := Fire;
        } else {
          Cancel();
          action := CancelSelf;
        }
      }
    }

    /**
     * triggerCompleted: with output associations, builds the output map for
     * the host found now and hands it to the variable mapping; then runs the
     * event node's own completion. Without associations no map is built.
     */
    method TriggerCompleted(signalType: string, event: Payload) returns (status: CompletionStatus)
      modifies this`outputs, this`completions
      ensures status == MissingSource <==> node.outAssociations != [] && node.outAssociations[0].sources == []
      ensures status == MissingSource ==> outputs == old(outputs) && completions == old(completions)
      ensures status == Completed ==> completions == old(completions) + 1
      ensures status == Completed && node.outAssociations == [] ==> outputs == old(outputs)
      ensures status == Completed && node.outAssociations != [] ==>
                && |outputs| == |old(outputs)| + 1
                && outputs[..|old(outputs)|] == old(outputs)
                && IsOutputData(outputs[|old(outputs)|], node.outAssociations[0].sources[0],
                                AttachedToNodeActive(container.nodeInstances, QueryFor(signalType, event)),
                                signalType, event)
    {
      var host := GetAttachedToNodeActive(container.nodeInstances, QueryFor(signalType, event));
      var associations := node.outAssociations;
      if associations != [] {
        if associations[0].sources == [] {
          return MissingSource;
        }
        var data := BuildOutputData(associations[0].sources[0], host, signalType, event);
        outputs := outputs + [data];
      }
      completions := completions + 1;
      status := Completed;
    }

    /**
     * cancel: removes this instance's listener for its event type from the
     * process instance's registry and this instance from its container.
     * Nothing else changes; from a state where both occur at most once it
     * leaves the instance detached, so a second cancel changes nothing.
     */
    method Cancel()
      modifies processInstance`externalListeners, container`nodeInstances
      ensures processInstance.externalListeners == RemoveListener(old(processInstance.externalListeners), node.eventType, listener)
      ensures container.nodeInstances == RemoveFirst(old(container.nodeInstances), instance)
      ensures old(AtMostOnce()) ==> Detached()
    {
      processInstance.externalListeners := RemoveListener(processInstance.externalListeners, node.eventType, listener);
      container.nodeInstances := RemoveFirst(container.nodeInstances, instance);
    }
  }

  /** Cancelling twice, from a state where the instance occurs at most once, leaves the state of cancelling once. */
  lemma {:induction false} CancelIdempotent(reg: Registry<ListenerRef>, eventType: string, l: ListenerRef,
                                            nodes: seq<NodeInst>, self: NodeInst)
    requires RegisteredAtMostOnce(reg, eventType, l) && Count(nodes, self) <= 1
    ensures RemoveListener(RemoveListener(reg, eventType, l), eventType, l) == RemoveListener(reg, eventType, l)
    ensures RemoveFirst(RemoveFirst(nodes, self), self) == RemoveFirst(nodes, self)
  {
    RemoveListenerIdempotent(reg, eventType, l);
    RemoveFirstIdempotent(nodes, self);
  }
}
