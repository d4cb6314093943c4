# Boundary event node instance

A Dafny model of the boundary event node instance of the jBPM workflow engine
(`BoundaryEventNodeInstance`). A boundary event is attached to a host node.
When a signal reaches the boundary event's instance, the instance searches its
container's tree of node instances for an active instance of the host. It then
either hands the signal on to the event node's own handling or cancels itself.
On completion it builds an output map for the output data associations. On
cancellation it deregisters its listener and leaves its container.

Modules, one file each:

- `NodeInstances` (`node_instances.dfy`): the tree of node instances. A node
  instance has a long id, an optional `UniqueId`, and a kind: plain, composite
  with children, or work item. `Preorder` lists a forest depth-first in
  pre-order. `InForest` is an independent membership definition at any depth.
- `HostSearch` (`host_search.dfy`): the host test `IsHost`, the reference
  search `AttachedToNodeActive` (the first host in pre-order), and the method
  `GetAttachedToNodeActive`. That method is the source's loop with early return
  and recursion into composites, proved equal to the reference.
- `SignalDecision` (`signal_decision.dfy`): `SignalAction`, the
  compensation-versus-interrupt rule of `signalEvent`, and its
  characterisations.
- `OutputData` (`output_data.dfy`): the output map and its sequential puts.
- `Removal` (`removal.dfy`): `List.remove(Object)` as `RemoveFirst`, and
  deregistration from the listener registry.
- `BoundaryEvent` (`boundary_event.dfy`): the classes `ProcessInstance`,
  `NodeInstanceContainer` and `BoundaryEventNodeInstance`, with the methods
  `SignalEvent`, `TriggerCompleted` and `Cancel`.
- `Scenarios` (`scenarios.dfy`): concrete searches and decisions.

For a signal type starting with `Timer-`, the event is compared with the id of
the candidate host instance (line 107), not with the boundary event instance's
own id.

## Model

| member | source | states |
|---|---|---|
| HostSearch.FirstMatch | jbpm-flow/src/main/java/org/jbpm/workflow/instance/node/BoundaryEventNodeInstance.java:101-119 | The result is None exactly when no candidate passes the host test. Otherwise it is a host that occurs in the listing, and no earlier candidate is a host. |
| HostSearch.GetAttachedToNodeActive | jbpm-flow/src/main/java/org/jbpm/workflow/instance/node/BoundaryEventNodeInstance.java:99-123 | The loop over instances with early return and recursion into composites returns exactly the first host in depth-first pre-order, or None. |
| HostSearch.IsAttachedToNodeActive | jbpm-flow/src/main/java/org/jbpm/workflow/instance/node/BoundaryEventNodeInstance.java:93-95 | True exactly when some instance of the forest, at any depth, is a host. |
| HostSearch.SearchSiblings | jbpm-flow/src/main/java/org/jbpm/workflow/instance/node/BoundaryEventNodeInstance.java:101-120 | Siblings are searched in order: a later sibling's subtree is consulted only when everything before it, nested instances included, holds no host. |
| HostSearch.SearchOne | jbpm-flow/src/main/java/org/jbpm/workflow/instance/node/BoundaryEventNodeInstance.java:102-119 | An instance is tested before the search descends into it. Only a composite instance is descended into. |
| HostSearch.SearchSound | jbpm-flow/src/main/java/org/jbpm/workflow/instance/node/BoundaryEventNodeInstance.java:104-111 | A found instance has UniqueId equal to attachedTo, that id is not activating, a timer event names its id, and it occurs in the forest. |
| HostSearch.SearchComplete | jbpm-flow/src/main/java/org/jbpm/workflow/instance/node/BoundaryEventNodeInstance.java:99-123 | The search finds something exactly when some instance at any depth passes the host test. It returns null only when none does. |
| HostSearch.ActivatingHostNotFound | jbpm-flow/src/main/java/org/jbpm/workflow/instance/node/BoundaryEventNodeInstance.java:103-104 | When the host's UniqueId is among the activating node ids, nothing is found. |
| HostSearch.TimerCorrelation | jbpm-flow/src/main/java/org/jbpm/workflow/instance/node/BoundaryEventNodeInstance.java:106-109 | For a `Timer-` signal, something is found exactly when an instance with the host's UniqueId, not activating, has the id the event carries as a Long. An event that is not a Long finds nothing. |
| NodeInstances.PreorderMembers | jbpm-flow/src/main/java/org/jbpm/workflow/instance/node/BoundaryEventNodeInstance.java:114-118 | The pre-order listing the search walks holds exactly the instances of the forest, including those inside nested composites. |
| SignalDecision.SignalAction | jbpm-flow/src/main/java/org/jbpm/workflow/instance/node/BoundaryEventNodeInstance.java:45-59 | A `Compensation` signal fires exactly when no instance at any depth is an active host and attachedTo is a completed node id. Any other signal fires exactly when some instance is an active host. In every other case the boundary event cancels. |
| BoundaryEvent.BoundaryEventNodeInstance.IsAttachedToNodeCompleted | jbpm-flow/src/main/java/org/jbpm/workflow/instance/node/BoundaryEventNodeInstance.java:125-128 | True exactly when attachedTo is among the process instance's completed node ids. When no instance is an active host, it alone decides whether a compensation signal fires. |
| SignalDecision.CompensationExcludesInterrupt | jbpm-flow/src/main/java/org/jbpm/workflow/instance/node/BoundaryEventNodeInstance.java:45-59 | In the same state, a compensation signal and any other signal for the same host, a timer firing included, never both fire. |
| SignalDecision.ActivatingHostCancelsInterrupt | jbpm-flow/src/main/java/org/jbpm/workflow/instance/node/BoundaryEventNodeInstance.java:53-59 | While the host's UniqueId is activating, a non-compensation signal always cancels. |
| SignalDecision.TimerFiresOnlyForItsInstance | jbpm-flow/src/main/java/org/jbpm/workflow/instance/node/BoundaryEventNodeInstance.java:106-109 | A `Timer-` signal fires exactly when an instance of the host, not activating, has the id the event carries. |
| OutputData.BuildOutputData | jbpm-flow/src/main/java/org/jbpm/workflow/instance/node/BoundaryEventNodeInstance.java:76-85 | The map holds exactly the first source name, `nodeInstance`, `signal`, `event`, and `workItem` only for a work-item host. Each key holds the value of its last put, so the normalized keys replace the first source name on collision. |
| BoundaryEvent.BoundaryEventNodeInstance.SignalEvent | jbpm-flow/src/main/java/org/jbpm/workflow/instance/node/BoundaryEventNodeInstance.java:40-60 | The branch taken is `SignalAction`. Firing logs one base signal and changes nothing else. Cancelling applies exactly the two removals of `Cancel` and logs no signal. |
| BoundaryEvent.BoundaryEventNodeInstance.TriggerCompleted | jbpm-flow/src/main/java/org/jbpm/workflow/instance/node/BoundaryEventNodeInstance.java:68-91 | Without associations, no map is built and the base completion runs once. With associations, one map satisfying `IsOutputData` for the host found now is handed on, then completion runs. An empty source list of the first association fails before any effect. |
| BoundaryEvent.BoundaryEventNodeInstance.Cancel | jbpm-flow/src/main/java/org/jbpm/workflow/instance/node/BoundaryEventNodeInstance.java:131-134 | The listener is deregistered for the event type and the instance is removed from its container. Nothing else changes. If each occurred at most once, the instance is left detached. |
| BoundaryEvent.CancelIdempotent | jbpm-flow/src/main/java/org/jbpm/workflow/instance/node/BoundaryEventNodeInstance.java:131-134 | If the listener and the instance each occur at most once, two cancels leave the same registry and container as one. |
| Removal.RemoveFirst | jbpm-flow/src/main/java/org/jbpm/workflow/instance/node/BoundaryEventNodeInstance.java:133 | Removing an instance from the container's list takes away its first occurrence, if there is one, and keeps the other elements in order. It leaves the list unchanged otherwise. |
| Removal.RemoveListener | jbpm-flow/src/main/java/org/jbpm/workflow/instance/node/BoundaryEventNodeInstance.java:132 | Deregistration changes only the entry of the event type. That entry loses the listener's first registration, and the entry is dropped once empty. |
| Removal.RemoveFirstIdempotent | jbpm-flow/src/main/java/org/jbpm/workflow/instance/node/BoundaryEventNodeInstance.java:133 | Removing an element that occurs at most once, twice, equals removing it once. |
| Removal.RemoveListenerIdempotent | jbpm-flow/src/main/java/org/jbpm/workflow/instance/node/BoundaryEventNodeInstance.java:132 | Deregistering a listener registered at most once, twice, equals deregistering it once. |
| Scenarios.NestedHostFound | jbpm-flow/src/main/java/org/jbpm/workflow/instance/node/BoundaryEventNodeInstance.java:114-118 | A host three composite levels deep, after a non-matching sibling, is found, and an interrupting signal fires. |
| Scenarios.TimerPicksItsInstance | jbpm-flow/src/main/java/org/jbpm/workflow/instance/node/BoundaryEventNodeInstance.java:106-109 | With two instances of the same host node, `Timer-123` carrying 123 finds the instance with id 123. Without a Long event it cancels. |
| Scenarios.CompensationWhileHostActiveCancels | jbpm-flow/src/main/java/org/jbpm/workflow/instance/node/BoundaryEventNodeInstance.java:45-52 | A compensation signal cancels while the host is active, even though its node id is completed. |

## Left out

- A null signal type is not modelled; the signal type is a non-null string. In the code, a null type takes the non-compensation branch. Line 106 throws once a candidate has the right UniqueId and that id is not activating (line 104). With no such candidate, the search returns null and the boundary event cancels.
- A null instance collection is modelled as an empty one; the code treats both the same way (line 100).
- A null `attachedTo` and null `UniqueId` metadata: `attachedTo` is a non-null string. A missing `UniqueId` is `None`, which never matches.
- Java boxing in `Long.valueOf(id).equals(event)`: the event is a `Payload`, and only `LongPayload(n)` with `n` equal to the id matches. The 64-bit width of ids plays no role in an equality test, so ids are unbounded integers.
- The event node's own handling is not part of this model. That covers the base `signalEvent`, the base `triggerCompleted` and `mapOutputSetVariables` (which maps output data onto process variables). Calls to them are recorded in the logs `baseSignals`, `outputs` and `completions`.
- `removeEventListener` on the process instance and `removeNodeInstance` on the container are not part of this model. The registry is a map from event type to a list of listeners. Deregistration removes the first registration and drops an emptied entry. The container removes the first occurrence of the instance, as `List.remove(Object)` does. Deregistration from the process-wide signal manager is not modelled.
- The container's list and the registry are matched by value: `RemoveFirst` removes the first entry equal, as a datatype value, to this instance. `List.remove` uses `equals`, which is object identity for node instances. The two agree while node-instance ids are unique within a process instance.
- The `CancelType` argument of `cancel` is ignored by the code and not modelled.
- BoundaryEvent.BoundaryEventNodeInstance.TriggerCompleted: the `IndexOutOfBoundsException` thrown by `getSources().get(0)` on an empty source list is modelled as the status `MissingSource`. Exception propagation to the caller is not modelled.
- The work item object and the node instance referenced from the output map are opaque values.
- Timer scheduling (`TimerService`, `TimerManager`, `TimerJobInstance`) is imported by the file but not used, and asynchronous or concurrent timer delivery is not modelled.
- `serialVersionUID` and `getEventNode` (a cast) carry no behaviour.
- `PersistenceUtil.java` (test-harness setup: database server, JPA, transactions, session construction) is not part of this model.
