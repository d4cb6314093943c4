/**
 * The tree of node instances a boundary event searches for its host.
 *
 * A node instance carries its long id, the "UniqueId" metadata of its node
 * definition (absent when the definition has none) and its kind. Composite
 * node instances hold child node instances of their own; work-item node
 * instances carry a work item.
 */
module NodeInstances {

  datatype Option<+T> = None | Some(value: T)

  /** The event object delivered with a signal: a java.lang.Long, null, or any other object. */
  datatype Payload = LongPayload(n: int) | NullPayload | OtherPayload(tag: nat)

  /** Opaque handle on the work item of a work-item node instance. */
  type WorkItemRef = nat

  datatype NodeKind =
    | Plain
    | Composite(children: seq<NodeInst>)
    | WorkItemNode(workItem: WorkItemRef)

  datatype NodeInst = NodeInst(id: int, uniqueId: Option<string>, kind: NodeKind)

  /** The instances below `n`: its children's subtrees when it is composite, nothing otherwise. */
  function Descendants(n: NodeInst): seq<NodeInst>
    decreases n, 0
  {
    if n.kind.Composite? then Preorder(n.kind.children) else []
  }

  /**
   * Depth-first pre-order listing of a forest: each instance comes before the
   * instances below it, and its whole subtree before its next sibling.
   */
  function Preorder(ns: seq<NodeInst>): seq<NodeInst>
    decreases ns, 1
  {
    if ns == [] then [] else [ns[0]] + Descendants(ns[0]) + Preorder(ns[1..])
  }

  /** `x` is `n` itself or occurs below it. */
  ghost predicate InSubtree(x: NodeInst, n: NodeInst)
    decreases n, 0
  {
    n == x || (n.kind.Composite? && InForest(x, n.kind.children))
  }

  /** `x` occurs somewhere in the forest `ns`, at any depth of composite nesting. */
  ghost predicate InForest(x: NodeInst, ns: seq<NodeInst>)
    decreases ns, 1
  {
    exists i :: 0 <= i < |ns| && InSubtree(x, ns[i])
  }

  /** Listing a concatenation of forests lists each forest in turn. */
  lemma {:induction false} PreorderAppend(a: seq<NodeInst>, b: seq<NodeInst>)
    ensures Preorder(a + b) == Preorder(a) + Preorder(b)
    decreases a
  {
    if a == [] {
      assert a + b == b;
    } else {
      assert (a + b)[0] == a[0];
      assert (a + b)[1..] == a[1..] + b;
      PreorderAppend(a[1..], b);
    }
  }

  /** The instances listed below `n` are exactly those that occur below it. */
  lemma {:induction false} DescendantsMembers(x: NodeInst, n: NodeInst)
    ensures x in Descendants(n) <==> n.kind.Composite? && InForest(x, n.kind.children)
    decreases n, 0
  {
    if n.kind.Composite? {
      PreorderMembers(x, n.kind.children);
    }
  }

  /** The pre-order listing holds exactly the instances of the forest, nested ones included. */
  lemma {:induction false} PreorderMembers(x: NodeInst, ns: seq<NodeInst>)
    ensures x in Preorder(ns) <==> InForest(x, ns)
    decreases ns, 1
  {
    if ns != [] {
      var n := ns[0];
      var rest := Preorder(ns[1..]);
      assert Preorder(ns) == [n] + Descendants(n) + rest;
      PreorderMembers(x, ns[1..]);
      DescendantsMembers(x, n);
      if x in Preorder(ns) {
        if x == n || x in Descendants(n) {
          assert InSubtree(x, ns[0]);
        } else {
          assert x in rest;
          var j :| 0 <= j < |ns[1..]| && InSubtree(x, ns[1..][j]);
          assert ns[j + 1] == ns[1..][j];
        }
      } else {
        forall i | 0 <= i < |ns|
          ensures !InSubtree(x, ns[i])
        {
          if i > 0 {
            assert ns[i] == ns[1..][i - 1];
          }
        }
      }
    }
  }
}
