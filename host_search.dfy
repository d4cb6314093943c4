/**
 * The search of a boundary event for its host node instance
 * (getAttachedToNodeActive in BoundaryEventNodeInstance).
 */
module HostSearch {
  import opened NodeInstances

  predicate StartsWith(s: string, prefix: string)
  {
    |prefix| <= |s| && s[..|prefix|] == prefix
  }

  /** Signal types of timer firings start with this prefix. */
  const TimerPrefix: string := "Timer-"

  predicate IsTimerSignal(signalType: string)
  {
    StartsWith(signalType, TimerPrefix)
  }

  /**
   * What the search is asked: the UniqueId of the host node, the signal type,
   * the event object, and the UniqueIds of the process instance's nodes that
   * are still activating.
   */
  datatype Query = Query(attachedTo: string, signalType: string, event: Payload, activating: set<string>)

  /**
   * A candidate is the host when its UniqueId is the attached-to id, that id is
   * not activating, and, for a timer firing, the event is the candidate's own
   * id as a Long.
   */
  predicate IsHost(n: NodeInst, q: Query)
  {
    n.uniqueId == Some(q.attachedTo) && q.attachedTo !in q.activating
    && (IsTimerSignal(q.signalType) ==> q.event == LongPayload(n.id))
  }

  /** The first host in a listing of candidates, or None when there is none. */
  function FirstMatch(s: seq<NodeInst>, q: Query): (r: Option<NodeInst>)
    ensures r.None? <==> forall i :: 0 <= i < |s| ==> !IsHost(s[i], q)
    ensures r.Some? ==> IsHost(r.value, q)
    ensures r.Some? ==> exists k :: 0 <= k < |s| && s[k] == r.value && forall j :: 0 <= j < k ==> !IsHost(s[j], q)
  {
    if s == [] then None
    else if IsHost(s[0], q) then Some(s[0])
    else
      var r := FirstMatch(s[1..], q);
      assert forall i :: 1 <= i < |s| ==> s[i] == s[1..][i - 1];
      r
  }

  /** The host the search finds: the first host in depth-first pre-order. */
  function AttachedToNodeActive(nodes: seq<NodeInst>, q: Query): Option<NodeInst>
  {
    FirstMatch(Preorder(nodes), q)
  }

  lemma {:induction false} FirstMatchAppend(a: seq<NodeInst>, b: seq<NodeInst>, q: Query)
    ensures FirstMatch(a + b, q) == if FirstMatch(a, q).Some? then FirstMatch(a, q) else FirstMatch(b, q)
    decreases a
  {
    if a != [] {
      assert (a + b)[0] == a[0];
      assert (a + b)[1..] == a[1..] + b;
      FirstMatchAppend(a[1..], b, q);
    } else {
      assert a + b == b;
    }
  }

  /**
   * The siblings of a forest are searched in order: a later sibling is
   * consulted only when everything before it, nested instances included,
   * holds no host.
   */
  lemma {:induction false} SearchSiblings(a: seq<NodeInst>, b: seq<NodeInst>, q: Query)
    ensures AttachedToNodeActive(a + b, q) ==
            if AttachedToNodeActive(a, q).Some? then AttachedToNodeActive(a, q) else AttachedToNodeActive(b, q)
  {
    PreorderAppend(a, b);
    FirstMatchAppend(Preorder(a), Preorder(b), q);
  }

  /**
   * One instance is tested itself before the search descends into it, and
   * only a composite instance is descended into.
   */
  lemma {:induction false} SearchOne(n: NodeInst, q: Query)
    ensures AttachedToNodeActive([n], q) ==
            if IsHost(n, q) then Some(n)
            else if n.kind.Composite? then AttachedToNodeActive(n.kind.children, q)
            else None
  {
    assert [n][1..] == [];
    assert Preorder([n]) == [n] + Descendants(n) + [];
    FirstMatchAppend([n], Descendants(n), q);
    assert [n] + Descendants(n) + [] == [n] + Descendants(n);
  }

  /** The search only ever returns a host that occurs in the forest. */
  lemma {:induction false} SearchSound(nodes: seq<NodeInst>, q: Query)
    ensures AttachedToNodeActive(nodes, q).Some? ==>
            IsHost(AttachedToNodeActive(nodes, q).value, q) && InForest(AttachedToNodeActive(nodes, q).value, nodes)
  {
    var r := AttachedToNodeActive(nodes, q);
    if r.Some? {
      PreorderMembers(r.value, nodes);
    }
  }

  /** The host is active: some instance of the forest, at any depth, passes the host test. */
  ghost predicate HostActive(nodes: seq<NodeInst>, q: Query)
  {
    exists x :: InForest(x, nodes) && IsHost(x, q)
  }

  /** The search finds something exactly when some instance of the forest, at any depth, is a host. */
  lemma {:induction false} SearchComplete(nodes: seq<NodeInst>, q: Query)
    ensures AttachedToNodeActive(nodes, q).Some? <==> HostActive(nodes, q)
  {
    var p := Preorder(nodes);
    if AttachedToNodeActive(nodes, q).Some? {
      SearchSound(nodes, q);
    } else {
      forall x | InForest(x, nodes)
        ensures !IsHost(x, q)
      {
        PreorderMembers(x, nodes);
        var i :| 0 <= i < |p| && p[i] == x;
      }
    }
  }

  /** A host whose UniqueId is still activating is never found. */
  lemma {:induction false} ActivatingHostNotFound(nodes: seq<NodeInst>, q: Query)
    requires q.attachedTo in q.activating
    ensures AttachedToNodeActive(nodes, q) == None
  {
    var p := Preorder(nodes);
    assert forall i :: 0 <= i < |p| ==> !IsHost(p[i], q);
  }

  /**
   * For a timer firing, the instance found carries the host's UniqueId and
   * has the id the timer's event names.
   */
  lemma {:induction false} TimerCorrelation(nodes: seq<NodeInst>, q: Query)
    requires IsTimerSignal(q.signalType)
    ensures AttachedToNodeActive(nodes, q).Some? <==>
            exists x :: InForest(x, nodes) && x.uniqueId == Some(q.attachedTo) && q.attachedTo !in q.activating
                        && q.event == LongPayload(x.id)
    ensures !q.event.LongPayload? ==> AttachedToNodeActive(nodes, q) == None
  {
    SearchComplete(nodes, q);
  }

  /**
   * getAttachedToNodeActive: a loop over the instances in registration order
   * that returns the first host, descending into each composite instance
   * after testing it.
   */
  method GetAttachedToNodeActive(nodes: seq<NodeInst>, q: Query) returns (r: Option<NodeInst>)
    ensures r == AttachedToNodeActive(nodes, q)
    decreases |Preorder(nodes)|
  {
    var i := 0;
    while i < |nodes|
      invariant 0 <= i <= |nodes|
      invariant AttachedToNodeActive(nodes[..i], q) == None
    {
      var n := nodes[i];
      SearchSiblings(nodes[..i], nodes[i..], q);
      SearchSiblings([n], nodes[i + 1..], q);
      SearchSiblings(nodes[..i], [n], q);
      SearchOne(n, q);
      assert nodes[..i] + nodes[i..] == nodes;
      assert nodes[i..] == [n] + nodes[i + 1..];
      assert nodes[..i + 1] == nodes[..i] + [n];
      if n.uniqueId == Some(q.attachedTo) && q.attachedTo !in q.activating {
        if StartsWith(q.signalType, TimerPrefix) {
          if q.event == LongPayload(n.id) {
            return Some(n);
          }
        } else {
          return Some(n);
        }
      }
      if n.kind.Composite? {
        PreorderAppend(nodes[..i], nodes[i..]);
        assert nodes[i..][0] == n && nodes[i..][1..] == nodes[i + 1..];
        assert |Preorder(n.kind.children)| < |Preorder(nodes)|;
        var found := GetAttachedToNodeActive(n.kind.children, q);
        if found.Some? {
          return found;
        }
      }
      i := i + 1;
    }
    assert nodes[..i] == nodes;
    return None;
  }

  /** isAttachedToNodeActive: whether the search finds a host at all. */
  method IsAttachedToNodeActive(nodes: seq<NodeInst>, q: Query) returns (active: bool)
    ensures active <==> HostActive(nodes, q)
  {
    var host := GetAttachedToNodeActive(nodes, q);
    SearchComplete(nodes, q);
    active := host.Some?;
  }
}
