/**
 * The two removals of cancel: an element out of a list, as
 * java.util.List.remove(Object) does it, and a listener out of the process
 * instance's registry of external event listeners.
 */
module Removal {

  /** The number of occurrences of `x` in `s`. */
  function Count<T(==)>(s: seq<T>, x: T): nat
  {
    multiset(s)[x]
  }

  /** The index of the first occurrence of `x` in `s`. */
  function IndexOf<T(==)>(s: seq<T>, x: T): (k: nat)
    requires x in s
    ensures k < |s| && s[k] == x && x !in s[..k]
  {
    if s[0] == x then 0
    else
      var k := IndexOf(s[1..], x);
      assert s[..k + 1] == [s[0]] + s[1..][..k];
      k + 1
  }

  /** `s` without its first occurrence of `x`, the rest in order; `s` itself when `x` does not occur. */
  function RemoveFirst<T(==)>(s: seq<T>, x: T): (r: seq<T>)
    ensures x !in s ==> r == s
    ensures x in s ==> exists k :: 0 <= k < |s| && s[k] == x && x !in s[..k] && r == s[..k] + s[k + 1..]
    ensures x in s ==> |r| == |s| - 1
    ensures multiset(r) == multiset(s) - multiset{x}
  {
    if x !in s then s
    else
      var k := IndexOf(s, x);
      assert s == s[..k] + [s[k]] + s[k + 1..];
      s[..k] + s[k + 1..]
  }

  /**
   * Removing an element that occurs at most once leaves a list from which a
   * second removal takes nothing.
   */
  lemma {:induction false} RemoveFirstIdempotent<T>(s: seq<T>, x: T)
    requires Count(s, x) <= 1
    ensures RemoveFirst(RemoveFirst(s, x), x) == RemoveFirst(s, x)
  {
    var r := RemoveFirst(s, x);
    assert multiset(r)[x] == 0;
    assert x !in r;
  }

  /** A registry of listeners: for each event type, the listeners registered for it, in registration order. */
  type Registry<L> = map<string, seq<L>>

  /**
   * Deregisters `l` for `eventType`: its first registration for that type is
   * removed, and the type is dropped from the registry when no listener for it
   * remains.
   */
  function RemoveListener<L(==)>(reg: Registry<L>, eventType: string, l: L): (r: Registry<L>)
    ensures forall t :: t != eventType ==> (t in r <==> t in reg) && (t in r ==> r[t] == reg[t])
    ensures eventType in r ==> eventType in reg && r[eventType] == RemoveFirst(reg[eventType], l) && r[eventType] != []
    ensures eventType in reg && RemoveFirst(reg[eventType], l) != [] ==> eventType in r
  {
    if eventType !in reg then reg
    else
      var rest := RemoveFirst(reg[eventType], l);
      if rest == [] then reg - {eventType} else reg[eventType := rest]
  }

  /** `l` is registered at most once for `eventType`. */
  predicate RegisteredAtMostOnce<L(==)>(reg: Registry<L>, eventType: string, l: L)
  {
    eventType in reg ==> Count(reg[eventType], l) <= 1
  }

  /** Deregistering a listener that was registered at most once, twice, is the same as deregistering it once. */
  lemma {:induction false} RemoveListenerIdempotent<L>(reg: Registry<L>, eventType: string, l: L)
    requires RegisteredAtMostOnce(reg, eventType, l)
    ensures RemoveListener(RemoveListener(reg, eventType, l), eventType, l) == RemoveListener(reg, eventType, l)
  {
    if eventType in reg {
      var rest := RemoveFirst(reg[eventType], l);
      RemoveFirstIdempotent(reg[eventType], l);
      var once := RemoveListener(reg, eventType, l);
      if rest == [] {
        assert once == reg - {eventType};
        assert eventType !in once;
      } else {
        assert once == reg[eventType := rest];
        assert once[eventType := RemoveFirst(rest, l)] == once;
      }
    }
  }
}
