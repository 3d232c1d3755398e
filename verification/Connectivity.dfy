/**
  Merging nets two at a time.

  `Connected` is the relation a list of pairs joins; it is proved to be the least equivalence
  relation holding the pairs, so it does not depend on the order of the list.  `Rep` is what the
  bound board computes instead: one renaming of node ids per jumper.
 */
module Connectivity {
  import opened Sequences

  type Node = nat
  type Edge = (Node, Node)

  /** Whether `a` and `b` are joined by the pairs of `es`. */
  ghost predicate Connected(es: seq<Edge>, a: Node, b: Node)
    decreases |es|
  {
    if |es| == 0 then a == b
    else
      var rest, e := es[..|es| - 1], es[|es| - 1];
      || Connected(rest, a, b)
      || (Connected(rest, a, e.0) && Connected(rest, e.1, b))
      || (Connected(rest, a, e.1) && Connected(rest, e.0, b))
  }

  ghost predicate Equivalence(r: (Node, Node) -> bool) {
    && (forall a :: r(a, a))
    && (forall a, b :: r(a, b) ==> r(b, a))
    && (forall a, b, c :: r(a, b) && r(b, c) ==> r(a, c))
  }

  ghost predicate Holds(r: (Node, Node) -> bool, es: seq<Edge>) {
    forall e :: e in es ==> r(e.0, e.1)
  }

  lemma {:induction false} ConnectedRefl(es: seq<Edge>, a: Node)
    ensures Connected(es, a, a)
    decreases |es|
  {
    if |es| > 0 {
      ConnectedRefl(es[..|es| - 1], a);
    }
  }

  lemma {:induction false} ConnectedSym(es: seq<Edge>, a: Node, b: Node)
    requires Connected(es, a, b)
    ensures Connected(es, b, a)
    decreases |es|
  {
    if |es| > 0 {
      var rest, e := es[..|es| - 1], es[|es| - 1];
      if Connected(rest, a, b) {
        ConnectedSym(rest, a, b);
      } else if Connected(rest, a, e.0) && Connected(rest, e.1, b) {
        ConnectedSym(rest, a, e.0);
        ConnectedSym(rest, e.1, b);
      } else {
        ConnectedSym(rest, a, e.1);
        ConnectedSym(rest, e.0, b);
      }
    }
  }

  lemma {:induction false} ConnectedTrans(es: seq<Edge>, a: Node, b: Node, c: Node)
    requires Connected(es, a, b) && Connected(es, b, c)
    ensures Connected(es, a, c)
    decreases |es|
  {
    if |es| > 0 {
      var rest, e := es[..|es| - 1], es[|es| - 1];
      forall x: Node, y: Node, z: Node | Connected(rest, x, y) && Connected(rest, y, z)
        ensures Connected(rest, x, z)
      {
        ConnectedTrans(rest, x, y, z);
      }
      forall x: Node, y: Node | Connected(rest, x, y)
        ensures Connected(rest, y, x)
      {
        ConnectedSym(rest, x, y);
      }
    }
  }

  /** `Connected` is an equivalence relation holding every pair of the list. */
  lemma ConnectedIsEquivalence(es: seq<Edge>)
    ensures forall a: Node :: Connected(es, a, a)
    ensures forall a: Node, b: Node :: Connected(es, a, b) ==> Connected(es, b, a)
    ensures forall a: Node, b: Node, c: Node :: Connected(es, a, b) && Connected(es, b, c) ==> Connected(es, a, c)
    ensures forall e :: e in es ==> Connected(es, e.0, e.1)
  {
    forall a: Node {
      ConnectedRefl(es, a);
    }
    forall a: Node, b: Node | Connected(es, a, b) {
      ConnectedSym(es, a, b);
    }
    forall a: Node, b: Node, c: Node | Connected(es, a, b) && Connected(es, b, c) {
      ConnectedTrans(es, a, b, c);
    }
    forall e | e in es {
      ConnectedEdge(es, e);
    }
  }

  lemma {:induction false} ConnectedEdge(es: seq<Edge>, e: Edge)
    requires e in es
    ensures Connected(es, e.0, e.1)
    decreases |es|
  {
    var rest := es[..|es| - 1];
    if e == es[|es| - 1] {
      ConnectedRefl(rest, e.0);
      ConnectedRefl(rest, e.1);
    } else {
      ConnectedEdge(rest, e);
    }
  }

  /** It is the least one: any equivalence holding the pairs holds all of it. */
  lemma {:induction false} ConnectedIsLeast(es: seq<Edge>, r: (Node, Node) -> bool, a: Node, b: Node)
    requires Equivalence(r) && Holds(r, es)
    requires Connected(es, a, b)
    ensures r(a, b)
    decreases |es|
  {
    if |es| > 0 {
      var rest, e := es[..|es| - 1], es[|es| - 1];
      assert e in es;
      if Connected(rest, a, b) {
        ConnectedIsLeast(rest, r, a, b);
      } else if Connected(rest, a, e.0) && Connected(rest, e.1, b) {
        ConnectedIsLeast(rest, r, a, e.0);
        ConnectedIsLeast(rest, r, e.1, b);
      } else {
        ConnectedIsLeast(rest, r, a, e.1);
        ConnectedIsLeast(rest, r, e.0, b);
      }
    }
  }

  /** So only the set of pairs matters: more pairs join at least as much ... */
  lemma ConnectedMonotone(es: seq<Edge>, fs: seq<Edge>, a: Node, b: Node)
    requires forall e :: e in es ==> e in fs
    requires Connected(es, a, b)
    ensures Connected(fs, a, b)
  {
    ConnectedIsEquivalence(fs);
    ConnectedIsLeast(es, (x: Node, y: Node) => Connected(fs, x, y), a, b);
  }

  /** ... and an isolated node is joined to nothing else. */
  lemma {:induction false} ConnectedIsolated(es: seq<Edge>, a: Node, b: Node)
    requires forall e :: e in es ==> e.0 != a && e.1 != a
    ensures Connected(es, a, b) <==> a == b
    ensures Connected(es, b, a) <==> a == b
    decreases |es|
  {
    if |es| > 0 {
      var rest, e := es[..|es| - 1], es[|es| - 1];
      assert e in es;
      ConnectedIsolated(rest, a, b);
      ConnectedIsolated(rest, a, e.0);
      ConnectedIsolated(rest, a, e.1);
    }
  }

  // ---------------------------------------------------------------------------------------------
  // Forests
  // ---------------------------------------------------------------------------------------------

  /** No pair's two ends are already joined by the OTHER pairs: the pairs have no cycle. */
  ghost predicate Forest(es: seq<Edge>) {
    forall i :: 0 <= i < |es| ==> !Connected(Without(es, i), es[i].0, es[i].1)
  }

  /** No pair's two ends are already joined by the pairs BEFORE it. */
  ghost predicate NeverRedundant(es: seq<Edge>) {
    forall i :: 0 <= i < |es| ==> !Connected(es[..i], es[i].0, es[i].1)
  }

  /** What the jumpers check one at a time is the order-free forest condition. */
  lemma ForestIffNeverRedundant(es: seq<Edge>)
    ensures Forest(es) <==> NeverRedundant(es)
  {
    if Forest(es) {
      ForestIsNeverRedundant(es);
    }
    if NeverRedundant(es) {
      NeverRedundantIsForest(es);
    }
  }

  lemma ForestIsNeverRedundant(es: seq<Edge>)
    requires Forest(es)
    ensures NeverRedundant(es)
  {
    forall i | 0 <= i < |es|
      ensures !Connected(es[..i], es[i].0, es[i].1)
    {
      if Connected(es[..i], es[i].0, es[i].1) {
        ConnectedMonotone(es[..i], Without(es, i), es[i].0, es[i].1);
      }
    }
  }

  lemma {:induction false} NeverRedundantIsForest(es: seq<Edge>)
    requires NeverRedundant(es)
    ensures Forest(es)
    decreases |es|
  {
    if |es| > 0 {
      var n := |es| - 1;
      var rest, e := es[..n], es[n];
      forall i | 0 <= i < n
        ensures rest[..i] == es[..i] && rest[i] == es[i]
      {
      }
      NeverRedundantIsForest(rest);
      ForestExtends(rest, e);
      assert es == rest + [e];
    }
  }

  lemma ForestExtends(rest: seq<Edge>, e: Edge)
    requires Forest(rest) && !Connected(rest, e.0, e.1)
    ensures Forest(rest + [e])
  {
    var es := rest + [e];
    forall i | 0 <= i < |es|
      ensures !Connected(Without(es, i), es[i].0, es[i].1)
    {
      NoCycleAt(rest, e, i);
    }
  }

  lemma NoCycleAt(rest: seq<Edge>, e: Edge, i: nat)
    requires i <= |rest| && !Connected(rest, e.0, e.1)
    requires i < |rest| ==> !Connected(Without(rest, i), rest[i].0, rest[i].1)
    ensures !Connected(Without(rest + [e], i), (rest + [e])[i].0, (rest + [e])[i].1)
  {
    var es := rest + [e];
    if i == |rest| {
      assert Without(es, i) == rest;
    } else {
      assert Without(es, i) == Without(rest, i) + [e];
      CycleThroughLast(rest, e, i);
    }
  }

  /** If pair `i` lay on a cycle with a pair `e` appended to `rest`, then `e` would be redundant. */
  lemma CycleThroughLast(rest: seq<Edge>, e: Edge, i: nat)
    requires i < |rest|
    requires !Connected(rest, e.0, e.1)
    requires !Connected(Without(rest, i), rest[i].0, rest[i].1)
    ensures !Connected(Without(rest, i) + [e], rest[i].0, rest[i].1)
  {
    var u, a, b := Without(rest, i), rest[i].0, rest[i].1;
    var w := u + [e];
    WithoutMembers(rest, i);
    assert w[..|w| - 1] == u && w[|w| - 1] == e;
    if Connected(u, a, e.0) && Connected(u, e.1, b) {
      RejoinThrough(u, rest, a, b, e.0, e.1);
    }
    if Connected(u, a, e.1) && Connected(u, e.0, b) {
      RejoinThrough(u, rest, a, b, e.1, e.0);
      ConnectedSym(rest, e.1, e.0);
    }
  }

  /** With `(a, b)` among `es`, going the other way round joins `x` and `y`. */
  lemma RejoinThrough(part: seq<Edge>, es: seq<Edge>, a: Node, b: Node, x: Node, y: Node)
    requires forall e :: e in part ==> e in es
    requires (a, b) in es
    requires Connected(part, a, x) && Connected(part, y, b)
    ensures Connected(es, x, y)
  {
    ConnectedMonotone(part, es, a, x);
    ConnectedMonotone(part, es, y, b);
    ConnectedSym(es, a, x);
    ConnectedSym(es, y, b);
    ConnectedEdge(es, (a, b));
    ConnectedTrans(es, x, a, b);
    ConnectedTrans(es, x, b, y);
  }

  /** Reordering the pairs changes neither what they join nor whether they form a forest. */
  lemma PermutationInvariant(es: seq<Edge>, fs: seq<Edge>)
    requires multiset(es) == multiset(fs)
    ensures forall a: Node, b: Node :: Connected(es, a, b) <==> Connected(fs, a, b)
    ensures Forest(es) <==> Forest(fs)
  {
    SameConnected(es, fs);
    if Forest(es) {
      ForestPermuted(es, fs);
    }
    if Forest(fs) {
      ForestPermuted(fs, es);
    }
  }

  lemma SameConnected(es: seq<Edge>, fs: seq<Edge>)
    requires multiset(es) == multiset(fs)
    ensures forall a: Node, b: Node :: Connected(es, a, b) <==> Connected(fs, a, b)
  {
    SameMembers(es, fs);
    forall a: Node, b: Node
      ensures Connected(es, a, b) <==> Connected(fs, a, b)
    {
      if Connected(es, a, b) { ConnectedMonotone(es, fs, a, b); }
      if Connected(fs, a, b) { ConnectedMonotone(fs, es, a, b); }
    }
  }

  lemma ForestPermuted(es: seq<Edge>, fs: seq<Edge>)
    requires multiset(es) == multiset(fs) && Forest(es)
    ensures Forest(fs)
  {
    forall j | 0 <= j < |fs|
      ensures !Connected(Without(fs, j), fs[j].0, fs[j].1)
    {
      assert fs[j] in multiset(es);
      var i :| 0 <= i < |es| && es[i] == fs[j];
      SamePairElsewhere(es, i, fs, j);
    }
  }

  lemma SamePairElsewhere(es: seq<Edge>, i: nat, fs: seq<Edge>, j: nat)
    requires multiset(es) == multiset(fs) && i < |es| && j < |fs| && es[i] == fs[j]
    ensures Connected(Without(es, i), es[i].0, es[i].1) <==> Connected(Without(fs, j), fs[j].0, fs[j].1)
  {
    WithoutMultiset(es, i);
    WithoutMultiset(fs, j);
    SameConnected(Without(es, i), Without(fs, j));
  }

  // ---------------------------------------------------------------------------------------------
  // The renaming
  // ---------------------------------------------------------------------------------------------

  function Rename(to: Node, from: Node, n: Node): Node {
    if n == to then from else n
  }

  /** The node that `n` has become once every pair `(from, to)` of `es` was merged in order. */
  function Rep(es: seq<Edge>, n: Node): Node
    decreases |es|
  {
    if |es| == 0 then n
    else
      var rest, e := es[..|es| - 1], es[|es| - 1];
      Rename(Rep(rest, e.1), Rep(rest, e.0), Rep(rest, n))
  }

  /** The renaming puts two nodes on one id exactly when the pairs join them. */
  lemma {:induction false} RepIffConnected(es: seq<Edge>, a: Node, b: Node)
    ensures Rep(es, a) == Rep(es, b) <==> Connected(es, a, b)
    decreases |es|
  {
    if |es| > 0 {
      var rest, e := es[..|es| - 1], es[|es| - 1];
      RepIffConnected(rest, a, b);
      RepIffConnected(rest, a, e.0);
      RepIffConnected(rest, a, e.1);
      RepIffConnected(rest, e.0, b);
      RepIffConnected(rest, e.1, b);
      RepIffConnected(rest, b, e.0);
      RepIffConnected(rest, b, e.1);
    }
  }

  /** A class is always represented by one of its own members. */
  lemma {:induction false} RepIsMember(es: seq<Edge>, n: Node)
    ensures Connected(es, n, Rep(es, n))
    ensures Rep(es, Rep(es, n)) == Rep(es, n)
    decreases |es|
  {
    RepIdempotent(es, n);
    RepIffConnected(es, n, Rep(es, n));
  }

  lemma {:induction false} RepIdempotent(es: seq<Edge>, n: Node)
    ensures Rep(es, Rep(es, n)) == Rep(es, n)
    decreases |es|
  {
    if |es| > 0 {
      var rest, e := es[..|es| - 1], es[|es| - 1];
      RepIdempotent(rest, n);
      RepIdempotent(rest, e.0);
    }
  }

  lemma {:induction false} RepIsolated(es: seq<Edge>, n: Node)
    requires forall e :: e in es ==> e.0 != n && e.1 != n
    ensures Rep(es, n) == n
    decreases |es|
  {
    if |es| > 0 {
      var rest, e := es[..|es| - 1], es[|es| - 1];
      assert e in es;
      RepIsolated(rest, n);
      RepIffConnected(rest, n, e.1);
      ConnectedIsolated(rest, n, e.1);
    }
  }
}
