/** Chains and cycles in a finite directed graph, the reference notions that the two
    depth-first searches of the planning code are proved against. */
module Graphs {

  /** A non-empty walk along edges. */
  predicate IsChain<N(==)>(g: set<(N, N)>, p: seq<N>) {
    |p| > 0 && forall i :: 0 <= i < |p| - 1 ==> (p[i], p[i + 1]) in g
  }

  predicate Repeats<N(==)>(p: seq<N>) {
    exists i, j :: 0 <= i < j < |p| && p[i] == p[j]
  }

  ghost predicate ChainFrom<N(!new)>(g: set<(N, N)>, v: N, p: seq<N>) {
    IsChain(g, p) && p[0] == v
  }

  /** Some walk from `v` meets a node twice. */
  ghost predicate ReachesCycle<N(!new)>(g: set<(N, N)>, v: N) {
    exists p :: ChainFrom(g, v, p) && Repeats(p)
  }

  ghost predicate Cyclic<N(!new)>(g: set<(N, N)>) {
    exists v :: ReachesCycle(g, v)
  }

  /** No walk from `v` has more than `n` edges. */
  ghost predicate Bounded<N(!new)>(g: set<(N, N)>, v: N, n: int) {
    forall p :: ChainFrom(g, v, p) ==> |p| <= n + 1
  }

  ghost predicate Grounded<N(!new)>(g: set<(N, N)>, v: N) {
    exists n :: Bounded(g, v, n)
  }

  /** The longest walk from `v` has exactly `n` edges. */
  ghost predicate LongestChain<N(!new)>(g: set<(N, N)>, v: N, n: nat) {
    Bounded(g, v, n) && exists p :: ChainFrom(g, v, p) && |p| == n + 1
  }

  lemma ExtendPath<N(!new)>(g: set<(N, N)>, path: seq<N>, node: N, next: N)
    requires IsChain(g, path + [node]) && (node, next) in g
    ensures IsChain(g, path + [node] + [next])
    ensures forall v :: v in path + [node] <==> v in path || v == node
  {
    var p := path + [node] + [next];
    forall i | 0 <= i < |p| - 1 ensures (p[i], p[i + 1]) in g {
      if i < |path| { assert p[i] == (path + [node])[i] && p[i + 1] == (path + [node])[i + 1]; }
    }
  }

  /** A walk that comes back to a node on its path closes a cycle. */
  lemma VisitedAgain<N(!new)>(g: set<(N, N)>, path: seq<N>, node: N)
    requires IsChain(g, path + [node]) && node in path
    ensures ReachesCycle(g, (path + [node])[0])
  {
    var walk := path + [node];
    var k :| 0 <= k < |path| && path[k] == node;
    assert walk[k] == walk[|path|];
    assert ChainFrom(g, walk[0], walk) && Repeats(walk);
  }

  lemma LongestChainUnique<N(!new)>(g: set<(N, N)>, v: N, m: nat, n: nat)
    requires LongestChain(g, v, m) && LongestChain(g, v, n)
    ensures m == n
  {
    var p :| ChainFrom(g, v, p) && |p| == m + 1;
    var q :| ChainFrom(g, v, q) && |q| == n + 1;
  }

  /** Going round a repeated stretch gives walks of any length. */
  lemma {:induction false} Pump<N(!new)>(g: set<(N, N)>, p: seq<N>, i: nat, j: nat, k: nat)
    returns (q: seq<N>)
    requires IsChain(g, p) && i < j < |p| && p[i] == p[j]
    ensures ChainFrom(g, p[0], q) && |q| > k && q[|q| - 1] == p[j]
  {
    if k == 0 {
      q := p[..i + 1];
    } else {
      var shorter := Pump(g, p, i, j, k - 1);
      q := shorter + p[i + 1..j + 1];
    }
  }

  /** A bounded node reaches no cycle. */
  lemma BoundedReachesNoCycle<N(!new)>(g: set<(N, N)>, v: N, n: int)
    requires Bounded(g, v, n)
    ensures !ReachesCycle(g, v)
  {
    if ReachesCycle(g, v) {
      var p :| ChainFrom(g, v, p) && Repeats(p);
      var i, j :| 0 <= i < j < |p| && p[i] == p[j];
      var q := Pump(g, p, i, j, if n < 0 then 0 else n + 1);
    }
  }

  /** Walks compose at a shared node. */
  lemma JoinChains<N>(g: set<(N, N)>, p: seq<N>, q: seq<N>)
    requires IsChain(g, p) && IsChain(g, q) && p[|p| - 1] == q[0]
    ensures IsChain(g, p + q[1..])
  {
    var r := p + q[1..];
    forall i | 0 <= i < |r| - 1 ensures (r[i], r[i + 1]) in g {
      if i == |p| - 1 {
        assert r[i] == q[0] && r[i + 1] == q[1];
      } else if i >= |p| {
        assert r[i] == q[i - |p| + 1] && r[i + 1] == q[i - |p| + 2];
      }
    }
  }

  /** Every step along a walk lowers the longest remaining walk. */
  lemma LongestChainAlong<N(!new)>(g: set<(N, N)>, p: seq<N>, m: nat, n: nat)
    requires IsChain(g, p) && LongestChain(g, p[0], m) && LongestChain(g, p[|p| - 1], n)
    ensures m >= n + |p| - 1
  {
    var q :| ChainFrom(g, p[|p| - 1], q) && |q| == n + 1;
    JoinChains(g, p, q);
    assert ChainFrom(g, p[0], p + q[1..]);
  }

  /** The distinct edges of a walk without repetition. */
  lemma {:induction false} EdgesOfChain<N(!new)>(g: set<(N, N)>, p: seq<N>) returns (s: set<(N, N)>)
    requires IsChain(g, p) && !Repeats(p)
    ensures s <= g && |s| == |p| - 1
    ensures forall e :: e in s ==> e.0 in p[..|p| - 1]
  {
    if |p| == 1 {
      s := {};
    } else {
      var front := p[..|p| - 1];
      assert !Repeats(front);
      var t := EdgesOfChain(g, front);
      var e := (p[|p| - 2], p[|p| - 1]);
      assert e !in t;
      s := t + {e};
      assert p[..|p| - 1][|p| - 2] == e.0;
    }
  }

  lemma SubsetSize<T>(a: set<T>, b: set<T>)
    requires a <= b
    ensures |a| <= |b|
  {
    if a != {} {
      var x :| x in a;
      SubsetSize(a - {x}, b - {x});
    }
  }

  /** In an acyclic neighbourhood the longest walk uses each edge at most once. */
  lemma LongestWithinEdgeCount<N(!new)>(g: set<(N, N)>, v: N, n: nat)
    requires LongestChain(g, v, n)
    ensures n <= |g|
  {
    var p :| ChainFrom(g, v, p) && |p| == n + 1;
    BoundedReachesNoCycle(g, v, n);
    var s := EdgesOfChain(g, p);
    SubsetSize(s, g);
  }

  /** A graph homomorphism carries cycles along. */
  lemma ImageOfCycle<M(!new), N(!new)>(g: set<(M, M)>, h: set<(N, N)>, f: M -> N)
    requires forall e :: e in g ==> (f(e.0), f(e.1)) in h
    requires Cyclic(g)
    ensures Cyclic(h)
  {
    var v :| ReachesCycle(g, v);
    var p :| ChainFrom(g, v, p) && Repeats(p);
    var i, j :| 0 <= i < j < |p| && p[i] == p[j];
    var q := seq(|p|, k requires 0 <= k < |p| => f(p[k]));
    assert ChainFrom(h, f(v), q) by {
      forall k | 0 <= k < |q| - 1 ensures (q[k], q[k + 1]) in h { assert (p[k], p[k + 1]) in g; }
    }
    assert q[i] == q[j];
    assert ReachesCycle(h, f(v));
  }

  /** The closed stretch of a repeating walk. */
  lemma ClosedWalk<N(!new)>(g: set<(N, N)>) returns (q: seq<N>)
    requires Cyclic(g)
    ensures IsChain(g, q) && |q| > 1 && q[0] == q[|q| - 1]
  {
    var v :| ReachesCycle(g, v);
    var p :| ChainFrom(g, v, p) && Repeats(p);
    var i, j :| 0 <= i < j < |p| && p[i] == p[j];
    q := p[i..j + 1];
  }

  lemma ChainHasEdge<N>(g: set<(N, N)>, p: seq<N>)
    requires IsChain(g, p) && |p| > 1
    ensures g != {}
  {
    assert (p[0], p[0 + 1]) in g;
  }

  lemma ClosedWalkIsCycle<N(!new)>(g: set<(N, N)>, q: seq<N>)
    requires IsChain(g, q) && |q| > 1 && q[0] == q[|q| - 1]
    ensures Cyclic(g)
  {
    assert ChainFrom(g, q[0], q) && Repeats(q);
    assert ReachesCycle(g, q[0]);
  }

  /** A walk that starts among the old nodes stays among them, as they gain no edges. */
  lemma {:induction false} OldNodesStayOld<N(!new)>(g: set<(N, N)>, added: set<(N, N)>, known: set<N>, q: seq<N>, i: nat, k: nat)
    requires forall e :: e in g ==> e.1 in known
    requires forall e :: e in added ==> e.0 !in known
    requires IsChain(g + added, q) && i <= k < |q| && q[i] in known
    ensures q[k] in known
    decreases k
  {
    if i < k {
      OldNodesStayOld(g, added, known, q, i, k - 1);
      assert (q[k - 1], q[k - 1 + 1]) in g + added;
    }
  }

  /** Adding nodes whose edges lead to old nodes or acyclically among themselves keeps a
      graph acyclic. */
  lemma ExtensionStaysAcyclic<N(!new)>(g: set<(N, N)>, added: set<(N, N)>, known: set<N>)
    requires !Cyclic(g) && forall e :: e in g ==> e.0 in known && e.1 in known
    requires forall e :: e in added ==> e.0 !in known
    requires !Cyclic(set e | e in added && e.1 !in known)
    ensures !Cyclic(g + added)
  {
    if Cyclic(g + added) {
      var internal := set e | e in added && e.1 !in known;
      var q := ClosedWalk(g + added);
      if q[0] in known {
        forall k | 0 <= k < |q| - 1 ensures (q[k], q[k + 1]) in g {
          OldNodesStayOld(g, added, known, q, 0, k);
          assert (q[k], q[k + 1]) in g + added;
        }
        ClosedWalkIsCycle(g, q);
      } else {
        forall k | 0 <= k < |q| - 1 ensures (q[k], q[k + 1]) in internal {
          if q[k + 1] in known { OldNodesStayOld(g, added, known, q, k + 1, |q| - 1); }
          assert (q[k], q[k + 1]) in g + added;
        }
        ClosedWalkIsCycle(internal, q);
      }
    }
  }
}
