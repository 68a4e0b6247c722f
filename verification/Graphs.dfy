/** Finite directed graphs over job ids: chains, reachability, acyclicity, chain weights. */
module Graphs {

  datatype Edge = Edge(src: int, dst: int)

  /** A non-empty sequence of ids in which every consecutive pair is an edge. */
  ghost predicate IsChain(es: set<Edge>, p: seq<int>) {
    p != [] && forall i | 0 <= i < |p| - 1 :: Edge(p[i], p[i + 1]) in es
  }

  /** No chain of two or more ids returns to its first id; a self-loop is a cycle. */
  ghost predicate Acyclic(es: set<Edge>) {
    forall p | IsChain(es, p) && |p| >= 2 :: p[0] != p[|p| - 1]
  }

  ghost predicate ChainFromTo(es: set<Edge>, p: seq<int>, u: int, v: int) {
    IsChain(es, p) && p[0] == u && p[|p| - 1] == v
  }

  ghost predicate Reaches(es: set<Edge>, u: int, v: int) {
    exists p :: ChainFromTo(es, p, u, v)
  }

  ghost predicate NoDup<T>(s: seq<T>) {
    forall i, j | 0 <= i < j < |s| :: s[i] != s[j]
  }

  function Elems<T>(s: seq<T>): set<T> {
    set x | x in s
  }

  function WeightOf(w: map<int, nat>, x: int): nat {
    if x in w then w[x] else 0
  }

  function ChainWeight(w: map<int, nat>, p: seq<int>): nat {
    if p == [] then 0 else ChainWeight(w, p[..|p| - 1]) + WeightOf(w, p[|p| - 1])
  }

  lemma {:induction false} ChainWeightPrepend(w: map<int, nat>, x: int, p: seq<int>)
    ensures ChainWeight(w, [x] + p) == WeightOf(w, x) + ChainWeight(w, p)
  {
    if p == [] {
      assert [x] + p == [x];
      assert [x][..0] == [];
    } else {
      var n := |p| - 1;
      assert ([x] + p)[..n + 1] == [x] + p[..n];
      ChainWeightPrepend(w, x, p[..n]);
    }
  }

  lemma {:induction false} NoDupCardinality<T>(s: seq<T>)
    requires NoDup(s)
    ensures |Elems(s)| == |s|
  {
    if s == [] {
    } else {
      var n := |s| - 1;
      NoDupCardinality(s[..n]);
      assert Elems(s) == Elems(s[..n]) + {s[n]};
    }
  }

  lemma ElemsAppend<T>(s: seq<T>, x: T)
    ensures Elems(s + [x]) == Elems(s) + {x}
  {
    forall y ensures y in Elems(s + [x]) <==> y in Elems(s) + {x} {
      assert y in s + [x] <==> y in s || y == x;
    }
  }

  lemma SubsetCardinality<T>(a: set<T>, b: set<T>)
    requires a <= b
    ensures |a| <= |b|
    ensures |a| == |b| ==> a == b
  {
    assert b == a + (b - a);
  }

  ghost function Member<T>(s: set<T>): (x: T)
    requires s != {}
    ensures x in s
  {
    var x :| x in s; x
  }

  /** More positions than ids: some id occurs twice. */
  lemma Pigeonhole(s: seq<int>, ids: set<int>) returns (i: nat, j: nat)
    requires Elems(s) <= ids && |s| > |ids|
    ensures i < j < |s| && s[i] == s[j]
  {
    if NoDup(s) {
      NoDupCardinality(s);
      SubsetCardinality(Elems(s), ids);
      assert false;
    }
    i, j :| 0 <= i < j < |s| && s[i] == s[j];
  }

  ghost predicate HasPredecessorIn(es: set<Edge>, stuck: set<int>, v: int) {
    exists u :: u in stuck && Edge(u, v) in es
  }

  lemma {:induction false} BackwardChain(es: set<Edge>, stuck: set<int>, n: nat) returns (p: seq<int>)
    requires stuck != {} && n >= 1
    requires forall v | v in stuck :: HasPredecessorIn(es, stuck, v)
    ensures |p| == n && IsChain(es, p) && Elems(p) <= stuck
  {
    if n == 1 {
      p := [Member(stuck)];
    } else {
      var q := BackwardChain(es, stuck, n - 1);
      assert q[0] in Elems(q);
      assert HasPredecessorIn(es, stuck, q[0]);
      var u :| u in stuck && Edge(u, q[0]) in es;
      p := [u] + q;
    }
  }

  /** A non-empty set in which every id has a predecessor in the set contains a cycle. */
  lemma StuckSetHasCycle(es: set<Edge>, stuck: set<int>)
    requires stuck != {}
    requires forall v | v in stuck :: HasPredecessorIn(es, stuck, v)
    ensures !Acyclic(es)
  {
    var p := BackwardChain(es, stuck, |stuck| + 1);
    var i, j := Pigeonhole(p, stuck);
    var c := p[i..j + 1];
    assert IsChain(es, c) && |c| >= 2 && c[0] == c[|c| - 1];
  }

  /** Every edge into a listed id comes from an id listed earlier. */
  ghost predicate ProducersFirst(es: set<Edge>, topo: seq<int>) {
    forall k, e | 0 <= k < |topo| && e in es && e.dst == topo[k] :: e.src in topo[..k]
  }

  lemma {:induction false} ChainGoesForward(es: set<Edge>, topo: seq<int>, p: seq<int>, i: nat, k: nat)
    requires NoDup(topo) && ProducersFirst(es, topo)
    requires IsChain(es, p) && |p| >= 2
    requires i < |topo| && k < |topo| && p[0] == topo[i] && p[|p| - 1] == topo[k]
    ensures i < k
  {
    var n := |p|;
    assert Edge(p[n - 2], p[n - 1]) in es;
    var m :| 0 <= m < k && topo[m] == p[n - 2];
    if n > 2 {
      ChainGoesForward(es, topo, p[..n - 1], i, m);
    }
  }

  lemma TopologicalOrderMeansAcyclic(es: set<Edge>, topo: seq<int>)
    requires NoDup(topo) && ProducersFirst(es, topo)
    requires forall e | e in es :: e.src in topo && e.dst in topo
    ensures Acyclic(es)
  {
    forall p | IsChain(es, p) && |p| >= 2 ensures p[0] != p[|p| - 1] {
      assert Edge(p[0], p[1]) in es;
      if p[0] == p[|p| - 1] {
        var i :| 0 <= i < |topo| && topo[i] == p[0];
        ChainGoesForward(es, topo, p, i, i);
        assert false;
      }
    }
  }

  lemma {:induction false} ClosedSetContainsChain(es: set<Edge>, closed: set<int>, p: seq<int>)
    requires IsChain(es, p) && p[0] in closed
    requires forall e | e in es && e.src in closed :: e.dst in closed
    ensures p[|p| - 1] in closed
  {
    var n := |p|;
    if n > 1 {
      ClosedSetContainsChain(es, closed, p[..n - 1]);
      assert Edge(p[n - 2], p[n - 1]) in es;
    }
  }
}
