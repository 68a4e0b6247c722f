/**
 The stage-job graph: Kahn's topological sort, the longest weighted dependency chain and the
 breadth-first failure impact of a stage group (api/infra_routes.py).
 Python sets and dictionaries are visited in an arbitrary order (AnyOrder), so every result
 holds for every order.
 */
module StageGraph {
  import opened Graphs
  import opened Options

  datatype JobRow = JobRow(id: int, dependsOn: Option<int>, totalLatencyMs: Option<int>, status: string)

  datatype CriticalPath = NoJobs | Cyclic | Longest(jobIds: seq<int>, totalMs: nat)

  datatype Bottleneck = Bottleneck(jobId: int, totalLatencyMs: nat, share: Option<real>)

  datatype Impact = Impact(failedJobId: int, blocked: seq<int>)

  datatype Report = Report(edges: seq<Edge>, criticalPath: CriticalPath, bottleneck: Option<Bottleneck>,
                           failureImpact: seq<Impact>)

  const FAILED_STATUSES := {"FAILED_PERMANENT", "FAILED_RETRYABLE", "DEAD_LETTERED", "CANCELLED"}

  function LatencyMs(row: JobRow): nat {
    match row.totalLatencyMs
    case None => 0
    case Some(v) => if v < 0 then 0 else v
  }

  // ----- Edges and adjacency -----

  /** The in-group edges, producer to consumer. */
  function DependsOnEdges(items: seq<JobRow>, ids: set<int>): set<Edge> {
    set r | r in items && r.dependsOn.Some? && r.dependsOn.value in ids :: Edge(r.dependsOn.value, r.id)
  }

  function Successors(es: seq<Edge>, u: int): seq<int> {
    if es == [] then []
    else
      var e := es[|es| - 1];
      Successors(es[..|es| - 1], u) + if e.src == u then [e.dst] else []
  }

  function Predecessors(es: seq<Edge>, v: int): seq<int> {
    if es == [] then []
    else
      var e := es[|es| - 1];
      Predecessors(es[..|es| - 1], v) + if e.dst == v then [e.src] else []
  }

  /** How many edges into `v` come from ids outside `done`. */
  function Pending(es: seq<Edge>, done: set<int>, v: int): nat {
    if es == [] then 0
    else
      var e := es[|es| - 1];
      Pending(es[..|es| - 1], done, v) + if e.dst == v && e.src !in done then 1 else 0
  }

  lemma {:induction false} PredecessorsAreSources(es: seq<Edge>, v: int)
    ensures forall u :: u in Predecessors(es, v) <==> Edge(u, v) in es
  {
    if es != [] {
      var n := |es| - 1;
      PredecessorsAreSources(es[..n], v);
      assert es == es[..n] + [es[n]];
    }
  }

  lemma {:induction false} SuccessorsAreTargets(es: seq<Edge>, u: int)
    ensures forall v :: v in Successors(es, u) ==> Edge(u, v) in es
  {
    if es != [] {
      var n := |es| - 1;
      SuccessorsAreTargets(es[..n], u);
      assert es == es[..n] + [es[n]];
    }
  }

  lemma {:induction false} PendingZero(es: seq<Edge>, done: set<int>, v: int)
    ensures Pending(es, done, v) == 0 <==> forall e | e in es && e.dst == v :: e.src in done
  {
    if es != [] {
      var n := |es| - 1;
      PendingZero(es[..n], done, v);
      assert es == es[..n] + [es[n]];
    }
  }

  lemma {:induction false} PendingAfterVisit(es: seq<Edge>, done: set<int>, u: int, v: int)
    requires u !in done
    ensures Pending(es, done, v) == Pending(es, done + {u}, v) + multiset(Successors(es, u))[v]
  {
    if es != [] {
      PendingAfterVisit(es[..|es| - 1], done, u, v);
    }
  }

  method AnyOrder<T(==)>(s: set<T>) returns (order: seq<T>)
    ensures NoDup(order) && Elems(order) == s
  {
    order := [];
    var rest := s;
    while rest != {}
      invariant rest <= s && NoDup(order) && Elems(order) == s - rest
      decreases rest
    {
      var x :| x in rest;
      ElemsAppend(order, x);
      order, rest := order + [x], rest - {x};
    }
  }

  /** Each id is mapped to the last row that carries it. */
  ghost predicate IsGroup(items: seq<JobRow>, group: map<int, JobRow>) {
    && group.Keys == (set r | r in items :: r.id)
    && forall i | i in group :: LastRow(items, i, group[i])
  }

  ghost predicate LastRow(items: seq<JobRow>, id: int, row: JobRow) {
    exists k :: LastRowAt(items, id, row, k)
  }

  ghost predicate LastRowAt(items: seq<JobRow>, id: int, row: JobRow, k: int) {
    0 <= k < |items| && row == items[k] && row.id == id && forall l | k < l < |items| :: items[l].id != id
  }

  method GroupById(items: seq<JobRow>) returns (group: map<int, JobRow>)
    ensures IsGroup(items, group)
  {
    group := map[];
    for n := 0 to |items|
      invariant IsGroup(items[..n], group)
    {
      GroupExtends(items[..n], group, items[n]);
      assert items[..n + 1] == items[..n] + [items[n]];
      group := group[items[n].id := items[n]];
    }
    assert items[..|items|] == items;
  }

  lemma GroupExtends(items: seq<JobRow>, group: map<int, JobRow>, r: JobRow)
    requires IsGroup(items, group)
    ensures IsGroup(items + [r], group[r.id := r])
  {
    var more, group' := items + [r], group[r.id := r];
    assert more[|items|] == r;
    forall i | i in group' ensures LastRow(more, i, group'[i]) {
      if i != r.id {
        assert LastRow(items, i, group[i]);
        var k :| LastRowAt(items, i, group[i], k);
        forall l | k < l < |more| ensures more[l].id != i {
          if l < |items| { assert more[l] == items[l]; }
        }
        assert LastRowAt(more, i, group[i], k);
      } else {
        assert LastRowAt(more, i, r, |items|);
      }
    }
  }

  lemma EdgesAppend(items: seq<JobRow>, r: JobRow, ids: set<int>)
    ensures DependsOnEdges(items + [r], ids) == DependsOnEdges(items, ids) +
            if r.dependsOn.Some? && r.dependsOn.value in ids then {Edge(r.dependsOn.value, r.id)} else {}
  {
    assert forall x :: x in items + [r] <==> x in items || x == r;
  }

  /** The reported edges: one per row whose producer is in the group, in row order. */
  function EdgesOf(items: seq<JobRow>, ids: set<int>): seq<Edge> {
    if items == [] then []
    else
      var r := items[|items| - 1];
      EdgesOf(items[..|items| - 1], ids)
      + if r.dependsOn.Some? && r.dependsOn.value in ids then [Edge(r.dependsOn.value, r.id)] else []
  }

  method CollectEdges(items: seq<JobRow>, ids: set<int>) returns (edges: seq<Edge>)
    ensures edges == EdgesOf(items, ids)
    ensures Elems(edges) == DependsOnEdges(items, ids)
  {
    edges := [];
    for n := 0 to |items|
      invariant edges == EdgesOf(items[..n], ids)
      invariant Elems(edges) == DependsOnEdges(items[..n], ids)
    {
      var r := items[n];
      assert items[..n + 1] == items[..n] + [r];
      assert items[..n + 1][..n] == items[..n];
      EdgesAppend(items[..n], r, ids);
      if r.dependsOn.Some? && r.dependsOn.value in ids {
        ElemsAppend(edges, Edge(r.dependsOn.value, r.id));
        edges := edges + [Edge(r.dependsOn.value, r.id)];
      }
    }
    assert items[..|items|] == items;
  }

  /** The three dictionaries built from the edges read so far. */
  ghost predicate IsAdjacency(ids: set<int>, es: seq<Edge>, indeg: map<int, int>, succ: map<int, seq<int>>,
                              preds: map<int, seq<int>>)
  {
    && indeg.Keys == succ.Keys == preds.Keys == ids
    && (forall v | v in ids :: indeg[v] == Pending(es, {}, v))
    && (forall v | v in ids :: succ[v] == Successors(es, v))
    && (forall v | v in ids :: preds[v] == Predecessors(es, v))
  }

  lemma AddEdge(ids: set<int>, es: seq<Edge>, e: Edge, indeg: map<int, int>, succ: map<int, seq<int>>,
                preds: map<int, seq<int>>)
    requires IsAdjacency(ids, es, indeg, succ, preds) && e.src in ids && e.dst in ids
    ensures IsAdjacency(ids, es + [e], indeg[e.dst := indeg[e.dst] + 1], succ[e.src := succ[e.src] + [e.dst]],
                        preds[e.dst := preds[e.dst] + [e.src]])
  {
    assert (es + [e])[..|es|] == es;
  }

  method Adjacency(ids: set<int>, es: seq<Edge>)
    returns (indeg: map<int, int>, succ: map<int, seq<int>>, preds: map<int, seq<int>>)
    requires forall e | e in es :: e.src in ids && e.dst in ids
    ensures IsAdjacency(ids, es, indeg, succ, preds)
  {
    indeg := map i | i in ids :: 0;
    succ := map i | i in ids :: [];
    preds := map i | i in ids :: [];
    for n := 0 to |es|
      invariant IsAdjacency(ids, es[..n], indeg, succ, preds)
    {
      assert es[..n + 1] == es[..n] + [es[n]] && es[n] in es;
      AddEdge(ids, es[..n], es[n], indeg, succ, preds);
      var u, v := es[n].src, es[n].dst;
      succ := succ[u := succ[u] + [v]];
      preds := preds[v := preds[v] + [u]];
      indeg := indeg[v := indeg[v] + 1];
    }
    assert es[..|es|] == es;
  }

  // ----- Kahn's loop -----

  method ReadyIds(ids: set<int>, indeg: map<int, int>) returns (queue: seq<int>)
    requires indeg.Keys == ids
    ensures NoDup(queue)
    ensures forall v :: v in queue <==> v in ids && indeg[v] == 0
  {
    var order := AnyOrder(ids);
    assert forall v :: v in order <==> v in Elems(order);
    queue := [];
    for n := 0 to |order|
      invariant NoDup(queue)
      invariant forall v :: v in queue <==> v in order[..n] && indeg[v] == 0
    {
      assert order[n] in Elems(order);
      assert order[..n + 1] == order[..n] + [order[n]];
      if indeg[order[n]] == 0 {
        queue := queue + [order[n]];
      }
    }
    assert order[..|order|] == order;
  }

  /** Listed and queued ids are exactly those without pending edges, each once. */
  ghost predicate Ready(ids: set<int>, topo: seq<int>, queue: seq<int>, indeg: map<int, int>) {
    && indeg.Keys == ids
    && NoDup(topo + queue)
    && forall v :: v in topo + queue <==> v in ids && indeg[v] == 0
  }

  /** Each id still counts its edges from producers outside `done`, less those in `released`. */
  ghost predicate Counts(ids: set<int>, es: seq<Edge>, done: set<int>, released: seq<int>, indeg: map<int, int>) {
    indeg.Keys == ids && forall v | v in ids :: indeg[v] == Pending(es, done, v) - multiset(released)[v]
  }

  method TopoSort(ids: set<int>, es: seq<Edge>, indeg0: map<int, int>, succ: map<int, seq<int>>)
    returns (topo: seq<int>)
    requires forall e | e in es :: e.src in ids && e.dst in ids
    requires succ.Keys == ids && forall v | v in ids :: succ[v] == Successors(es, v)
    requires Counts(ids, es, {}, [], indeg0)
    ensures NoDup(topo) && Elems(topo) <= ids
    ensures ProducersFirst(Elems(es), topo)
    ensures |topo| == |ids| <==> Acyclic(Elems(es))
    ensures |topo| == |ids| ==> Elems(topo) == ids
  {
    var indeg := indeg0;
    var queue := ReadyIds(ids, indeg);
    topo := [];
    assert Elems(topo) == {} && topo + queue == queue;
    while queue != []
      invariant Ready(ids, topo, queue, indeg)
      invariant Counts(ids, es, Elems(topo), [], indeg)
      invariant ProducersFirst(Elems(es), topo)
      decreases |ids| - |topo|
    {
      var u := queue[0];
      VisitNext(ids, es, topo, queue, indeg);
      ghost var done := Elems(topo);
      ElemsAppend(topo, u);
      queue, topo := queue[1..], topo + [u];
      indeg, queue := ReleaseConsumers(ids, es, done, u, topo, succ[u], indeg, queue);
    }
    assert topo + queue == topo;
    assert forall v | v in ids :: indeg[v] == Pending(es, Elems(topo), v);
    SortedExactlyWhenAcyclic(ids, es, topo);
  }

  /** The inner loop: `u` has just been listed, each of its consumers loses one pending edge. */
  method ReleaseConsumers(ids: set<int>, es: seq<Edge>, ghost done: set<int>, u: int, ghost topo: seq<int>,
                          targets: seq<int>, indeg0: map<int, int>, queue0: seq<int>)
    returns (indeg: map<int, int>, queue: seq<int>)
    requires forall e | e in es :: e.src in ids && e.dst in ids
    requires u !in done && targets == Successors(es, u)
    requires Ready(ids, topo, queue0, indeg0) && Counts(ids, es, done, [], indeg0)
    ensures Ready(ids, topo, queue, indeg) && Counts(ids, es, done + {u}, [], indeg)
  {
    indeg, queue := indeg0, queue0;
    for j := 0 to |targets|
      invariant Ready(ids, topo, queue, indeg)
      invariant Counts(ids, es, done, targets[..j], indeg)
    {
      var v := targets[j];
      ConsumerIsPending(ids, es, done, u, targets, j, indeg);
      ReleaseOne(ids, es, done, topo, queue, targets, j, indeg);
      indeg := indeg[v := indeg[v] - 1];
      if indeg[v] == 0 {
        queue := queue + [v];
      }
    }
    assert targets[..|targets|] == targets;
    AllReleased(ids, es, done, u, targets, indeg);
  }

  lemma ConsumerIsPending(ids: set<int>, es: seq<Edge>, done: set<int>, u: int, targets: seq<int>, j: nat,
                          indeg: map<int, int>)
    requires forall e | e in es :: e.src in ids && e.dst in ids
    requires u !in done && targets == Successors(es, u) && j < |targets|
    requires Counts(ids, es, done, targets[..j], indeg)
    ensures targets[j] in ids && indeg[targets[j]] > 0
  {
    SuccessorsAreTargets(es, u);
    assert targets[j] in targets && Edge(u, targets[j]) in es;
    DecrementIsPositive(es, done, u, targets, j);
  }

  lemma AllReleased(ids: set<int>, es: seq<Edge>, done: set<int>, u: int, targets: seq<int>, indeg: map<int, int>)
    requires u !in done && targets == Successors(es, u) && Counts(ids, es, done, targets, indeg)
    ensures Counts(ids, es, done + {u}, [], indeg)
  {
    forall v | v in ids ensures indeg[v] == Pending(es, done + {u}, v) {
      PendingAfterVisit(es, done, u, v);
    }
  }

  lemma ReleaseOne(ids: set<int>, es: seq<Edge>, done: set<int>, topo: seq<int>, queue: seq<int>, targets: seq<int>,
                   j: nat, indeg: map<int, int>)
    requires j < |targets| && targets[j] in ids && Ready(ids, topo, queue, indeg)
    requires Counts(ids, es, done, targets[..j], indeg) && indeg[targets[j]] > 0
    ensures var v := targets[j];
            var left := indeg[v := indeg[v] - 1];
            && Ready(ids, topo, if left[v] == 0 then queue + [v] else queue, left)
            && Counts(ids, es, done, targets[..j + 1], left)
  {
    var v := targets[j];
    assert targets[..j + 1] == targets[..j] + [v];
    assert topo + (queue + [v]) == (topo + queue) + [v];
  }

  /** The queue's head has every producer already in `topo`, and there is room for it. */
  lemma VisitNext(ids: set<int>, es: seq<Edge>, topo: seq<int>, queue: seq<int>, indeg: map<int, int>)
    requires queue != [] && Ready(ids, topo, queue, indeg) && Counts(ids, es, Elems(topo), [], indeg)
    requires ProducersFirst(Elems(es), topo)
    ensures ProducersFirst(Elems(es), topo + [queue[0]])
    ensures |topo| < |ids| && queue[0] !in topo && queue[0] in ids
    ensures Ready(ids, topo + [queue[0]], queue[1..], indeg)
  {
    var u := queue[0];
    assert topo + queue == (topo + [u]) + queue[1..];
    assert (topo + queue)[|topo|] == u;
    PendingZero(es, Elems(topo), u);
    var topo' := topo + [u];
    assert topo' == (topo + queue)[..|topo| + 1];
    forall k, e | 0 <= k < |topo'| && e in Elems(es) && e.dst == topo'[k] ensures e.src in topo'[..k] {
      assert topo'[..k] == topo[..k];
    }
    assert forall i | 0 <= i < |topo| :: topo[i] == (topo + queue)[i] != u;
    RoomForOne(ids, topo', topo + queue);
  }

  lemma RoomForOne(ids: set<int>, listed: seq<int>, all: seq<int>)
    requires NoDup(all) && listed <= all && forall v | v in all :: v in ids
    ensures |listed| <= |ids|
  {
    assert forall v | v in listed :: v in all;
    NoDupCardinality(listed);
    SubsetCardinality(Elems(listed), ids);
  }

  lemma DecrementIsPositive(es: seq<Edge>, done: set<int>, u: int, targets: seq<int>, j: nat)
    requires u !in done && targets == Successors(es, u) && j < |targets|
    ensures Pending(es, done, targets[j]) > multiset(targets[..j])[targets[j]]
  {
    PendingAfterVisit(es, done, u, targets[j]);
    assert targets == targets[..j] + [targets[j]] + targets[j + 1..];
  }

  lemma SortedExactlyWhenAcyclic(ids: set<int>, es: seq<Edge>, topo: seq<int>)
    requires forall e | e in es :: e.src in ids && e.dst in ids
    requires NoDup(topo) && ProducersFirst(Elems(es), topo)
    requires forall v :: v in topo <==> v in ids && Pending(es, Elems(topo), v) == 0
    ensures Elems(topo) <= ids
    ensures |topo| == |ids| <==> Acyclic(Elems(es))
    ensures |topo| == |ids| ==> Elems(topo) == ids
  {
    NoDupCardinality(topo);
    SubsetCardinality(Elems(topo), ids);
    var stuck := ids - Elems(topo);
    if forall v | v in ids :: v in topo {
      assert ids <= Elems(topo);
      assert Elems(topo) == ids;
      assert forall e | e in Elems(es) :: e in es && e.src in topo && e.dst in topo;
      TopologicalOrderMeansAcyclic(Elems(es), topo);
    } else {
      var v0 :| v0 in ids && v0 !in topo;
      assert v0 in stuck;
      forall v | v in stuck ensures HasPredecessorIn(Elems(es), stuck, v) {
        PendingZero(es, Elems(topo), v);
        var e :| e in es && e.dst == v && e.src !in Elems(topo);
        assert Edge(e.src, v) == e;
      }
      StuckSetHasCycle(Elems(es), stuck);
      assert Elems(topo) != ids;
    }
  }

  // ----- Longest weighted chain -----

  /** Position of the first maximum of `key` over `s`, as Python's `max(..., key=...)` picks it. */
  method FirstMax(s: seq<int>, key: map<int, nat>) returns (k: nat)
    requires s != [] && forall j | 0 <= j < |s| :: s[j] in key
    ensures k < |s|
    ensures forall j | 0 <= j < |s| :: key[s[j]] <= key[s[k]]
    ensures forall j | 0 <= j < k :: key[s[j]] < key[s[k]]
  {
    k := 0;
    for n := 1 to |s|
      invariant k < n
      invariant forall j | 0 <= j < n :: key[s[j]] <= key[s[k]]
      invariant forall j | 0 <= j < k :: key[s[j]] < key[s[k]]
    {
      if key[s[n]] > key[s[k]] {
        k := n;
      }
    }
  }

  ghost predicate BoundsChainsInto(es: set<Edge>, w: map<int, nat>, bound: nat, u: int) {
    forall c | IsChain(es, c) && c[|c| - 1] == u :: ChainWeight(w, c) <= bound
  }

  /** The back-pointer of `u` names an earlier job on an edge into `u` that accounts for `best[u]`. */
  ghost predicate BackPointerOk(es: set<Edge>, w: map<int, nat>, best: map<int, nat>, prev: map<int, Option<int>>,
                                earlier: seq<int>, u: int)
  {
    && u in best && u in prev
    && match prev[u]
       case None => best[u] == WeightOf(w, u)
       case Some(p) => p in earlier && p in best && Edge(p, u) in es && best[u] == WeightOf(w, u) + best[p]
  }

  lemma BoundExtends(es: set<Edge>, w: map<int, nat>, u: int, bound: nat)
    requires forall p | Edge(p, u) in es :: exists b: nat :: b <= bound && BoundsChainsInto(es, w, b, p)
    ensures BoundsChainsInto(es, w, WeightOf(w, u) + bound, u)
  {
    forall c | IsChain(es, c) && c[|c| - 1] == u ensures ChainWeight(w, c) <= WeightOf(w, u) + bound {
      var n := |c| - 1;
      if n > 0 {
        assert Edge(c[n - 1], c[n]) in es;
        assert IsChain(es, c[..n]);
      } else {
        assert c[..n] == [];
      }
    }
  }

  method BestChainTo(es: seq<Edge>, w: map<int, nat>, u: int, predsOfU: seq<int>, best: map<int, nat>)
    returns (total: nat, from: Option<int>)
    requires predsOfU == Predecessors(es, u)
    requires forall p | Edge(p, u) in es :: p in best && BoundsChainsInto(Elems(es), w, best[p], p)
    ensures BoundsChainsInto(Elems(es), w, total, u)
    ensures match from
            case None => total == WeightOf(w, u)
            case Some(p) => Edge(p, u) in es && total == WeightOf(w, u) + best[p]
  {
    PredecessorsAreSources(es, u);
    if predsOfU == [] {
      BoundExtends(Elems(es), w, u, 0);
      total, from := WeightOf(w, u), None;
    } else {
      assert forall j | 0 <= j < |predsOfU| :: predsOfU[j] in predsOfU && Edge(predsOfU[j], u) in es;
      var m := FirstMax(predsOfU, best);
      var p0 := predsOfU[m];
      assert p0 in predsOfU;
      forall p | Edge(p, u) in Elems(es)
        ensures exists b: nat :: b <= best[p0] && BoundsChainsInto(Elems(es), w, b, p)
      {
        assert p in predsOfU;
        assert best[p] <= best[p0];
      }
      BoundExtends(Elems(es), w, u, best[p0]);
      total, from := WeightOf(w, u) + best[p0], Some(p0);
    }
  }

  ghost predicate BackPointersOk(es: set<Edge>, w: map<int, nat>, best: map<int, nat>, prev: map<int, Option<int>>,
                                 topo: seq<int>)
  {
    forall k | 0 <= k < |topo| :: BackPointerOk(es, w, best, prev, topo[..k], topo[k])
  }

  lemma BackPointersExtend(es: set<Edge>, w: map<int, nat>, best: map<int, nat>, prev: map<int, Option<int>>,
                           topo: seq<int>, u: int, total: nat, from: Option<int>)
    requires BackPointersOk(es, w, best, prev, topo) && u !in topo
    requires match from
             case None => total == WeightOf(w, u)
             case Some(p) => p in topo && p in best && Edge(p, u) in es && total == WeightOf(w, u) + best[p]
    ensures BackPointersOk(es, w, best[u := total], prev[u := from], topo + [u])
  {
    var topo' := topo + [u];
    forall k | 0 <= k < |topo'|
      ensures BackPointerOk(es, w, best[u := total], prev[u := from], topo'[..k], topo'[k])
    {
      assert topo'[..k] == topo[..k];
      if k < |topo| {
        assert BackPointerOk(es, w, best, prev, topo[..k], topo[k]);
      } else {
        assert topo[..k] == topo;
      }
    }
  }

  ghost predicate BoundsAll(es: set<Edge>, w: map<int, nat>, best: map<int, nat>) {
    forall u | u in best :: BoundsChainsInto(es, w, best[u], u)
  }

  lemma BoundsExtend(es: set<Edge>, w: map<int, nat>, best: map<int, nat>, u: int, total: nat)
    requires BoundsAll(es, w, best) && BoundsChainsInto(es, w, total, u)
    ensures BoundsAll(es, w, best[u := total])
  {
    var best' := best[u := total];
    forall v | v in best' ensures BoundsChainsInto(es, w, best'[v], v) {
      assert v == u || (v in best && best'[v] == best[v]);
    }
  }

  /** `best` and `prev` are settled for exactly the ids listed so far. */
  ghost predicate LongestFor(es: set<Edge>, w: map<int, nat>, best: map<int, nat>, prev: map<int, Option<int>>,
                             listed: seq<int>)
  {
    && best.Keys == Elems(listed)
    && BoundsAll(es, w, best)
    && BackPointersOk(es, w, best, prev, listed)
  }

  lemma ProducersSettled(es: seq<Edge>, w: map<int, nat>, best: map<int, nat>, prev: map<int, Option<int>>,
                         topo: seq<int>, n: nat)
    requires ProducersFirst(Elems(es), topo) && n < |topo|
    requires LongestFor(Elems(es), w, best, prev, topo[..n])
    ensures forall p | Edge(p, topo[n]) in es :: p in best && BoundsChainsInto(Elems(es), w, best[p], p)
  {
    forall p | Edge(p, topo[n]) in es ensures p in best {
      assert Edge(p, topo[n]) in Elems(es);
      assert p in Elems(topo[..n]);
    }
  }

  lemma LongestExtends(es: seq<Edge>, w: map<int, nat>, best: map<int, nat>, prev: map<int, Option<int>>,
                       listed: seq<int>, u: int, total: nat, from: Option<int>)
    requires LongestFor(Elems(es), w, best, prev, listed) && u !in listed
    requires BoundsChainsInto(Elems(es), w, total, u)
    requires match from
             case None => total == WeightOf(w, u)
             case Some(p) => p in best && Edge(p, u) in es && total == WeightOf(w, u) + best[p]
    ensures LongestFor(Elems(es), w, best[u := total], prev[u := from], listed + [u])
  {
    ElemsAppend(listed, u);
    assert from.Some? ==> from.value in Elems(listed);
    var edges := Elems(es);
    assert BackPointersOk(edges, w, best[u := total], prev[u := from], listed + [u]) by {
      BackPointersExtend(edges, w, best, prev, listed, u, total, from);
    }
    BoundsExtend(edges, w, best, u, total);
  }

  lemma NextIsNew(s: seq<int>, n: nat)
    requires NoDup(s) && n < |s|
    ensures s[n] !in s[..n] && s[..n + 1] == s[..n] + [s[n]]
  {}

  /** One round of the loop: the best chain into the next id of the order. */
  method LongestStep(es: seq<Edge>, weight: map<int, nat>, topo: seq<int>, n: nat, predsOfU: seq<int>,
                     best0: map<int, nat>, prev0: map<int, Option<int>>)
    returns (best: map<int, nat>, prev: map<int, Option<int>>)
    requires NoDup(topo) && ProducersFirst(Elems(es), topo) && n < |topo|
    requires topo[n] in prev0 && predsOfU == Predecessors(es, topo[n])
    requires LongestFor(Elems(es), weight, best0, prev0, topo[..n])
    ensures prev.Keys == prev0.Keys && LongestFor(Elems(es), weight, best, prev, topo[..n + 1])
  {
    var u := topo[n];
    NextIsNew(topo, n);
    ProducersSettled(es, weight, best0, prev0, topo, n);
    var total, from := BestChainTo(es, weight, u, predsOfU, best0);
    LongestExtends(es, weight, best0, prev0, topo[..n], u, total, from);
    best, prev := best0[u := total], prev0[u := from];
  }

  method LongestInto(ids: set<int>, es: seq<Edge>, preds: map<int, seq<int>>, weight: map<int, nat>, topo: seq<int>)
    returns (best: map<int, nat>, prev: map<int, Option<int>>)
    requires NoDup(topo) && Elems(topo) == ids && ProducersFirst(Elems(es), topo)
    requires preds.Keys == ids && forall v | v in ids :: preds[v] == Predecessors(es, v)
    ensures best.Keys == prev.Keys == ids
    ensures forall u | u in ids :: BoundsChainsInto(Elems(es), weight, best[u], u)
    ensures BackPointersOk(Elems(es), weight, best, prev, topo)
  {
    best := map[];
    prev := map i | i in ids :: None;
    for n := 0 to |topo|
      invariant prev.Keys == ids
      invariant LongestFor(Elems(es), weight, best, prev, topo[..n])
    {
      assert topo[n] in Elems(topo);
      best, prev := LongestStep(es, weight, topo, n, preds[topo[n]], best, prev);
    }
    assert topo[..|topo|] == topo;
  }

  function Reversed(s: seq<int>): (r: seq<int>)
    ensures |r| == |s| && forall x :: x in r <==> x in s
  {
    if s == [] then []
    else
      assert s == s[..|s| - 1] + [s[|s| - 1]];
      [s[|s| - 1]] + Reversed(s[..|s| - 1])
  }

  /** The ids collected so far, reversed, are a chain to `end`; `next` is one more step back from them. */
  ghost predicate WalkedBack(es: set<Edge>, pathRev: seq<int>, end: int, next: Option<int>) {
    && (pathRev == [] ==> next == Some(end))
    && (pathRev != [] ==>
          && IsChain(es, Reversed(pathRev)) && Reversed(pathRev)[|pathRev| - 1] == end
          && (next.Some? ==> Edge(next.value, Reversed(pathRev)[0]) in es))
  }

  lemma WalkBackStep(es: set<Edge>, w: map<int, nat>, pathRev: seq<int>, end: int, u: int, next: Option<int>)
    requires WalkedBack(es, pathRev, end, Some(u))
    requires next.Some? ==> Edge(next.value, u) in es
    ensures WalkedBack(es, pathRev + [u], end, next)
    ensures ChainWeight(w, Reversed(pathRev + [u])) == WeightOf(w, u) + ChainWeight(w, Reversed(pathRev))
  {
    assert (pathRev + [u])[..|pathRev|] == pathRev;
    ChainWeightPrepend(w, u, Reversed(pathRev));
  }

  /** The walk so far, `i` being the place of the next id in the topological order. */
  ghost predicate Walking(es: set<Edge>, w: map<int, nat>, topo: seq<int>, best: map<int, nat>, end: int,
                          pathRev: seq<int>, cur: Option<int>, i: int)
  {
    && Elems(pathRev) <= Elems(topo) == best.Keys && end in best
    && WalkedBack(es, pathRev, end, cur)
    && (cur.Some? ==> 0 <= i < |topo| && cur.value == topo[i] && cur.value in best && |pathRev| + i < |topo|)
    && best[end] == ChainWeight(w, Reversed(pathRev)) + if cur.Some? then best[cur.value] else 0
  }

  lemma WalkingStep(es: set<Edge>, w: map<int, nat>, topo: seq<int>, best: map<int, nat>, prev: map<int, Option<int>>,
                    end: int, pathRev: seq<int>, u: int, i: int)
      returns (i': int)
    requires Walking(es, w, topo, best, end, pathRev, Some(u), i) && prev.Keys == best.Keys
    requires BackPointersOk(es, w, best, prev, topo)
    ensures Walking(es, w, topo, best, end, pathRev + [u], prev[u], i')
  {
    assert BackPointerOk(es, w, best, prev, topo[..i], u);
    WalkBackStep(es, w, pathRev, end, u, prev[u]);
    ElemsAppend(pathRev, u);
    i' := i;
    if prev[u].Some? {
      i' :| 0 <= i' < i && topo[i'] == prev[u].value;
    }
  }

  /** Follows the back-pointers from `end`; the `visited_guard` bound never cuts the walk short. */
  method WalkBack(ids: set<int>, es: seq<Edge>, weight: map<int, nat>, topo: seq<int>, best: map<int, nat>,
                  prev: map<int, Option<int>>, end: int)
    returns (path: seq<int>)
    requires NoDup(topo) && Elems(topo) == ids && best.Keys == prev.Keys == ids && end in ids
    requires BackPointersOk(Elems(es), weight, best, prev, topo)
    ensures IsChain(Elems(es), path) && Elems(path) <= ids && path[|path| - 1] == end
    ensures ChainWeight(weight, path) == best[end]
  {
    ghost var i := WalkStarts(Elems(es), weight, topo, best, end);
    var pathRev: seq<int> := [];
    var cur := Some(end);
    var visitedGuard := 0;
    while cur.Some? && visitedGuard < |ids| + 2
      invariant visitedGuard == |pathRev|
      invariant Walking(Elems(es), weight, topo, best, end, pathRev, cur, i)
    {
      var u := cur.value;
      i := WalkingStep(Elems(es), weight, topo, best, prev, end, pathRev, u, i);
      pathRev := pathRev + [u];
      cur := prev[u];
      visitedGuard := visitedGuard + 1;
    }
    WalkEnds(Elems(es), weight, topo, best, end, pathRev, cur, i);
    path := Reversed(pathRev);
  }

  lemma WalkStarts(es: set<Edge>, w: map<int, nat>, topo: seq<int>, best: map<int, nat>, end: int) returns (i: int)
    requires NoDup(topo) && Elems(topo) == best.Keys && end in best
    ensures Walking(es, w, topo, best, end, [], Some(end), i) && |topo| == |best.Keys|
  {
    NoDupCardinality(topo);
    assert end in Elems(topo);
    i :| 0 <= i < |topo| && topo[i] == end;
  }

  lemma WalkEnds(es: set<Edge>, w: map<int, nat>, topo: seq<int>, best: map<int, nat>, end: int, pathRev: seq<int>,
                 cur: Option<int>, i: int)
    requires Walking(es, w, topo, best, end, pathRev, cur, i) && (cur.None? || |pathRev| > |topo|)
    ensures IsChain(es, Reversed(pathRev)) && Elems(Reversed(pathRev)) <= Elems(topo)
    ensures Reversed(pathRev)[|pathRev| - 1] == end && ChainWeight(w, Reversed(pathRev)) == best[end]
  {
    assert Elems(Reversed(pathRev)) == Elems(pathRev);
  }

  lemma NonEmptyOrder(ids: set<int>, order: seq<int>)
    requires ids != {} && Elems(order) == ids
    ensures order != [] && forall j | 0 <= j < |order| :: order[j] in ids
  {
    assert Member(ids) in Elems(order);
    assert forall j | 0 <= j < |order| :: order[j] in Elems(order);
  }

  /** A job at which a heaviest chain ends. */
  method HeaviestEnd(ids: set<int>, best: map<int, nat>) returns (end: int)
    requires ids != {} && best.Keys == ids
    ensures end in ids && forall u | u in ids :: best[u] <= best[end]
  {
    var order := AnyOrder(ids);
    NonEmptyOrder(ids, order);
    var m := FirstMax(order, best);
    end := order[m];
    forall u | u in ids ensures best[u] <= best[end] {
      assert u in Elems(order);
    }
  }

  method CriticalPathOf(ids: set<int>, es: seq<Edge>, weight: map<int, nat>) returns (r: CriticalPath)
    requires ids != {} && weight.Keys == ids
    requires forall e | e in es :: e.src in ids && e.dst in ids
    ensures r == Cyclic <==> !Acyclic(Elems(es))
    ensures r != NoJobs
    ensures r.Longest? ==> IsLongestChain(Elems(es), ids, weight, r.jobIds, r.totalMs)
  {
    var indeg, succ, preds := Adjacency(ids, es);
    var topo := TopoSort(ids, es, indeg, succ);
    if |topo| != |ids| {
      return Cyclic;
    }
    var best, prev := LongestInto(ids, es, preds, weight, topo);
    var end := HeaviestEnd(ids, best);
    ChainsBounded(es, ids, weight, best, end);
    var path := WalkBack(ids, es, weight, topo, best, prev, end);
    r := Longest(path, best[end]);
  }

  /** A dependency chain of the group whose weights sum to `total` and that no chain outweighs. */
  ghost predicate IsLongestChain(es: set<Edge>, ids: set<int>, w: map<int, nat>, path: seq<int>, total: nat) {
    && IsChain(es, path) && Elems(path) <= ids
    && ChainWeight(w, path) == total
    && forall c | IsChain(es, c) :: ChainWeight(w, c) <= total
  }

  lemma ChainsBounded(es: seq<Edge>, ids: set<int>, w: map<int, nat>, best: map<int, nat>, end: int)
    requires forall e | e in es :: e.src in ids && e.dst in ids
    requires w.Keys == best.Keys == ids && end in ids
    requires forall u | u in ids :: BoundsChainsInto(Elems(es), w, best[u], u) && best[u] <= best[end]
    ensures forall c | IsChain(Elems(es), c) :: ChainWeight(w, c) <= best[end]
  {
    forall c | IsChain(Elems(es), c) ensures ChainWeight(w, c) <= best[end] {
      var n := |c| - 1;
      if n == 0 && c[0] !in ids {
        assert c[..0] == [];
      } else {
        if n > 0 {
          assert Edge(c[n - 1], c[n]) in es;
        }
        assert BoundsChainsInto(Elems(es), w, best[c[n]], c[n]);
      }
    }
  }

  method BottleneckOf(path: seq<int>, weight: map<int, nat>, total: nat) returns (b: Bottleneck)
    requires path != [] && forall j | 0 <= j < |path| :: path[j] in weight
    ensures b.jobId in path && b.jobId in weight && b.totalLatencyMs == weight[b.jobId]
    ensures forall j | 0 <= j < |path| :: weight[path[j]] <= b.totalLatencyMs
    ensures IsFirstHeaviest(weight, path, b.jobId)
    ensures b.share == if total > 0 then Some(b.totalLatencyMs as real / total as real) else None
  {
    var k := FirstMax(path, weight);
    var w := weight[path[k]];
    assert FirstHeaviestAt(weight, path, k);
    b := Bottleneck(path[k], w, if total > 0 then Some(w as real / total as real) else None);
  }

  ghost predicate FirstHeaviestAt(w: map<int, nat>, path: seq<int>, k: nat) {
    && k < |path|
    && (forall j | 0 <= j < |path| :: WeightOf(w, path[j]) <= WeightOf(w, path[k]))
    && forall j | 0 <= j < k :: WeightOf(w, path[j]) < WeightOf(w, path[k])
  }

  /** The job stands at the first place of the path that no other place outweighs. */
  ghost predicate IsFirstHeaviest(w: map<int, nat>, path: seq<int>, id: int) {
    exists k: nat :: FirstHeaviestAt(w, path, k) && path[k] == id
  }

  // ----- Failure impact -----

  function GroupEdges(group: map<int, JobRow>): set<Edge> {
    set v | v in group && group[v].dependsOn.Some? :: Edge(group[v].dependsOn.value, v)
  }

  lemma ReachesStep(es: set<Edge>, u: int, v: int, w: int)
    requires Reaches(es, u, v) && Edge(v, w) in es
    ensures Reaches(es, u, w)
  {
    var p :| ChainFromTo(es, p, u, v);
    assert ChainFromTo(es, p + [w], u, w);
  }

  /** Every seen id is reachable, and the consumers of every id already taken off the queue are seen. */
  ghost predicate Searching(es: set<Edge>, all: set<int>, start: int, out: seq<int>, q: seq<int>, seen: set<int>,
                            scanning: set<int>)
  {
    && seen == {start} + Elems(out) && NoDup(out) && start !in out
    && NoDup(q) && Elems(q) <= seen <= all
    && (forall x | x in seen :: Reaches(es, start, x))
    && (forall e | e in es && e.src in seen && e.src !in q && e.src !in scanning :: e.dst in seen)
  }

  lemma SearchingDiscovers(es: set<Edge>, all: set<int>, start: int, out: seq<int>, q: seq<int>, seen: set<int>,
                           u: int, v: int)
    requires Searching(es, all, start, out, q, seen, {u})
    requires Edge(u, v) in es && u in seen && v !in seen && v in all
    ensures Searching(es, all, start, out + [v], q + [v], seen + {v}, {u})
    ensures |seen + {v}| - |q + [v]| == |seen| - |q|
  {
    ReachesStep(es, start, u, v);
    ElemsAppend(out, v);
    ElemsAppend(q, v);
    assert v !in out && v !in q by {
      assert v in out ==> v in Elems(out);
      assert v in q ==> v in Elems(q);
    }
  }

  method ScanConsumers(group: map<int, JobRow>, ghost all: set<int>, order: seq<int>, start: int, u: int,
                       out0: seq<int>, q0: seq<int>, seen0: set<int>)
    returns (out: seq<int>, q: seq<int>, seen: set<int>)
    requires Elems(order) == group.Keys <= all && u in seen0
    requires Searching(GroupEdges(group), all, start, out0, q0, seen0, {u})
    ensures Searching(GroupEdges(group), all, start, out, q, seen, {})
    ensures |seen| - |q| == |seen0| - |q0|
  {
    out, q, seen := out0, q0, seen0;
    ghost var es := GroupEdges(group);
    for n := 0 to |order|
      invariant Searching(es, all, start, out, q, seen, {u})
      invariant |seen| - |q| == |seen0| - |q0| && u in seen
      invariant forall k | 0 <= k < n && Edge(u, order[k]) in es :: order[k] in seen
    {
      var v := order[n];
      assert v in Elems(order);
      assert Edge(u, v) in es <==> group[v].dependsOn == Some(u);
      if group[v].dependsOn == Some(u) && v !in seen {
        SearchingDiscovers(es, all, start, out, q, seen, u, v);
        out, q, seen := out + [v], q + [v], seen + {v};
      }
    }
    forall e | e in es && e.src == u ensures e.dst in seen {
      assert e.dst in Elems(order);
      assert e == Edge(u, e.dst);
    }
  }

  /** Breadth-first search over the consumers of `start`; it terminates on cyclic groups too. */
  method Downstream(group: map<int, JobRow>, start: int) returns (out: seq<int>)
    ensures NoDup(out)
    ensures forall v :: v in out <==> v != start && Reaches(GroupEdges(group), start, v)
  {
    ghost var es, all := GroupEdges(group), group.Keys + {start};
    var order := AnyOrder(group.Keys);
    out := [];
    var q, seen := [start], {start};
    assert ChainFromTo(es, [start], start, start);
    while q != []
      invariant Searching(es, all, start, out, q, seen, {})
      decreases |all| - (|seen| - |q|)
    {
      var u := q[0];
      assert u in Elems(q);
      NextIsInRange(es, all, start, out, q, seen);
      out, q, seen := ScanConsumers(group, all, order, start, u, out, q[1..], seen);
    }
    SearchComplete(es, all, start, out, seen);
  }

  lemma NextIsInRange(es: set<Edge>, all: set<int>, start: int, out: seq<int>, q: seq<int>, seen: set<int>)
    requires q != [] && Searching(es, all, start, out, q, seen, {})
    ensures Searching(es, all, start, out, q[1..], seen, {q[0]})
    ensures |q| <= |seen| <= |all|
  {
    SubsetCardinality(seen, all);
    NoDupCardinality(q);
    SubsetCardinality(Elems(q), seen);
    assert q == [q[0]] + q[1..];
    forall x | x in Elems(q[1..]) ensures x in seen {
      assert x in Elems(q);
    }
  }

  lemma SearchComplete(es: set<Edge>, all: set<int>, start: int, out: seq<int>, seen: set<int>)
    requires Searching(es, all, start, out, [], seen, {})
    ensures forall v :: v in out <==> v != start && Reaches(es, start, v)
  {
    forall v ensures v in out <==> v != start && Reaches(es, start, v) {
      assert v in seen <==> v == start || v in Elems(out);
      if Reaches(es, start, v) {
        var p :| ChainFromTo(es, p, start, v);
        ClosedSetContainsChain(es, seen, p);
      }
    }
  }

  // ----- The whole report -----

  function Reported(impact: seq<Impact>): set<int> {
    set e | e in impact :: e.failedJobId
  }

  /** Each failed job of the group is reported once, with exactly the other jobs that depend on it. */
  ghost predicate ImpactExact(group: map<int, JobRow>, impact: seq<Impact>) {
    && Reported(impact) == (set i | i in group && group[i].status in FAILED_STATUSES)
    && (forall k, l | 0 <= k < l < |impact| :: impact[k].failedJobId != impact[l].failedJobId)
    && (forall k | 0 <= k < |impact| :: ImpactEntryExact(group, impact[k]))
  }

  ghost predicate ImpactEntryExact(group: map<int, JobRow>, entry: Impact) {
    && NoDup(entry.blocked)
    && forall v :: v in entry.blocked <==> v != entry.failedJobId && Reaches(GroupEdges(group), entry.failedJobId, v)
  }

  lemma ReportOne(impact: seq<Impact>, e: Impact)
    ensures Reported(impact + [e]) == Reported(impact) + {e.failedJobId}
    ensures forall k | 0 <= k < |impact| :: impact[k].failedJobId in Reported(impact)
  {
    assert forall x :: x in impact + [e] <==> x in impact || x == e;
    assert forall k | 0 <= k < |impact| :: impact[k] in impact;
  }

  method FailureImpact(group: map<int, JobRow>) returns (impact: seq<Impact>)
    ensures ImpactExact(group, impact)
  {
    var order := AnyOrder(group.Keys);
    impact := [];
    for n := 0 to |order|
      invariant Reported(impact) == set i | i in Elems(order[..n]) && group[i].status in FAILED_STATUSES
      invariant forall k, l | 0 <= k < l < |impact| :: impact[k].failedJobId != impact[l].failedJobId
      invariant forall k | 0 <= k < |impact| :: ImpactEntryExact(group, impact[k])
    {
      assert order[n] in Elems(order) && order[n] !in order[..n];
      assert order[..n + 1] == order[..n] + [order[n]];
      ElemsAppend(order[..n], order[n]);
      assert order[n] !in Elems(order[..n]);
      if group[order[n]].status in FAILED_STATUSES {
        var blocked := Downstream(group, order[n]);
        ReportOne(impact, Impact(order[n], blocked));
        impact := impact + [Impact(order[n], blocked)];
      }
    }
    assert order[..|order|] == order;
  }

  method BuildStageJobGraph(items: seq<JobRow>) returns (r: Report, group: map<int, JobRow>)
    ensures IsGroup(items, group)
    ensures items == [] ==> r == Report([], NoJobs, None, [])
    ensures r.edges == EdgesOf(items, group.Keys) && Elems(r.edges) == DependsOnEdges(items, group.Keys)
    ensures items != [] ==> (r.criticalPath == Cyclic <==> !Acyclic(Elems(r.edges))) && r.criticalPath != NoJobs
    ensures r.criticalPath.Longest? ==>
              var w := map i | i in group :: LatencyMs(group[i]);
              && IsLongestChain(Elems(r.edges), group.Keys, w, r.criticalPath.jobIds, r.criticalPath.totalMs)
              && r.bottleneck.Some? && IsBottleneck(w, r.criticalPath, r.bottleneck.value)
    ensures !r.criticalPath.Longest? ==> r.bottleneck == None
    ensures ImpactExact(group, r.failureImpact)
  {
    group := GroupById(items);
    if items == [] {
      assert group == map[];
      return Report([], NoJobs, None, []), group;
    }
    assert items[0].id in group;
    var ids := group.Keys;
    var edges := CollectEdges(items, ids);
    forall e | e in edges ensures e.src in ids && e.dst in ids {
      assert e in Elems(edges);
    }
    var weight := map i | i in ids :: LatencyMs(group[i]);
    var critical := CriticalPathOf(ids, edges, weight);
    var bottleneck := None;
    if critical.Longest? {
      forall j | 0 <= j < |critical.jobIds| ensures critical.jobIds[j] in weight {
        assert critical.jobIds[j] in Elems(critical.jobIds);
      }
      var b := BottleneckOf(critical.jobIds, weight, critical.totalMs);
      bottleneck := Some(b);
    }
    var impact := FailureImpact(group);
    r := Report(edges, critical, bottleneck, impact);
  }

  /** The first heaviest job of the path, with its share of the path's total. */
  ghost predicate IsBottleneck(w: map<int, nat>, path: CriticalPath, b: Bottleneck)
    requires path.Longest?
  {
    && IsFirstHeaviest(w, path.jobIds, b.jobId) && b.totalLatencyMs == WeightOf(w, b.jobId)
    && b.share == if path.totalMs > 0 then Some(b.totalLatencyMs as real / path.totalMs as real) else None
  }

  /** When no id repeats, what blocks is decided by the same edges the critical path uses. */
  lemma ImpactFollowsReportedEdges(items: seq<JobRow>, group: map<int, JobRow>, i: int, v: int)
    requires group.Keys == set r | r in items :: r.id
    requires forall r | r in items :: group[r.id] == r
    requires i in group
    ensures Reaches(GroupEdges(group), i, v) <==> Reaches(DependsOnEdges(items, group.Keys), i, v)
  {
    var all, inGroup := GroupEdges(group), DependsOnEdges(items, group.Keys);
    forall e | e in inGroup ensures e in all {
      var r :| r in items && r.dependsOn.Some? && r.dependsOn.value in group.Keys && e == Edge(r.dependsOn.value, r.id);
      assert group[r.id] == r;
    }
    if Reaches(inGroup, i, v) {
      var p :| ChainFromTo(inGroup, p, i, v);
      assert ChainFromTo(all, p, i, v);
    }
    if Reaches(all, i, v) {
      var p :| ChainFromTo(all, p, i, v);
      ChainStaysInGroup(items, group, p);
      assert ChainFromTo(inGroup, p, i, v);
    }
  }

  lemma {:induction false} ChainStaysInGroup(items: seq<JobRow>, group: map<int, JobRow>, p: seq<int>)
    requires group.Keys == set r | r in items :: r.id
    requires forall r | r in items :: group[r.id] == r
    requires IsChain(GroupEdges(group), p) && p[0] in group
    ensures IsChain(DependsOnEdges(items, group.Keys), p) && p[|p| - 1] in group
  {
    var n := |p| - 1;
    if n > 0 {
      ChainStaysInGroup(items, group, p[..n]);
      assert Edge(p[n - 1], p[n]) in GroupEdges(group);
      var r :| r in items && r.id == p[n];
      assert group[r.id] == r;
      assert Edge(p[n - 1], p[n]) == Edge(r.dependsOn.value, r.id);
    }
  }
}
