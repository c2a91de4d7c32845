/** The merge order of an integration run: memoised longest-dependency-chain layers and
    the candidate queue sorted by them. */
module DependencyOrder {
  import opened Common
  import opened Graphs
  import opened Sorting

  type WorkItemId = int

  datatype LayerError = DependencyCycle

  datatype CandidateRow = CandidateRow(item: WorkItemId, sourceHead: nat, proposalOrder: nat, slug: string)

  datatype Candidate = Candidate(row: CandidateRow, layer: nat)

  function Saturate(n: nat): nat {
    if n < U32_MAX then n else U32_MAX
  }

  function SaturatingAddOne(n: nat): nat {
    if n < U32_MAX then n + 1 else U32_MAX
  }

  ghost function EdgeSet(edges: seq<(WorkItemId, WorkItemId)>): set<(WorkItemId, WorkItemId)> {
    set e | e in edges
  }

  /** The layer is the length of the longest dependency chain, capped at 32 bits. */
  ghost predicate IsLayer(g: set<(WorkItemId, WorkItemId)>, item: WorkItemId, layer: nat) {
    exists n: nat :: LongestChain(g, item, n) && layer == Saturate(n)
  }

  /** The two collections that one traversal mutates. */
  class LayerWalk {
    var memo: map<WorkItemId, nat>
    var visiting: set<WorkItemId>

    constructor ()
      ensures memo == map[] && visiting == {}
    {
      memo, visiting := map[], {};
    }

    ghost predicate MemoCorrect(g: set<(WorkItemId, WorkItemId)>)
      reads this
    {
      forall k :: k in memo ==> IsLayer(g, k, memo[k])
    }

    /** `path` is the chain of callers; its items are exactly the ones being visited. */
    method DependencyLayer(item: WorkItemId, edges: seq<(WorkItemId, WorkItemId)>,
                           ghost path: seq<WorkItemId>, ghost universe: set<WorkItemId>)
      returns (r: Result<nat, LayerError>)
      requires MemoCorrect(EdgeSet(edges))
      requires IsChain(EdgeSet(edges), path + [item])
      requires visiting == set v | v in path
      requires item in universe && forall e :: e in edges ==> e.0 in universe && e.1 in universe
      modifies this
      ensures MemoCorrect(EdgeSet(edges))
      ensures forall k :: k in old(memo) ==> k in memo && memo[k] == old(memo[k])
      ensures r.Ok? ==> IsLayer(EdgeSet(edges), item, r.value) && visiting == old(visiting)
      ensures r.Err? ==> ReachesCycle(EdgeSet(edges), (path + [item])[0])
      decreases universe - visiting
    {
      ghost var g := EdgeSet(edges);
      hide ReachesCycle, Repeats, IsLayer;
      if item in memo {
        return Ok(memo[item]);
      }
      if item in visiting {
        VisitedAgain(g, path, item);
        return Err(DependencyCycle);
      }
      visiting := visiting + {item};
      var layer := 0;
      ghost var n: nat, longest := 0, [item];
      for k := 0 to |edges|
        invariant MemoCorrect(g)
        invariant forall k :: k in old(memo) ==> k in memo && memo[k] == old(memo[k])
        invariant visiting == old(visiting) + {item}
        invariant layer == Saturate(n)
        invariant ChainFrom(g, item, longest) && |longest| == n + 1
        invariant forall p :: ChainFrom(g, item, p) && |p| > 1 && (item, p[1]) in edges[..k] ==> |p| <= n + 1
      {
        var (source, dependency) := edges[k];
        assert edges[..k + 1] == edges[..k] + [edges[k]];
        if source == item {
          assert edges[k] in g;
          ExtendPath(g, path, item, dependency);
          var below := DependencyLayer(dependency, edges, path + [item], universe);
          if below.Err? {
            assert (path + [item] + [dependency])[0] == (path + [item])[0];
            return below;
          }
          ghost var m, tail := EdgeTaken(g, item, dependency, below.value);
          if layer < SaturatingAddOne(below.value) {
            layer := SaturatingAddOne(below.value);
          }
          if n < m + 1 {
            n, longest := m + 1, [item] + tail;
          }
        }
      }
      assert edges[..|edges|] == edges;
      LayerFound(g, item, edges, n, longest);
      visiting := visiting - {item};
      memo := memo[item := layer];
      return Ok(layer);
    }
  }

  /** What the layer of a dependency says about chains through it. */
  lemma EdgeTaken(g: set<(WorkItemId, WorkItemId)>, item: WorkItemId, dependency: WorkItemId, below: nat)
    returns (m: nat, tail: seq<WorkItemId>)
    requires IsLayer(g, dependency, below) && (item, dependency) in g
    ensures below == Saturate(m) && |tail| == m + 1 && ChainFrom(g, item, [item] + tail)
    ensures forall p :: ChainFrom(g, item, p) && |p| > 1 && p[1] == dependency ==> |p| <= m + 2
  {
    m :| LongestChain(g, dependency, m) && below == Saturate(m);
    tail :| ChainFrom(g, dependency, tail) && |tail| == m + 1;
    PrependBound(g, item, dependency, m);
  }

  lemma LayerFound(g: set<(WorkItemId, WorkItemId)>, item: WorkItemId, edges: seq<(WorkItemId, WorkItemId)>, n: nat, longest: seq<WorkItemId>)
    requires g == EdgeSet(edges) && ChainFrom(g, item, longest) && |longest| == n + 1
    requires forall p :: ChainFrom(g, item, p) && |p| > 1 && (item, p[1]) in edges ==> |p| <= n + 1
    ensures IsLayer(g, item, Saturate(n))
  {
    forall p | ChainFrom(g, item, p) ensures |p| <= n + 1 {
      if |p| > 1 { assert (p[0], p[1]) in g; }
    }
    assert LongestChain(g, item, n);
  }

  lemma PrependBound(g: set<(WorkItemId, WorkItemId)>, item: WorkItemId, next: WorkItemId, m: nat)
    requires Bounded(g, next, m) && (item, next) in g
    ensures forall p :: ChainFrom(g, item, p) && |p| > 1 && p[1] == next ==> |p| <= m + 2
    ensures forall t :: ChainFrom(g, next, t) ==> ChainFrom(g, item, [item] + t)
  {
    forall p | ChainFrom(g, item, p) && |p| > 1 && p[1] == next ensures |p| <= m + 2 {
      assert ChainFrom(g, next, p[1..]);
    }
  }

  /** Queue order: layer, then proposal order, then slug. */
  predicate CandidateLe(a: Candidate, b: Candidate) {
    a.layer < b.layer
    || (a.layer == b.layer
        && (a.row.proposalOrder < b.row.proposalOrder
            || (a.row.proposalOrder == b.row.proposalOrder && TextLe(a.row.slug, b.row.slug))))
  }

  lemma CandidateOrder()
    ensures TotalPreorder(CandidateLe)
  {
    forall a: Candidate, b: Candidate ensures CandidateLe(a, b) || CandidateLe(b, a) {
      TextLeTotal(a.row.slug, b.row.slug);
    }
    forall a: Candidate, b: Candidate, c: Candidate | CandidateLe(a, b) && CandidateLe(b, c)
      ensures CandidateLe(a, c)
    {
      if TextLe(a.row.slug, b.row.slug) && TextLe(b.row.slug, c.row.slug) {
        TextLeTransitive(a.row.slug, b.row.slug, c.row.slug);
      }
    }
  }

  function Retained(rows: seq<CandidateRow>, items: set<WorkItemId>): seq<CandidateRow> {
    Matching(rows, (row: CandidateRow) => row.item in items)
  }

  ghost predicate Labels(g: set<(WorkItemId, WorkItemId)>, rows: seq<CandidateRow>, labelled: seq<Candidate>) {
    |labelled| == |rows|
    && forall i :: 0 <= i < |rows| ==> labelled[i].row == rows[i] && IsLayer(g, rows[i].item, labelled[i].layer)
  }

  /** The queue holds each row of a retained item once, labelled with its layer, in queue order. */
  ghost predicate IsQueue(g: set<(WorkItemId, WorkItemId)>, rows: seq<CandidateRow>, items: set<WorkItemId>,
                          queue: seq<Candidate>) {
    SortedBy(queue, CandidateLe)
    && exists labelled ::
         Labels(g, Retained(rows, items), labelled)
         && multiset(queue) == multiset(labelled)
  }

  /** Every row with its layer; the first cycle met ends the query. The memo is shared. */
  method Label(rows: seq<CandidateRow>, edges: seq<(WorkItemId, WorkItemId)>) returns (r: Result<seq<Candidate>, LayerError>)
    ensures r.Err? ==> exists i :: 0 <= i < |rows| && ReachesCycle(EdgeSet(edges), rows[i].item)
    ensures r.Ok? ==> Labels(EdgeSet(edges), rows, r.value)
  {
    ghost var g := EdgeSet(edges);
    ghost var universe := (set e | e in edges :: e.0) + (set e | e in edges :: e.1) + (set row | row in rows :: row.item);
    var walk := new LayerWalk();
    var collected: seq<Candidate> := [];
    for k := 0 to |rows|
      invariant fresh(walk) && walk.MemoCorrect(g)
      invariant Labels(g, rows[..k], collected)
    {
      walk.visiting := {};
      var layer := walk.DependencyLayer(rows[k].item, edges, [], universe);
      if layer.Err? {
        assert ([] + [rows[k].item])[0] == rows[k].item;
        return Err(layer.error);
      }
      collected := collected + [Candidate(rows[k], layer.value)];
    }
    assert rows[..|rows|] == rows;
    return Ok(collected);
  }

  lemma LabelledReachesNoCycle(g: set<(WorkItemId, WorkItemId)>, rows: seq<CandidateRow>, labelled: seq<Candidate>, i: nat)
    requires Labels(g, rows, labelled) && i < |rows|
    ensures !ReachesCycle(g, rows[i].item)
  {
    var n: nat :| LongestChain(g, rows[i].item, n) && labelled[i].layer == Saturate(n);
    BoundedReachesNoCycle(g, rows[i].item, n);
  }

  method Retain(labelled: seq<Candidate>, items: set<WorkItemId>, ghost g: set<(WorkItemId, WorkItemId)>, ghost rows: seq<CandidateRow>)
    returns (kept: seq<Candidate>)
    requires Labels(g, rows, labelled)
    ensures Labels(g, Retained(rows, items), kept)
  {
    kept := [];
    for k := |labelled| downto 0
      invariant Labels(g, Retained(rows[k..], items), kept)
    {
      assert rows[k..][1..] == rows[k + 1..];
      if labelled[k].row.item in items {
        kept := [labelled[k]] + kept;
      }
    }
    assert rows[0..] == rows;
  }

  method Candidates(rows: seq<CandidateRow>, items: set<WorkItemId>, edges: seq<(WorkItemId, WorkItemId)>)
    returns (r: Result<seq<Candidate>, LayerError>)
    ensures r.Err? <==> exists i :: 0 <= i < |rows| && ReachesCycle(EdgeSet(edges), rows[i].item)
    ensures r.Ok? ==> IsQueue(EdgeSet(edges), rows, items, r.value)
  {
    r := Label(rows, edges);
    if r.Err? {
      return;
    }
    ghost var g := EdgeSet(edges);
    forall i | 0 <= i < |rows| ensures !ReachesCycle(g, rows[i].item) {
      LabelledReachesNoCycle(g, rows, r.value, i);
    }
    var kept := Retain(r.value, items, g, rows);
    CandidateOrder();
    StableSortSorted(kept, CandidateLe);
    return Ok(StableSort(kept, CandidateLe));
  }

  lemma QueueLayers(g: set<(WorkItemId, WorkItemId)>, rows: seq<CandidateRow>, items: set<WorkItemId>,
                    queue: seq<Candidate>, i: nat)
    requires IsQueue(g, rows, items, queue) && i < |queue|
    ensures IsLayer(g, queue[i].row.item, queue[i].layer)
  {
    var labelled :|
      Labels(g, Retained(rows, items), labelled)
      && multiset(queue) == multiset(labelled);
    assert queue[i] in multiset(queue);
    var j :| 0 <= j < |labelled| && labelled[j] == queue[i];
  }

  lemma {:induction false} RetainedMembers(rows: seq<CandidateRow>, items: set<WorkItemId>)
    ensures forall row :: row in Retained(rows, items) <==> row in rows && row.item in items
  {
    if rows != [] {
      RetainedMembers(rows[1..], items);
      assert rows == [rows[0]] + rows[1..];
    }
  }

  /** Queued are exactly the rows whose items are in the set. */
  lemma QueueMembers(g: set<(WorkItemId, WorkItemId)>, rows: seq<CandidateRow>, items: set<WorkItemId>,
                     queue: seq<Candidate>, row: CandidateRow)
    requires IsQueue(g, rows, items, queue)
    ensures (exists i :: 0 <= i < |queue| && queue[i].row == row) <==> row in rows && row.item in items
  {
    var labelled: seq<Candidate> :| Labels(g, Retained(rows, items), labelled) && multiset(queue) == multiset(labelled);
    RetainedMembers(rows, items);
    assert forall c :: c in queue <==> c in labelled by {
      forall c ensures c in queue <==> c in labelled {
        assert multiset(queue)[c] == multiset(labelled)[c];
      }
    }
    if row in Retained(rows, items) {
      var j :| 0 <= j < |labelled| && labelled[j].row == row;
      assert labelled[j] in queue;
    }
    if i :| 0 <= i < |queue| && queue[i].row == row {
      assert queue[i] in labelled;
    }
  }

  /** Along a dependency chain the layer drops, except where the 32-bit cap flattens it:
      precisely when the dependency itself sits at or above the cap. */
  lemma LayerDropsExactlyBelowCap(g: set<(WorkItemId, WorkItemId)>, p: seq<WorkItemId>, dependant: nat, dependency: nat, n: nat)
    requires IsChain(g, p) && |p| > 1
    requires IsLayer(g, p[0], dependant) && IsLayer(g, p[|p| - 1], dependency)
    requires LongestChain(g, p[|p| - 1], n)
    ensures dependency < dependant <==> n < U32_MAX
  {
    var m: nat :| LongestChain(g, p[0], m) && dependant == Saturate(m);
    var k: nat :| LongestChain(g, p[|p| - 1], k) && dependency == Saturate(k);
    LongestChainUnique(g, p[|p| - 1], n, k);
    LongestChainAlong(g, p, m, n);
  }

  /** Every transitive dependency is queued before its dependants, as long as its layer is not
      capped. */
  lemma DependenciesFirst(g: set<(WorkItemId, WorkItemId)>, rows: seq<CandidateRow>, items: set<WorkItemId>,
                          queue: seq<Candidate>, p: seq<WorkItemId>, dependant: nat, dependency: nat)
    requires IsQueue(g, rows, items, queue) && IsChain(g, p) && |p| > 1
    requires dependant < |queue| && queue[dependant].row.item == p[0]
    requires dependency < |queue| && queue[dependency].row.item == p[|p| - 1] && queue[dependency].layer < U32_MAX
    ensures dependency < dependant
  {
    QueueLayers(g, rows, items, queue, dependant);
    QueueLayers(g, rows, items, queue, dependency);
    var n: nat :| LongestChain(g, p[|p| - 1], n) && queue[dependency].layer == Saturate(n);
    LayerDropsExactlyBelowCap(g, p, queue[dependant].layer, queue[dependency].layer, n);
  }

  /** The layer that a queue shows is below the cap when the longest chain is. */
  lemma UncappedInQueue(g: set<(WorkItemId, WorkItemId)>, rows: seq<CandidateRow>, items: set<WorkItemId>,
                        queue: seq<Candidate>, i: nat, n: nat)
    requires IsQueue(g, rows, items, queue) && i < |queue| && LongestChain(g, queue[i].row.item, n)
    ensures queue[i].layer == Saturate(n)
  {
    QueueLayers(g, rows, items, queue, i);
    var m: nat :| LongestChain(g, queue[i].row.item, m) && queue[i].layer == Saturate(m);
    LongestChainUnique(g, queue[i].row.item, m, n);
  }

  /** What has the smaller layer, then the smaller proposal order, then the smaller slug, stands earlier. */
  lemma QueuePlaces(g: set<(WorkItemId, WorkItemId)>, rows: seq<CandidateRow>, items: set<WorkItemId>,
                    queue: seq<Candidate>, i: nat, j: nat)
    requires IsQueue(g, rows, items, queue) && i < |queue| && j < |queue|
    ensures queue[i].layer < queue[j].layer ==> i < j
    ensures queue[i].layer == queue[j].layer && queue[i].row.proposalOrder < queue[j].row.proposalOrder ==> i < j
    ensures (queue[i].layer == queue[j].layer && queue[i].row.proposalOrder == queue[j].row.proposalOrder
             && TextBefore(queue[i].row.slug, queue[j].row.slug)) ==> i < j
  {
    TextLeMeans(queue[i].row.slug, queue[j].row.slug);
    TextLeTotal(queue[i].row.slug, queue[j].row.slug);
    NotBeforeItself(queue[i].row.slug);
    assert i < j || i == j || CandidateLe(queue[j], queue[i]);
  }

  /** No dependency's layer is capped unless the graph has more than 2^32 - 1 edges. */
  lemma CapNeedsManyEdges(edges: seq<(WorkItemId, WorkItemId)>, p: seq<WorkItemId>, dependant: nat, dependency: nat)
    requires |edges| <= U32_MAX && IsChain(EdgeSet(edges), p) && |p| > 1
    requires IsLayer(EdgeSet(edges), p[0], dependant) && IsLayer(EdgeSet(edges), p[|p| - 1], dependency)
    ensures dependency < U32_MAX
  {
    var g := EdgeSet(edges);
    var m: nat :| LongestChain(g, p[0], m) && dependant == Saturate(m);
    var n: nat :| LongestChain(g, p[|p| - 1], n) && dependency == Saturate(n);
    LongestChainAlong(g, p, m, n);
    LongestWithinEdgeCount(g, p[0], m);
    EdgeSetSize(edges);
  }

  lemma {:induction false} EdgeSetSize(edges: seq<(WorkItemId, WorkItemId)>)
    ensures |EdgeSet(edges)| <= |edges|
  {
    if edges != [] {
      EdgeSetSize(edges[1..]);
      assert EdgeSet(edges) == EdgeSet(edges[1..]) + {edges[0]};
    }
  }

  function Link(i: nat): (WorkItemId, WorkItemId) {
    (i, i + 1)
  }

  /** A straight line of `n` dependencies: item `i` depends on item `i + 1`. */
  ghost function Line(n: nat): set<(WorkItemId, WorkItemId)> {
    set i: nat | i < n :: Link(i)
  }

  lemma {:induction false} LineChain(n: nat, v: nat)
    requires v <= n
    ensures LongestChain(Line(n), v, n - v)
  {
    var g := Line(n);
    var p := seq(n - v + 1, i requires 0 <= i => v + i);
    forall i | 0 <= i < |p| - 1 ensures (p[i], p[i + 1]) in g { assert Link(v + i) in g; }
    assert ChainFrom(g, v, p);
    forall q | ChainFrom(g, v, q) ensures |q| <= n - v + 1 {
      LineClimb(n, q, |q| - 1);
    }
  }

  lemma {:induction false} LineClimb(n: nat, q: seq<WorkItemId>, i: nat)
    requires IsChain(Line(n), q) && q[0] <= n && i < |q|
    ensures q[i] == q[0] + i <= n
  {
    if i > 0 {
      LineClimb(n, q, i - 1);
      assert (q[i - 1], q[i - 1 + 1]) in Line(n);
    }
  }

  /** Without the bound the order is lost: on a long enough line an item and its
      dependency receive the same layer. */
  lemma CapLosesTheOrder()
    ensures var g := Line(U32_MAX + 1);
            (0, 1) in g && IsLayer(g, 0, U32_MAX) && IsLayer(g, 1, U32_MAX)
  {
    var n := U32_MAX + 1;
    LineChain(n, 0);
    LineChain(n, 1);
    assert Link(0) in Line(n);
  }
}
