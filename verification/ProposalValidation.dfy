/** Acceptance of a Work-item proposal: the structural checks and the depth-first search
    for cycles among the proposed items. */
module ProposalValidation {
  import opened Common
  import opened Graphs

  type Slug = string
  type RepositoryId = nat

  const MAX_PROPOSAL_BYTES: nat := 2 * 1024 * 1024

  const MAX_TITLE_BYTES: nat := 200

  datatype ProposedItem =
    ProposedItem(slug: Slug, title: string, body: string, repositories: seq<RepositoryId>, dependencies: seq<Slug>)

  datatype ProposalError =
    | EmptyOrTooLarge
    | DuplicateSlug
    | InvalidText
    | DuplicateOrSelfReference
    | SlugExists
    | DependencyMissing
    | DependencyCycle

  function Slugs(items: seq<ProposedItem>): set<Slug> {
    set item | item in items :: item.slug
  }

  function Elements<T(==)>(s: seq<T>): set<T> {
    set x | x in s
  }

  ghost predicate DistinctSlugs(items: seq<ProposedItem>) {
    forall i, j :: 0 <= i < j < |items| ==> items[i].slug != items[j].slug
  }

  predicate TextOk(item: ProposedItem) {
    !Blank(item.title) && Utf8Length(item.title) <= MAX_TITLE_BYTES
    && (forall i :: 0 <= i < |item.title| ==> !Control(item.title[i])) && !Blank(item.body)
  }

  /** The texts of an item are refused exactly if one shows nothing, or the title is longer than 200 bytes
      or holds a control character. */
  lemma TextRefusedExactly(item: ProposedItem)
    ensures !TextOk(item)
            <==> (forall c :: c in item.title ==> Whitespace(c)) || (forall c :: c in item.body ==> Whitespace(c))
                 || Utf8Length(item.title) > 200 || exists c :: c in item.title && (c < ' ' || '\U{7F}' <= c <= '\U{9F}')
  {
    if c :| c in item.title && Control(c) {
      var i :| 0 <= i < |item.title| && item.title[i] == c;
    }
  }

  ghost predicate ItemOk(item: ProposedItem) {
    TextOk(item) && item.repositories != []
    && Distinct(item.repositories) && Distinct(item.dependencies) && item.slug !in item.dependencies
  }

  ghost predicate ItemsOk(items: seq<ProposedItem>, encodedSize: nat) {
    items != [] && encodedSize <= MAX_PROPOSAL_BYTES && DistinctSlugs(items)
    && forall item :: item in items ==> ItemOk(item)
  }

  lemma {:induction false} DistinctBySize<T(!new)>(s: seq<T>)
    ensures |Elements(s)| <= |s|
    ensures |Elements(s)| == |s| <==> Distinct(s)
  {
    if s != [] {
      var front, last := s[..|s| - 1], s[|s| - 1];
      DistinctBySize(front);
      assert Elements(s) == Elements(front) + {last};
      if last in front {
        assert Elements(s) == Elements(front);
        var i :| 0 <= i < |front| && front[i] == last;
        assert s[i] == s[|s| - 1];
      } else if Distinct(front) {
        forall i, j | 0 <= i < j < |s| ensures s[i] != s[j] {
          if j == |s| - 1 { assert s[i] == front[i]; }
        }
      } else {
        var i, j :| 0 <= i < j < |front| && front[i] == front[j];
        assert s[i] == s[j];
      }
    }
  }

  /** What is wrong with one item; the checks on its text and repositories come first. */
  ghost function ItemError(item: ProposedItem): Option<ProposalError> {
    if !TextOk(item) || item.repositories == [] then Some(InvalidText)
    else if ItemOk(item) then None
    else Some(DuplicateOrSelfReference)
  }

  /** The first faulty item decides the error. */
  ghost predicate FirstFault(items: seq<ProposedItem>, error: ProposalError) {
    exists k :: 0 <= k < |items| && ItemError(items[k]) == Some(error) && forall i :: 0 <= i < k ==> ItemOk(items[i])
  }

  /** `HashSet` sizes decide distinctness, as in the source. */
  method ValidateItems(items: seq<ProposedItem>, encodedSize: nat) returns (r: Result<(), ProposalError>)
    ensures r.Ok? <==> ItemsOk(items, encodedSize)
    ensures r == Err(EmptyOrTooLarge) <==> items == [] || encodedSize > MAX_PROPOSAL_BYTES
    ensures r == Err(DuplicateSlug) <==> items != [] && encodedSize <= MAX_PROPOSAL_BYTES && !DistinctSlugs(items)
    ensures r.Err? && r.error !in {EmptyOrTooLarge, DuplicateSlug} ==> FirstFault(items, r.error)
  {
    if items == [] || encodedSize > MAX_PROPOSAL_BYTES {
      return Err(EmptyOrTooLarge);
    }
    var slugs := seq(|items|, i requires 0 <= i < |items| => items[i].slug);
    DistinctBySize(slugs);
    assert Distinct(slugs) <==> DistinctSlugs(items) by {
      if DistinctSlugs(items) {
        forall i, j | 0 <= i < j < |slugs| ensures slugs[i] != slugs[j] { assert items[i].slug != items[j].slug; }
      }
      if Distinct(slugs) {
        forall i, j | 0 <= i < j < |items| ensures items[i].slug != items[j].slug { assert slugs[i] != slugs[j]; }
      }
    }
    if |Elements(slugs)| != |items| {
      return Err(DuplicateSlug);
    }
    for k := 0 to |items|
      invariant forall i :: 0 <= i < k ==> ItemOk(items[i])
    {
      var item := items[k];
      DistinctBySize(item.repositories);
      DistinctBySize(item.dependencies);
      if !TextOk(item) || item.repositories == [] {
        assert !ItemOk(items[k]) && ItemError(items[k]) == Some(InvalidText);
        return Err(InvalidText);
      }
      if |Elements(item.repositories)| != |item.repositories|
         || |Elements(item.dependencies)| != |item.dependencies|
         || item.slug in item.dependencies {
        assert !ItemOk(items[k]) && ItemError(items[k]) == Some(DuplicateOrSelfReference);
        return Err(DuplicateOrSelfReference);
      }
      assert ItemOk(items[k]);
    }
    return Ok(());
  }

  /** The dependencies among the proposed items themselves. */
  ghost function InternalEdges(items: seq<ProposedItem>): set<(Slug, Slug)> {
    set item, d | item in items && d in item.dependencies && d in Slugs(items) :: (item.slug, d)
  }

  ghost function GraphEdges(graph: map<Slug, seq<Slug>>): set<(Slug, Slug)> {
    set s, d | s in graph && d in graph[s] :: (s, d)
  }

  class CycleSearch {
    var visiting: set<Slug>
    var visited: set<Slug>

    constructor ()
      ensures visiting == {} && visited == {}
    {
      visiting, visited := {}, {};
    }

    ghost predicate VisitedGrounded(g: set<(Slug, Slug)>)
      reads this
    {
      forall s :: s in visited ==> Grounded(g, s)
    }

    method Visit(slug: Slug, graph: map<Slug, seq<Slug>>, ghost path: seq<Slug>, ghost universe: set<Slug>)
      returns (ok: bool)
      requires VisitedGrounded(GraphEdges(graph))
      requires IsChain(GraphEdges(graph), path + [slug])
      requires visiting == set v | v in path
      requires slug in universe && forall s, d :: s in graph && d in graph[s] ==> d in universe
      modifies this
      ensures ok ==> VisitedGrounded(GraphEdges(graph)) && slug in visited && visiting == old(visiting)
      ensures old(visited) <= visited
      ensures !ok ==> ReachesCycle(GraphEdges(graph), (path + [slug])[0])
      decreases universe - visiting
    {
      ghost var g := GraphEdges(graph);
      hide ReachesCycle, Repeats;
      if slug in visited {
        return true;
      }
      if slug in visiting {
        VisitedAgain(g, path, slug);
        return false;
      }
      visiting := visiting + {slug};
      var dependencies := if slug in graph then graph[slug] else [];
      ghost var n := 0;
      for k := 0 to |dependencies|
        invariant VisitedGrounded(g) && visiting == old(visiting) + {slug} && old(visited) <= visited
        invariant n >= 0
        invariant forall p :: ChainFrom(g, slug, p) && |p| > 1 && p[1] in dependencies[..k] ==> |p| <= n + 1
      {
        var d := dependencies[k];
        assert (slug, d) in g;
        ExtendPath(g, path, slug, d);
        var below := Visit(d, graph, path + [slug], universe);
        if !below {
          assert (path + [slug] + [d])[0] == (path + [slug])[0];
          return false;
        }
        ghost var m :| Bounded(g, d, m);
        forall p | ChainFrom(g, slug, p) && |p| > 1 && p[1] == d ensures |p| <= m + 2 {
          assert ChainFrom(g, d, p[1..]);
        }
        if n < m + 1 { n := m + 1; }
        assert dependencies[..k + 1] == dependencies[..k] + [d];
      }
      forall p | ChainFrom(g, slug, p) ensures |p| <= n + 1 {
        if |p| > 1 { assert (p[0], p[1]) in g; }
      }
      assert Bounded(g, slug, n);
      visiting := visiting - {slug};
      visited := visited + {slug};
      return true;
    }
  }

  ghost predicate SlugTaken(items: seq<ProposedItem>, existing: set<Slug>) {
    exists s :: s in Slugs(items) && s in existing
  }

  ghost predicate DependencyUnknown(items: seq<ProposedItem>, existing: set<Slug>) {
    exists item, d :: item in items && d in item.dependencies && d !in Slugs(items) && d !in existing
  }

  /** The whole search, from every key in any order, decides acyclicity. */
  method SearchAll(graph: map<Slug, seq<Slug>>) returns (ok: bool)
    ensures ok <==> !Cyclic(GraphEdges(graph))
  {
    ghost var g := GraphEdges(graph);
    ghost var universe := graph.Keys + set s, d | s in graph && d in graph[s] :: d;
    var search := new CycleSearch();
    var remaining := graph.Keys;
    while remaining != {}
      invariant fresh(search) && search.VisitedGrounded(g) && search.visiting == {}
      invariant remaining <= graph.Keys
      invariant forall s :: s in graph && s !in remaining ==> s in search.visited
    {
      var slug :| slug in remaining;
      ok := search.Visit(slug, graph, [], universe);
      if !ok {
        assert ([] + [slug])[0] == slug;
        return false;
      }
      remaining := remaining - {slug};
    }
    GroundedKeysAcyclic(graph);
    return true;
  }

  lemma GroundedKeysAcyclic(graph: map<Slug, seq<Slug>>)
    requires forall s :: s in graph ==> Grounded(GraphEdges(graph), s)
    ensures !Cyclic(GraphEdges(graph))
  {
    var g := GraphEdges(graph);
    if Cyclic(g) {
      var v :| ReachesCycle(g, v);
      var p :| ChainFrom(g, v, p) && Repeats(p);
      assert (p[0], p[1]) in g;
      var n :| Bounded(g, v, n);
      BoundedReachesNoCycle(g, v, n);
    }
  }

  method BuildGraph(items: seq<ProposedItem>) returns (graph: map<Slug, seq<Slug>>)
    requires DistinctSlugs(items)
    ensures graph.Keys == Slugs(items)
    ensures GraphEdges(graph) == InternalEdges(items)
  {
    graph := map[];
    for k := 0 to |items|
      invariant graph.Keys == set i | 0 <= i < k :: items[i].slug
      invariant forall i :: 0 <= i < k ==> graph[items[i].slug] == Internal(items[i].dependencies, Slugs(items))
    {
      graph := graph[items[k].slug := Internal(items[k].dependencies, Slugs(items))];
    }
    GraphIsInternal(items, graph);
  }

  /** Exact verdict and error, whatever order the map of items is traversed in. */
  method ValidateAgainstExisting(items: seq<ProposedItem>, existing: set<Slug>) returns (r: Result<(), ProposalError>)
    requires DistinctSlugs(items)
    ensures r == if SlugTaken(items, existing) then Err(SlugExists)
                 else if DependencyUnknown(items, existing) then Err(DependencyMissing)
                 else if Cyclic(InternalEdges(items)) then Err(DependencyCycle)
                 else Ok(())
  {
    var proposed := Slugs(items);
    if exists s :: s in proposed && s in existing {
      return Err(SlugExists);
    }
    for k := 0 to |items|
      invariant forall i, d :: 0 <= i < k && d in items[i].dependencies ==> d in proposed || d in existing
    {
      if exists d :: d in items[k].dependencies && d !in proposed && d !in existing {
        assert items[k] in items;
        return Err(DependencyMissing);
      }
    }
    assert !DependencyUnknown(items, existing);
    var graph := BuildGraph(items);
    var ok := SearchAll(graph);
    return if ok then Ok(()) else Err(DependencyCycle);
  }

  function Internal(dependencies: seq<Slug>, proposed: set<Slug>): (r: seq<Slug>)
    ensures forall d :: d in r <==> d in dependencies && d in proposed
  {
    if dependencies == [] then []
    else (if dependencies[0] in proposed then [dependencies[0]] else []) + Internal(dependencies[1..], proposed)
  }

  lemma GraphIsInternal(items: seq<ProposedItem>, graph: map<Slug, seq<Slug>>)
    requires graph.Keys == Slugs(items)
    requires forall i :: 0 <= i < |items| ==>
               items[i].slug in graph && graph[items[i].slug] == Internal(items[i].dependencies, Slugs(items))
    ensures GraphEdges(graph) == InternalEdges(items)
  {
    forall e | e in GraphEdges(graph) ensures e in InternalEdges(items) {
      var item :| item in items && item.slug == e.0;
    }
  }
}
