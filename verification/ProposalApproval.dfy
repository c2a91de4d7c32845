/** The persistent dependency graph under proposals, rejections and approvals, where an
    approval reads its context in one transaction and writes in a later one. */
module ProposalApproval {
  import opened Common
  import opened Graphs
  import opened ProposalValidation

  type WorkItemId = int
  type FeatureId = nat
  type ProposalId = nat

  datatype ItemRow = ItemRow(feature: FeatureId, slug: Slug)

  datatype StoredItem = StoredItem(id: WorkItemId, proposal: ProposedItem)

  datatype ProposalStatus = AwaitingApproval | Approved | Rejected

  datatype Proposal = Proposal(feature: FeatureId, items: seq<StoredItem>, status: ProposalStatus)

  /** What an approval carries from its read transaction to its write transaction. */
  datatype Context = Context(proposal: ProposalId, known: map<Slug, WorkItemId>)

  /** Two tables of work, the proposals, and the approvals that have read but not written. */
  datatype State = State(
    items: map<WorkItemId, ItemRow>,
    deps: set<(WorkItemId, WorkItemId)>,
    proposals: map<ProposalId, Proposal>,
    open: set<Context>)

  datatype CommitError = ProposalMissing | UniqueViolation | DependencyUnresolved

  function FeatureSlugs(items: map<WorkItemId, ItemRow>, feature: FeatureId): set<Slug> {
    set id | id in items && items[id].feature == feature :: items[id].slug
  }

  function Proposed(stored: seq<StoredItem>): seq<ProposedItem> {
    seq(|stored|, i requires 0 <= i < |stored| => stored[i].proposal)
  }

  /** Rows inserted in order; a primary-key or `(feature, slug)` clash aborts them all. */
  function InsertItems(table: map<WorkItemId, ItemRow>, feature: FeatureId, stored: seq<StoredItem>): Option<map<WorkItemId, ItemRow>> {
    if stored == [] then Some(table)
    else
      match InsertItems(table, feature, stored[..|stored| - 1])
      case None => None
      case Some(t) =>
        var last := stored[|stored| - 1];
        if last.id in t || last.proposal.slug in FeatureSlugs(t, feature) then None
        else Some(t[last.id := ItemRow(feature, last.proposal.slug)])
  }

  /** A proposed item first, then an item that existed when the context was read. */
  function Resolve(stored: seq<StoredItem>, known: map<Slug, WorkItemId>, slug: Slug): Option<WorkItemId> {
    if stored == [] then (if slug in known then Some(known[slug]) else None)
    else if stored[0].proposal.slug == slug then Some(stored[0].id)
    else Resolve(stored[1..], known, slug)
  }

  ghost predicate Resolvable(inserted: seq<StoredItem>, stored: seq<StoredItem>, known: map<Slug, WorkItemId>) {
    forall item, d :: item in inserted && d in item.proposal.dependencies ==> Resolve(stored, known, d).Some?
  }

  /** The dependency rows of the items `inserted` so far, resolved within the whole proposal. */
  ghost function NewEdges(inserted: seq<StoredItem>, stored: seq<StoredItem>, known: map<Slug, WorkItemId>): set<(WorkItemId, WorkItemId)>
    requires Resolvable(inserted, stored, known)
  {
    set item, d | item in inserted && d in item.proposal.dependencies :: (item.id, Resolve(stored, known, d).value)
  }

  ghost function ItemEdges(id: WorkItemId, dependencies: seq<Slug>, stored: seq<StoredItem>, known: map<Slug, WorkItemId>): set<(WorkItemId, WorkItemId)> {
    set d | d in dependencies && Resolve(stored, known, d).Some? :: (id, Resolve(stored, known, d).value)
  }

  /** The write transaction of `approve`: all of its rows or none. */
  ghost function Commit(s: State, c: Context): (State, Result<(), CommitError>) {
    if c.proposal !in s.proposals then (s, Err(ProposalMissing))
    else
      var p := s.proposals[c.proposal];
      match InsertItems(s.items, p.feature, p.items)
      case None => (s, Err(UniqueViolation))
      case Some(items) =>
        if !Resolvable(p.items, p.items, c.known) then (s, Err(DependencyUnresolved))
        else
          var status := if p.status == AwaitingApproval then Approved else p.status;
          (s.(items := items, deps := s.deps + NewEdges(p.items, p.items, c.known),
              proposals := s.proposals[c.proposal := p.(status := status)]), Ok(()))
  }

  /** What `propose` has checked against the slugs it read. */
  ghost predicate Accepted(items: seq<ProposedItem>, seen: set<Slug>) {
    DistinctSlugs(items) && !SlugTaken(items, seen) && !DependencyUnknown(items, seen) && !Cyclic(InternalEdges(items))
  }

  /** `seen` is any earlier view of the Feature's slugs, as the check and the insertion are
      separate transactions and items are never removed. */
  ghost predicate Proposes(s: State, id: ProposalId, feature: FeatureId, stored: seq<StoredItem>, seen: set<Slug>, s': State) {
    id !in s.proposals && seen <= FeatureSlugs(s.items, feature) && Accepted(Proposed(stored), seen)
    && (forall i, j :: 0 <= i < j < |stored| ==> stored[i].id != stored[j].id)
    && s' == s.(proposals := s.proposals[id := Proposal(feature, stored, AwaitingApproval)])
  }

  ghost predicate Rejects(s: State, id: ProposalId, s': State) {
    id in s.proposals && s.proposals[id].status == AwaitingApproval
    && s' == s.(proposals := s.proposals[id := s.proposals[id].(status := Rejected)])
  }

  /** The slug index of one Feature. */
  ghost predicate IsIndex(items: map<WorkItemId, ItemRow>, feature: FeatureId, known: map<Slug, WorkItemId>) {
    known.Keys == FeatureSlugs(items, feature)
    && forall slug :: slug in known ==> known[slug] in items && items[known[slug]] == ItemRow(feature, slug)
  }

  ghost predicate Opens(s: State, c: Context, s': State) {
    c.proposal in s.proposals && s.proposals[c.proposal].status == AwaitingApproval
    && IsIndex(s.items, s.proposals[c.proposal].feature, c.known)
    && s' == s.(open := s.open + {c})
  }

  ghost predicate Commits(s: State, c: Context, s': State) {
    c in s.open && s' == Commit(s, c).0.(open := s.open - {c})
  }

  ghost predicate Step(s: State, s': State) {
    (exists id, feature, stored, seen :: Proposes(s, id, feature, stored, seen, s'))
    || (exists id :: Rejects(s, id, s'))
    || (exists c :: Opens(s, c, s'))
    || (exists c :: Commits(s, c, s'))
  }

  ghost predicate UniqueSlugs(items: map<WorkItemId, ItemRow>) {
    forall a, b :: a in items && b in items && items[a] == items[b] ==> a == b
  }

  ghost predicate ProposalOk(items: map<WorkItemId, ItemRow>, p: Proposal) {
    DistinctSlugs(Proposed(p.items)) && !Cyclic(InternalEdges(Proposed(p.items)))
    && !DependencyUnknown(Proposed(p.items), FeatureSlugs(items, p.feature))
    && forall i, j :: 0 <= i < j < |p.items| ==> p.items[i].id != p.items[j].id
  }

  ghost predicate ContextOk(s: State, c: Context) {
    c.proposal in s.proposals
    && var p := s.proposals[c.proposal];
       (forall slug :: slug in c.known ==> c.known[slug] in s.items && s.items[c.known[slug]] == ItemRow(p.feature, slug))
       && !DependencyUnknown(Proposed(p.items), c.known.Keys)
  }

  ghost predicate Inv(s: State) {
    UniqueSlugs(s.items)
    && (forall e :: e in s.deps ==> e.0 in s.items && e.1 in s.items && s.items[e.0].feature == s.items[e.1].feature)
    && !Cyclic(s.deps)
    && (forall id :: id in s.proposals ==> ProposalOk(s.items, s.proposals[id]))
    && (forall c :: c in s.open ==> ContextOk(s, c))
  }

  lemma {:induction false} InsertedItems(table: map<WorkItemId, ItemRow>, feature: FeatureId, stored: seq<StoredItem>)
    requires InsertItems(table, feature, stored).Some?
    ensures var t := InsertItems(table, feature, stored).value;
            (forall id :: id in table ==> id in t && t[id] == table[id])
            && (forall id :: id in t ==> id in table || exists item :: item in stored && item.id == id)
            && (forall item :: item in stored ==>
                  item.id !in table && item.id in t && t[item.id] == ItemRow(feature, item.proposal.slug))
            && (UniqueSlugs(table) ==> UniqueSlugs(t))
  {
    if stored != [] {
      var front := stored[..|stored| - 1];
      InsertedItems(table, feature, front);
      assert stored == front + [stored[|stored| - 1]];
    }
  }

  lemma {:induction false} ResolveMeaning(stored: seq<StoredItem>, known: map<Slug, WorkItemId>, slug: Slug)
    ensures Resolve(stored, known, slug).None? <==>
            slug !in known && forall item :: item in stored ==> item.proposal.slug != slug
    ensures Resolve(stored, known, slug).Some? ==>
              (exists item :: item in stored && item.proposal.slug == slug && item.id == Resolve(stored, known, slug).value)
              || (slug in known && Resolve(stored, known, slug).value == known[slug]
                  && forall item :: item in stored ==> item.proposal.slug != slug)
  {
    if stored != [] && stored[0].proposal.slug != slug {
      ResolveMeaning(stored[1..], known, slug);
    }
  }

  lemma ProposedMembers(stored: seq<StoredItem>)
    ensures forall item :: item in stored ==> item.proposal in Proposed(stored)
    ensures forall q :: q in Proposed(stored) ==> exists item :: item in stored && item.proposal == q
  {
    forall item | item in stored ensures item.proposal in Proposed(stored) {
      var i :| 0 <= i < |stored| && stored[i] == item;
      assert Proposed(stored)[i] == item.proposal;
    }
  }

  /** An approval that read its context finds every dependency. */
  lemma OpenContextResolves(s: State, c: Context)
    requires Inv(s) && c in s.open
    ensures Resolvable(s.proposals[c.proposal].items, s.proposals[c.proposal].items, c.known)
  {
    var stored := s.proposals[c.proposal].items;
    ProposedMembers(stored);
    forall item, d | item in stored && d in item.proposal.dependencies ensures Resolve(stored, c.known, d).Some? {
      ResolveMeaning(stored, c.known, d);
    }
  }

  lemma NewEdgesFit(s: State, c: Context, t: map<WorkItemId, ItemRow>, e: (WorkItemId, WorkItemId))
    requires Inv(s) && c in s.open
    requires InsertItems(s.items, s.proposals[c.proposal].feature, s.proposals[c.proposal].items) == Some(t)
    requires Resolvable(s.proposals[c.proposal].items, s.proposals[c.proposal].items, c.known)
    requires e in NewEdges(s.proposals[c.proposal].items, s.proposals[c.proposal].items, c.known)
    ensures e.0 !in s.items && e.0 in t && e.1 in t && t[e.0].feature == t[e.1].feature
    ensures e.1 !in s.items ==> (t[e.0].slug, t[e.1].slug) in InternalEdges(Proposed(s.proposals[c.proposal].items))
  {
    var p := s.proposals[c.proposal];
    assert ContextOk(s, c);
    hide Inv, InsertItems;
    InsertedItems(s.items, p.feature, p.items);
    ProposedMembers(p.items);
    var item, d :| item in p.items && d in item.proposal.dependencies
                   && e == (item.id, Resolve(p.items, c.known, d).value);
    ResolveMeaning(p.items, c.known, d);
  }

  lemma CommitKeepsAcyclic(s: State, c: Context, t: map<WorkItemId, ItemRow>)
    requires Inv(s) && c in s.open
    requires InsertItems(s.items, s.proposals[c.proposal].feature, s.proposals[c.proposal].items) == Some(t)
    requires Resolvable(s.proposals[c.proposal].items, s.proposals[c.proposal].items, c.known)
    ensures var added := NewEdges(s.proposals[c.proposal].items, s.proposals[c.proposal].items, c.known);
            !Cyclic(s.deps + added)
            && forall e :: e in added ==> e.0 !in s.items && e.0 in t && e.1 in t && t[e.0].feature == t[e.1].feature
  {
    var p := s.proposals[c.proposal];
    var added := NewEdges(p.items, p.items, c.known);
    forall e | e in added
      ensures e.0 !in s.items && e.0 in t && e.1 in t && t[e.0].feature == t[e.1].feature
      ensures e.1 !in s.items ==> (t[e.0].slug, t[e.1].slug) in InternalEdges(Proposed(p.items))
    {
      NewEdgesFit(s, c, t, e);
    }
    var internal := set e | e in added && e.1 !in s.items.Keys;
    if Cyclic(internal) {
      ImageOfCycle(internal, InternalEdges(Proposed(p.items)), (id: WorkItemId) => if id in t then t[id].slug else "");
    }
    ExtensionStaysAcyclic(s.deps, added, s.items.Keys);
  }

  /** Growing the item table spoils neither the proposals nor the open contexts. */
  lemma GrowthKeepsPlans(s: State, s': State)
    requires Inv(s)
    requires forall id :: id in s.items ==> id in s'.items && s'.items[id] == s.items[id]
    requires forall id :: id in s'.proposals <==> id in s.proposals
    requires forall id :: id in s.proposals ==>
               s'.proposals[id].items == s.proposals[id].items && s'.proposals[id].feature == s.proposals[id].feature
    requires s'.open <= s.open
    ensures forall id :: id in s'.proposals ==> ProposalOk(s'.items, s'.proposals[id])
    ensures forall c :: c in s'.open ==> ContextOk(s', c)
  {
    SlugsGrow(s.items, s'.items);
  }

  lemma CommitKeepsInv(s: State, c: Context, s': State)
    requires Inv(s) && Commits(s, c, s')
    ensures Inv(s')
    ensures forall e :: e in s'.deps && e !in s.deps ==> e.0 !in s.items
    ensures forall id :: id in s.items ==> id in s'.items && s'.items[id] == s.items[id]
  {
    var p := s.proposals[c.proposal];
    OpenContextResolves(s, c);
    var inserted := InsertItems(s.items, p.feature, p.items);
    if inserted.Some? {
      InsertedItems(s.items, p.feature, p.items);
      CommitKeepsAcyclic(s, c, inserted.value);
    }
    GrowthKeepsPlans(s, s');
  }

  lemma SlugsGrow(items: map<WorkItemId, ItemRow>, more: map<WorkItemId, ItemRow>)
    requires forall id :: id in items ==> id in more && more[id] == items[id]
    ensures forall feature :: FeatureSlugs(items, feature) <= FeatureSlugs(more, feature)
  {
  }

  /** Steps that leave the items and their dependencies alone. */
  lemma PlanningKeepsInv(s: State, s': State)
    requires Inv(s)
    requires (exists id, feature, stored, seen :: Proposes(s, id, feature, stored, seen, s'))
             || (exists id :: Rejects(s, id, s')) || (exists c :: Opens(s, c, s'))
    ensures Inv(s') && s'.items == s.items && s'.deps == s.deps
  {
    if id, feature, stored, seen :| Proposes(s, id, feature, stored, seen, s') {
      assert ProposalOk(s.items, s'.proposals[id]);
    } else if id :| Rejects(s, id, s') {
      GrowthKeepsPlans(s, s');
    } else {
      var c :| Opens(s, c, s');
      assert ContextOk(s', c);
    }
  }

  lemma StepKeepsInv(s: State, s': State)
    requires Inv(s) && Step(s, s')
    ensures Inv(s')
    ensures forall e :: e in s'.deps && e !in s.deps ==> e.0 !in s.items
    ensures forall id :: id in s.items ==> id in s'.items && s'.items[id] == s.items[id]
  {
    if c :| Commits(s, c, s') {
      CommitKeepsInv(s, c, s');
    } else {
      PlanningKeepsInv(s, s');
    }
  }

  ghost predicate IsRun(run: seq<State>) {
    |run| > 0 && forall i :: 0 <= i < |run| - 1 ==> Step(run[i], run[i + 1])
  }

  /** Over any run the dependency graph stays acyclic, however many approvals are open at
      once, and an item that exists never gains a dependency. */
  lemma {:induction false} RunsStayAcyclic(run: seq<State>, i: nat, j: nat)
    requires IsRun(run) && Inv(run[0]) && i <= j < |run|
    ensures Inv(run[i]) && Inv(run[j]) && !Cyclic(run[j].deps)
    ensures forall e :: e in run[j].deps && e !in run[i].deps ==> e.0 !in run[i].items
    ensures forall id :: id in run[i].items ==> id in run[j].items && run[j].items[id] == run[i].items[id]
    decreases j
  {
    if j > 0 {
      RunsStayAcyclic(run, if i < j then i else j - 1, j - 1);
      StepKeepsInv(run[j - 1], run[j - 1 + 1]);
    }
  }

  // What an approval publishes

  /** The item's dependencies in the tables are those it declares, each on the item of that slug in
      its Feature. */
  ghost predicate DependsAsDeclared(s: State, feature: FeatureId, item: StoredItem) {
    (forall d :: d in item.proposal.dependencies ==> DependsOn(s, feature, item.id, d))
    && forall id :: (item.id, id) in s.deps ==> id in s.items && Declares(item, feature, s.items[id])
  }

  ghost predicate DependsOn(s: State, feature: FeatureId, item: WorkItemId, slug: Slug) {
    exists id :: id in s.items && s.items[id] == ItemRow(feature, slug) && (item, id) in s.deps
  }

  ghost predicate Declares(item: StoredItem, feature: FeatureId, row: ItemRow) {
    row.feature == feature && row.slug in item.proposal.dependencies
  }

  lemma ResolvesToItsItem(s: State, c: Context, d: Slug)
    requires Inv(s) && c in s.open && Commit(s, c).1.Ok?
    requires Resolve(s.proposals[c.proposal].items, c.known, d).Some?
    ensures var id := Resolve(s.proposals[c.proposal].items, c.known, d).value;
            id in Commit(s, c).0.items && Commit(s, c).0.items[id] == ItemRow(s.proposals[c.proposal].feature, d)
  {
    var p := s.proposals[c.proposal];
    assert ContextOk(s, c);
    InsertedItems(s.items, p.feature, p.items);
    hide Inv, InsertItems, NewEdges, Resolvable;
    ResolveMeaning(p.items, c.known, d);
  }

  lemma IdentifiesItem(stored: seq<StoredItem>, a: StoredItem, b: StoredItem)
    requires forall i, j :: 0 <= i < j < |stored| ==> stored[i].id != stored[j].id
    requires a in stored && b in stored && a.id == b.id
    ensures a == b
  {
    var i :| 0 <= i < |stored| && stored[i] == a;
    var j :| 0 <= j < |stored| && stored[j] == b;
    assert i == j;
  }

  /** After the write transaction of an open approval, every published item depends on exactly the items
      it declares, proposed together with it or existing before; no other dependency is new. */
  lemma CommitWritesDependencies(s: State, c: Context, s': State)
    requires Inv(s) && c in s.open && Commit(s, c) == (s', Ok(()))
    ensures forall item :: item in s.proposals[c.proposal].items ==> DependsAsDeclared(s', s.proposals[c.proposal].feature, item)
    ensures forall e :: e in s'.deps ==> e in s.deps || exists item :: item in s.proposals[c.proposal].items && item.id == e.0
  {
    var p := s.proposals[c.proposal];
    OpenContextResolves(s, c);
    InsertedItems(s.items, p.feature, p.items);
    assert ProposalOk(s.items, p) by { assert ContextOk(s, c); }
    assert s'.deps == s.deps + NewEdges(p.items, p.items, c.known);
    forall item | item in p.items ensures DependsAsDeclared(s', p.feature, item) {
      forall d | d in item.proposal.dependencies ensures DependsOn(s', p.feature, item.id, d) {
        ResolvesToItsItem(s, c, d);
        assert (item.id, Resolve(p.items, c.known, d).value) in NewEdges(p.items, p.items, c.known);
      }
      forall id | (item.id, id) in s'.deps ensures id in s'.items && Declares(item, p.feature, s'.items[id]) {
        assert (item.id, id) in NewEdges(p.items, p.items, c.known);
        var other, d :| other in p.items && d in other.proposal.dependencies
                        && (item.id, id) == (other.id, Resolve(p.items, c.known, d).value);
        IdentifiesItem(p.items, item, other);
        ResolvesToItsItem(s, c, d);
      }
    }
  }

  /** Every item that was not there at first was published by a proposal, under its slug and with the
      dependencies it declares. */
  ghost predicate AsProposed(s: State, atFirst: set<WorkItemId>) {
    forall id :: id in s.items && id !in atFirst ==> exists pid, item :: PublishedBy(s, id, pid, item)
  }

  ghost predicate PublishedBy(s: State, id: WorkItemId, pid: ProposalId, item: StoredItem) {
    pid in s.proposals && item in s.proposals[pid].items && item.id == id
    && id in s.items && s.items[id] == ItemRow(s.proposals[pid].feature, item.proposal.slug)
    && DependsAsDeclared(s, s.proposals[pid].feature, item)
  }

  lemma PublicationStays(s: State, s': State, id: WorkItemId, pid: ProposalId, item: StoredItem)
    requires PublishedBy(s, id, pid, item)
    requires forall k :: k in s.items ==> k in s'.items && s'.items[k] == s.items[k]
    requires s.deps <= s'.deps && forall e :: e in s'.deps && e !in s.deps ==> e.0 !in s.items
    requires pid in s'.proposals && s'.proposals[pid].items == s.proposals[pid].items && s'.proposals[pid].feature == s.proposals[pid].feature
    ensures PublishedBy(s', id, pid, item)
  {
    forall d | d in item.proposal.dependencies ensures DependsOn(s', s.proposals[pid].feature, item.id, d) {
      assert DependsOn(s, s.proposals[pid].feature, item.id, d);
    }
  }

  lemma StepKeepsProposals(s: State, s': State)
    requires Step(s, s')
    ensures s.deps <= s'.deps
    ensures forall pid :: pid in s.proposals ==>
              pid in s'.proposals && s'.proposals[pid].items == s.proposals[pid].items
              && s'.proposals[pid].feature == s.proposals[pid].feature
  {
  }

  lemma CommitPublishes(s: State, c: Context, s': State, id: WorkItemId)
    requires Inv(s) && Commits(s, c, s') && id in s'.items && id !in s.items
    ensures exists item :: PublishedBy(s', id, c.proposal, item)
  {
    var p, after := s.proposals[c.proposal], Commit(s, c).0;
    assert after.items != s.items;
    CommitWritesDependencies(s, c, after);
    InsertedItems(s.items, p.feature, p.items);
    var item :| item in p.items && item.id == id;
    assert DependsAsDeclared(after, p.feature, item);
    forall d | d in item.proposal.dependencies ensures DependsOn(s', p.feature, item.id, d) {
      assert DependsOn(after, p.feature, item.id, d);
    }
    assert PublishedBy(s', id, c.proposal, item);
  }

  lemma StepPublishesAsProposed(s: State, s': State, atFirst: set<WorkItemId>)
    requires Inv(s) && Step(s, s') && AsProposed(s, atFirst)
    ensures AsProposed(s', atFirst)
  {
    StepKeepsInv(s, s');
    StepKeepsProposals(s, s');
    forall id | id in s'.items && id !in atFirst ensures exists pid, item :: PublishedBy(s', id, pid, item) {
      if id in s.items {
        var pid, item :| PublishedBy(s, id, pid, item);
        PublicationStays(s, s', id, pid, item);
      } else if c :| Commits(s, c, s') {
        CommitPublishes(s, c, s', id);
      } else {
        PlanningKeepsInv(s, s');
      }
    }
  }

  /** In every run, whatever the approvals read and whenever they write, each item published in it
      stands under the slug its proposal gives it and depends on exactly the items it declares. */
  lemma {:induction false} RunsPublishAsProposed(run: seq<State>, j: nat)
    requires IsRun(run) && Inv(run[0]) && j < |run|
    ensures AsProposed(run[j], run[0].items.Keys)
  {
    hide *;
    if j > 0 {
      RunStep(run, j - 1);
      RunsPublishAsProposed(run, j - 1);
      RunsStayAcyclic(run, j - 1, j - 1);
      StepPublishesAsProposed(run[j - 1], run[j], run[0].items.Keys);
    } else {
      NothingPublished(run[0]);
    }
  }

  lemma NothingPublished(s: State)
    ensures AsProposed(s, s.items.Keys)
  {
  }

  // What a rejection stops

  ghost predicate ApprovalOpen(s: State, id: ProposalId) {
    exists c :: c in s.open && c.proposal == id
  }

  /** Rejected, and no approval that read it earlier is still to write. */
  ghost predicate Closed(s: State, id: ProposalId) {
    id in s.proposals && s.proposals[id].status == Rejected && !ApprovalOpen(s, id)
  }

  lemma ClosedStays(s: State, s': State, id: ProposalId)
    requires Closed(s, id) && Step(s, s')
    ensures Closed(s', id)
  {
    if c :| Commits(s, c, s') {
      assert c.proposal != id;
    } else if c :| Opens(s, c, s') {
      assert c.proposal != id;
    }
  }

  lemma RunStep(run: seq<State>, i: nat)
    requires IsRun(run) && i + 1 < |run|
    ensures Step(run[i], run[i + 1])
  {
    hide Step;
  }

  lemma ClosedCommitsNothing(s: State, s': State, id: ProposalId)
    requires Closed(s, id)
    ensures forall c :: Commits(s, c, s') ==> c.proposal != id
  {
    hide Commit;
  }

  /** A proposal rejected while no approval of it is open is never published: it stays rejected, none
      opens, and none is committed, in every run. */
  lemma {:induction false} ClosedForGood(run: seq<State>, i: nat, j: nat, id: ProposalId)
    requires IsRun(run) && i <= j < |run| && Closed(run[i], id)
    ensures Closed(run[j], id)
    ensures j + 1 < |run| ==> forall c :: Commits(run[j], c, run[j + 1]) ==> c.proposal != id
    decreases j
  {
    hide *;
    if i < j {
      RunStep(run, j - 1);
      ClosedForGood(run, i, j - 1, id);
      ClosedStays(run[j - 1], run[j], id);
    }
    if j + 1 < |run| {
      ClosedCommitsNothing(run[j], run[j + 1], id);
    }
  }

  /** No item of the proposal has an identifier or a slug in use. */
  ghost predicate Fits(items: map<WorkItemId, ItemRow>, p: Proposal) {
    forall item :: item in p.items ==> item.id !in items && item.proposal.slug !in FeatureSlugs(items, p.feature)
  }

  lemma {:induction false} InsertionFitsExactly(table: map<WorkItemId, ItemRow>, feature: FeatureId, stored: seq<StoredItem>)
    requires forall i, j :: 0 <= i < j < |stored| ==> stored[i].id != stored[j].id && stored[i].proposal.slug != stored[j].proposal.slug
    ensures InsertItems(table, feature, stored).Some?
            <==> forall item :: item in stored ==> item.id !in table && item.proposal.slug !in FeatureSlugs(table, feature)
    ensures InsertItems(table, feature, stored).Some? ==>
              forall slug :: slug in FeatureSlugs(InsertItems(table, feature, stored).value, feature) ==>
                slug in FeatureSlugs(table, feature) || exists item :: item in stored && item.proposal.slug == slug
  {
    if stored != [] {
      var front, last := stored[..|stored| - 1], stored[|stored| - 1];
      assert stored == front + [last];
      InsertionFitsExactly(table, feature, front);
      var inserted := InsertItems(table, feature, front);
      if inserted.Some? {
        InsertedItems(table, feature, front);
        SlugsGrow(table, inserted.value);
      }
    }
  }

  /** A proposal accepted against the slugs there are, under unused identifiers, can be published right
      away; one of its slugs taken, it would not have been accepted. */
  lemma AcceptedProposalFits(s: State, id: ProposalId, feature: FeatureId, stored: seq<StoredItem>, s': State)
    requires Proposes(s, id, feature, stored, FeatureSlugs(s.items, feature), s')
    requires forall item :: item in stored ==> item.id !in s.items
    ensures Fits(s'.items, s'.proposals[id])
  {
    ProposedMembers(stored);
  }

  /** An approval that has read its context is not stopped by a rejection: its write transaction can
      happen next, and it publishes every item of the proposal exactly when none clashes with an
      item that exists by then. */
  lemma OpenApprovalPublishes(s: State, c: Context)
    requires Inv(s) && c in s.open
    ensures Step(s, Commit(s, c).0.(open := s.open - {c}))
    ensures Commit(s, c).1.Ok? <==> Fits(s.items, s.proposals[c.proposal])
    ensures Commit(s, c).1.Ok? ==>
              forall item :: item in s.proposals[c.proposal].items ==>
                item.id in Commit(s, c).0.items
                && Commit(s, c).0.items[item.id] == ItemRow(s.proposals[c.proposal].feature, item.proposal.slug)
    ensures Commit(s, c).1.Ok? && s.proposals[c.proposal].status == Rejected ==>
              Commit(s, c).0.proposals[c.proposal].status == Rejected
    ensures Commit(s, c).1.Ok? && s.proposals[c.proposal].status != Rejected ==>
              Commit(s, c).0.proposals[c.proposal].status == Approved
  {
    var p := s.proposals[c.proposal];
    assert Commits(s, c, Commit(s, c).0.(open := s.open - {c}));
    OpenContextResolves(s, c);
    assert ContextOk(s, c) && ProposalOk(s.items, p);
    forall i, j | 0 <= i < j < |p.items| ensures p.items[i].id != p.items[j].id && p.items[i].proposal.slug != p.items[j].proposal.slug {
      assert Proposed(p.items)[i].slug != Proposed(p.items)[j].slug;
    }
    InsertionFitsExactly(s.items, p.feature, p.items);
    if InsertItems(s.items, p.feature, p.items).Some? {
      InsertedItems(s.items, p.feature, p.items);
    }
  }

  /** The guard of the read transaction decides: a rejection closes the proposal if and only if no
      approval of it is open, and otherwise one can still publish it in the very next step. */
  lemma RejectionClosesExactly(s: State, id: ProposalId, s': State)
    requires Inv(s) && Rejects(s, id, s')
    ensures Inv(s')
    ensures Closed(s', id) <==> !ApprovalOpen(s, id)
    ensures ApprovalOpen(s, id) && Fits(s.items, s.proposals[id]) ==>
              exists c, s'' :: Commits(s', c, s'') && c.proposal == id && s''.proposals[id].status == Rejected
                && forall item :: item in s.proposals[id].items ==> item.id in s''.items
  {
    StepKeepsInv(s, s');
    assert s'.open == s.open;
    if ApprovalOpen(s, id) {
      var c :| c in s.open && c.proposal == id;
      assert c in s'.open;
      OpenApprovalPublishes(s', c);
      assert Commits(s', c, Commit(s', c).0.(open := s'.open - {c}));
    }
  }

  /** A concrete run in which a rejected proposal's item is published. */
  lemma RejectedProposalPublishes() returns (run: seq<State>)
    ensures IsRun(run) && |run| == 5 && Inv(run[0]) && run[0].items == map[]
    ensures 0 in run[4].proposals && run[4].proposals[0].status == Rejected && 7 in run[4].items
  {
    var item := ProposedItem("a", "a", "b", [1], []);
    var stored := [StoredItem(7, item)];
    var none: set<(WorkItemId, WorkItemId)> := {};
    var s0 := State(map[], none, map[], {});
    var s1 := s0.(proposals := map[0 := Proposal(3, stored, AwaitingApproval)]);
    var c := Context(0, map[]);
    var s2 := s1.(open := {c});
    var s3 := s2.(proposals := map[0 := Proposal(3, stored, Rejected)]);
    var s4 := Commit(s3, c).0.(open := {});
    EmptyAcyclic<WorkItemId>();
    assert Proposed(stored) == [item];
    assert InternalEdges([item]) == {};
    EmptyAcyclic<Slug>();
    assert Proposes(s0, 0, 3, stored, {}, s1);
    assert Opens(s1, c, s2);
    assert Rejects(s2, 0, s3);
    assert stored[..0] == [];
    assert InsertItems(map[], 3, []) == Some(map[]);
    assert InsertItems(map[], 3, stored) == Some(map[7 := ItemRow(3, "a")]);
    assert Commits(s3, c, s4);
    run := [s0, s1, s2, s3, s4];
  }

  lemma EmptyAcyclic<N(!new)>()
    ensures !Cyclic<N>({})
  {
    var none: set<(N, N)> := {};
    if Cyclic(none) {
      var q := ClosedWalk(none);
      ChainHasEdge(none, q);
    }
  }

  lemma {:induction false} PrefixClash(table: map<WorkItemId, ItemRow>, feature: FeatureId, stored: seq<StoredItem>, k: nat)
    requires k <= |stored| && InsertItems(table, feature, stored[..k]).None?
    ensures InsertItems(table, feature, stored).None?
    decreases |stored| - k
  {
    if k == |stored| {
      assert stored[..k] == stored;
    } else {
      assert stored[..k + 1][..k] == stored[..k];
      PrefixClash(table, feature, stored, k + 1);
    }
  }

  method InsertRows(table: map<WorkItemId, ItemRow>, feature: FeatureId, stored: seq<StoredItem>)
    returns (r: Option<map<WorkItemId, ItemRow>>)
    ensures r == InsertItems(table, feature, stored)
  {
    var inserted := table;
    for k := 0 to |stored|
      invariant InsertItems(table, feature, stored[..k]) == Some(inserted)
    {
      assert stored[..k + 1][..k] == stored[..k];
      var row := stored[k];
      if row.id in inserted || row.proposal.slug in FeatureSlugs(inserted, feature) {
        PrefixClash(table, feature, stored, k + 1);
        return None;
      }
      inserted := inserted[row.id := ItemRow(feature, row.proposal.slug)];
    }
    assert stored[..|stored|] == stored;
    return Some(inserted);
  }

  method InsertDependencies(stored: seq<StoredItem>, known: map<Slug, WorkItemId>)
    returns (r: Option<set<(WorkItemId, WorkItemId)>>)
    ensures r.Some? <==> Resolvable(stored, stored, known)
    ensures r.Some? ==> r.value == NewEdges(stored, stored, known)
  {
    var added: set<(WorkItemId, WorkItemId)> := {};
    for k := 0 to |stored|
      invariant Resolvable(stored[..k], stored, known) && added == NewEdges(stored[..k], stored, known)
    {
      var item := stored[k];
      var dependencies := item.proposal.dependencies;
      ghost var before := added;
      for j := 0 to |dependencies|
        invariant forall d :: d in dependencies[..j] ==> Resolve(stored, known, d).Some?
        invariant added == before + ItemEdges(item.id, dependencies[..j], stored, known)
      {
        var d := dependencies[j];
        var target := Resolve(stored, known, d);
        assert dependencies[..j + 1] == dependencies[..j] + [d];
        if target.None? {
          assert item in stored && d in item.proposal.dependencies;
          return None;
        }
        added := added + {(item.id, target.value)};
      }
      assert dependencies[..|dependencies|] == dependencies;
      assert stored[..k + 1] == stored[..k] + [item];
    }
    assert stored[..|stored|] == stored;
    return Some(added);
  }

  /** The planning tables and the two writing operations on them. */
  class PlanningTables {
    var items: map<WorkItemId, ItemRow>
    var deps: set<(WorkItemId, WorkItemId)>
    var proposals: map<ProposalId, Proposal>
    ghost var open: set<Context>

    ghost function Rows(): State
      reads this
    {
      State(items, deps, proposals, open)
    }

    /** `ids` are freshly generated; `seen` is the slug set read before. */
    method Propose(id: ProposalId, feature: FeatureId, ids: seq<WorkItemId>, request: seq<ProposedItem>,
                   encodedSize: nat, seen: set<Slug>)
      returns (r: Result<(), ProposalError>)
      requires id !in proposals && |ids| == |request| && Distinct(ids)
      requires seen <= FeatureSlugs(items, feature)
      modifies this
      ensures r.Ok? <==> ItemsOk(request, encodedSize) && Accepted(request, seen)
      ensures r.Err? ==> Rows() == old(Rows())
      ensures r.Ok? ==> exists stored ::
                |stored| == |request| && (forall i :: 0 <= i < |ids| ==> stored[i] == StoredItem(ids[i], request[i]))
                && Proposes(old(Rows()), id, feature, stored, seen, Rows())
    {
      r := ValidateItems(request, encodedSize);
      if r.Err? {
        return;
      }
      r := ValidateAgainstExisting(request, seen);
      if r.Err? {
        return;
      }
      var stored := seq(|request|, i requires 0 <= i < |request| => StoredItem(ids[i], request[i]));
      assert Proposed(stored) == request;
      proposals := proposals[id := Proposal(feature, stored, AwaitingApproval)];
      assert Proposes(old(Rows()), id, feature, stored, seen, Rows());
    }

    /** The write transaction of `approve`; an early return rolls everything back. */
    method Approve(c: Context) returns (r: Result<(), CommitError>)
      modifies this
      ensures (Rows(), r) == Commit(old(Rows()), c)
    {
      if c.proposal !in proposals {
        return Err(ProposalMissing);
      }
      var p := proposals[c.proposal];
      var inserted := InsertRows(items, p.feature, p.items);
      if inserted.None? {
        return Err(UniqueViolation);
      }
      var added := InsertDependencies(p.items, c.known);
      if added.None? {
        return Err(DependencyUnresolved);
      }
      items, deps := inserted.value, deps + added.value;
      if p.status == AwaitingApproval {
        proposals := proposals[c.proposal := p.(status := Approved)];
      }
      assert proposals == old(proposals)[c.proposal := p.(status := if p.status == AwaitingApproval then Approved else p.status)];
      return Ok(());
    }

    method Reject(id: ProposalId) returns (changed: bool)
      modifies this
      ensures changed <==> Rejects(old(Rows()), id, Rows())
      ensures !changed ==> Rows() == old(Rows())
    {
      changed := id in proposals && proposals[id].status == AwaitingApproval;
      if changed {
        proposals := proposals[id := proposals[id].(status := Rejected)];
      }
    }
  }
}
