/** Isolated checkouts for Work items: one row per allocation, no two of one repository sharing
    a path, branch or Git identity, and a gapless log of reconciliations. */
module CheckoutAllocation {
  import opened Common

  type RepositoryId = nat
  type CheckoutId = nat
  type Path = string

  datatype Purpose = WorkItemWrite | WriterSession

  /** What a readiness row is for: the session key is empty for the primary checkout. */
  datatype Allocation = Allocation(repository: RepositoryId, item: string, purpose: Purpose, sessionKey: string)

  datatype Availability = Available | Missing

  datatype Readiness = Readiness(
    allocation: Allocation,
    parent: CheckoutId,
    path: Path,
    identity: Path,
    branch: string,
    head: string,
    availability: Availability,
    isolationGeneration: nat,
    reconciliationGeneration: nat)

  datatype Event = Event(generation: nat, availability: Availability, head: string)

  datatype Checkout = Checkout(repository: RepositoryId, identity: Path, branch: string, head: string, availability: Availability)

  /** `paths` are the current rows of the path history. */
  datatype Tables = Tables(
    checkouts: map<CheckoutId, Checkout>,
    paths: map<CheckoutId, Path>,
    readiness: map<CheckoutId, Readiness>,
    events: map<CheckoutId, seq<Event>>)

  /** What is derived for an allocation before Git is asked. */
  datatype Boundary = Boundary(parent: CheckoutId, parentIdentity: Path, commonDirectory: Path, target: Path, branch: string)

  datatype Worktree = Worktree(path: Path, identity: Path, commonDirectory: Path, branch: Option<string>, head: string)

  /** Git resolved or materialised a worktree; found the target occupied; or failed otherwise. */
  datatype GitAnswer = Resolved(worktree: Worktree) | Occupied | GitFailed

  datatype AllocationError =
    | EmptyKey
    | AllocationDrift
    | WriterActive
    | TargetOccupied
    | GitError
    | WorktreeMismatch
    | IdentityDrift
    | AllocationConflict
    | IdentityReassigned
    | PathReassigned
    | PathTaken

  // The derived boundary

  function WorkItemTarget(worktrees: Path, item: string): Path {
    worktrees + "/WorkItem-" + item
  }

  function TargetOf(worktrees: Path, a: Allocation, suffix: string -> string): Path {
    if a.purpose == WorkItemWrite then WorkItemTarget(worktrees, a.item)
    else WorkItemTarget(worktrees, a.item) + ".Writer-" + suffix(a.sessionKey)
  }

  function BranchOf(a: Allocation, suffix: string -> string): string {
    if a.purpose == WorkItemWrite then "work-item/" + a.item
    else "work-item/" + a.item + "/writer/" + suffix(a.sessionKey)
  }

  /** Derived boundaries coincide only for the same Work item and purpose with equal hash suffixes,
      for path and branch alike. */
  lemma BoundariesCoincide(worktrees: Path, a: Allocation, b: Allocation, suffix: string -> string)
    requires |a.item| == |b.item|
    ensures TargetOf(worktrees, a, suffix) == TargetOf(worktrees, b, suffix)
            <==> a.item == b.item && a.purpose == b.purpose
                 && (a.purpose == WriterSession ==> suffix(a.sessionKey) == suffix(b.sessionKey))
    ensures TargetOf(worktrees, a, suffix) == TargetOf(worktrees, b, suffix)
            <==> BranchOf(a, suffix) == BranchOf(b, suffix)
  {
    var head := worktrees + "/WorkItem-";
    var ta := if a.purpose == WorkItemWrite then "" else ".Writer-" + suffix(a.sessionKey);
    var tb := if b.purpose == WorkItemWrite then "" else ".Writer-" + suffix(b.sessionKey);
    assert TargetOf(worktrees, a, suffix) == head + a.item + ta;
    assert TargetOf(worktrees, b, suffix) == head + b.item + tb;
    SameParts(head, a.item, ta, b.item, tb);
    var ba := if a.purpose == WorkItemWrite then "" else "/writer/" + suffix(a.sessionKey);
    var bb := if b.purpose == WorkItemWrite then "" else "/writer/" + suffix(b.sessionKey);
    assert BranchOf(a, suffix) == "work-item/" + a.item + ba;
    assert BranchOf(b, suffix) == "work-item/" + b.item + bb;
    SameParts("work-item/", a.item, ba, b.item, bb);
    SameEnding(".Writer-", suffix(a.sessionKey), suffix(b.sessionKey));
    SameEnding("/writer/", suffix(a.sessionKey), suffix(b.sessionKey));
  }

  lemma SameParts(head: string, a: string, x: string, b: string, y: string)
    requires |a| == |b|
    ensures head + a + x == head + b + y <==> a == b && x == y
  {
    var l, r := head + a + x, head + b + y;
    if l == r {
      assert a == l[|head|..|head| + |a|] && b == r[|head|..|head| + |b|];
      assert x == l[|head| + |a|..] && y == r[|head| + |b|..];
    }
  }

  lemma SameEnding(head: string, x: string, y: string)
    ensures head + x == head + y <==> x == y
    ensures head != "" ==> head + x != ""
  {
    if head + x == head + y {
      assert x == (head + x)[|head|..] && y == (head + y)[|head|..];
    }
  }

  // The guards of an allocation

  ghost predicate RowFor(t: Tables, a: Allocation, id: CheckoutId) {
    id in t.readiness && t.readiness[id].allocation == a
  }

  predicate RecordedMatches(row: Readiness, b: Boundary) {
    row.parent == b.parent && row.path == b.target && row.branch == b.branch
  }

  function ShortBranch(branch: string): string {
    if "refs/heads/" <= branch then branch[|"refs/heads/"|..] else branch
  }

  predicate WorktreeMatches(w: Worktree, b: Boundary) {
    w.path == b.target && w.commonDirectory == b.commonDirectory && w.identity != b.parentIdentity
    && w.branch.Some? && ShortBranch(w.branch.value) == b.branch && w.head != ""
  }

  /** Another allocation of the repository already has the path, the identity or the branch. */
  predicate Collides(t: Tables, a: Allocation, b: Boundary, w: Worktree) {
    exists id :: id in t.readiness && t.readiness[id].allocation.repository == a.repository
                 && t.readiness[id].allocation != a
                 && (t.readiness[id].path == b.target || t.readiness[id].identity == w.identity || t.readiness[id].branch == b.branch)
  }

  predicate KnownCheckout(t: Tables, repository: RepositoryId, identity: Path, id: CheckoutId) {
    id in t.checkouts && t.checkouts[id].repository == repository && t.checkouts[id].identity == identity
  }

  /** The worktree's checkout is recorded at another path, or its path belongs to another checkout. */
  ghost predicate PathConflict(t: Tables, a: Allocation, w: Worktree) {
    exists id :: id in t.paths && (KnownCheckout(t, a.repository, w.identity, id) <==> t.paths[id] != w.path)
  }

  ghost predicate OtherRowsKept(a: Allocation, before: map<CheckoutId, Readiness>, after: map<CheckoutId, Readiness>) {
    forall id :: id in before && before[id].allocation != a ==> id in after && after[id] == before[id]
  }

  /** What is checked before the write: the request, the recorded row and Git's answer. */
  ghost predicate Passes(t: Tables, a: Allocation, b: Boundary, busy: set<CheckoutId>, answer: GitAnswer) {
    (a.purpose == WriterSession ==> !Blank(a.sessionKey))
    && answer.Resolved? && WorktreeMatches(answer.worktree, b)
    && forall id :: RowFor(t, a, id) ==>
         RecordedMatches(t.readiness[id], b) && id !in busy && t.readiness[id].identity == answer.worktree.identity
  }

  /** Exactly when an allocation goes through. */
  ghost predicate Admissible(t: Tables, a: Allocation, b: Boundary, busy: set<CheckoutId>, answer: GitAnswer) {
    Passes(t, a, b, busy, answer) && !Collides(t, a, b, answer.worktree) && !PathConflict(t, a, answer.worktree)
  }

  /** The row of the allocation stands at its boundary under the identity Git gave. */
  ghost predicate Allocated(t: Tables, a: Allocation, b: Boundary, identity: Path, id: CheckoutId) {
    RowFor(t, a, id) && t.readiness[id].path == b.target && t.readiness[id].branch == b.branch && t.readiness[id].identity == identity
  }

  // The three writers

  function Appended(events: map<CheckoutId, seq<Event>>, id: CheckoutId, e: Event): map<CheckoutId, seq<Event>> {
    events[id := (if id in events then events[id] else []) + [e]]
  }

  /** `persist_work_item_readiness` once its checks have passed. An existing row keeps its allocation. */
  function Persisted(t: Tables, a: Allocation, b: Boundary, w: Worktree, id: CheckoutId, current: Option<CheckoutId>): Tables
    requires current.Some? ==> current.value in t.readiness
  {
    var branch := if w.branch.Some? then ShortBranch(w.branch.value) else "";
    var isolation := if current.Some? then t.readiness[current.value].isolationGeneration else 1;
    var generation := if current.Some? then t.readiness[current.value].reconciliationGeneration + 1 else 1;
    var allocation := if id in t.readiness then t.readiness[id].allocation else a;
    Tables(
      t.checkouts[id := Checkout(a.repository, w.identity, branch, w.head, Available)],
      t.paths[id := w.path],
      t.readiness[id := Readiness(allocation, b.parent, w.path, w.identity, branch, w.head, Available, isolation, generation)],
      Appended(t.events, id, Event(generation, Available, w.head)))
  }

  /** `record_unavailable`. */
  function Unavailable(t: Tables, id: CheckoutId): Tables
    requires id in t.readiness && id in t.checkouts
  {
    var row := t.readiness[id];
    var generation := row.reconciliationGeneration + 1;
    t.(checkouts := t.checkouts[id := t.checkouts[id].(availability := Missing)],
       readiness := t.readiness[id := row.(availability := Missing, reconciliationGeneration := generation)],
       events := Appended(t.events, id, Event(generation, Missing, row.head)))
  }

  /** `record_registered_checkout_reconciliation`. */
  function Reconciled(t: Tables, id: CheckoutId, head: string): Tables
    requires id in t.checkouts
  {
    var checkouts := t.checkouts[id := t.checkouts[id].(head := head, availability := Available)];
    if id !in t.readiness then t.(checkouts := checkouts)
    else
      var row := t.readiness[id];
      var generation := row.reconciliationGeneration + 1;
      t.(checkouts := checkouts,
         readiness := t.readiness[id := row.(head := head, availability := Available, reconciliationGeneration := generation)],
         events := Appended(t.events, id, Event(generation, Available, head)))
  }

  // What always holds

  predicate Apart(x: Readiness, y: Readiness) {
    x.allocation != y.allocation && x.path != y.path && x.branch != y.branch && x.identity != y.identity
  }

  ghost predicate Isolated(t: Tables) {
    forall x, y :: x in t.readiness && y in t.readiness && x != y
                   && t.readiness[x].allocation.repository == t.readiness[y].allocation.repository ==>
                     Apart(t.readiness[x], t.readiness[y])
  }

  /** Generations 1..n, the row carrying n and the last event's head and availability. */
  ghost predicate LogOf(row: Readiness, events: seq<Event>) {
    row.reconciliationGeneration == |events| && |events| > 0 && row.isolationGeneration == 1
    && (forall i :: 0 <= i < |events| ==> events[i].generation == i + 1)
    && events[|events| - 1].head == row.head && events[|events| - 1].availability == row.availability
  }

  ghost predicate Logged(t: Tables) {
    t.events.Keys == t.readiness.Keys && forall id :: id in t.readiness ==> LogOf(t.readiness[id], t.events[id])
  }

  predicate SameWorktree(x: Checkout, y: Checkout) {
    x.repository == y.repository && x.identity == y.identity
  }

  ghost predicate Registered(t: Tables) {
    (forall id :: id in t.readiness ==>
       KnownCheckout(t, t.readiness[id].allocation.repository, t.readiness[id].identity, id))
    && (forall x, y :: x in t.checkouts && y in t.checkouts && SameWorktree(t.checkouts[x], t.checkouts[y]) ==> x == y)
  }

  ghost predicate Inv(t: Tables) {
    Isolated(t) && Logged(t) && Registered(t)
  }

  /** Later tables: logs only grow and no row is handed to another allocation. */
  ghost predicate Extends(t: Tables, t': Tables) {
    (forall id :: id in t.events ==> id in t'.events && t.events[id] <= t'.events[id])
    && (forall id :: id in t.readiness ==> id in t'.readiness && t'.readiness[id].allocation == t.readiness[id].allocation)
  }

  /** Everything an allocation has checked when it writes. */
  ghost predicate PersistAllowed(t: Tables, a: Allocation, b: Boundary, w: Worktree, id: CheckoutId, current: Option<CheckoutId>) {
    (current.Some? ==> RowFor(t, a, current.value) && current.value == id && t.readiness[id].identity == w.identity)
    && (current.None? ==> forall other :: !RowFor(t, a, other))
    && WorktreeMatches(w, b) && !Collides(t, a, b, w)
    && (KnownCheckout(t, a.repository, w.identity, id)
        || (id !in t.checkouts && forall other :: !KnownCheckout(t, a.repository, w.identity, other)))
    && (id in t.paths ==> t.paths[id] == w.path)
  }

  lemma KnownOnce(t: Tables, repository: RepositoryId, identity: Path, id: CheckoutId)
    requires Registered(t) && KnownCheckout(t, repository, identity, id)
    ensures forall other :: KnownCheckout(t, repository, identity, other) <==> other == id
  {
    forall other | KnownCheckout(t, repository, identity, other) ensures other == id {
      assert SameWorktree(t.checkouts[other], t.checkouts[id]);
    }
  }

  /** The path checks of a write under `id` find exactly the conflicts there are. */
  lemma PathChecks(t: Tables, a: Allocation, w: Worktree, id: CheckoutId)
    requires Registered(t)
    requires KnownCheckout(t, a.repository, w.identity, id)
             || (id !in t.paths && forall other :: !KnownCheckout(t, a.repository, w.identity, other))
    ensures PathConflict(t, a, w)
            <==> (id in t.paths && t.paths[id] != w.path) || exists other :: other in t.paths && other != id && t.paths[other] == w.path
  {
    if KnownCheckout(t, a.repository, w.identity, id) {
      KnownOnce(t, a.repository, w.identity, id);
    }
    hide Registered;
  }

  /** The recorded row of the allocation is registered under the identity it carries. */
  lemma CurrentIsKnown(t: Tables, a: Allocation, w: Worktree, id: CheckoutId)
    requires Registered(t) && RowFor(t, a, id) && t.readiness[id].identity == w.identity
    ensures forall other :: KnownCheckout(t, a.repository, w.identity, other) <==> other == id
  {
    assert KnownCheckout(t, t.readiness[id].allocation.repository, t.readiness[id].identity, id);
    KnownOnce(t, a.repository, w.identity, id);
  }

  lemma RowOnce(t: Tables, a: Allocation, id: CheckoutId)
    requires Isolated(t) && RowFor(t, a, id)
    ensures forall other :: RowFor(t, a, other) <==> other == id
  {
    forall other | RowFor(t, a, other) ensures other == id {
      assert other == id || Apart(t.readiness[other], t.readiness[id]);
    }
  }

  /** A row that is already under the id written belongs to the allocation. */
  lemma PersistTarget(t: Tables, a: Allocation, b: Boundary, w: Worktree, id: CheckoutId, current: Option<CheckoutId>)
    requires Registered(t) && PersistAllowed(t, a, b, w, id, current)
    ensures id in t.readiness <==> current.Some?
    ensures id in t.readiness ==> RowFor(t, a, id)
    ensures RowFor(Persisted(t, a, b, w, id, current), a, id)
  {
    if id in t.readiness {
      assert KnownCheckout(t, t.readiness[id].allocation.repository, t.readiness[id].identity, id);
      assert RowFor(t, a, id);
    }
  }

  lemma PersistedIsolated(t: Tables, a: Allocation, b: Boundary, w: Worktree, id: CheckoutId, current: Option<CheckoutId>)
    requires Isolated(t) && Registered(t) && PersistAllowed(t, a, b, w, id, current)
    ensures Isolated(Persisted(t, a, b, w, id, current))
  {
    PersistTarget(t, a, b, w, id, current);
    var t' := Persisted(t, a, b, w, id, current);
    hide Registered;
    forall x | x in t.readiness && x != id && t.readiness[x].allocation.repository == a.repository
      ensures Apart(t'.readiness[x], t'.readiness[id])
    {
      assert !RowFor(t, a, x);
    }
  }

  lemma PersistedLogged(t: Tables, a: Allocation, b: Boundary, w: Worktree, id: CheckoutId, current: Option<CheckoutId>)
    requires Logged(t) && Registered(t) && PersistAllowed(t, a, b, w, id, current)
    ensures Logged(Persisted(t, a, b, w, id, current))
  {
    PersistTarget(t, a, b, w, id, current);
    assert current.Some? ==> current.value == id && id in t.readiness && LogOf(t.readiness[id], t.events[id]);
    assert current.None? ==> id !in t.events;
    hide Registered, PersistAllowed, ShortBranch;
    var t' := Persisted(t, a, b, w, id, current);
    assert LogOf(t'.readiness[id], t'.events[id]);
    hide LogOf;
  }

  lemma PersistedRegistered(t: Tables, a: Allocation, b: Boundary, w: Worktree, id: CheckoutId, current: Option<CheckoutId>)
    requires Registered(t) && PersistAllowed(t, a, b, w, id, current)
    ensures Registered(Persisted(t, a, b, w, id, current))
  {
    PersistTarget(t, a, b, w, id, current);
    var t' := Persisted(t, a, b, w, id, current);
    if id in t.checkouts {
      KnownOnce(t, a.repository, w.identity, id);
    }
    forall x | x in t.checkouts && x != id
      ensures !SameWorktree(t.checkouts[x], t'.checkouts[id])
    {
      assert !KnownCheckout(t, a.repository, w.identity, x);
    }
    forall x | x in t.readiness && x != id
      ensures KnownCheckout(t', t.readiness[x].allocation.repository, t.readiness[x].identity, x)
    {
      assert KnownCheckout(t, t.readiness[x].allocation.repository, t.readiness[x].identity, x);
    }
  }

  lemma PersistedExtends(t: Tables, a: Allocation, b: Boundary, w: Worktree, id: CheckoutId, current: Option<CheckoutId>)
    requires current.Some? ==> current.value in t.readiness
    ensures Extends(t, Persisted(t, a, b, w, id, current))
  {
  }

  lemma PersistedKeepsInv(t: Tables, a: Allocation, b: Boundary, w: Worktree, id: CheckoutId, current: Option<CheckoutId>)
    requires Inv(t) && PersistAllowed(t, a, b, w, id, current)
    ensures Inv(Persisted(t, a, b, w, id, current))
    ensures RowFor(Persisted(t, a, b, w, id, current), a, id)
    ensures Extends(t, Persisted(t, a, b, w, id, current))
  {
    PersistTarget(t, a, b, w, id, current);
    PersistedIsolated(t, a, b, w, id, current);
    PersistedLogged(t, a, b, w, id, current);
    PersistedRegistered(t, a, b, w, id, current);
    PersistedExtends(t, a, b, w, id, current);
    hide Isolated, Logged, Registered, Extends, WorktreeMatches, Collides;
  }

  lemma UnavailableKeepsInv(t: Tables, id: CheckoutId)
    requires Inv(t) && id in t.readiness
    ensures id in t.checkouts && Inv(Unavailable(t, id)) && Extends(t, Unavailable(t, id))
  {
    assert KnownCheckout(t, t.readiness[id].allocation.repository, t.readiness[id].identity, id);
    var row := t.readiness[id];
    var row' := row.(availability := Missing, reconciliationGeneration := row.reconciliationGeneration + 1);
    UpdatedKeepsInv(t, id, t.checkouts[id].(availability := Missing), row');
    assert Unavailable(t, id) == Updated(t, id, t.checkouts[id].(availability := Missing), row');
  }

  lemma ReconciledKeepsInv(t: Tables, id: CheckoutId, head: string)
    requires Inv(t) && id in t.checkouts
    ensures Inv(Reconciled(t, id, head)) && Extends(t, Reconciled(t, id, head))
  {
    var checkout := t.checkouts[id].(head := head, availability := Available);
    if id in t.readiness {
      var row := t.readiness[id];
      var row' := row.(head := head, availability := Available, reconciliationGeneration := row.reconciliationGeneration + 1);
      UpdatedKeepsInv(t, id, checkout, row');
      assert Reconciled(t, id, head) == Updated(t, id, checkout, row');
    } else {
      SameCheckoutsRegistered(t, id, checkout, t.readiness, t.events);
    }
  }

  /** A row is overwritten under its own identity and the next generation is logged. */
  ghost function Updated(t: Tables, id: CheckoutId, checkout: Checkout, row: Readiness): Tables {
    t.(checkouts := t.checkouts[id := checkout],
       readiness := t.readiness[id := row],
       events := Appended(t.events, id, Event(row.reconciliationGeneration, row.availability, row.head)))
  }

  lemma UpdatedKeepsInv(t: Tables, id: CheckoutId, checkout: Checkout, row: Readiness)
    requires Inv(t) && id in t.readiness && id in t.checkouts
    requires SameWorktree(checkout, t.checkouts[id])
    requires row.allocation == t.readiness[id].allocation && row.path == t.readiness[id].path
             && row.branch == t.readiness[id].branch && row.identity == t.readiness[id].identity
             && row.isolationGeneration == t.readiness[id].isolationGeneration
             && row.reconciliationGeneration == t.readiness[id].reconciliationGeneration + 1
    ensures Inv(Updated(t, id, checkout, row)) && Extends(t, Updated(t, id, checkout, row))
  {
    hide Isolated, Logged, Registered, Extends;
    var t' := Updated(t, id, checkout, row);
    UpdatedLogged(t, id, checkout, row);
    UpdatedIsolated(t, id, checkout, row);
    SameCheckoutsRegistered(t, id, checkout, t'.readiness, t'.events);
    UpdatedExtends(t, id, checkout, row);
  }

  lemma UpdatedLogged(t: Tables, id: CheckoutId, checkout: Checkout, row: Readiness)
    requires Logged(t) && id in t.readiness
    requires row.isolationGeneration == t.readiness[id].isolationGeneration
             && row.reconciliationGeneration == t.readiness[id].reconciliationGeneration + 1
    ensures Logged(Updated(t, id, checkout, row))
  {
    var t' := Updated(t, id, checkout, row);
    assert LogOf(t'.readiness[id], t'.events[id]);
  }

  lemma UpdatedIsolated(t: Tables, id: CheckoutId, checkout: Checkout, row: Readiness)
    requires Isolated(t) && id in t.readiness
    requires row.allocation == t.readiness[id].allocation && row.path == t.readiness[id].path
             && row.branch == t.readiness[id].branch && row.identity == t.readiness[id].identity
    ensures Isolated(Updated(t, id, checkout, row))
  {
    var t' := Updated(t, id, checkout, row);
    forall x, y | x in t'.readiness && y in t'.readiness && x != y
                  && t'.readiness[x].allocation.repository == t'.readiness[y].allocation.repository
      ensures Apart(t'.readiness[x], t'.readiness[y])
    {
      assert Apart(t.readiness[x], t.readiness[y]);
    }
  }

  lemma UpdatedExtends(t: Tables, id: CheckoutId, checkout: Checkout, row: Readiness)
    requires id in t.readiness && row.allocation == t.readiness[id].allocation
    ensures Extends(t, Updated(t, id, checkout, row))
  {
  }

  lemma SameCheckoutsRegistered(t: Tables, id: CheckoutId, checkout: Checkout, readiness: map<CheckoutId, Readiness>,
                                events: map<CheckoutId, seq<Event>>)
    requires Registered(t) && id in t.checkouts && SameWorktree(checkout, t.checkouts[id])
    requires readiness.Keys == t.readiness.Keys
    requires forall x :: x in readiness ==> readiness[x].identity == t.readiness[x].identity
                                            && readiness[x].allocation == t.readiness[x].allocation
    ensures Registered(t.(checkouts := t.checkouts[id := checkout], readiness := readiness, events := events))
  {
    var t' := t.(checkouts := t.checkouts[id := checkout], readiness := readiness, events := events);
    forall x, y | x in t'.checkouts && y in t'.checkouts && SameWorktree(t'.checkouts[x], t'.checkouts[y]) ensures x == y {
      assert SameWorktree(t.checkouts[x], t.checkouts[y]);
    }
    forall x | x in t'.readiness
      ensures KnownCheckout(t', t'.readiness[x].allocation.repository, t'.readiness[x].identity, x)
    {
      assert KnownCheckout(t, t.readiness[x].allocation.repository, t.readiness[x].identity, x);
    }
  }

  // Whole histories

  /** The writers of the tables, as atomic steps; `Register` is a checkout that is scanned or prepared
      for a Feature, under the id of its worktree if that is known, and perhaps at a new path. */
  datatype Action =
    | Persist(a: Allocation, b: Boundary, w: Worktree, id: CheckoutId, current: Option<CheckoutId>)
    | MarkUnavailable(id: CheckoutId)
    | Reconcile(id: CheckoutId, head: string)
    | Register(id: CheckoutId, row: Checkout, path: Path)

  ghost predicate Step(t: Tables, action: Action, t': Tables) {
    match action
    case Persist(a, b, w, id, current) => PersistAllowed(t, a, b, w, id, current) && t' == Persisted(t, a, b, w, id, current)
    case MarkUnavailable(id) => id in t.readiness && id in t.checkouts && t' == Unavailable(t, id)
    case Reconcile(id, head) => id in t.checkouts && t' == Reconciled(t, id, head)
    case Register(id, row, path) =>
      ((id !in t.checkouts && forall other :: other in t.checkouts ==> !SameWorktree(t.checkouts[other], row))
       || (id in t.checkouts && SameWorktree(row, t.checkouts[id])))
      && t' == t.(checkouts := t.checkouts[id := row], paths := t.paths[id := path])
  }

  lemma PathsDoNotMatter(t: Tables, paths: map<CheckoutId, Path>)
    requires Registered(t)
    ensures Registered(t.(paths := paths))
  {
    forall id | id in t.readiness
      ensures KnownCheckout(t.(paths := paths), t.readiness[id].allocation.repository, t.readiness[id].identity, id)
    {
      assert KnownCheckout(t, t.readiness[id].allocation.repository, t.readiness[id].identity, id);
    }
  }

  lemma OnlyCheckouts(t: Tables, t': Tables)
    requires Isolated(t) && Logged(t) && t'.readiness == t.readiness && t'.events == t.events
    ensures Isolated(t') && Logged(t') && Extends(t, t')
  {
  }

  lemma StepKeepsInv(t: Tables, action: Action, t': Tables)
    requires Inv(t) && Step(t, action, t')
    ensures Inv(t') && Extends(t, t')
  {
    hide Isolated, Logged, PersistAllowed;
    match action
    case Persist(a, b, w, id, current) =>
      hide Registered, Persisted;
      PersistedKeepsInv(t, a, b, w, id, current);
    case MarkUnavailable(id) =>
      hide Registered, Unavailable;
      UnavailableKeepsInv(t, id);
    case Reconcile(id, head) =>
      hide Registered, Reconciled;
      ReconciledKeepsInv(t, id, head);
    case Register(id, row, path) =>
      if id in t.checkouts {
        SameCheckoutsRegistered(t, id, row, t.readiness, t.events);
        assert t' == t.(checkouts := t.checkouts[id := row], readiness := t.readiness, events := t.events).(paths := t.paths[id := path]);
        PathsDoNotMatter(t.(checkouts := t.checkouts[id := row], readiness := t.readiness, events := t.events), t.paths[id := path]);
        OnlyCheckouts(t, t');
      } else {
        RegisteredKeepsInv(t, id, row, path);
      }
  }

  lemma RegisteredKeepsInv(t: Tables, id: CheckoutId, row: Checkout, path: Path)
    requires Inv(t) && id !in t.checkouts && forall other :: other in t.checkouts ==> !SameWorktree(t.checkouts[other], row)
    ensures Inv(t.(checkouts := t.checkouts[id := row], paths := t.paths[id := path]))
    ensures Extends(t, t.(checkouts := t.checkouts[id := row], paths := t.paths[id := path]))
  {
    var t' := t.(checkouts := t.checkouts[id := row], paths := t.paths[id := path]);
    forall x | x in t.readiness ensures KnownCheckout(t', t.readiness[x].allocation.repository, t.readiness[x].identity, x) {
      assert KnownCheckout(t, t.readiness[x].allocation.repository, t.readiness[x].identity, x);
    }
  }

  ghost predicate IsRun(run: seq<Tables>, actions: seq<Action>) {
    |run| == |actions| + 1 && forall i :: 0 <= i < |actions| ==> Step(run[i], actions[i], run[i + 1])
  }

  /** In every history: rows stay isolated, each log is gapless and only grows, and a row is never
      handed to another allocation. */
  lemma {:induction false} RunsStayIsolated(run: seq<Tables>, actions: seq<Action>, i: nat, j: nat)
    requires IsRun(run, actions) && Inv(run[0]) && i <= j < |run|
    ensures Inv(run[i]) && Inv(run[j]) && Extends(run[i], run[j])
    decreases j
  {
    hide Inv, Step;
    if j > 0 {
      var k := j - 1;
      RunsStayIsolated(run, actions, if i < j then i else k, k);
      assert Step(run[k], actions[k], run[k + 1]);
      StepKeepsInv(run[k], actions[k], run[k + 1]);
    }
  }

  // What a step says of its checkout

  /** The step saw the checkout available at a head, or could not reach it and kept the head known. */
  ghost predicate Tells(t: Tables, action: Action, id: CheckoutId, availability: Availability, head: string) {
    match action
    case Persist(_, _, w, written, _) => written == id && availability == Available && head == w.head
    case MarkUnavailable(lost) => lost == id && availability == Missing && id in t.readiness && head == t.readiness[id].head
    case Reconcile(seen, found) => seen == id && availability == Available && head == found
    case Register(_, _, _) => false
  }

  lemma AppendedOnly(events: map<CheckoutId, seq<Event>>, id: CheckoutId, e: Event)
    ensures forall other :: other in Appended(events, id, e) && other != id ==> other in events && Appended(events, id, e)[other] == events[other]
    ensures var log := Appended(events, id, e)[id];
            log == (if id in events then events[id] else []) + [e]
  {
  }

  /** Every step logs what it saw, once, where there is a readiness row, writes it on that row, and
      touches no other log and no other row. */
  lemma StepTells(t: Tables, action: Action, t': Tables, id: CheckoutId)
    requires Inv(t) && Step(t, action, t')
    ensures id in t'.readiness ==>
              (id in t.readiness && t'.readiness[id] == t.readiness[id] && t'.events[id] == t.events[id])
              || (id in t'.events && t'.events[id] != []
                  && t'.events[id][..|t'.events[id]| - 1] == (if id in t.events then t.events[id] else [])
                  && Tells(t, action, id, t'.events[id][|t'.events[id]| - 1].availability, t'.events[id][|t'.events[id]| - 1].head)
                  && Tells(t, action, id, t'.readiness[id].availability, t'.readiness[id].head))
  {
    hide Isolated, Registered, WorktreeMatches, Collides, KnownCheckout, LogOf, ShortBranch;
    match action
    case Persist(a, b, w, written, current) =>
      var generation := if current.Some? then t.readiness[current.value].reconciliationGeneration + 1 else 1;
      AppendedOnly(t.events, written, Event(generation, Available, w.head));
    case MarkUnavailable(lost) =>
      AppendedOnly(t.events, lost, Event(t.readiness[lost].reconciliationGeneration + 1, Missing, t.readiness[lost].head));
    case Reconcile(seen, found) =>
      if seen in t.readiness {
        AppendedOnly(t.events, seen, Event(t.readiness[seen].reconciliationGeneration + 1, Available, found));
      }
    case Register(_, _, _) =>
  }

  /** In every history, each event of a log was written by one step, and says what that step saw; and
      the readiness row says what the last one saw. */
  lemma {:induction false} EventsAreAnswers(run: seq<Tables>, actions: seq<Action>, j: nat, id: CheckoutId, n: nat) returns (k: nat)
    requires IsRun(run, actions) && Inv(run[0]) && j < |run|
    requires id in run[j].events && n < |run[j].events[id]| && (id in run[0].events ==> n >= |run[0].events[id]|)
    ensures k < j && Tells(run[k], actions[k], id, run[j].events[id][n].availability, run[j].events[id][n].head)
    ensures id in run[j].readiness && (n == |run[j].events[id]| - 1 ==>
              Tells(run[k], actions[k], id, run[j].readiness[id].availability, run[j].readiness[id].head))
    decreases j
  {
    hide Step, Tells;
    RunsStayIsolated(run, actions, j, j);
    LoggedRows(run[j], id);
    var i := j - 1;
    RunsStayIsolated(run, actions, i, i);
    assert Step(run[i], actions[i], run[i + 1]);
    StepTells(run[i], actions[i], run[i + 1], id);
    LoggedKeys(run[i], id);
    hide Inv;
    if id in run[i].events && n < |run[i].events[id]| {
      k := EventsAreAnswers(run, actions, i, id, n);
      assert run[j].events[id][n] == run[i].events[id][n];
    } else {
      k := i;
    }
  }

  lemma LoggedKeys(t: Tables, id: CheckoutId)
    requires Inv(t)
    ensures id in t.events <==> id in t.readiness
  {
  }

  lemma LoggedRows(t: Tables, id: CheckoutId)
    requires Inv(t) && id in t.events
    ensures id in t.readiness && |t.events[id]| > 0
    ensures t.readiness[id].availability == t.events[id][|t.events[id]| - 1].availability
    ensures t.readiness[id].head == t.events[id][|t.events[id]| - 1].head
  {
    assert LogOf(t.readiness[id], t.events[id]);
  }

  /** The checkout row says what the step saw, as the readiness row does; a row that is written anew
      stands at the boundary that was asked for, under the identity Git gave. */
  lemma StepWritesCheckout(t: Tables, action: Action, t': Tables)
    requires Inv(t) && Step(t, action, t')
    ensures match action
            case Persist(a, b, w, id, _) =>
              id in t'.checkouts && t'.checkouts[id] == Checkout(a.repository, w.identity, b.branch, w.head, Available)
              && id in t'.paths && t'.paths[id] == b.target
              && Allocated(t', a, b, w.identity, id) && t'.readiness[id].parent == b.parent
            case MarkUnavailable(id) =>
              t'.checkouts == t.checkouts[id := t.checkouts[id].(availability := Missing)] && t'.paths == t.paths
              && t'.readiness[id].availability == Missing && t'.readiness[id].head == t.readiness[id].head
            case Reconcile(id, head) =>
              t'.checkouts == t.checkouts[id := t.checkouts[id].(head := head, availability := Available)] && t'.paths == t.paths
              && (id in t.readiness ==> t'.readiness[id].availability == Available && t'.readiness[id].head == head)
            case Register(_, _, _) => t'.readiness == t.readiness && t'.events == t.events
  {
    if action.Persist? {
      hide Isolated, Logged;
      PersistedAllocates(t, action.a, action.b, action.w, action.id, action.current);
    }
  }

  /** An allocation goes through exactly if its request has a key, its row, if there is one, is still where
      it was recorded and has no writer, the worktree Git gave is one of the repository at the boundary
      asked for, not the parent's, at a commit, and no other allocation and no other checkout is there. */
  lemma AdmissibleExactly(t: Tables, a: Allocation, b: Boundary, busy: set<CheckoutId>, answer: GitAnswer)
    ensures Admissible(t, a, b, busy, answer)
            <==> (a.purpose == WriterSession ==> !Blank(a.sessionKey)) && answer.Resolved?
                 && (forall id :: RowFor(t, a, id) ==>
                       id !in busy && t.readiness[id].parent == b.parent && t.readiness[id].path == b.target
                       && t.readiness[id].branch == b.branch && t.readiness[id].identity == answer.worktree.identity)
                 && FitsBoundary(answer.worktree, b) && AloneIn(t, a, b, answer.worktree) && PathIsFree(t, a, answer.worktree)
  {
    if answer.Resolved? && answer.worktree.branch.Some? {
      var branch := answer.worktree.branch.value;
      assert "refs/heads/" <= branch ==> branch == "refs/heads/" + branch[|"refs/heads/"|..];
    }
  }

  ghost predicate FitsBoundary(w: Worktree, b: Boundary) {
    w.path == b.target && w.head != "" && w.identity != b.parentIdentity && w.commonDirectory == b.commonDirectory
    && (w.branch == Some("refs/heads/" + b.branch) || (w.branch == Some(b.branch) && !("refs/heads/" <= b.branch)))
  }

  ghost predicate AloneIn(t: Tables, a: Allocation, b: Boundary, w: Worktree) {
    forall id :: id in t.readiness && t.readiness[id].allocation.repository == a.repository && t.readiness[id].allocation != a ==>
      t.readiness[id].path != b.target && t.readiness[id].branch != b.branch && t.readiness[id].identity != w.identity
  }

  /** The path on record is that of the worktree's checkout, and of no other. */
  ghost predicate PathIsFree(t: Tables, a: Allocation, w: Worktree) {
    forall id :: id in t.paths ==>
      (t.paths[id] == w.path
       <==> id in t.checkouts && t.checkouts[id].repository == a.repository && t.checkouts[id].identity == w.identity)
  }

  /** The service: one allocation at a time. */
  class CheckoutStore {
    var checkouts: map<CheckoutId, Checkout>
    var paths: map<CheckoutId, Path>
    var readiness: map<CheckoutId, Readiness>
    var events: map<CheckoutId, seq<Event>>

    constructor ()
      ensures Inv(Rows()) && readiness == map[]
    {
      checkouts, paths, readiness, events := map[], map[], map[], map[];
    }

    function Rows(): Tables
      reads this
    {
      Tables(checkouts, paths, readiness, events)
    }

    method FindRow(a: Allocation) returns (current: Option<CheckoutId>)
      ensures current.Some? ==> RowFor(Rows(), a, current.value)
      ensures current.None? ==> forall id :: !RowFor(Rows(), a, id)
    {
      if id :| id in readiness && readiness[id].allocation == a {
        return Some(id);
      }
      return None;
    }

    method FindCheckout(repository: RepositoryId, identity: Path) returns (known: Option<CheckoutId>)
      ensures known.Some? ==> KnownCheckout(Rows(), repository, identity, known.value)
      ensures known.None? ==> forall id :: !KnownCheckout(Rows(), repository, identity, id)
    {
      if id :| id in checkouts && checkouts[id].repository == repository && checkouts[id].identity == identity {
        return Some(id);
      }
      return None;
    }

    method RecordUnavailable(id: CheckoutId)
      requires Inv(Rows()) && id in readiness
      modifies this
      ensures Inv(Rows()) && id in old(checkouts) && Rows() == Unavailable(old(Rows()), id)
    {
      ghost var was := Rows();
      assert id in was.checkouts && Inv(Unavailable(was, id)) by {
        UnavailableKeepsInv(was, id);
      }
      hide Inv, Isolated, Logged, Registered, Appended;
      var row := readiness[id];
      var generation := row.reconciliationGeneration + 1;
      checkouts := checkouts[id := checkouts[id].(availability := Missing)];
      readiness := readiness[id := row.(availability := Missing, reconciliationGeneration := generation)];
      events := Appended(events, id, Event(generation, Missing, row.head));
      assert Rows() == Unavailable(was, id);
    }

    method RecordReconciliation(id: CheckoutId, head: string)
      requires Inv(Rows()) && id in checkouts
      modifies this
      ensures Inv(Rows()) && Rows() == Reconciled(old(Rows()), id, head)
    {
      ghost var next := Reconciled(Rows(), id, head);
      assert Inv(next) by {
        ReconciledKeepsInv(Rows(), id, head);
      }
      hide Inv, Isolated, Logged, Registered, Appended;
      if id in readiness {
        var row := readiness[id];
        var generation := row.reconciliationGeneration + 1;
        events := Appended(events, id, Event(generation, Available, head));
        readiness := readiness[id := row.(head := head, availability := Available, reconciliationGeneration := generation)];
        assert events == next.events && readiness == next.readiness;
      }
      checkouts := checkouts[id := checkouts[id].(head := head, availability := Available)];
      assert Rows() == next;
    }

    /** The statements that write, under the checkout id found or generated. */
    method WriteRows(a: Allocation, b: Boundary, w: Worktree, id: CheckoutId, current: Option<CheckoutId>)
      requires Inv(Rows()) && PersistAllowed(Rows(), a, b, w, id, current)
      modifies this
      ensures Inv(Rows()) && Rows() == Persisted(old(Rows()), a, b, w, id, current)
    {
      ghost var next := Persisted(Rows(), a, b, w, id, current);
      assert Inv(next) by {
        PersistedKeepsInv(Rows(), a, b, w, id, current);
      }
      hide Inv, Isolated, Logged, Registered, Appended, WorktreeMatches, Collides, KnownCheckout;
      var branch := if w.branch.Some? then ShortBranch(w.branch.value) else "";
      var isolation := if current.Some? then readiness[current.value].isolationGeneration else 1;
      var generation := if current.Some? then readiness[current.value].reconciliationGeneration + 1 else 1;
      var allocation := if id in readiness then readiness[id].allocation else a;
      checkouts := checkouts[id := Checkout(a.repository, w.identity, branch, w.head, Available)];
      paths := paths[id := w.path];
      readiness := readiness[id := Readiness(allocation, b.parent, w.path, w.identity, branch, w.head, Available, isolation, generation)];
      events := Appended(events, id, Event(generation, Available, w.head));
      assert Rows() == next;
    }

    /** The write transaction; an error rolls it back. `unused` is a freshly generated id. */
    method Persist(a: Allocation, b: Boundary, w: Worktree, current: Option<CheckoutId>, unused: CheckoutId)
      returns (r: Result<CheckoutId, AllocationError>)
      requires Inv(Rows()) && unused !in checkouts && unused !in paths
      requires WorktreeMatches(w, b) && !Collides(Rows(), a, b, w)
      requires current.Some? ==> RowFor(Rows(), a, current.value) && readiness[current.value].identity == w.identity
      requires current.None? ==> forall id :: !RowFor(Rows(), a, id)
      modifies this
      ensures Inv(Rows())
      ensures r.Ok? <==> !PathConflict(old(Rows()), a, w)
      ensures r.Err? ==> Rows() == old(Rows()) && r.error in {PathReassigned, PathTaken}
      ensures r.Ok? ==> PersistAllowed(old(Rows()), a, b, w, r.value, current)
                        && Rows() == Persisted(old(Rows()), a, b, w, r.value, current)
    {
      ghost var was := Rows();
      assert Registered(was);
      hide Inv, Isolated, Logged, Registered, WorktreeMatches, Collides, Persisted, KnownCheckout;
      if current.Some? {
        CurrentIsKnown(was, a, w, current.value);
      }
      var known := FindCheckout(a.repository, w.identity);
      assert Rows() == was;
      var id := if known.Some? then known.value else unused;
      if current.Some? && current.value != id {
        assert false;
        return Err(IdentityReassigned);
      }
      PathChecks(was, a, w, id);
      hide PathConflict;
      if id in paths && paths[id] != w.path {
        return Err(PathReassigned);
      }
      if exists other :: other in paths && other != id && paths[other] == w.path {
        return Err(PathTaken);
      }
      WriteRows(a, b, w, id, current);
      return Ok(id);
    }

    /** The row of the allocation, if any, is marked missing. */
    method Refuse(ghost a: Allocation, current: Option<CheckoutId>)
      requires Inv(Rows()) && (current.Some? ==> RowFor(Rows(), a, current.value))
      modifies this
      ensures Inv(Rows()) && OtherRowsKept(a, old(readiness), readiness)
      ensures current.None? ==> Rows() == old(Rows())
      ensures current.Some? ==> current.value in old(checkouts) && Rows() == Unavailable(old(Rows()), current.value)
    {
      hide Inv;
      if current.Some? {
        RecordUnavailable(current.value);
      }
    }

    /** The collision check and the write. */
    method Commit(a: Allocation, b: Boundary, w: Worktree, current: Option<CheckoutId>, unused: CheckoutId)
      returns (r: Result<CheckoutId, AllocationError>)
      requires Inv(Rows()) && unused !in checkouts && unused !in paths && WorktreeMatches(w, b)
      requires current.Some? ==> RowFor(Rows(), a, current.value) && readiness[current.value].identity == w.identity
      requires current.None? ==> forall id :: !RowFor(Rows(), a, id)
      modifies this
      ensures Inv(Rows()) && OtherRowsKept(a, old(readiness), readiness)
      ensures r.Ok? <==> !Collides(old(Rows()), a, b, w) && !PathConflict(old(Rows()), a, w)
      ensures r.Err? ==> Rows() == old(Rows()) && r.error in {AllocationConflict, PathReassigned, PathTaken}
      ensures r == Err(AllocationConflict) <==> Collides(old(Rows()), a, b, w)
      ensures r.Ok? ==> Allocated(Rows(), a, b, w.identity, r.value)
    {
      ghost var was := Rows();
      if Collides(Rows(), a, b, w) {
        return Err(AllocationConflict);
      }
      r := Persist(a, b, w, current, unused);
      if r.Ok? {
        PersistedAllocates(was, a, b, w, r.value, current);
      }
      hide *;
    }

    /** Everything before the write; nothing is changed yet. */
    method Examine(a: Allocation, b: Boundary, busy: set<CheckoutId>, answer: GitAnswer)
      returns (current: Option<CheckoutId>, refusal: Option<AllocationError>)
      requires Isolated(Rows())
      ensures refusal.None? <==> Passes(Rows(), a, b, busy, answer)
      ensures current.Some? ==> current.value in readiness
      ensures refusal == if a.purpose == WriterSession && Blank(a.sessionKey) then Some(EmptyKey)
                         else if current.Some? && !RecordedMatches(readiness[current.value], b) then Some(AllocationDrift)
                         else if current.Some? && current.value in busy then Some(WriterActive)
                         else if answer.GitFailed? then Some(GitError)
                         else if answer.Occupied? then Some(TargetOccupied)
                         else if !WorktreeMatches(answer.worktree, b) then Some(WorktreeMismatch)
                         else if current.Some? && readiness[current.value].identity != answer.worktree.identity then Some(IdentityDrift)
                         else None
      ensures refusal != Some(EmptyKey) && current.Some? ==> RowFor(Rows(), a, current.value)
      ensures refusal != Some(EmptyKey) && current.None? ==> forall id :: !RowFor(Rows(), a, id)
      ensures refusal.Some? && refusal.value in {TargetOccupied, WorktreeMismatch, IdentityDrift} && current.Some? ==>
                RecordedMatches(readiness[current.value], b) && current.value !in busy
    {
      current := None;
      hide WorktreeMatches;
      if a.purpose == WriterSession && Blank(a.sessionKey) {
        return None, Some(EmptyKey);
      }
      current := FindRow(a);
      if current.Some? {
        RowOnce(Rows(), a, current.value);
        if !RecordedMatches(readiness[current.value], b) {
          return current, Some(AllocationDrift);
        }
        if current.value in busy {
          return current, Some(WriterActive);
        }
      }
      if answer.GitFailed? {
        return current, Some(GitError);
      }
      if answer.Occupied? {
        return current, Some(TargetOccupied);
      }
      if !WorktreeMatches(answer.worktree, b) {
        return current, Some(WorktreeMismatch);
      }
      if current.Some? && readiness[current.value].identity != answer.worktree.identity {
        return current, Some(IdentityDrift);
      }
      return current, None;
    }

    /** `prepare_work_item_allocation`. `busy` are the checkouts with a current writer. */
    method Prepare(a: Allocation, b: Boundary, busy: set<CheckoutId>, answer: GitAnswer, unused: CheckoutId)
      returns (r: Result<CheckoutId, AllocationError>)
      requires Inv(Rows()) && unused !in checkouts && unused !in paths
      modifies this
      ensures Inv(Rows()) && OtherRowsKept(a, old(readiness), readiness)
      ensures r.Ok? <==> Admissible(old(Rows()), a, b, busy, answer)
      ensures r.Ok? ==> Allocated(Rows(), a, b, answer.worktree.identity, r.value)
      ensures r.Err? ==>
                if r.error in {TargetOccupied, WorktreeMismatch, IdentityDrift} && exists id :: RowFor(old(Rows()), a, id)
                then exists id :: RowFor(old(Rows()), a, id) && id in old(checkouts) && Rows() == Unavailable(old(Rows()), id)
                else Rows() == old(Rows())
    {
      assert Isolated(Rows());
      hide Inv, Isolated, PathConflict, Collides, WorktreeMatches, Unavailable, Allocated, OtherRowsKept;
      var current, refusal := Examine(a, b, busy, answer);
      if refusal.Some? {
        if refusal.value in {TargetOccupied, WorktreeMismatch, IdentityDrift} {
          Refuse(a, current);
        } else {
          NothingChanged(a, readiness);
        }
        return Err(refusal.value);
      }
      r := Commit(a, b, answer.worktree, current, unused);
    }
  }

  /** Two session keys with the same hash suffix derive one boundary: the second is refused. */
  lemma CollidingKeysAreRefused(t: Tables, worktrees: Path, a: Allocation, other: Allocation, id: CheckoutId, b: Boundary,
                                busy: set<CheckoutId>, answer: GitAnswer, suffix: string -> string)
    requires RowFor(t, other, id) && t.readiness[id].path == TargetOf(worktrees, other, suffix)
    requires other == a.(sessionKey := other.sessionKey) && other.sessionKey != a.sessionKey
    requires a.purpose == WriterSession && suffix(other.sessionKey) == suffix(a.sessionKey)
    requires b.target == TargetOf(worktrees, a, suffix)
    ensures !Admissible(t, a, b, busy, answer)
  {
    BoundariesCoincide(worktrees, a, other, suffix);
    if answer.Resolved? {
      assert t.readiness[id].path == b.target;
      assert Collides(t, a, b, answer.worktree);
    }
  }

  lemma NothingChanged(a: Allocation, rows: map<CheckoutId, Readiness>)
    ensures OtherRowsKept(a, rows, rows)
  {
  }

  lemma PersistedAllocates(t: Tables, a: Allocation, b: Boundary, w: Worktree, id: CheckoutId, current: Option<CheckoutId>)
    requires Registered(t) && PersistAllowed(t, a, b, w, id, current)
    ensures Allocated(Persisted(t, a, b, w, id, current), a, b, w.identity, id)
    ensures OtherRowsKept(a, t.readiness, Persisted(t, a, b, w, id, current).readiness)
  {
    PersistTarget(t, a, b, w, id, current);
  }
}
