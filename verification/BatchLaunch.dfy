/** Batches of managed launches: a preview is confirmed at most once, all its children are
    reserved together or none is, and from then on the status of the batch is the aggregate of
    its children. */
module BatchLaunch {
  import opened Common
  import opened Sorting

  type Time = int
  type Token = nat
  type CheckoutId = nat
  type IntentId = nat
  type SessionId = nat
  type WorkItemId = nat
  type RepositoryId = nat

  datatype ChildStatus = Selected | ChildReserved | Launched | Bound | ChildFailed | Skipped

  datatype Child = Child(
    position: nat,
    item: WorkItemId,
    repository: RepositoryId,
    layer: nat,
    checkout: Option<CheckoutId>,
    intent: Option<IntentId>,
    session: Option<SessionId>,
    status: ChildStatus,
    failure: Option<string>)

  datatype BatchStatus = Previewed | Reserved | Launching | Completed | Partial | Failed

  datatype Batch = Batch(
    token: Token,
    expires: Time,
    status: BatchStatus,
    confirmedAt: Option<Time>,
    completedAt: Option<Time>,
    children: seq<Child>)

  datatype MarkKind = AsLaunched(intent: IntentId) | AsBound(session: SessionId) | AsFailed(failure: string)

  /** What the service commits. Everything `reserve_with` does between these (checking the
      confirmation, reading the immutable parts of the children, preparing checkouts) only reads the
      two tables, so every interleaving of calls is a sequence of transactions. */
  datatype Transaction =
    | Reserve(token: Token, prepared: seq<CheckoutId>, revalidated: bool, at: Time)
    | FailPreflight(position: nat, failure: string, at: Time)
    | Mark(position: nat, kind: MarkKind, at: Time)

  // Status of the whole batch

  function Tally(children: seq<Child>, statuses: set<ChildStatus>): nat {
    if children == [] then 0
    else (if children[0].status in statuses then 1 else 0) + Tally(children[1..], statuses)
  }

  predicate Any(children: seq<Child>, statuses: set<ChildStatus>) {
    exists k :: 0 <= k < |children| && children[k].status in statuses
  }

  lemma {:induction false} TallyCounts(children: seq<Child>, statuses: set<ChildStatus>)
    ensures Tally(children, statuses) > 0 <==> Any(children, statuses)
  {
    if children != [] {
      TallyCounts(children[1..], statuses);
      if Any(children, statuses) {
        var k :| 0 <= k < |children| && children[k].status in statuses;
        assert k > 0 ==> children[1..][k - 1].status in statuses;
      }
      if Any(children[1..], statuses) {
        var k :| 0 <= k < |children[1..]| && children[1..][k].status in statuses;
        assert children[k + 1].status in statuses;
      }
    }
  }

  const PENDING := {Selected, ChildReserved, Launched}
  const UNSUCCESSFUL := {ChildFailed, Skipped}
  const FINISHED := {Completed, Partial, Failed}

  function Aggregate(children: seq<Child>): BatchStatus {
    if Tally(children, PENDING) > 0 then Launching
    else if Tally(children, UNSUCCESSFUL) == 0 then Completed
    else if Tally(children, {Bound}) == 0 then Failed
    else Partial
  }

  /** The status names mean what they say. */
  lemma AggregateMeaning(children: seq<Child>)
    ensures Aggregate(children) == Launching <==> Any(children, PENDING)
    ensures Aggregate(children) == Completed <==> forall k :: 0 <= k < |children| ==> children[k].status == Bound
    ensures Aggregate(children) == Failed
            <==> children != [] && forall k :: 0 <= k < |children| ==> children[k].status in UNSUCCESSFUL
    ensures Aggregate(children) == Partial
            <==> !Any(children, PENDING) && Any(children, {Bound}) && Any(children, UNSUCCESSFUL)
  {
    TallyCounts(children, PENDING);
    TallyCounts(children, UNSUCCESSFUL);
    TallyCounts(children, {Bound});
  }

  // The transactions

  predicate Succeeds(b: Batch, tx: Transaction) {
    tx.Reserve? && tx.revalidated && tx.token == b.token && b.status == Previewed
  }

  function ReservedChild(child: Child, checkout: CheckoutId): Child {
    if child.status == Selected then child.(checkout := Some(checkout), status := ChildReserved) else child
  }

  function WithoutPreflight(child: Child, position: nat, failure: string): Child {
    if child.status != Selected then child
    else if child.position == position then child.(status := ChildFailed, failure := Some(failure))
    else child.(status := Skipped, failure := Some("batch preflight failed"))
  }

  function Marked(child: Child, kind: MarkKind): Child {
    match kind
    case AsLaunched(intent) => child.(status := Launched, intent := Some(intent), failure := None)
    case AsBound(session) => child.(status := Bound, session := Some(session), failure := None)
    case AsFailed(failure) => child.(status := ChildFailed, failure := Some(failure))
  }

  function Resummed(b: Batch, children: seq<Child>, at: Time): Batch {
    var status := Aggregate(children);
    b.(children := children, status := status, completedAt := if status in FINISHED then Some(at) else None)
  }

  function Apply(b: Batch, tx: Transaction): Batch {
    match tx
    case Reserve(token, prepared, revalidated, at) =>
      if !Succeeds(b, tx) then b
      else
        b.(status := Reserved, confirmedAt := Some(at),
           children := seq(|b.children|, k requires 0 <= k < |b.children| =>
             if k < |prepared| then ReservedChild(b.children[k], prepared[k]) else b.children[k]))
    case FailPreflight(position, failure, at) =>
      var children := seq(|b.children|, k requires 0 <= k < |b.children| => WithoutPreflight(b.children[k], position, failure));
      if b.status == Previewed then b.(status := Failed, completedAt := Some(at), children := children)
      else b.(children := children)
    case Mark(position, kind, at) =>
      if position >= |b.children| then b
      else Resummed(b, b.children[position := Marked(b.children[position], kind)], at)
  }

  function After(b: Batch, txs: seq<Transaction>): Batch {
    if txs == [] then b else Apply(After(b, txs[..|txs| - 1]), txs[|txs| - 1])
  }

  // What every orderly run keeps

  ghost predicate Numbered(children: seq<Child>) {
    forall k :: 0 <= k < |children| ==> children[k].position == k
  }

  ghost predicate Untouched(child: Child) {
    child.status == Selected && child.checkout.None? && child.intent.None? && child.session.None?
  }

  /** What a child's status rests on: a checkout reserved for it, the intent of its launch, the session
      that came of it, or the reason for which there is none. */
  ghost predicate Backed(child: Child) {
    match child.status
    case Selected => true
    case ChildReserved => child.checkout.Some?
    case Launched => child.intent.Some?
    case Bound => child.session.Some? && child.failure.None?
    case ChildFailed => child.failure.Some?
    case Skipped => child.failure.Some?
  }

  ghost predicate Inv(b: Batch) {
    b.children != [] && Numbered(b.children) && (forall k :: 0 <= k < |b.children| ==> Backed(b.children[k]))
    && match b.status
       case Previewed =>
         b.confirmedAt.None? && b.completedAt.None?
         && forall k :: 0 <= k < |b.children| ==> Untouched(b.children[k])
       case Reserved =>
         b.confirmedAt.Some? && b.completedAt.None?
         && forall k :: 0 <= k < |b.children| ==> b.children[k].status == ChildReserved && b.children[k].checkout.Some?
       case _ =>
         Truthful(b) && !Any(b.children, {Selected})
  }

  /** A reservation prepared every child; outcomes are marked only once the batch has left its preview. */
  ghost predicate Orderly(b: Batch, tx: Transaction) {
    (tx.Reserve? ==> |tx.prepared| == |b.children|) && (tx.Mark? ==> b.status != Previewed)
  }

  ghost predicate OrderlyRun(b: Batch, txs: seq<Transaction>) {
    forall i :: 0 <= i < |txs| ==> Orderly(After(b, txs[..i]), txs[i])
  }

  /** A batch is completed only when every child has its session, and once every child is bound. */
  lemma CompletedHasSessions(b: Batch)
    requires Inv(b)
    ensures b.status == Completed ==> b.completedAt.Some? && forall k :: 0 <= k < |b.children| ==> b.children[k].session.Some?
    ensures (forall k :: 0 <= k < |b.children| ==> b.children[k].status == Bound) ==> b.status == Completed
    ensures b.status == Failed ==> forall k :: 0 <= k < |b.children| ==> b.children[k].failure.Some?
  {
    AggregateMeaning(b.children);
    hide Aggregate;
  }

  /** What each outcome does to its child, and what it does not. */
  ghost predicate Outcome(before: Child, after: Child, kind: MarkKind) {
    after.position == before.position && after.item == before.item && after.repository == before.repository
    && after.layer == before.layer && after.checkout == before.checkout
    && match kind
       case AsLaunched(intent) =>
         after.status == Launched && after.intent == Some(intent) && after.session == before.session && after.failure.None?
       case AsBound(session) =>
         after.status == Bound && after.session == Some(session) && after.intent == before.intent && after.failure.None?
       case AsFailed(failure) =>
         after.status == ChildFailed && after.failure == Some(failure) && after.intent == before.intent && after.session == before.session
  }

  /** A mark records its outcome on one child and settles the batch: launching while one is pending, and
      completed, partly completed or failed, with a completion time, by the last outcome. */
  lemma MarkMeaning(b: Batch, position: nat, kind: MarkKind, at: Time)
    requires position < |b.children|
    ensures var b' := Apply(b, Mark(position, kind, at));
            |b'.children| == |b.children| && Outcome(b.children[position], b'.children[position], kind)
            && (forall k :: 0 <= k < |b.children| && k != position ==> b'.children[k] == b.children[k])
            && (kind.AsLaunched? ==> b'.status == Launching && b'.completedAt.None?)
            && (b'.status == Launching <==> Any(b'.children, PENDING))
            && (b'.status == Completed <==> forall k :: 0 <= k < |b.children| ==> b'.children[k].status == Bound)
            && b'.completedAt == (if Any(b'.children, PENDING) then None else Some(at))
  {
    var b' := Apply(b, Mark(position, kind, at));
    AggregateMeaning(b'.children);
    hide Aggregate;
    assert kind.AsLaunched? ==> b'.children[position].status in PENDING;
  }

  /** A failed preflight fails the child it failed for and skips the others. */
  lemma PreflightMeaning(b: Batch, position: nat, failure: string, at: Time)
    requires Inv(b) && b.status == Previewed && position < |b.children|
    ensures var b' := Apply(b, FailPreflight(position, failure, at));
            b'.status == Failed && b'.completedAt == Some(at) && |b'.children| == |b.children|
            && forall k :: 0 <= k < |b.children| ==>
                 b'.children[k].status == (if k == position then ChildFailed else Skipped)
                 && b'.children[k].failure == Some(if k == position then failure else "batch preflight failed")
                 && b'.children[k].item == b.children[k].item && b'.children[k].repository == b.children[k].repository
                 && b'.children[k].checkout.None? && b'.children[k].session.None?
  {
  }

  /** A reservation takes all children or leaves the batch as it was. */
  lemma AllOrNothing(b: Batch, tx: Transaction)
    requires Inv(b) && tx.Reserve? && Orderly(b, tx)
    ensures Apply(b, tx) != b <==> Succeeds(b, tx)
    ensures Succeeds(b, tx) <==> b.status == Previewed && tx.token == b.token && tx.revalidated
    ensures Succeeds(b, tx) ==>
              Apply(b, tx).status == Reserved && Apply(b, tx).confirmedAt == Some(tx.at) && |Apply(b, tx).children| == |b.children|
              && forall k :: 0 <= k < |b.children| ==>
                   Apply(b, tx).children[k] == b.children[k].(status := ChildReserved, checkout := Some(tx.prepared[k]))
  {
  }

  lemma PreflightFailureKeepsInv(b: Batch, tx: Transaction)
    requires Inv(b) && tx.FailPreflight?
    ensures Inv(Apply(b, tx))
    ensures b.status != Previewed ==> Apply(b, tx) == b
  {
    var b' := Apply(b, tx);
    AggregateMeaning(b'.children);
    if b.status == Previewed {
      assert forall k :: 0 <= k < |b'.children| ==> b'.children[k].status in UNSUCCESSFUL;
    } else {
      assert forall k :: 0 <= k < |b.children| ==> b.children[k].status != Selected;
      assert b'.children == b.children;
    }
  }

  lemma StepKeepsInv(b: Batch, tx: Transaction)
    requires Inv(b) && Orderly(b, tx)
    ensures Inv(Apply(b, tx))
  {
    match tx
    case Reserve(_, _, _, _) => AllOrNothing(b, tx);
    case FailPreflight(_, _, _) => PreflightFailureKeepsInv(b, tx);
    case Mark(position, kind, at) =>
      if position < |b.children| {
        var children := b.children[position := Marked(b.children[position], kind)];
        forall k | 0 <= k < |children| ensures children[k].status != Selected {
          if k != position && b.status != Reserved {
            assert b.children[k].status != Selected;
          }
        }
      }
  }

  lemma {:induction false} RunsKeepInv(b: Batch, txs: seq<Transaction>)
    requires Inv(b) && OrderlyRun(b, txs)
    ensures Inv(After(b, txs))
  {
    if txs != [] {
      var init := txs[..|txs| - 1];
      forall i | 0 <= i < |init| ensures Orderly(After(b, init[..i]), init[i]) {
        assert init[..i] == txs[..i];
        assert Orderly(After(b, txs[..i]), txs[i]);
      }
      RunsKeepInv(b, init);
      assert Orderly(After(b, txs[..|txs| - 1]), txs[|txs| - 1]);
      StepKeepsInv(After(b, init), txs[|txs| - 1]);
    }
  }

  /** Nothing returns a batch to its preview, in any run at all. */
  lemma {:induction false} PreviewIsLeftForGood(b: Batch, txs: seq<Transaction>, i: nat, j: nat)
    requires i <= j <= |txs| && After(b, txs[..i]).status != Previewed
    ensures After(b, txs[..j]).status != Previewed
    decreases j
  {
    if i < j {
      PreviewIsLeftForGood(b, txs, i, j - 1);
      assert txs[..j][..j - 1] == txs[..j - 1];
    }
  }

  /** However the calls interleave, at most one confirmation succeeds. */
  lemma OneReservation(b: Batch, txs: seq<Transaction>, i: nat, j: nat)
    requires i < j < |txs| && Succeeds(After(b, txs[..i]), txs[i])
    ensures !Succeeds(After(b, txs[..j]), txs[j])
  {
    assert txs[..i + 1][..i] == txs[..i];
    PreviewIsLeftForGood(b, txs, i + 1, j);
  }

  // Without the discipline on outcomes

  /** A batch that was marked while still in preview can be left with a stale status by a
      confirmation already under way. */
  lemma EarlyMarkLeavesStaleStatus(child: Child, expires: Time)
    requires Untouched(child)
    ensures var b := Batch(1, expires, Previewed, None, None, [child.(position := 0), child.(position := 1)]);
            var b' := After(b, [Mark(0, AsBound(9), 5), FailPreflight(1, "no checkout", 6)]);
            Inv(b) && !Truthful(b') && b'.status == Launching && Aggregate(b'.children) == Partial
  {
    var b := Batch(1, expires, Previewed, None, None, [child.(position := 0), child.(position := 1)]);
    var txs := [Mark(0, AsBound(9), 5), FailPreflight(1, "no checkout", 6)];
    assert txs[..1] == [txs[0]];
    assert [txs[0]][..0] == [];
    var b1 := Apply(b, txs[0]);
    assert After(b, [txs[0]]) == b1;
    AggregateMeaning(b1.children);
    assert b1.children[1].status == Selected;
    var b2 := Apply(b1, txs[1]);
    assert After(b, txs) == b2;
    AggregateMeaning(b2.children);
    assert b2.children[0].status == Bound && b2.children[1].status == ChildFailed;
  }

  /** Status and completion time are the aggregate of the children. */
  ghost predicate Truthful(b: Batch) {
    b.status == Aggregate(b.children) && (b.completedAt.Some? <==> b.status in FINISHED)
  }

  /** Exactly when a failed confirmation keeps status and completion time of a batch past its preview
      truthful: no child is still selected, or another is still pending. */
  lemma StaleStatusExactly(b: Batch, tx: Transaction)
    requires tx.FailPreflight? && Truthful(b) && b.status != Previewed
    ensures Truthful(Apply(b, tx))
            <==> !Any(b.children, {Selected}) || Any(b.children, {ChildReserved, Launched})
  {
    var b' := Apply(b, tx);
    AggregateMeaning(b.children);
    AggregateMeaning(b'.children);
    if Any(b.children, {ChildReserved, Launched}) {
      var k :| 0 <= k < |b.children| && b.children[k].status in {ChildReserved, Launched};
      assert b'.children[k].status in PENDING && b.children[k].status in PENDING;
    } else if Any(b.children, {Selected}) {
      var k :| 0 <= k < |b.children| && b.children[k].status in {Selected};
      assert b.children[k].status in PENDING;
      assert forall j :: 0 <= j < |b.children| ==> b.children[j].status !in {ChildReserved, Launched};
      assert !Any(b'.children, PENDING);
    } else {
      assert forall j :: 0 <= j < |b.children| ==> b.children[j].status !in {Selected};
      assert b'.children == b.children;
    }
  }

  // The preview

  datatype Projection = Projection(feature: nat, ready: bool, layer: nat, hasWriter: bool, repositories: seq<RepositoryId>)

  datatype PreviewError =
    | EmptyKey
    | InvalidProfile
    | DuplicateConfirmed
    | SelectionMismatch
    | SelectionEmpty
    | ItemBlocked(item: WorkItemId)
    | ItemActive(item: WorkItemId)

  function Offence(item: WorkItemId, p: Projection, feature: nat, allReady: bool): Option<PreviewError> {
    if p.feature != feature then Some(SelectionMismatch)
    else if !p.ready then (if allReady then None else Some(ItemBlocked(item)))
    else if p.hasWriter then Some(ItemActive(item))
    else None
  }

  function Fresh(item: WorkItemId, p: Projection): seq<Child> {
    seq(|p.repositories|, k requires 0 <= k < |p.repositories| =>
      Child(0, item, p.repositories[k], p.layer, None, None, None, Selected, None))
  }

  /** The children in the order of their Work items. */
  function Pushed(items: seq<WorkItemId>, project: WorkItemId -> Projection): seq<Child> {
    if items == [] then []
    else
      var last := items[|items| - 1];
      Pushed(items[..|items| - 1], project) + if project(last).ready then Fresh(last, project(last)) else []
  }

  function Positioned(children: seq<Child>): seq<Child> {
    seq(|children|, k requires 0 <= k < |children| => children[k].(position := k))
  }

  predicate ByLayer(a: Child, b: Child) {
    a.layer <= b.layer
  }

  function LayerOf(children: seq<Child>, layer: nat): seq<Child> {
    Matching(children, (c: Child) => c.layer == layer)
  }

  function Requested(featureItems: seq<WorkItemId>, selection: seq<WorkItemId>): seq<WorkItemId> {
    if selection == [] then featureItems else Matching(featureItems, In(selection))
  }

  function In(selection: seq<WorkItemId>): WorkItemId -> bool {
    item => item in selection
  }

  function Members(s: seq<WorkItemId>): set<WorkItemId> {
    set x | x in s
  }

  function Count(s: seq<WorkItemId>): nat {
    |Members(s)|
  }

  function FirstOffence(items: seq<WorkItemId>, project: WorkItemId -> Projection, feature: nat, allReady: bool): Option<PreviewError> {
    if items == [] then None
    else
      var offence := Offence(items[0], project(items[0]), feature, allReady);
      if offence.Some? then offence else FirstOffence(items[1..], project, feature, allReady)
  }

  lemma {:induction false} OffenceAfter(items: seq<WorkItemId>, k: nat, project: WorkItemId -> Projection, feature: nat, allReady: bool)
    requires k <= |items| && forall i :: 0 <= i < k ==> Offence(items[i], project(items[i]), feature, allReady).None?
    ensures FirstOffence(items, project, feature, allReady) == FirstOffence(items[k..], project, feature, allReady)
  {
    if k > 0 {
      OffenceAfter(items, k - 1, project, feature, allReady);
      assert items[k - 1..][1..] == items[k..];
    } else {
      assert items[0..] == items;
    }
  }

  /** What a preview answers, selection first, then item by item. */
  function Verdict(feature: nat, items: seq<WorkItemId>, selection: seq<WorkItemId>, project: WorkItemId -> Projection): Option<PreviewError> {
    if selection != [] && |items| != Count(selection) then Some(SelectionMismatch)
    else if items == [] then Some(SelectionEmpty)
    else if FirstOffence(items, project, feature, selection == []).Some? then FirstOffence(items, project, feature, selection == [])
    else if Pushed(items, project) == [] then Some(SelectionEmpty)
    else None
  }

  /** `project` answers what the projection of a Work item says; `used` are the keys of stored batches. */
  method Preview(key: string, used: set<string>, profileValid: bool, feature: nat, featureItems: seq<WorkItemId>,
                 selection: seq<WorkItemId>, project: WorkItemId -> Projection)
    returns (r: Result<seq<Child>, PreviewError>)
    ensures Blank(key) ==> r == Err(EmptyKey)
    ensures !Blank(key) && !profileValid ==> r == Err(InvalidProfile)
    ensures !Blank(key) && profileValid && key in used ==> r == Err(DuplicateConfirmed)
    ensures !Blank(key) && profileValid && key !in used ==>
              var items := Requested(featureItems, selection);
              var verdict := Verdict(feature, items, selection, project);
              r == if verdict.Some? then Err(verdict.value) else Ok(Positioned(StableSort(Pushed(items, project), ByLayer)))
  {
    if Blank(key) {
      return Err(EmptyKey);
    }
    if !profileValid {
      return Err(InvalidProfile);
    }
    if key in used {
      return Err(DuplicateConfirmed);
    }
    var allReady := selection == [];
    var items := Requested(featureItems, selection);
    if !allReady && |items| != Count(selection) {
      return Err(SelectionMismatch);
    }
    if items == [] {
      return Err(SelectionEmpty);
    }
    r := Collect(items, project, feature, allReady);
    if r.Err? {
      return;
    }
    if r.value == [] {
      return Err(SelectionEmpty);
    }
    var children := Numbering(StableSort(r.value, ByLayer));
    return Ok(children);
  }

  /** The loop over the Work items; the first offence ends it. */
  method Collect(items: seq<WorkItemId>, project: WorkItemId -> Projection, feature: nat, allReady: bool)
    returns (r: Result<seq<Child>, PreviewError>)
    ensures r == if FirstOffence(items, project, feature, allReady).Some?
                 then Err(FirstOffence(items, project, feature, allReady).value) else Ok(Pushed(items, project))
  {
    var children: seq<Child> := [];
    for i := 0 to |items|
      invariant children == Pushed(items[..i], project)
      invariant forall k :: 0 <= k < i ==> Offence(items[k], project(items[k]), feature, allReady).None?
    {
      var p := project(items[i]);
      OffenceAfter(items, i, project, feature, allReady);
      assert items[..i + 1][..i] == items[..i];
      if p.feature != feature {
        return Err(SelectionMismatch);
      }
      if p.ready {
        if p.hasWriter {
          return Err(ItemActive(items[i]));
        }
        ghost var before := children;
        for k := 0 to |p.repositories|
          invariant children == before + Fresh(items[i], p)[..k]
        {
          children := children + [Child(0, items[i], p.repositories[k], p.layer, None, None, None, Selected, None)];
        }
      } else if !allReady {
        return Err(ItemBlocked(items[i]));
      }
    }
    assert items[..|items|] == items;
    OffenceAfter(items, |items|, project, feature, allReady);
    return Ok(children);
  }

  method Numbering(sorted: seq<Child>) returns (children: seq<Child>)
    ensures children == Positioned(sorted)
  {
    children := sorted;
    for k := 0 to |children|
      invariant |children| == |sorted|
      invariant forall j :: 0 <= j < |children| ==> children[j] == if j < k then sorted[j].(position := j) else sorted[j]
    {
      children := children[k := children[k].(position := k)];
    }
  }

  lemma {:induction false} PushedFresh(items: seq<WorkItemId>, project: WorkItemId -> Projection)
    ensures forall k :: 0 <= k < |Pushed(items, project)| ==>
              Untouched(Pushed(items, project)[k]) && Pushed(items, project)[k].item in items
              && Pushed(items, project)[k].layer == project(Pushed(items, project)[k].item).layer
  {
    if items != [] {
      PushedFresh(items[..|items| - 1], project);
    }
  }

  /** How many children the first `k` Work items give. */
  function Before(items: seq<WorkItemId>, project: WorkItemId -> Projection, k: nat): nat
    requires k <= |items|
  {
    if k == 0 then 0
    else Before(items, project, k - 1) + if project(items[k - 1]).ready then |project(items[k - 1]).repositories| else 0
  }

  lemma {:induction false} BeforeLonger(items: seq<WorkItemId>, project: WorkItemId -> Projection, k: nat)
    requires k < |items|
    ensures Before(items[..|items| - 1], project, k) == Before(items, project, k)
  {
    if k > 0 {
      BeforeLonger(items, project, k - 1);
    }
  }

  lemma PushedLonger(items: seq<WorkItemId>, project: WorkItemId -> Projection)
    requires items != []
    ensures var front, last := items[..|items| - 1], items[|items| - 1];
            Pushed(items, project) == Pushed(front, project) + Added(last, project(last))
  {
  }

  lemma {:induction false} PushedLength(items: seq<WorkItemId>, project: WorkItemId -> Projection)
    ensures |Pushed(items, project)| == Before(items, project, |items|)
  {
    if items != [] {
      PushedLength(items[..|items| - 1], project);
      BeforeLonger(items, project, |items| - 1);
    }
  }

  /** There is one child for each repository of each ready Work item, and no other, in this order. */
  lemma {:induction false} PushedPlaces(items: seq<WorkItemId>, project: WorkItemId -> Projection, k: nat)
    requires k < |items|
    ensures |Pushed(items, project)| == Before(items, project, |items|)
    ensures PlacedAt(Pushed(items, project), Before(items, project, k), items[k], project(items[k]))
    decreases |items|
  {
    hide *;
    PushedLength(items, project);
    var n := |items| - 1;
    var front := items[..n];
    PushedLonger(items, project);
    BeforeLonger(items, project, k);
    if k == n {
      PushedLength(front, project);
      FreshArePlaced(Pushed(front, project), items[n], project(items[n]));
    } else {
      PushedPlaces(front, project, k);
      StaysPlaced(Pushed(front, project), Added(items[n], project(items[n])), Before(front, project, k), items[k], project(items[k]));
    }
  }

  /** From `start` on stand the children of the item, one for each of its repositories. */
  ghost predicate PlacedAt(children: seq<Child>, start: nat, item: WorkItemId, p: Projection) {
    p.ready ==>
      start + |p.repositories| <= |children|
      && forall r :: 0 <= r < |p.repositories| ==>
           children[start + r] == Child(0, item, p.repositories[r], p.layer, None, None, None, Selected, None)
  }

  function Added(item: WorkItemId, p: Projection): (r: seq<Child>)
    ensures |r| == if p.ready then |p.repositories| else 0
  {
    if p.ready then Fresh(item, p) else []
  }

  lemma StaysPlaced(children: seq<Child>, more: seq<Child>, start: nat, item: WorkItemId, p: Projection)
    requires PlacedAt(children, start, item, p)
    ensures PlacedAt(children + more, start, item, p)
  {
  }

  lemma FreshArePlaced(children: seq<Child>, item: WorkItemId, p: Projection)
    ensures PlacedAt(children + Added(item, p), |children|, item, p)
  {
  }

  lemma {:induction false} NoOffenceExactly(items: seq<WorkItemId>, project: WorkItemId -> Projection, feature: nat, allReady: bool)
    ensures FirstOffence(items, project, feature, allReady).None?
            <==> forall item :: item in items ==>
                   project(item).feature == feature
                   && (if project(item).ready then !project(item).hasWriter else allReady)
  {
    if items != [] {
      NoOffenceExactly(items[1..], project, feature, allReady);
      assert items == [items[0]] + items[1..];
    }
  }

  lemma {:induction false} CountOfDistinct(s: seq<WorkItemId>)
    requires Distinct(s)
    ensures Count(s) == |s|
  {
    if s != [] {
      var front, last := s[..|s| - 1], s[|s| - 1];
      CountOfDistinct(front);
      assert s == front + [last];
      assert Members(s) == Members(front) + {last};
      assert last !in front;
    }
  }

  lemma {:induction false} MatchingDistinct(s: seq<WorkItemId>, keep: WorkItemId -> bool)
    requires Distinct(s)
    ensures Distinct(Matching(s, keep)) && forall x :: x in Matching(s, keep) <==> x in s && keep(x)
  {
    if s != [] {
      var rest := s[1..];
      forall i, j | 0 <= i < j < |rest| ensures rest[i] != rest[j] {
        assert s[i + 1] != s[j + 1];
      }
      assert s == [s[0]] + rest;
      MatchingDistinct(rest, keep);
      assert s[0] !in rest;
    }
  }

  /** Exactly the selected items are requested if all of them belong to the Feature; the counts differ
      exactly if one does not. */
  lemma SelectionExactly(featureItems: seq<WorkItemId>, selection: seq<WorkItemId>)
    requires Distinct(featureItems) && selection != []
    ensures forall x :: x in Requested(featureItems, selection) <==> x in featureItems && x in selection
    ensures |Requested(featureItems, selection)| == Count(selection) <==> forall x :: x in selection ==> x in featureItems
  {
    var requested := Requested(featureItems, selection);
    MatchingDistinct(featureItems, In(selection));
    CountOfDistinct(requested);
    var all, some := Members(selection), Members(requested);
    assert some <= all;
    if forall x :: x in selection ==> x in featureItems {
      assert some == all;
    }
    if |some| == |all| {
      SubsetOfSameSize(some, all);
      assert forall x :: x in selection ==> x in some;
    }
  }

  lemma SubsetOfSameSize(a: set<WorkItemId>, b: set<WorkItemId>)
    requires a <= b && |a| == |b|
    ensures a == b
  {
    assert |b - a| == |b| - |a|;
  }

  /** A preview goes ahead exactly if all selected items belong to the Feature, no item to launch has a
      writer, a selected one is never blocked, and there is something to launch. */
  lemma GoesAheadExactly(feature: nat, featureItems: seq<WorkItemId>, selection: seq<WorkItemId>, project: WorkItemId -> Projection)
    requires Distinct(featureItems)
    ensures var items := Requested(featureItems, selection);
            Verdict(feature, items, selection, project).None?
            <==> (forall x :: x in selection ==> x in featureItems)
                 && (forall x :: x in items ==>
                       project(x).feature == feature && (if project(x).ready then !project(x).hasWriter else selection == []))
                 && exists x :: x in items && project(x).ready && project(x).repositories != []
  {
    var items := Requested(featureItems, selection);
    if selection != [] {
      SelectionExactly(featureItems, selection);
    }
    NoOffenceExactly(items, project, feature, selection == []);
    PushedExactly(items, project);
  }

  lemma PushedExactly(items: seq<WorkItemId>, project: WorkItemId -> Projection)
    ensures Pushed(items, project) != [] <==> exists x :: x in items && project(x).ready && project(x).repositories != []
  {
    PushedLength(items, project);
    if x :| x in items && project(x).ready && project(x).repositories != [] {
      var k :| 0 <= k < |items| && items[k] == x;
      PushedPlaces(items, project, k);
    }
    if Pushed(items, project) != [] {
      SomeGives(items, project, |items|);
    }
  }

  lemma {:induction false} SomeGives(items: seq<WorkItemId>, project: WorkItemId -> Projection, k: nat)
    requires k <= |items| && Before(items, project, k) > 0
    ensures exists x :: x in items && project(x).ready && project(x).repositories != []
  {
    if !(project(items[k - 1]).ready && project(items[k - 1]).repositories != []) {
      SomeGives(items, project, k - 1);
    }
  }

  lemma LayersKeepOrder(pushed: seq<Child>)
    ensures forall layer :: LayerOf(StableSort(pushed, ByLayer), layer) == LayerOf(pushed, layer)
  {
    forall layer
      ensures LayerOf(StableSort(pushed, ByLayer), layer) == LayerOf(pushed, layer)
    {
      StableSortKeepsOrder(pushed, ByLayer, (c: Child) => c.layer == layer);
    }
  }

  /** Sorting loses no child, and every child is fresh and in its Work item's layer. */
  lemma SortedAreFresh(items: seq<WorkItemId>, project: WorkItemId -> Projection)
    ensures var sorted := StableSort(Pushed(items, project), ByLayer);
            |sorted| == |Pushed(items, project)|
            && forall k :: 0 <= k < |sorted| ==> Untouched(sorted[k]) && sorted[k].layer == project(sorted[k].item).layer
  {
    var pushed := Pushed(items, project);
    var sorted := StableSort(pushed, ByLayer);
    PushedFresh(items, project);
    forall k | 0 <= k < |sorted|
      ensures Untouched(sorted[k]) && sorted[k].layer == project(sorted[k].item).layer
    {
      assert sorted[k] in multiset(pushed);
      var i :| 0 <= i < |pushed| && pushed[i] == sorted[k];
    }
    assert |multiset(sorted)| == |multiset(pushed)|;
  }

  /** The batch stored from a preview starts out as it should, each child in its Work item's layer. */
  lemma PreviewStartsOut(items: seq<WorkItemId>, project: WorkItemId -> Projection, token: Token, expires: Time)
    requires Pushed(items, project) != []
    ensures var children := Positioned(StableSort(Pushed(items, project), ByLayer));
            Inv(Batch(token, expires, Previewed, None, None, children))
            && forall k :: 0 <= k < |children| ==> children[k].layer == project(children[k].item).layer
  {
    hide Pushed, StableSort, Truthful, Any;
    SortedAreFresh(items, project);
  }

  /** Children are previewed layer by layer; inside a layer they keep the order of the Work items. */
  lemma PreviewOrder(pushed: seq<Child>)
    ensures var children := Positioned(StableSort(pushed, ByLayer));
            forall i, j :: 0 <= i < |children| && 0 <= j < |children| && children[i].layer < children[j].layer ==> i < j
    ensures multiset(StableSort(pushed, ByLayer)) == multiset(pushed)
    ensures forall layer :: LayerOf(StableSort(pushed, ByLayer), layer) == LayerOf(pushed, layer)
  {
    hide StableSort, LayerOf;
    var sorted := StableSort(pushed, ByLayer);
    assert SortedBy(sorted, ByLayer) by {
      StableSortSorted(pushed, ByLayer);
    }
    assert forall i, j :: 0 <= i < j < |sorted| ==> ByLayer(sorted[i], sorted[j]);
    LayersKeepOrder(pushed);
  }

  // The service

  datatype ReserveError = ConfirmationInvalid | PreflightFailed(position: nat) | RevalidationFailed(position: nat) | LaunchLeaseLost

  /** What is known of a launch intent when a batch is reconciled. */
  datatype IntentState = IntentState(status: string, session: Option<SessionId>)

  predicate IsCandidate(child: Child) {
    child.status in {Launched, ChildFailed} && child.intent.Some?
  }

  function Reconciliation(child: Child, intents: IntentId -> IntentState): Option<MarkKind> {
    if !IsCandidate(child) then None
    else
      var state := intents(child.intent.value);
      if state.session.Some? then Some(AsBound(state.session.value))
      else if state.status in {"failed", "cancelled", "expired"} then Some(AsFailed("launch intent is " + state.status))
      else None
  }

  function Reconciled(child: Child, intents: IntentId -> IntentState): Child {
    var mark := Reconciliation(child, intents);
    if mark.Some? then Marked(child, mark.value) else child
  }

  /** A launched or failed child is bound to the session of its intent if there is one, and fails with an
      intent that failed, was cancelled or expired without one; every other child stays as it is. */
  lemma ReconciliationMeaning(child: Child, intents: IntentId -> IntentState)
    ensures var after := Reconciled(child, intents);
            if child.intent.None? || child.status !in {Launched, ChildFailed} then after == child
            else
              var state := intents(child.intent.value);
              if state.session.Some? then Outcome(child, after, AsBound(state.session.value))
              else if state.status == "failed" || state.status == "cancelled" || state.status == "expired"
              then Outcome(child, after, AsFailed("launch intent is " + state.status))
              else after == child
  {
  }

  predicate AllHold(checks: seq<bool>) {
    false !in checks
  }

  function Joined<T>(parts: seq<seq<T>>): seq<T> {
    if parts == [] then [] else Joined(parts[..|parts| - 1]) + parts[|parts| - 1]
  }

  lemma {:induction false} AfterJoined(b: Batch, s: seq<Transaction>, t: seq<Transaction>)
    ensures After(b, s + t) == After(After(b, s), t)
  {
    if t == [] {
      assert s + t == s;
    } else {
      var init := t[..|t| - 1];
      AfterJoined(b, s, init);
      assert (s + t)[..|s + t| - 1] == s + init;
    }
  }

  lemma {:induction false} RunsKeepIdentity(b: Batch, txs: seq<Transaction>)
    ensures After(b, txs).token == b.token && After(b, txs).expires == b.expires
    ensures |After(b, txs).children| == |b.children|
    ensures forall k :: 0 <= k < |b.children| ==>
              After(b, txs).children[k].position == b.children[k].position
              && After(b, txs).children[k].item == b.children[k].item
              && After(b, txs).children[k].repository == b.children[k].repository
              && After(b, txs).children[k].layer == b.children[k].layer
  {
    if txs != [] {
      RunsKeepIdentity(b, txs[..|txs| - 1]);
    }
  }

  class ManagedBatch {
    const token: Token
    const expires: Time
    var status: BatchStatus
    var confirmedAt: Option<Time>
    var completedAt: Option<Time>
    var children: seq<Child>

    constructor (token: Token, expires: Time, children: seq<Child>)
      ensures Row() == Batch(token, expires, Previewed, None, None, children)
    {
      this.token, this.expires := token, expires;
      status, confirmedAt, completedAt := Previewed, None, None;
      this.children := children;
    }

    function Row(): Batch
      reads this
    {
      Batch(token, expires, status, confirmedAt, completedAt, children)
    }

    predicate Confirmable(token: Token, at: Time)
      reads this
    {
      token == this.token && status == Previewed && at < expires
    }

    /** A confirmation counts with the token of the batch, before it expires, and only in preview. */
    lemma ConfirmableMeans(token: Token, at: Time)
      ensures at >= expires || token != this.token || status != Previewed ==> !Confirmable(token, at)
      ensures at < expires && status == Previewed ==> Confirmable(this.token, at)
    {
    }

    method CommitReservation(token: Token, prepared: seq<CheckoutId>, revalidated: seq<bool>, at: Time)
      returns (r: Result<(), ReserveError>)
      requires |prepared| == |revalidated| == |children|
      modifies this
      ensures Row() == Apply(old(Row()), Reserve(token, prepared, AllHold(revalidated), at))
      ensures r.Ok? <==> Succeeds(old(Row()), Reserve(token, prepared, AllHold(revalidated), at))
      ensures r.Err? ==> r.error == LaunchLeaseLost
                         || (r.error.RevalidationFailed? && r.error.position < |revalidated| && !revalidated[r.error.position])
    {
      for k := 0 to |prepared|
        invariant AllHold(revalidated[..k])
      {
        if !revalidated[k] {
          return Err(RevalidationFailed(k));
        }
      }
      assert revalidated[..|prepared|] == revalidated;
      if token != this.token || status != Previewed {
        return Err(LaunchLeaseLost);
      }
      status, confirmedAt := Reserved, Some(at);
      ghost var was := children;
      for k := 0 to |prepared|
        invariant |children| == |was| && status == Reserved && confirmedAt == Some(at) && completedAt == old(completedAt)
        invariant forall j :: 0 <= j < |was| ==> children[j] == if j < k then ReservedChild(was[j], prepared[j]) else was[j]
      {
        if children[k].status == Selected {
          children := children[k := children[k].(checkout := Some(prepared[k]), status := ChildReserved)];
        }
      }
      assert children == Apply(old(Row()), Reserve(token, prepared, AllHold(revalidated), at)).children;
      return Ok(());
    }

    method RecordPreflightFailure(position: nat, failure: string, at: Time)
      modifies this
      ensures Row() == Apply(old(Row()), FailPreflight(position, failure, at))
    {
      if status == Previewed {
        status, completedAt := Failed, Some(at);
      }
      children := seq(|children|, k requires 0 <= k < |children| reads this => WithoutPreflight(children[k], position, failure));
    }

    method UpdateChild(position: nat, kind: MarkKind, at: Time) returns (found: bool)
      modifies this
      ensures found <==> position < |children|
      ensures Row() == Apply(old(Row()), Mark(position, kind, at))
    {
      if position >= |children| {
        return false;
      }
      children := children[position := Marked(children[position], kind)];
      var pending := Tally(children, PENDING);
      var bound := Tally(children, {Bound});
      var failed := Tally(children, UNSUCCESSFUL);
      if pending > 0 {
        status := Launching;
      } else if failed == 0 {
        status := Completed;
      } else if bound == 0 {
        status := Failed;
      } else {
        status := Partial;
      }
      completedAt := if status in FINISHED then Some(at) else None;
      return true;
    }

    /** Transactions of other calls. */
    method Others(txs: seq<Transaction>)
      modifies this
      ensures Row() == After(old(Row()), txs)
    {
      RunsKeepIdentity(Row(), txs);
      var b := After(Row(), txs);
      status, confirmedAt, completedAt, children := b.status, b.confirmedAt, b.completedAt, b.children;
    }

    /** `reserve_with`. `preflights` are the answers of the preflight and `revalidated` those of the
        checks inside the last transaction; others[k] is what other calls commit meanwhile, up to
        the k-th preflight answer or, at the end, up to the last transaction. */
    method ReserveWith(token: Token, at: Time, preflights: seq<Result<CheckoutId, string>>, revalidated: seq<bool>,
                       others: seq<seq<Transaction>>)
      returns (r: Result<(), ReserveError>)
      requires Inv(Row()) && |preflights| == |revalidated| == |children| && |others| == |children| + 1
      modifies this
      ensures r == Err(ConfirmationInvalid) <==> !old(Confirmable(token, at))
      ensures !old(Confirmable(token, at)) ==> Row() == old(Row())
      ensures old(Confirmable(token, at)) && (r.Ok? || !r.error.PreflightFailed?) ==>
                exists prepared: seq<CheckoutId> ::
                  |prepared| == |preflights|
                  && (forall k :: 0 <= k < |prepared| ==> preflights[k] == Ok(prepared[k]))
                  && var tx := Reserve(token, prepared, AllHold(revalidated), at);
                  Row() == After(old(Row()), Joined(others) + [tx])
                  && (r.Ok? <==> Succeeds(After(old(Row()), Joined(others)), tx))
      ensures r.Err? && r.error.PreflightFailed? ==>
                var k := r.error.position;
                k < |preflights| && preflights[k].Err? && (forall i :: 0 <= i < k ==> preflights[i].Ok?)
                && Row() == After(old(Row()), Joined(others[..k + 1]) + [FailPreflight(k, preflights[k].error, at)])
    {
      if !Confirmable(token, at) {
        return Err(ConfirmationInvalid);
      }
      ghost var was := Row();
      var selected := children;
      var prepared: seq<CheckoutId> := [];
      NothingApplied(was);
      assert Numbered(selected);
      hide Inv, Apply, After, Succeeds;
      for k := 0 to |selected|
        invariant |prepared| == k
        invariant forall i :: 0 <= i < k ==> preflights[i] == Ok(prepared[i])
        invariant Row() == After(was, Joined(others[..k]))
      {
        Others(others[k]);
        assert others[..k + 1][..k] == others[..k];
        AfterJoined(was, Joined(others[..k]), others[k]);
        if preflights[k].Ok? {
          prepared := prepared + [preflights[k].value];
        } else {
          RecordPreflightFailure(selected[k].position, preflights[k].error, at);
          AppliedLast(was, Joined(others[..k + 1]), FailPreflight(k, preflights[k].error, at));
          return Err(PreflightFailed(k));
        }
      }
      var n := |selected|;
      Others(others[n]);
      assert others[..n] + [others[n]] == others && others[..n] == others[..|others| - 1];
      AfterJoined(was, Joined(others[..n]), others[n]);
      RunsKeepIdentity(was, Joined(others));
      r := CommitReservation(token, prepared, revalidated, at);
      AppliedLast(was, Joined(others), Reserve(token, prepared, AllHold(revalidated), at));
    }

    /** One child of a reconciliation, after what others commit in the meantime. */
    method FollowUp(k: nat, candidate: Child, intents: IntentId -> IntentState, at: Time, others: seq<Transaction>,
                    ghost was: Batch, ghost before: seq<Transaction>)
      requires k < |children| && Row() == After(was, before)
      modifies this
      ensures |children| == |old(children)|
      ensures Row() == After(was, before + others + MarksOf(candidate, k, intents, at))
    {
      hide After, Apply, Reconciliation;
      AfterJoined(was, before, others);
      RunsKeepIdentity(Row(), others);
      Others(others);
      var mark := Reconciliation(candidate, intents);
      if mark.Some? {
        var tx := Mark(k, mark.value, at);
        AppliedLast(was, before + others, tx);
        AppliedLast(Row(), [], tx);
        RunsKeepIdentity(Row(), [tx]);
        assert [] + [tx] == [tx] && After(Row(), []) == Row() by {
          NothingApplied(Row());
        }
        var found := UpdateChild(k, mark.value, at);
      } else {
        assert before + others + [] == before + others;
      }
    }

    /** Follows up the launches of a batch: the children are read once, then each is marked in its own
        transaction; others[k] is what other calls commit before the k-th child is dealt with. */
    method Reconcile(intents: IntentId -> IntentState, at: Time, others: seq<seq<Transaction>>)
      requires |others| == |children|
      modifies this
      ensures Row() == After(old(Row()), Followed(old(children), intents, at, others))
    {
      ghost var was := Row();
      var candidates := children;
      NothingApplied(was);
      for k := 0 to |candidates|
        invariant Row() == After(was, Followed(candidates[..k], intents, at, others[..k])) && |children| == |candidates|
      {
        hide After, Followed;
        FollowedLonger(candidates, k, intents, at, others);
        FollowUp(k, candidates[k], intents, at, others[k], was, Followed(candidates[..k], intents, at, others[..k]));
      }
      assert candidates[..|candidates|] == candidates && others[..|candidates|] == others;
    }
  }

  lemma NothingApplied(b: Batch)
    ensures After(b, []) == b
  {
  }

  function MarksOf(candidate: Child, k: nat, intents: IntentId -> IntentState, at: Time): seq<Transaction> {
    var mark := Reconciliation(candidate, intents);
    if mark.Some? then [Mark(k, mark.value, at)] else []
  }

  /** The transactions that a reconciliation commits, with those of others in between. */
  function Followed(candidates: seq<Child>, intents: IntentId -> IntentState, at: Time, others: seq<seq<Transaction>>): seq<Transaction>
    requires |others| == |candidates|
  {
    if candidates == [] then []
    else
      var k := |candidates| - 1;
      Followed(candidates[..k], intents, at, others[..k]) + others[k] + MarksOf(candidates[k], k, intents, at)
  }

  lemma FollowedLonger(candidates: seq<Child>, k: nat, intents: IntentId -> IntentState, at: Time, others: seq<seq<Transaction>>)
    requires |others| == |candidates| && k < |candidates|
    ensures Followed(candidates[..k + 1], intents, at, others[..k + 1])
            == Followed(candidates[..k], intents, at, others[..k]) + others[k] + MarksOf(candidates[k], k, intents, at)
  {
    assert candidates[..k + 1][..k] == candidates[..k] && others[..k + 1][..k] == others[..k];
  }

  lemma MarkEffect(b: Batch, k: nat, kind: MarkKind, at: Time)
    requires k < |b.children|
    ensures Apply(b, Mark(k, kind, at)).children == b.children[k := Marked(b.children[k], kind)]
    ensures Apply(b, Mark(k, kind, at)).status == Aggregate(Apply(b, Mark(k, kind, at)).children)
  {
  }

  /** Reconciling a batch in preview, or freshly reserved, marks nothing, whatever the others do. */
  lemma {:induction false} ReconcileKeepsPreview(b: Batch, candidates: seq<Child>, intents: IntentId -> IntentState, at: Time, others: seq<seq<Transaction>>)
    requires |others| == |candidates| && candidates <= b.children && Inv(b) && b.status in {Previewed, Reserved}
    ensures Followed(candidates, intents, at, others) == Joined(others)
  {
    if candidates != [] {
      var k := |candidates| - 1;
      ReconcileKeepsPreview(b, candidates[..k], intents, at, others[..k]);
      assert candidates[k] == b.children[k];
    }
  }

  function NoOthers(n: nat): seq<seq<Transaction>> {
    seq(n, k requires 0 <= k < n => [])
  }

  /** The first `n` children are followed up, the rest is as it was, and the batch is sound. */
  ghost predicate FollowedTo(b: Batch, n: nat, intents: IntentId -> IntentState, b': Batch) {
    Inv(b') && |b'.children| == |b.children| && n <= |b.children|
    && (forall k :: 0 <= k < |b.children| ==>
          b'.children[k] == if k < n then Reconciled(b.children[k], intents) else b.children[k])
    && (b.status in {Previewed, Reserved} ==> b' == b)
    && (b.status !in {Previewed, Reserved} ==> b'.status == Aggregate(b'.children))
  }

  lemma FollowedFurther(b: Batch, k: nat, intents: IntentId -> IntentState, at: Time, reached: Batch)
    requires Inv(b) && k < |b.children| && FollowedTo(b, k, intents, reached)
    ensures FollowedTo(b, k + 1, intents, After(reached, MarksOf(b.children[k], k, intents, at)))
  {
    var mark := Reconciliation(b.children[k], intents);
    assert b.status in {Previewed, Reserved} ==> !IsCandidate(b.children[k]);
    NothingApplied(reached);
    if mark.Some? {
      var tx := Mark(k, mark.value, at);
      AppliedLast(reached, [], tx);
      assert [] + [tx] == [tx];
      StepKeepsInv(reached, tx);
      hide Inv, Apply, After, Marked;
      MarkEffect(reached, k, mark.value, at);
    }
  }

  /** Undisturbed, each launched or failed child with an intent is bound, failed or kept as its
      session and intent say, the invariant holds, and the status is the aggregate. */
  lemma {:induction false} ReconcileFollowsUp(b: Batch, n: nat, intents: IntentId -> IntentState, at: Time)
    requires Inv(b) && n <= |b.children|
    ensures FollowedTo(b, n, intents, After(b, Followed(b.children[..n], intents, at, NoOthers(n))))
  {
    if n == 0 {
      NothingApplied(b);
    } else {
      var k := n - 1;
      ReconcileFollowsUp(b, k, intents, at);
      var before := Followed(b.children[..k], intents, at, NoOthers(k));
      assert b.children[..n][..k] == b.children[..k];
      assert NoOthers(n)[..k] == NoOthers(k) && NoOthers(n)[k] == [];
      assert before + [] == before;
      assert Followed(b.children[..n], intents, at, NoOthers(n)) == before + MarksOf(b.children[k], k, intents, at);
      hide *;
      AfterJoined(b, before, MarksOf(b.children[k], k, intents, at));
      FollowedFurther(b, k, intents, at, After(b, before));
    }
  }

  lemma AppliedLast(b: Batch, txs: seq<Transaction>, tx: Transaction)
    ensures After(b, txs + [tx]) == Apply(After(b, txs), tx)
  {
    assert (txs + [tx])[..|txs|] == txs;
  }
}
