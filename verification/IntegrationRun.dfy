/** Integration runs of one Feature in one repository: an ordered list of merges that
    survives a crash between any two effects and other parties acting at any moment. */
module IntegrationRun {
  import opened Common
  import DependencyOrder
  import Graphs

  type RunId = nat
  type WorkItemId = DependencyOrder.WorkItemId
  type Head = nat

  datatype StepStatus = Pending | Integrated | Conflicted | Skipped

  datatype Step = Step(item: WorkItemId, sourceHead: Head, expectedTarget: Head, resultHead: Option<Head>, status: StepStatus)

  datatype RunStatus = Previewed | Running | Completed | Conflict | Failed

  datatype Run = Run(status: RunStatus, key: string, token: nat, expiresAt: int, resultHead: Option<Head>, steps: seq<Step>)

  /** What was true when a run was confirmed: the recorded head, the actual one, what the target
      contained, and the steps. */
  datatype Confirmation = Confirmation(recorded: Head, actual: Head, known: set<Head>, steps: seq<Step>)

  datatype PreviewError = EmptyKey | KeyUsedElsewhere | DuplicateConfirmed | QueueEmpty | NotUnique

  datatype QueueStatus = QueuePending | QueueIntegrated | QueueConflict

  /** How a call ends: with the stored status, with an error, or not at all. */
  datatype Outcome = Finished(status: RunStatus) | Refused | Crashed

  /** What the drift check of a call read and decided, if the call got that far. */
  datatype DriftCheck = NotReached | Checked(recorded: Head, seen: Head, known: set<Head>, drifted: bool)

  /** Steps in position order: `k` merged ones, then untouched ones. */
  predicate Frontier(steps: seq<Step>, k: nat) {
    k <= |steps|
    && (forall i :: 0 <= i < k ==> steps[i].status == Integrated)
    && (forall i :: k <= i < |steps| ==> steps[i].status == Pending)
  }

  predicate Stopped(steps: seq<Step>, k: nat) {
    k < |steps|
    && (forall i :: 0 <= i < k ==> steps[i].status == Integrated)
    && steps[k].status == Conflicted
    && (forall i :: k < i < |steps| ==> steps[i].status == Skipped)
  }

  /** What the step list looks like in each status of the run. */
  predicate Shape(run: Run) {
    match run.status
    case Previewed => Frontier(run.steps, 0)
    case Running => exists k :: 0 <= k <= |run.steps| && Frontier(run.steps, k)
    case Failed => exists k :: 0 <= k <= |run.steps| && Frontier(run.steps, k)
    case Conflict => exists k :: 0 <= k < |run.steps| && Stopped(run.steps, k)
    case Completed => Frontier(run.steps, |run.steps|)
  }

  /** `complete_step` and `record_expected_target` touch a step only while it is pending. */
  function CompleteAt(steps: seq<Step>, position: nat, head: Head): seq<Step>
    requires position < |steps|
  {
    if steps[position].status == Pending
    then steps[position := steps[position].(status := Integrated, resultHead := Some(head))]
    else steps
  }

  function ExpectAt(steps: seq<Step>, position: nat, head: Head): seq<Step>
    requires position < |steps|
  {
    if steps[position].status == Pending
    then steps[position := steps[position].(expectedTarget := head)]
    else steps
  }

  function FailAt(steps: seq<Step>, position: nat): seq<Step> {
    seq(|steps|, i requires 0 <= i < |steps| =>
      if steps[i].status != Pending || i < position then steps[i]
      else if i == position then steps[i].(status := Conflicted)
      else steps[i].(status := Skipped))
  }

  function LastResult(steps: seq<Step>): Option<Head> {
    if steps == [] then None
    else if steps[|steps| - 1].status == Integrated then steps[|steps| - 1].resultHead
    else LastResult(steps[..|steps| - 1])
  }

  function FirstPending(steps: seq<Step>): Option<Step> {
    if steps == [] then None
    else if steps[0].status == Pending then Some(steps[0])
    else FirstPending(steps[1..])
  }

  /** The queue once an integrated item is closed in it. */
  function Closed(queue: map<WorkItemId, QueueStatus>, item: WorkItemId): map<WorkItemId, QueueStatus> {
    if item in queue then queue[item := QueueIntegrated] else queue
  }

  /** The item of the step waits in the queue and has a source checkout. */
  predicate Takeable(queue: map<WorkItemId, QueueStatus>, sources: map<WorkItemId, Head>, step: Step) {
    step.item in queue && queue[step.item] != QueueIntegrated && step.item in sources
  }

  predicate Unchanged(queue: map<WorkItemId, QueueStatus>, sources: map<WorkItemId, Head>, step: Step) {
    Takeable(queue, sources, step) && sources[step.item] == step.sourceHead
  }

  /** Every pending step from `i` on can be taken when its turn comes. */
  predicate ReadyFrom(queue: map<WorkItemId, QueueStatus>, sources: map<WorkItemId, Head>, steps: seq<Step>, i: nat)
    requires i <= |steps|
    decreases |steps| - i
  {
    i == |steps|
    || (if steps[i].status == Pending
        then Unchanged(queue, sources, steps[i]) && ReadyFrom(Closed(queue, steps[i].item), sources, steps, i + 1)
        else ReadyFrom(queue, sources, steps, i + 1))
  }

  /** Every pending item waits in the queue, its source is still at the queued head, and no two
      pending steps are of one item. */
  ghost predicate Ready(queue: map<WorkItemId, QueueStatus>, sources: map<WorkItemId, Head>, steps: seq<Step>) {
    (forall i :: 0 <= i < |steps| && steps[i].status == Pending ==> Unchanged(queue, sources, steps[i]))
    && forall i, j :: 0 <= i < j < |steps| && steps[i].status == Pending && steps[j].status == Pending
         ==> steps[i].item != steps[j].item
  }

  lemma {:induction false} ReadyInTurn(queue: map<WorkItemId, QueueStatus>, sources: map<WorkItemId, Head>, steps: seq<Step>, i: nat)
    requires i <= |steps|
    ensures ReadyFrom(queue, sources, steps, i)
            <==> (forall j :: i <= j < |steps| && steps[j].status == Pending ==> Unchanged(queue, sources, steps[j]))
                 && forall j, l :: i <= j < l < |steps| && steps[j].status == Pending && steps[l].status == Pending
                      ==> steps[j].item != steps[l].item
    decreases |steps| - i
  {
    if i < |steps| {
      var later := if steps[i].status == Pending then Closed(queue, steps[i].item) else queue;
      ReadyInTurn(later, sources, steps, i + 1);
      if steps[i].status == Pending && Unchanged(queue, sources, steps[i]) {
        forall j | i < j < |steps|
          ensures Unchanged(later, sources, steps[j]) <==> Unchanged(queue, sources, steps[j]) && steps[j].item != steps[i].item
        {
        }
      }
    }
  }

  lemma ReadyFromStart(queue: map<WorkItemId, QueueStatus>, sources: map<WorkItemId, Head>, steps: seq<Step>)
    ensures ReadyFrom(queue, sources, steps, 0) <==> Ready(queue, sources, steps)
  {
    ReadyInTurn(queue, sources, steps, 0);
  }

  /** A call dies at step `i` of those it still has to take. */
  lemma ReadyAfterCrash(queue: map<WorkItemId, QueueStatus>, sources: map<WorkItemId, Head>, steps: seq<Step>, i: nat,
                        left: map<WorkItemId, QueueStatus>, after: seq<Step>)
    requires i < |steps| && steps[i].status == Pending && ReadyFrom(queue, sources, steps, i)
    requires SamePlan(steps, after) && (forall j :: 0 <= j < i ==> after[j].status != Pending)
    requires forall j :: i < j < |steps| ==> after[j] == steps[j]
    requires left == if after[i].status == Pending then queue else Closed(queue, steps[i].item)
    ensures Ready(left, sources, after)
  {
    ReadyInTurn(queue, sources, steps, i);
  }

  lemma NothingLeftToTake(queue: map<WorkItemId, QueueStatus>, sources: map<WorkItemId, Head>, steps: seq<Step>)
    requires Frontier(steps, |steps|)
    ensures Ready(queue, sources, steps)
  {
  }

  lemma ReadyAtTurn(queue: map<WorkItemId, QueueStatus>, sources: map<WorkItemId, Head>, steps: seq<Step>, i: nat)
    requires i <= |steps|
    ensures ReadyFrom(queue, sources, steps, i)
            <==> i == |steps|
                 || (if steps[i].status == Pending
                     then Unchanged(queue, sources, steps[i]) && ReadyFrom(Closed(queue, steps[i].item), sources, steps, i + 1)
                     else ReadyFrom(queue, sources, steps, i + 1))
  {
  }

  lemma {:induction false} FirstPendingAtFrontier(steps: seq<Step>, k: nat)
    requires Frontier(steps, k)
    ensures FirstPending(steps) == if k < |steps| then Some(steps[k]) else None
  {
    if k > 0 {
      FirstPendingAtFrontier(steps[1..], k - 1);
    }
  }

  /** The last recorded result is that of the step before the frontier. */
  lemma {:induction false} LastResultAtFrontier(steps: seq<Step>, k: nat)
    requires Frontier(steps, k)
    ensures LastResult(steps) == if k > 0 then steps[k - 1].resultHead else None
  {
    if k < |steps| {
      LastResultAtFrontier(steps[..|steps| - 1], k);
    }
  }

  lemma {:induction false} NoResultYet(steps: seq<Step>)
    requires Frontier(steps, 0)
    ensures LastResult(steps).None?
  {
    if steps != [] {
      NoResultYet(steps[..|steps| - 1]);
    }
  }

  /** The drift verdict: the head seen is neither the recorded one nor the last recorded result,
      and no merge that was not recorded explains it. */
  predicate Drifts(recorded: Head, seen: Head, known: set<Head>, steps: seq<Step>) {
    seen != recorded && LastResult(steps) != Some(seen)
    && (FirstPending(steps).Some? ==> FirstPending(steps).value.sourceHead !in known)
  }

  /** The verdict of a run in progress: the head is neither the recorded one nor where the last
      integrated step left it, and the source of the next step is not contained. */
  lemma DriftsAtFrontier(recorded: Head, seen: Head, known: set<Head>, steps: seq<Step>, k: nat)
    requires Frontier(steps, k)
    ensures Drifts(recorded, seen, known, steps)
            <==> seen != recorded && (k > 0 ==> steps[k - 1].resultHead != Some(seen))
                 && (k < |steps| ==> steps[k].sourceHead !in known)
  {
    FirstPendingAtFrontier(steps, k);
    LastResultAtFrontier(steps, k);
  }

  /** For a run of which nothing is integrated yet, the verdict is: the head is not the recorded one
      and the first source is not contained. */
  lemma FreshRunDriftsExactly(recorded: Head, seen: Head, known: set<Head>, steps: seq<Step>)
    requires Frontier(steps, 0)
    ensures Drifts(recorded, seen, known, steps) <==> seen != recorded && (steps != [] ==> steps[0].sourceHead !in known)
  {
    DriftsAtFrontier(recorded, seen, known, steps, 0);
  }

  predicate OffAtConfirmation(c: Confirmation) {
    Drifts(c.recorded, c.actual, c.known, c.steps)
  }

  /** What the invariant is about: the runs, the Git state, and four pieces of history. `merged` are
      the merges this code performed, `movedUnder` the runs that were running when another party
      moved the target, `restatedUnder` those that were running when another party recorded a head
      that was not the actual one, `confirmations` what was found at each confirmation. */
  datatype View = View(
    runs: map<RunId, Run>,
    recordedHead: Head,
    head: Head,
    contained: set<Head>,
    merged: seq<Head>,
    movedUnder: set<RunId>,
    restatedUnder: set<RunId>,
    confirmations: map<RunId, Confirmation>)

  /** While the run was running someone moved the target or recorded a head that was not the
      actual one, or the target was already off when the run was confirmed. */
  ghost predicate IsDisturbed(v: View, r: RunId) {
    r in v.movedUnder || r in v.restatedUnder || (r in v.confirmations && OffAtConfirmation(v.confirmations[r]))
  }

  function RunningIn(runs: map<RunId, Run>): set<RunId> {
    set r | r in runs && runs[r].status == Running
  }

  ghost predicate MergedOnce(merged: seq<Head>, contained: set<Head>) {
    (forall i, j :: 0 <= i < j < |merged| ==> merged[i] != merged[j])
    && forall i :: 0 <= i < |merged| ==> merged[i] in contained
  }

  ghost predicate IntegratedContained(run: Run, contained: set<Head>) {
    forall i :: 0 <= i < |run.steps| && run.steps[i].status == Integrated ==> run.steps[i].sourceHead in contained
  }

  /** The target of a run is at the recorded head, or one merge past it. */
  ghost predicate Explained(v: View, run: Run) {
    v.head == v.recordedHead
    || (FirstPending(run.steps).Some? && FirstPending(run.steps).value.sourceHead in v.contained)
  }

  /** Steps have the shape of the status, what is integrated is contained, a run off its preview has
      a confirmation on record, and drift has an explanation. */
  ghost predicate RunSound(v: View, r: RunId)
    requires r in v.runs
  {
    var run := v.runs[r];
    Shape(run) && IntegratedContained(run, v.contained)
    && (r in v.confirmations <==> run.status != Previewed)
    && (run.status == Running ==> IsDisturbed(v, r) || Explained(v, run))
    && (run.status == Failed ==> IsDisturbed(v, r))
  }

  ghost predicate NoneRunningBut(runs: map<RunId, Run>, r: RunId) {
    forall q :: q in runs && q != r ==> runs[q].status != Running
  }

  ghost predicate Sound(v: View) {
    MergedOnce(v.merged, v.contained)
    && (forall r :: r in v.runs ==> RunSound(v, r))
    && (forall r :: r in v.runs && v.runs[r].status == Running ==> NoneRunningBut(v.runs, r))
    && v.confirmations.Keys <= v.runs.Keys
  }

  /** One run is written, perhaps with the recorded head and its confirmation. */
  function Written(v: View, r: RunId, run: Run, recorded: Head, confirmation: Option<Confirmation>): View {
    v.(runs := v.runs[r := run], recordedHead := recorded,
       confirmations := if confirmation.Some? then v.confirmations[r := confirmation.value] else v.confirmations)
  }

  lemma WrittenSound(v: View, r: RunId, run: Run, recorded: Head, confirmation: Option<Confirmation>)
    requires Sound(v) && RunSound(Written(v, r, run, recorded, confirmation), r)
    requires run.status == Running || recorded != v.recordedHead ==> NoneRunningBut(v.runs, r)
    ensures Sound(Written(v, r, run, recorded, confirmation))
  {
    var w := Written(v, r, run, recorded, confirmation);
    forall q | q in w.runs && q != r ensures RunSound(w, q) {
      assert RunSound(v, q);
    }
    forall q | q in w.runs && w.runs[q].status == Running ensures NoneRunningBut(w.runs, q) {
      if q != r {
        assert NoneRunningBut(v.runs, q);
      }
    }
  }

  /** Another party moves the target. */
  lemma MovedSound(v: View, moved: Head, gained: set<Head>)
    requires Sound(v)
    ensures Sound(v.(head := moved, contained := v.contained + gained,
                     movedUnder := v.movedUnder + RunningIn(v.runs)))
  {
    var w := v.(head := moved, contained := v.contained + gained,
                movedUnder := v.movedUnder + RunningIn(v.runs));
    forall r | r in w.runs ensures RunSound(w, r) {
      assert RunSound(v, r);
    }
  }

  /** The runs that learn a wrong head when `seen` is recorded. */
  function Misled(v: View, seen: Head): set<RunId> {
    if seen in {v.head, v.recordedHead} then {} else RunningIn(v.runs)
  }

  /** A reconciliation records a head it saw, which need not be the actual one any more. */
  lemma RecordedSound(v: View, seen: Head)
    requires Sound(v)
    ensures Sound(v.(recordedHead := seen, restatedUnder := v.restatedUnder + Misled(v, seen)))
  {
    var w := v.(recordedHead := seen, restatedUnder := v.restatedUnder + Misled(v, seen));
    forall r | r in w.runs ensures RunSound(w, r) {
      assert RunSound(v, r);
    }
  }

  /** The source of the step at the frontier is merged. */
  lemma TakenInSound(v: View, r: RunId, k: nat, commit: Head, ancestors: set<Head>)
    requires Sound(v) && r in v.runs && v.runs[r].status == Running && Frontier(v.runs[r].steps, k)
    requires k < |v.runs[r].steps| && v.runs[r].steps[k].sourceHead !in v.contained
    ensures var source := v.runs[r].steps[k].sourceHead;
            Sound(v.(head := commit, contained := v.contained + ancestors + {source}, merged := v.merged + [source]))
  {
    var source := v.runs[r].steps[k].sourceHead;
    var w := v.(head := commit, contained := v.contained + ancestors + {source}, merged := v.merged + [source]);
    FirstPendingAtFrontier(v.runs[r].steps, k);
    assert NoneRunningBut(v.runs, r);
    forall q | q in w.runs ensures RunSound(w, q) {
      assert RunSound(v, q);
    }
  }

  lemma FailedSteps(steps: seq<Step>, k: nat)
    requires Frontier(steps, k) && k < |steps|
    ensures Stopped(FailAt(steps, k), k) && SamePlan(steps, FailAt(steps, k))
    ensures forall i :: 0 <= i < k ==> FailAt(steps, k)[i] == steps[i]
  {
  }

  lemma FailedStepSound(v: View, r: RunId, k: nat)
    requires Sound(v) && r in v.runs && Frontier(v.runs[r].steps, k) && k < |v.runs[r].steps| && r in v.confirmations
    ensures Sound(Written(v, r, v.runs[r].(status := Conflict, steps := FailAt(v.runs[r].steps, k)), v.recordedHead, None))
  {
    var run := v.runs[r].(status := Conflict, steps := FailAt(v.runs[r].steps, k));
    FailedSteps(v.runs[r].steps, k);
    assert RunSound(v, r);
    WrittenSound(v, r, run, v.recordedHead, None);
  }

  lemma CompletedStepSound(v: View, r: RunId, k: nat, result: Head)
    requires Sound(v) && r in v.runs && v.runs[r].status == Running && Frontier(v.runs[r].steps, k) && k < |v.runs[r].steps|
    requires v.runs[r].steps[k].sourceHead in v.contained
    requires IsDisturbed(v, r) || result == v.head
    ensures Sound(Written(v, r, v.runs[r].(steps := CompleteAt(v.runs[r].steps, k, result)), result, None))
    ensures Frontier(CompleteAt(v.runs[r].steps, k, result), k + 1)
  {
    var run := v.runs[r].(steps := CompleteAt(v.runs[r].steps, k, result));
    assert Frontier(run.steps, k + 1);
    assert RunSound(v, r) && NoneRunningBut(v.runs, r);
    WrittenSound(v, r, run, result, None);
  }

  lemma ExpectedStepSound(v: View, r: RunId, k: nat, target: Head)
    requires Sound(v) && r in v.runs && v.runs[r].status == Running && Frontier(v.runs[r].steps, k) && k < |v.runs[r].steps|
    ensures Sound(Written(v, r, v.runs[r].(steps := ExpectAt(v.runs[r].steps, k, target)), v.recordedHead, None))
    ensures Frontier(ExpectAt(v.runs[r].steps, k, target), k)
  {
    var run := v.runs[r].(steps := ExpectAt(v.runs[r].steps, k, target));
    assert Frontier(run.steps, k);
    FirstPendingAtFrontier(v.runs[r].steps, k);
    FirstPendingAtFrontier(run.steps, k);
    assert RunSound(v, r) && NoneRunningBut(v.runs, r);
    WrittenSound(v, r, run, v.recordedHead, None);
  }

  lemma ConfirmedSound(v: View, r: RunId)
    requires Sound(v) && r in v.runs && v.runs[r].status == Previewed && NoneRunningBut(v.runs, r)
    ensures Sound(Written(v, r, v.runs[r].(status := Running), v.recordedHead,
                          Some(Confirmation(v.recordedHead, v.head, v.contained, v.runs[r].steps))))
    ensures Frontier(v.runs[r].steps, 0)
  {
    var steps := v.runs[r].steps;
    assert RunSound(v, r);
    FirstPendingAtFrontier(steps, 0);
    NoResultYet(steps);
    WrittenSound(v, r, v.runs[r].(status := Running), v.recordedHead, Some(Confirmation(v.recordedHead, v.head, v.contained, steps)));
  }

  /** What is certain of the surroundings of a target. On a `quiet` one nobody but the executor moves
      the head; on a `timely` one a reconciliation records a head only while it is the actual one; on
      a `steady` one nobody else changes sources and queue; on a `mergeable` one no merge fails. */
  datatype World = World(quiet: bool, timely: bool, steady: bool, mergeable: bool)

  /** What a call reads besides its own variables. */
  datatype Scene = Scene(view: View, queue: map<WorkItemId, QueueStatus>, sources: map<WorkItemId, Head>, smooth: bool)

  /** What others may make of a scene: stored runs stay, new ones are previewed, nothing is merged; the
      target moves only under the running runs, and so does the recorded head, unless it is set to
      the actual one. Nothing moves on a quiet target, no source or queue row on a steady one. */
  ghost predicate Apart(world: World, before: Scene, after: Scene) {
    var v, w := before.view, after.view;
    var running := RunningIn(v.runs);
    (forall r :: r in v.runs ==> r in w.runs && w.runs[r] == v.runs[r])
    && (forall r :: r in w.runs && r !in v.runs ==> w.runs[r].status == Previewed)
    && w.merged == v.merged && w.confirmations == v.confirmations && after.smooth == before.smooth
    && v.contained <= w.contained && v.movedUnder <= w.movedUnder && v.restatedUnder <= w.restatedUnder
    && ((!world.quiet && running <= w.movedUnder) || (w.head == v.head && w.contained == v.contained))
    && ((!(world.quiet && world.timely) && running <= w.movedUnder + w.restatedUnder) || w.recordedHead in {v.recordedHead, w.head})
    && (world.steady ==> after.queue == before.queue && after.sources == before.sources)
  }

  lemma ApartNothing(world: World, scene: Scene)
    ensures Apart(world, scene, scene)
  {
  }

  lemma ApartTwice(world: World, a: Scene, b: Scene, c: Scene)
    requires Apart(world, a, b) && Apart(world, b, c)
    ensures Apart(world, a, c)
  {
    assert RunningIn(a.view.runs) <= RunningIn(b.view.runs);
  }

  /** One Feature in one repository: the tables its runs live in, the recorded and the actual
      Git state of the integration checkout, and the heads of the source checkouts. `observed` are
      the heads that reconciliations have read from Git and may still record; in a `smooth` call
      the process does not die, and nothing fails but a merge. */
  class FeatureTarget {
    const world: World
    var smooth: bool
    var runs: map<RunId, Run>
    var queue: map<WorkItemId, QueueStatus>
    var recordedHead: Head
    var head: Head
    var contained: set<Head>
    var sources: map<WorkItemId, Head>
    var observed: set<Head>
    ghost var merged: seq<Head>
    ghost var movedUnder: set<RunId>
    ghost var restatedUnder: set<RunId>
    ghost var confirmations: map<RunId, Confirmation>

    ghost function Now(): View
      reads this
    {
      View(runs, recordedHead, head, contained, merged, movedUnder, restatedUnder, confirmations)
    }

    ghost predicate Disturbed(r: RunId)
      reads this
    {
      IsDisturbed(Now(), r)
    }

    ghost predicate Valid()
      reads this
    {
      Sound(Now()) && (world.quiet ==> movedUnder == {}) && (world.timely ==> restatedUnder == {})
    }

    constructor (start: Head, history: set<Head>, observed: set<Head>, world: World)
      ensures Valid() && this.world == world && !smooth
      ensures runs == map[] && queue == map[] && sources == map[] && this.observed == observed
      ensures recordedHead == head == start && contained == history
      ensures merged == [] && movedUnder == {} && restatedUnder == {}
    {
      this.world, smooth := world, false;
      runs, queue, sources := map[], map[], map[];
      recordedHead, head, contained, this.observed := start, start, history, observed;
      merged, movedUnder, restatedUnder, confirmations := [], {}, {}, map[];
    }

    ghost function Surroundings(): Scene
      reads this
    {
      Scene(Now(), queue, sources, smooth)
    }

    /** What every other party may have done, as seen by a call in progress. */
    twostate predicate Elsewhere()
      reads this
    {
      Apart(world, old(Surroundings()), Surroundings())
    }

    /** Someone moves the integration checkout to a commit that still contains what was contained. */
    method MoveTarget(moved: Head, gained: set<Head>)
      requires Valid() && !world.quiet
      modifies this`head, this`contained, this`movedUnder
      ensures Valid() && Elsewhere() && head == moved && contained == old(contained) + gained
      ensures forall r :: r in movedUnder <==> r in old(movedUnder) || (r in runs && runs[r].status == Running)
    {
      MovedSound(Now(), moved, gained);
      hide Sound;
      head, contained := moved, contained + gained;
      movedUnder := movedUnder + RunningIn(runs);
    }

    /** The first half of a reconciliation: another process reads the actual head. */
    method Observe()
      requires Valid()
      modifies this`observed
      ensures Valid() && Elsewhere() && observed == old(observed) + {head}
    {
      hide Sound;
      observed := observed + {head};
    }

    /** The second half: it records what it read, at any later time. */
    method Record(seen: Head)
      requires Valid() && seen in observed && (world.timely ==> seen == head)
      modifies this`recordedHead, this`restatedUnder
      ensures Valid() && Elsewhere() && recordedHead == seen
      ensures restatedUnder == old(restatedUnder) + Misled(old(Now()), seen)
      ensures seen in {head, old(recordedHead)} ==> restatedUnder == old(restatedUnder)
      ensures seen !in {head, old(recordedHead)} ==>
                forall r :: r in restatedUnder <==> r in old(restatedUnder) || (r in runs && runs[r].status == Running)
    {
      RecordedSound(Now(), seen);
      hide Sound;
      restatedUnder := restatedUnder + Misled(Now(), seen);
      recordedHead := seen;
    }

    method ChangeSource(item: WorkItemId, moved: Head, status: QueueStatus)
      requires Valid() && !world.steady
      modifies this`sources, this`queue
      ensures Valid() && Elsewhere() && sources == old(sources)[item := moved] && queue == old(queue)[item := status]
    {
      hide Sound;
      sources, queue := sources[item := moved], queue[item := status];
    }

    /** One step of another party. */
    method Act()
      requires Valid()
      modifies this
      ensures Valid() && Elsewhere()
    {
      hide Sound, Apart;
      ApartNothing(world, Surroundings());
      var target: Head, gained: set<Head>, item: WorkItemId, status: QueueStatus := *, *, *, *;
      var id: RunId, key: string, keys: set<string>, token: nat, expiresAt: int := *, *, *, *, *;
      var rows: seq<DependencyOrder.Candidate> := *;
      if
      case !world.quiet => MoveTarget(target, gained);
      case true => Observe();
      case target in observed && (world.timely ==> target == head) => Record(target);
      case !world.steady => ChangeSource(item, target, status);
      case true => var _ := StoreRun(id, key, keys, token, expiresAt, rows, target);
    }

    /** Other parties act any number of times. */
    method Interfere()
      requires Valid()
      modifies this
      ensures Valid() && Elsewhere()
    {
      hide Valid, Apart;
      ApartNothing(world, Surroundings());
      var more: nat :| true;
      for _ := 0 to more
        invariant Valid() && Elsewhere()
      {
        ghost var before := Surroundings();
        Act();
        ApartTwice(world, old(Surroundings()), before, Surroundings());
      }
    }

    /** Between two effects others act, and the process may die. */
    method Pause() returns (crash: bool)
      requires Valid()
      modifies this
      ensures Valid() && Elsewhere() && (smooth ==> !crash)
    {
      Interfere();
      crash := *;
      if smooth {
        crash := false;
      }
    }

    /** The id, the key and the token of a run are unique; `elsewhere` are the keys of runs of other
        Features or repositories. */
    predicate Clashes(id: RunId, key: string, elsewhere: set<string>, token: nat)
      reads this`runs
    {
      id in runs || key in elsewhere || exists q :: q in runs && (runs[q].key == key || runs[q].token == token)
    }

    /** The transaction that stores a candidate queue as a run; every step starts pending at `target`. */
    method StoreRun(id: RunId, key: string, elsewhere: set<string>, token: nat, expiresAt: int,
                    candidates: seq<DependencyOrder.Candidate>, target: Head)
      returns (stored: bool)
      requires Valid()
      modifies this`runs
      ensures Valid() && Elsewhere() && stored == !old(Clashes(id, key, elsewhere, token))
      ensures runs == if stored then old(runs)[id := Run(Previewed, key, token, expiresAt, None, QueuedSteps(candidates, target))]
                      else old(runs)
    {
      if id in runs || key in elsewhere || exists q :: q in runs && (runs[q].key == key || runs[q].token == token) {
        return false;
      }
      var run := Run(Previewed, key, token, expiresAt, None, QueuedSteps(candidates, target));
      WrittenSound(Now(), id, run, recordedHead, None);
      hide Sound;
      runs := runs[id := run];
      return true;
    }

    /** The recorded head is read, while others act. */
    method ReadTarget() returns (target: Head)
      requires Valid()
      modifies this
      ensures Valid() && Elsewhere()
      ensures world.quiet && world.timely ==> target in {old(recordedHead), old(head)}
    {
      hide Valid;
      Interfere();
      target := recordedHead;
      ghost var before := Surroundings();
      Interfere();
      ApartTwice(world, old(Surroundings()), before, Surroundings());
    }

    /** `id` and `token` are freshly generated, `candidates` is the queue as read; `elsewhere` and
        `meanwhile` are the keys of other Features when the key is looked up and when the run is
        stored. `target` is the recorded head as read. */
    method Preview(id: RunId, key: string, elsewhere: set<string>, meanwhile: set<string>, token: nat, expiresAt: int,
                   candidates: seq<DependencyOrder.Candidate>)
      returns (r: Result<(), PreviewError>, target: Head)
      requires Valid()
      modifies this
      ensures Valid() && Elsewhere()
      ensures r == if Blank(key) then Err(EmptyKey)
                   else if key in elsewhere then Err(KeyUsedElsewhere)
                   else if exists q :: q in old(runs) && old(runs)[q].key == key then Err(DuplicateConfirmed)
                   else if candidates == [] then Err(QueueEmpty)
                   else if r.Err? then Err(NotUnique)
                   else Ok(())
      ensures r.Err? && r.error == NotUnique ==> Clashes(id, key, meanwhile, token)
      ensures r.Ok? ==> !old(Clashes(id, key, meanwhile, token)) && id in runs
                        && runs[id] == Run(Previewed, key, token, expiresAt, None, QueuedSteps(candidates, target))
                        && Follows(runs[id].steps, candidates)
      ensures world.quiet && world.timely ==> target in {old(recordedHead), old(head)}
    {
      hide Valid, QueuedSteps, Blank;
      target := recordedHead;
      if Blank(key) {
        return Err(EmptyKey), target;
      }
      if key in elsewhere {
        return Err(KeyUsedElsewhere), target;
      }
      if exists q :: q in runs && runs[q].key == key {
        return Err(DuplicateConfirmed), target;
      }
      target := ReadTarget();
      if candidates == [] {
        return Err(QueueEmpty), target;
      }
      ghost var before := Surroundings();
      var stored := StoreRun(id, key, meanwhile, token, expiresAt, candidates, target);
      ApartTwice(world, old(Surroundings()), before, Surroundings());
      r := if stored then Ok(()) else Err(NotUnique);
      QueuedInOrder(candidates, target);
    }

    twostate predicate OthersKept(r: RunId)
      reads this
    {
      OtherRunsKept(r) && confirmations == old(confirmations)
    }

    twostate predicate OtherRunsKept(r: RunId)
      reads this
    {
      old(contained) <= contained && old(movedUnder) <= movedUnder && old(restatedUnder) <= restatedUnder
      && smooth == old(smooth)
      && forall q :: q in old(runs) && q != r ==> q in runs && runs[q] == old(runs[q])
    }

    ghost predicate Executing(r: RunId, k: nat)
      reads this
    {
      Valid() && r in runs && runs[r].status == Running && Frontier(runs[r].steps, k)
    }

    /** How a call leaves the run: with the status it reports, or still running. */
    ghost predicate Ended(r: RunId, outcome: Outcome)
      reads this
    {
      r in runs && runs[r].status == if outcome.Finished? then outcome.status else Running
    }

    /** Since the steps were `before`, step `k`, and only it, was integrated: its source is contained
        and at most that source was merged. Of a run whose target was not moved it is known that the
        source was merged exactly if it was missing, and that the result is the actual head, as is the
        recorded head unless another one was recorded. */
    ghost predicate StepDone(r: RunId, k: nat, before: seq<Step>, mergedBefore: seq<Head>, containedBefore: set<Head>)
      requires k < |before|
      reads this
    {
      var source := before[k].sourceHead;
      r in runs && |runs[r].steps| == |before| && source in contained
      && (forall i :: 0 <= i < |before| && i != k ==> runs[r].steps[i] == before[i])
      && runs[r].steps[k].item == before[k].item && runs[r].steps[k].sourceHead == source
      && (merged == mergedBefore || merged == mergedBefore + [source])
      && (r in movedUnder
          || (runs[r].steps[k].resultHead == Some(head) && (r in restatedUnder || recordedHead == head)
              && merged == if source in containedBefore then mergedBefore else mergedBefore + [source]))
    }

    /** A call that died at step `k` leaves it pending, with the queue as it was, or integrated, with
        its item closed. */
    ghost predicate Halfway(r: RunId, k: nat, item: WorkItemId, queueBefore: map<WorkItemId, QueueStatus>)
      reads this
    {
      r in runs && k < |runs[r].steps|
      && queue == if runs[r].steps[k].status == Pending then queueBefore else Closed(queueBefore, item)
    }

    /** What is certain of a merge of the step's source, or of none where it is contained: a smooth
        call does not die, on a mergeable target nothing else stops it, and on a steady one only the
        queue row of the item changes. */
    twostate predicate Settles(r: RunId, k: nat, item: WorkItemId, new stop: Option<Outcome>)
      reads this
    {
      (smooth ==> stop != Some(Crashed)) && (world.mergeable ==> stop in {None, Some(Crashed)})
      && (world.steady ==> sources == old(sources) && (stop.None? ==> queue == Closed(old(queue), item)))
      && (world.steady && stop == Some(Crashed) ==> Halfway(r, k, item, old(queue)))
    }

    /** What the source head that was read decides. Without one, the item was not in the queue, had
        no source, or the process died; another one than the queued one ends the call with a conflict
        and nothing merged; only the queued one lets it go on. */
    twostate predicate SourceDecides(step: Step, new seen: Option<Head>, new stop: Option<Outcome>)
      reads this
    {
      (seen.None? ==> stop in {Some(Refused), Some(Crashed)} && merged == old(merged))
      && (seen.Some? && seen.value != step.sourceHead ==> stop in {Some(Finished(Conflict)), Some(Crashed)} && merged == old(merged))
      && (stop.None? ==> seen == Some(step.sourceHead))
      && (seen.Some? ==> step.item in old(queue) && old(queue)[step.item] != QueueIntegrated)
      && (world.steady && seen.Some? ==> step.item in sources && seen.value == sources[step.item])
      && (world.steady && Takeable(old(queue), sources, step) ==> seen.Some? || stop == Some(Crashed))
    }

    /** How an iteration leaves what later ones rely on. */
    twostate predicate TurnSettles(r: RunId, k: nat, step: Step, new seen: Option<Head>, new stop: Option<Outcome>)
      reads this
    {
      (smooth ==> stop != Some(Crashed))
      && (world.mergeable && seen == Some(step.sourceHead) ==> stop in {None, Some(Crashed)})
      && (world.steady ==> sources == old(sources) && (stop.None? ==> queue == Closed(old(queue), step.item)))
      && (world.steady && stop == Some(Crashed) ==> Halfway(r, k, step.item, old(queue)))
    }

    /** A step stopped the call: the run conflicts at that step, or is still running; its source
        may have been merged, the other steps are as they were. */
    ghost predicate StepStopped(r: RunId, k: nat, stop: Outcome, before: seq<Step>, mergedBefore: seq<Head>)
      requires k < |before|
      reads this
    {
      Ended(r, stop)
      && (stop.Finished? ==> stop.status == Conflict && Stopped(runs[r].steps, k))
      && SamePlan(before, runs[r].steps) && (forall i :: 0 <= i < k ==> runs[r].steps[i] == before[i])
      && (stop == Crashed ==> forall i :: k < i < |before| ==> runs[r].steps[i] == before[i])
      && (merged == mergedBefore || merged == mergedBefore + [before[k].sourceHead])
    }

    /** What any call on a running run keeps: the plan, what was integrated, and the order of merges. */
    twostate predicate Progress(r: RunId)
      requires r in old(runs)
      reads this
    {
      var before := old(runs[r]).steps;
      r in runs && SamePlan(before, runs[r].steps)
      && (forall i :: 0 <= i < |before| && before[i].status == Integrated ==> runs[r].steps[i] == before[i])
      && MergesInOrder(old(merged), before, |before|, merged)
    }

    /** The transaction of `complete_step`. */
    method CompleteStep(r: RunId, k: nat, result: Head)
      requires Executing(r, k) && k < |runs[r].steps|
      requires runs[r].steps[k].sourceHead in contained && (Disturbed(r) || result == head)
      modifies this`runs, this`queue, this`recordedHead
      ensures Executing(r, k + 1)
      ensures runs == old(runs)[r := old(runs[r]).(steps := CompleteAt(old(runs[r]).steps, k, result))]
      ensures recordedHead == result
      ensures queue == Closed(old(queue), old(runs[r]).steps[k].item) && OthersKept(r)
    {
      CompletedStepSound(Now(), r, k, result);
      hide Sound, Frontier, IsDisturbed, CompleteAt;
      var run := runs[r];
      runs := runs[r := run.(steps := CompleteAt(run.steps, k, result))];
      if run.steps[k].item in queue {
        queue := queue[run.steps[k].item := QueueIntegrated];
      }
      recordedHead := result;
    }

    /** The transaction of `record_expected_target`. */
    method RecordExpected(r: RunId, k: nat, target: Head)
      requires Executing(r, k) && k < |runs[r].steps|
      modifies this`runs
      ensures Executing(r, k)
      ensures runs == old(runs)[r := old(runs[r]).(steps := ExpectAt(old(runs[r]).steps, k, target))]
      ensures runs[r].steps == old(runs[r]).steps[k := old(runs[r]).steps[k].(expectedTarget := target)]
    {
      ExpectedStepSound(Now(), r, k, target);
      hide Sound, Frontier;
      runs := runs[r := runs[r].(steps := ExpectAt(runs[r].steps, k, target))];
    }

    /** The transaction of `fail_step`: this step conflicts, later ones are skipped. */
    method FailStep(r: RunId, k: nat)
      requires Executing(r, k) && k < |runs[r].steps|
      modifies this`runs, this`queue
      ensures runs == old(runs)[r := old(runs[r]).(status := Conflict, steps := FailAt(old(runs[r]).steps, k))]
      ensures Valid() && OthersKept(r) && StepStopped(r, k, Finished(Conflict), old(runs[r]).steps, merged)
      ensures queue == if old(runs[r]).steps[k].item in old(queue)
                       then old(queue)[old(runs[r]).steps[k].item := QueueConflict] else old(queue)
    {
      var run := runs[r];
      FailedSteps(run.steps, k);
      assert r in confirmations by {
        assert RunSound(Now(), r);
      }
      FailedStepSound(Now(), r, k);
      hide Sound, Frontier, FailAt, Stopped, SamePlan;
      runs := runs[r := run.(status := Conflict, steps := FailAt(run.steps, k))];
      if run.steps[k].item in queue {
        queue := queue[run.steps[k].item := QueueConflict];
      }
    }

    /** A merge of a missing source takes effect: the target contains it under a new head. */
    method TakeIn(r: RunId, k: nat, commit: Head, ancestors: set<Head>)
      requires Executing(r, k) && k < |runs[r].steps| && runs[r].steps[k].sourceHead !in contained
      modifies this`head, this`contained, this`merged
      ensures Executing(r, k)
      ensures head == commit && contained == old(contained) + ancestors + {runs[r].steps[k].sourceHead}
      ensures merged == old(merged) + [runs[r].steps[k].sourceHead]
    {
      TakenInSound(Now(), r, k, commit, ancestors);
      hide Sound, Frontier;
      var source := runs[r].steps[k].sourceHead;
      head, contained := commit, contained + ancestors + {source};
      merged := merged + [source];
    }

    /** `git merge` and reading its result. A merge that reports success took effect. One that reports
        failure may have: reading the result can fail after it. */
    method Merge(r: RunId, k: nat) returns (ok: bool)
      requires Executing(r, k) && k < |runs[r].steps| && runs[r].steps[k].sourceHead !in merged
      modifies this`head, this`contained, this`merged
      ensures Executing(r, k) && OthersKept(r)
      ensures merged == old(merged) ==> head == old(head) && contained == old(contained)
      ensures merged != old(merged) ==> runs[r].steps[k].sourceHead !in old(contained)
                                        && merged == old(merged) + [runs[r].steps[k].sourceHead]
      ensures ok ==> runs[r].steps[k].sourceHead in contained
      ensures world.mergeable ==> ok
    {
      var applied: bool := *;
      if world.mergeable {
        applied := true;
      }
      if applied && runs[r].steps[k].sourceHead !in contained {
        var commit: Head, ancestors: set<Head> := *, *;
        TakeIn(r, k, commit, ancestors);
      }
      ok := *;
      if world.mergeable || !applied {
        ok := applied;
      }
    }

    /** `Pause` as the executor of `r` sees it. */
    method Hold(r: RunId, ghost k: nat) returns (crash: bool)
      requires Executing(r, k)
      modifies this
      ensures Executing(r, k) && runs[r] == old(runs[r]) && OthersKept(r)
      ensures merged == old(merged) && (smooth ==> !crash)
      ensures r in movedUnder || (head == old(head) && contained == old(contained))
      ensures r in movedUnder || r in restatedUnder || recordedHead in {old(recordedHead), head}
      ensures world.steady ==> queue == old(queue) && sources == old(sources)
    {
      assert r in RunningIn(runs);
      crash := Pause();
    }

    /** The merge and what happens before its outcome is recorded. */
    method TryMerge(r: RunId, k: nat) returns (crash: bool, ok: bool, result: Head)
      requires Executing(r, k) && k < |runs[r].steps| && runs[r].steps[k].sourceHead !in merged
      modifies this
      ensures Executing(r, k) && runs[r] == old(runs[r]) && OthersKept(r)
      ensures merged == old(merged) || merged == old(merged) + [runs[r].steps[k].sourceHead]
      ensures ok ==> runs[r].steps[k].sourceHead in contained
      ensures r in movedUnder || !ok
              || (head == result && merged == if runs[r].steps[k].sourceHead in old(contained) then old(merged)
                                              else old(merged) + [runs[r].steps[k].sourceHead])
      ensures (smooth ==> !crash) && (world.mergeable && !crash ==> ok) && (world.steady ==> queue == old(queue) && sources == old(sources))
    {
      hide Valid, Frontier;
      crash := Hold(r, k);
      ok, result := false, head;
      if crash { return; }
      ok := Merge(r, k);
      result := head;
      crash := Hold(r, k);
    }

    /** Merges a source that the target was just seen not to contain. */
    method MergeSource(r: RunId, k: nat) returns (stop: Option<Outcome>)
      requires Executing(r, k) && k < |runs[r].steps| && runs[r].steps[k].sourceHead !in merged
      modifies this
      ensures Valid() && OthersKept(r)
      ensures stop.Some? ==> StepStopped(r, k, stop.value, old(runs[r]).steps, old(merged))
      ensures stop.None? ==> Executing(r, k + 1) && StepDone(r, k, old(runs[r]).steps, old(merged), old(contained))
      ensures Settles(r, k, old(runs[r]).steps[k].item, stop)
    {
      hide Valid, FailAt, Stopped;
      var crash, ok, result := TryMerge(r, k);
      if crash { return Some(Crashed); }
      if !ok {
        FailStep(r, k);
        return Some(Finished(Conflict));
      }
      CompleteStep(r, k, result);
      return None;
    }

    lemma MissingIsUnmerged(source: Head)
      requires Valid() && source !in contained
      ensures source !in merged
    {
    }

    /** Merges the step's source unless the target already contains it. */
    method MergeUnlessContained(r: RunId, k: nat, current: Head) returns (stop: Option<Outcome>)
      requires Executing(r, k) && k < |runs[r].steps| && (r in movedUnder || head == current)
      modifies this
      ensures Valid() && OthersKept(r)
      ensures stop.Some? ==> StepStopped(r, k, stop.value, old(runs[r]).steps, old(merged))
      ensures stop.None? ==> Executing(r, k + 1) && StepDone(r, k, old(runs[r]).steps, old(merged), old(contained))
      ensures Settles(r, k, old(runs[r]).steps[k].item, stop)
    {
      hide Valid, Stopped, FailAt, Apart;
      if runs[r].steps[k].sourceHead !in contained {
        MissingIsUnmerged(runs[r].steps[k].sourceHead);
        stop := MergeSource(r, k);
      } else {
        var crash := Hold(r, k);
        if crash { return Some(Crashed); }
        CompleteStep(r, k, current);
        return None;
      }
    }

    /** The head of the target is read and recorded as the one expected by the step. */
    method NoteTarget(r: RunId, k: nat) returns (crash: bool, current: Head)
      requires Executing(r, k) && k < |runs[r].steps|
      modifies this
      ensures Executing(r, k) && OthersKept(r) && merged == old(merged)
      ensures k < |runs[r].steps| && runs[r].steps[k].status == Pending
      ensures runs[r].steps == old(runs[r]).steps || runs[r].steps == ExpectAt(old(runs[r]).steps, k, current)
      ensures !crash ==> runs[r].steps == ExpectAt(old(runs[r]).steps, k, current)
      ensures r in movedUnder || (contained == old(contained) && (crash || head == current))
      ensures (smooth ==> !crash) && (world.steady ==> queue == old(queue) && sources == old(sources))
    {
      hide Valid;
      crash := Hold(r, k);
      current := head;
      if crash { return; }
      crash := Hold(r, k);
      if crash { return; }
      RecordExpected(r, k, current);
      crash := Hold(r, k);
    }

    /** The part of an iteration that follows the source check. */
    method MergeStep(r: RunId, k: nat) returns (stop: Option<Outcome>)
      requires Executing(r, k) && k < |runs[r].steps|
      modifies this
      ensures Valid() && OthersKept(r)
      ensures stop.Some? ==> StepStopped(r, k, stop.value, old(runs[r]).steps, old(merged))
      ensures stop.None? ==> Executing(r, k + 1) && StepDone(r, k, old(runs[r]).steps, old(merged), old(contained))
      ensures Settles(r, k, old(runs[r]).steps[k].item, stop)
    {
      hide Valid, Stopped, Frontier;
      var crash, current := NoteTarget(r, k);
      if crash { return Some(Crashed); }
      stop := MergeUnlessContained(r, k, current);
    }

    /** The source changed after it was queued. */
    method RejectSource(r: RunId, k: nat) returns (stop: Option<Outcome>)
      requires Executing(r, k) && k < |runs[r].steps|
      modifies this
      ensures Valid() && OthersKept(r)
      ensures stop.Some? && StepStopped(r, k, stop.value, old(runs[r]).steps, old(merged))
      ensures stop in {Some(Crashed), Some(Finished(Conflict))} && merged == old(merged)
      ensures (smooth ==> stop != Some(Crashed)) && (world.steady ==> sources == old(sources))
      ensures world.steady && stop == Some(Crashed) ==> Halfway(r, k, old(runs[r]).steps[k].item, old(queue))
    {
      hide Valid;
      var crash := Hold(r, k);
      if crash { return Some(Crashed); }
      FailStep(r, k);
      return Some(Finished(Conflict));
    }

    /** Between two steps. */
    method AfterStep(r: RunId, k: nat, ghost before: seq<Step>, ghost was: seq<Head>, ghost had: set<Head>)
      returns (stop: Option<Outcome>)
      requires k < |before| && Executing(r, k + 1) && StepDone(r, k, before, was, had)
      modifies this
      ensures Valid() && OthersKept(r)
      ensures stop.Some? ==> StepStopped(r, k, stop.value, before, was)
      ensures stop.None? ==> Executing(r, k + 1) && StepDone(r, k, before, was, had)
      ensures (smooth ==> stop.None?) && stop in {None, Some(Crashed)}
      ensures world.steady ==> queue == old(queue) && sources == old(sources)
      ensures r in runs && k < |runs[r].steps| && runs[r].steps[k].status == Integrated
    {
      hide Valid;
      var crash := Hold(r, k + 1);
      if crash { return Some(Crashed); }
      return None;
    }

    /** The source was as queued. */
    method MergeChecked(r: RunId, k: nat) returns (stop: Option<Outcome>)
      requires Executing(r, k) && k < |runs[r].steps|
      modifies this
      ensures Valid() && OthersKept(r)
      ensures stop.Some? ==> StepStopped(r, k, stop.value, old(runs[r]).steps, old(merged))
      ensures stop.None? ==> Executing(r, k + 1) && StepDone(r, k, old(runs[r]).steps, old(merged), old(contained))
      ensures Settles(r, k, old(runs[r]).steps[k].item, stop)
    {
      ghost var before, was, had := runs[r].steps, merged, contained;
      hide Valid, Frontier, StepDone, StepStopped, Closed;
      stop := MergeStep(r, k);
      if stop.None? {
        stop := AfterStep(r, k, before, was, had);
      }
    }

    /** One iteration of the loop over pending steps. `None` means: go on to the next step. */
    method IntegrateStep(r: RunId, k: nat, step: Step) returns (stop: Option<Outcome>, ghost seen: Option<Head>)
      requires Executing(r, k) && k < |runs[r].steps|
      requires step.item == runs[r].steps[k].item && step.sourceHead == runs[r].steps[k].sourceHead
      modifies this
      ensures Valid() && OthersKept(r)
      ensures stop.Some? ==> StepStopped(r, k, stop.value, old(runs[r]).steps, old(merged))
      ensures stop.None? ==> Executing(r, k + 1) && StepDone(r, k, old(runs[r]).steps, old(merged), old(contained))
      ensures SourceDecides(step, seen, stop) && TurnSettles(r, k, step, seen, stop)
    {
      hide Valid, Stopped;
      seen := None;
      if step.item !in queue || queue[step.item] == QueueIntegrated {
        return Some(Refused), seen;
      }
      var crash := Hold(r, k);
      if crash { return Some(Crashed), seen; }
      if step.item !in sources {
        return Some(Refused), seen;
      }
      var source := sources[step.item];
      seen := Some(source);
      if source != step.sourceHead {
        stop := RejectSource(r, k);
      } else {
        stop := MergeChecked(r, k);
      }
    }

    /** The transaction of `fail_run`. */
    method FailRun(r: RunId)
      requires r in runs
      modifies this`runs
      ensures runs == old(runs)[r := old(runs[r]).(status := Failed)]
      ensures old(Valid()) && old(runs[r]).status == Running && Disturbed(r) ==> Valid()
    {
      if Sound(Now()) && runs[r].status == Running && Disturbed(r) {
        assert RunSound(Now(), r);
        WrittenSound(Now(), r, runs[r].(status := Failed), recordedHead, None);
      }
      hide Sound;
      runs := runs[r := runs[r].(status := Failed)];
    }

    /** The closing transaction of `execute_run`. */
    method FinishRun(r: RunId, result: Head)
      requires Valid() && r in runs && runs[r].status == Running && Frontier(runs[r].steps, |runs[r].steps|)
      modifies this`runs
      ensures Valid() && runs == old(runs)[r := old(runs[r]).(status := Completed, resultHead := Some(result))]
    {
      assert RunSound(Now(), r);
      WrittenSound(Now(), r, runs[r].(status := Completed, resultHead := Some(result)), recordedHead, None);
      hide Sound;
      runs := runs[r := runs[r].(status := Completed, resultHead := Some(result))];
    }

    /** The drift check. `seen` and `known` are the head and the contained commits that Git answered
        with. On a target that nobody else has moved these are the head and the contained commits at
        the start, so the verdict is known then; an undisturbed run never drifts. */
    method CheckDrift(r: RunId, ghost k: nat, snapshot: seq<Step>)
      returns (crash: bool, drifted: bool, ghost seen: Head, ghost known: set<Head>)
      requires Executing(r, k) && snapshot == runs[r].steps
      modifies this
      ensures Executing(r, k) && runs[r] == old(runs[r]) && OthersKept(r) && merged == old(merged)
      ensures !crash ==> old(contained) <= known <= contained
      ensures !crash ==> r in movedUnder || (seen == old(head) && known == old(contained))
      ensures !crash ==> (drifted <==> Drifts(old(recordedHead), seen, known, snapshot))
      ensures drifted ==> Disturbed(r)
      ensures (smooth ==> !crash) && (world.steady ==> queue == old(queue) && sources == old(sources))
    {
      drifted := false;
      var recorded := recordedHead;
      crash := Hold(r, k);
      seen, known := head, contained;
      if crash { return; }
      var resolved := head;
      if resolved != recorded {
        crash := Hold(r, k);
        known := contained;
        if crash { return; }
        var pending := FirstPending(snapshot);
        var atRecordedIntegration := LastResult(snapshot) == Some(resolved);
        var atUnrecordedMerge := pending.Some? && pending.value.sourceHead in contained;
        drifted := !atRecordedIntegration && !atUnrecordedMerge;
      }
    }

    /** One turn of the loop below, with what it makes of the steps that are left. */
    method TakeTurn(r: RunId, k: nat, snapshot: seq<Step>) returns (stop: Option<Outcome>)
      requires Executing(r, k) && k < |runs[r].steps| && |snapshot| == |runs[r].steps|
      requires snapshot[k] == runs[r].steps[k] && forall i :: k < i < |snapshot| ==> runs[r].steps[i] == snapshot[i]
      requires SamePlan(snapshot, runs[r].steps)
      modifies this
      ensures Valid() && OthersKept(r)
      ensures stop.Some? ==> StepStopped(r, k, stop.value, old(runs[r]).steps, old(merged))
      ensures stop.None? ==> Executing(r, k + 1) && StepDone(r, k, old(runs[r]).steps, old(merged), old(contained))
      ensures smooth ==> stop != Some(Crashed)
      ensures world.steady ==> sources == old(sources)
      ensures world.steady && stop.None? ==>
                (ReadyFrom(old(queue), old(sources), snapshot, k) <==> ReadyFrom(queue, sources, snapshot, k + 1))
      ensures world.mergeable && world.steady && ReadyFrom(old(queue), old(sources), snapshot, k) && stop.Some? ==>
                stop == Some(Crashed) && Ready(queue, sources, runs[r].steps)
    {
      hide Valid, Ready, ReadyFrom, Stopped, StepDone;
      ghost var was := queue;
      ReadyAtTurn(queue, sources, snapshot, k);
      ghost var seen;
      stop, seen := IntegrateStep(r, k, snapshot[k]);
      if world.steady && stop == Some(Crashed) && ReadyFrom(was, sources, snapshot, k) {
        ReadyAfterCrash(was, sources, snapshot, k, queue, runs[r].steps);
      }
    }

    /** The loop over the steps that were pending in the snapshot. */
    method IntegratePending(r: RunId, ghost k: nat, snapshot: seq<Step>) returns (stop: Option<Outcome>)
      requires Executing(r, k) && snapshot == runs[r].steps
      modifies this
      ensures Valid() && OthersKept(r) && Progress(r)
      ensures stop.Some? ==> Ended(r, stop.value) && (stop.value.Finished? ==> stop.value.status == Conflict)
      ensures stop.None? ==> Executing(r, |snapshot|) && |runs[r].steps| == |snapshot|
      ensures smooth ==> stop != Some(Crashed)
      ensures world.steady && stop.None? ==> Ready(old(queue), old(sources), snapshot)
      ensures world.mergeable && world.steady && Ready(old(queue), old(sources), snapshot) ==>
                stop.None? || (stop == Some(Crashed) && Ready(queue, sources, runs[r].steps))
    {
      hide Valid, MergesInOrder, Ready, ReadyFrom, Closed, FirstPending, Stopped;
      MergesNone(merged, snapshot);
      ReadyFromStart(queue, sources, snapshot);
      for i := 0 to |snapshot|
        invariant Executing(r, if i < k then k else i) && OthersKept(r) && SamePlan(snapshot, runs[r].steps)
        invariant forall j :: (0 <= j < k || i <= j < |snapshot|) && j < |snapshot| ==> runs[r].steps[j] == snapshot[j]
        invariant MergesInOrder(old(merged), snapshot, i, merged)
        invariant world.steady ==>
                    sources == old(sources) && ReadyFrom(queue, sources, snapshot, i) == ReadyFrom(old(queue), sources, snapshot, 0)
      {
        ghost var mid := merged;
        ReadyAtTurn(queue, sources, snapshot, i);
        if snapshot[i].status == Pending {
          stop := TakeTurn(r, i, snapshot);
          MergesExtended(old(merged), snapshot, i, mid, merged);
          if stop.Some? {
            MergesLater(old(merged), snapshot, i + 1, |snapshot|, merged);
            return;
          }
        } else {
          MergesExtended(old(merged), snapshot, i, mid, merged);
        }
      }
      ReadyAtTurn(queue, sources, snapshot, |snapshot|);
      return None;
    }

    lemma RunningFrontier(r: RunId) returns (k: nat)
      requires Valid() && r in runs && runs[r].status == Running
      ensures Executing(r, k)
    {
      k :| 0 <= k <= |runs[r].steps| && Frontier(runs[r].steps, k);
    }

    method CloseRun(r: RunId) returns (outcome: Outcome)
      requires r in runs && Executing(r, |runs[r].steps|)
      modifies this
      ensures Valid() && OthersKept(r) && Ended(r, outcome) && outcome in {Crashed, Finished(Completed)}
      ensures runs[r].steps == old(runs[r]).steps && merged == old(merged)
      ensures outcome == Finished(Completed) && r !in movedUnder ==> runs[r].resultHead == Some(head)
      ensures (smooth ==> outcome == Finished(Completed)) && Frontier(runs[r].steps, |runs[r].steps|)
    {
      hide Valid;
      ghost var k := |runs[r].steps|;
      var crash := Hold(r, k);
      if crash { return Crashed; }
      var result := head;
      crash := Hold(r, k);
      if crash { return Crashed; }
      FinishRun(r, result);
      return Finished(Completed);
    }

    /** What `execute_run` does once the target was found as expected. */
    method RunPending(r: RunId, ghost k: nat, snapshot: seq<Step>) returns (outcome: Outcome)
      requires Executing(r, k) && snapshot == runs[r].steps
      modifies this
      ensures Valid() && OthersKept(r) && Ended(r, outcome) && Progress(r)
      ensures outcome.Finished? ==> outcome.status in {Completed, Conflict}
      ensures smooth ==> outcome != Crashed
      ensures world.steady && outcome == Finished(Completed) ==> Ready(old(queue), old(sources), snapshot)
      ensures world.mergeable && world.steady && Ready(old(queue), old(sources), snapshot) ==>
                outcome == Finished(Completed) || (outcome == Crashed && Ready(queue, sources, runs[r].steps))
    {
      hide Valid, MergesInOrder, Ready;
      MergesNone(merged, snapshot);
      MergesLater(merged, snapshot, 0, |snapshot|, merged);
      var crash := Hold(r, k);
      if crash { return Crashed; }
      var stop := IntegratePending(r, k, snapshot);
      if stop.Some? { return stop.value; }
      outcome := CloseRun(r);
      if outcome == Crashed {
        NothingLeftToTake(queue, sources, runs[r].steps);
      }
    }

    /** What the drift check has to do with the end of the call: a drifted target ends it as failed, with
        nothing merged, and nothing else fails it. What the check read is the state at the start of the
        call, up to a reconciliation, unless others moved the target or recorded another head. */
    twostate predicate Judged(r: RunId, new outcome: Outcome, new check: DriftCheck)
      requires r in old(runs)
      reads this
    {
      match check
      case NotReached => !smooth && outcome == Crashed && merged == old(merged)
      case Checked(recorded, seen, known, drifted) =>
        (drifted <==> Drifts(recorded, seen, known, old(runs[r]).steps))
        && (drifted ==> Disturbed(r) && outcome in {Crashed, Finished(Failed)} && merged == old(merged))
        && (!drifted ==> outcome != Finished(Failed))
        && (r in movedUnder || (seen == old(head) && known == old(contained)))
        && (r in movedUnder || r in restatedUnder || recorded in {old(recordedHead), old(head)})
    }

    /** How far a call gets: a smooth one does not die. On a steady target a completed run had all its
        pending steps ready; and if they are, nothing drifted and no merge fails, the call completes the
        run or dies and leaves the remaining ones ready. */
    twostate predicate Finishes(r: RunId, new outcome: Outcome, new check: DriftCheck)
      requires r in old(runs)
      reads this
    {
      (smooth ==> outcome != Crashed)
      && (world.steady && outcome == Finished(Completed) ==> Ready(old(queue), old(sources), old(runs[r]).steps))
      && (world.mergeable && world.steady && Ready(old(queue), old(sources), old(runs[r]).steps) ==>
            outcome == Finished(Completed)
            || (outcome == Crashed && r in runs && Ready(queue, sources, runs[r].steps))
            || (check.Checked? && check.drifted))
    }

    /** What `execute_run` does up to the drift verdict, and after it on a drifted target. */
    method JudgeTarget(r: RunId, ghost k: nat, snapshot: seq<Step>) returns (stop: Option<Outcome>, ghost check: DriftCheck)
      requires Executing(r, k) && snapshot == runs[r].steps
      modifies this
      ensures Valid() && OthersKept(r) && merged == old(merged)
      ensures stop.Some? ==> Ended(r, stop.value) && runs[r].steps == snapshot && Judged(r, stop.value, check)
                             && stop.value in {Crashed, Finished(Failed)} && (check.Checked? ==> check.drifted)
      ensures stop.None? ==> Executing(r, k) && runs[r] == old(runs[r]) && check.Checked? && !check.drifted
                             && Judged(r, Finished(Completed), check)
      ensures (smooth ==> stop != Some(Crashed)) && (world.steady ==> queue == old(queue) && sources == old(sources))
    {
      hide Valid, Drifts, Frontier;
      check := NotReached;
      var crash := Hold(r, k);
      if crash { return Some(Crashed), check; }
      ghost var recorded := recordedHead;
      var drifted;
      ghost var seen, known;
      crash, drifted, seen, known := CheckDrift(r, k, snapshot);
      if crash { return Some(Crashed), check; }
      check := Checked(recorded, seen, known, drifted);
      if drifted {
        crash := Hold(r, k);
        if crash { return Some(Crashed), check; }
        FailRun(r);
        return Some(Finished(Failed)), check;
      }
      return None, check;
    }

    method ExecuteRun(r: RunId) returns (outcome: Outcome, ghost check: DriftCheck)
      requires Valid() && r in runs && runs[r].status == Running
      modifies this
      ensures Valid() && OthersKept(r) && Ended(r, outcome) && Progress(r)
      ensures outcome.Finished? ==> outcome.status in {Completed, Conflict, Failed}
      ensures Judged(r, outcome, check) && Finishes(r, outcome, check)
    {
      hide Valid, MergesInOrder, Ready, Drifts, Frontier;
      var snapshot := runs[r].steps;
      MergesNone(merged, snapshot);
      MergesLater(merged, snapshot, 0, |snapshot|, merged);
      ghost var k := RunningFrontier(r);
      var stop;
      stop, check := JudgeTarget(r, k, snapshot);
      if stop.Some? { return stop.value, check; }
      outcome := RunPending(r, k, snapshot);
    }

    ghost predicate Confirmable(r: RunId, token: nat, now: int)
      reads this
    {
      r in runs && runs[r].status == Previewed && runs[r].token == token && runs[r].expiresAt > now
      && forall q :: q in runs ==> runs[q].status != Running
    }

    /** The transaction that consumes the confirmation. */
    method TakeLease(r: RunId, token: nat, now: int) returns (taken: bool)
      requires Valid()
      modifies this`runs, this`confirmations
      ensures Valid() && taken == old(Confirmable(r, token, now))
      ensures taken <==> r in old(runs) && old(runs[r]).status == Previewed && old(runs[r]).token == token
                         && old(runs[r]).expiresAt > now && forall q :: q in old(runs) ==> old(runs)[q].status != Running
      ensures !taken ==> runs == old(runs) && confirmations == old(confirmations)
      ensures taken ==> runs == old(runs)[r := old(runs[r]).(status := Running)]
      ensures taken ==> confirmations == old(confirmations)[r := Confirmation(recordedHead, head, contained, old(runs[r]).steps)]
    {
      if r !in runs || runs[r].status != Previewed || runs[r].token != token || runs[r].expiresAt <= now {
        return false;
      }
      if exists q :: q in runs && runs[q].status == Running {
        return false;
      }
      ConfirmedSound(Now(), r);
      hide Sound;
      confirmations := confirmations[r := Confirmation(recordedHead, head, contained, runs[r].steps)];
      runs := runs[r := runs[r].(status := Running)];
      return true;
    }

    /** What the confirmation found is on record, whatever happens to the run afterwards. */
    method Confirm(r: RunId, token: nat, now: int) returns (outcome: Outcome, ghost check: DriftCheck)
      requires Valid()
      modifies this
      ensures Valid() && OtherRunsKept(r)
      ensures !old(Confirmable(r, token, now)) ==>
                outcome == Refused && runs == old(runs) && merged == old(merged) && confirmations == old(confirmations)
      ensures old(Confirmable(r, token, now)) ==>
                Ended(r, outcome) && Progress(r) && Judged(r, outcome, check) && Finishes(r, outcome, check)
                && confirmations == old(confirmations)[r := Confirmation(old(recordedHead), old(head), old(contained), old(runs[r]).steps)]
    {
      hide Valid, MergesInOrder, Ready, Drifts, Disturbed;
      var taken := TakeLease(r, token, now);
      if !taken {
        return Refused, NotReached;
      }
      outcome, check := ExecuteRun(r);
    }

    method Resume(r: RunId) returns (outcome: Outcome, ghost check: DriftCheck)
      requires Valid()
      modifies this
      ensures Valid() && OthersKept(r)
      ensures r !in old(runs) ==> runs == old(runs) && merged == old(merged) && outcome == Refused
      ensures r in old(runs) && old(runs[r]).status != Running ==>
                runs == old(runs) && merged == old(merged) && outcome == Finished(old(runs[r]).status)
      ensures r in old(runs) && old(runs[r]).status == Running ==>
                Ended(r, outcome) && Progress(r) && Judged(r, outcome, check) && Finishes(r, outcome, check)
    {
      if r !in runs {
        return Refused, NotReached;
      }
      if runs[r].status != Running {
        return Finished(runs[r].status), NotReached;
      }
      outcome, check := ExecuteRun(r);
    }
  }

  datatype Call =
    | DoPreview(id: RunId, key: string, elsewhere: set<string>, meanwhile: set<string>, token: nat, expiresAt: int,
                candidates: seq<DependencyOrder.Candidate>)
    | DoConfirm(id: RunId, token: nat, now: int)
    | DoResume(id: RunId)

  /** One of the first `n` calls previewed this queue as run `r`. */
  ghost predicate PreviewedBy(calls: seq<Call>, n: nat, r: RunId, queue: seq<DependencyOrder.Candidate>) {
    exists i :: 0 <= i < n && i < |calls| && calls[i].DoPreview? && calls[i].id == r && calls[i].candidates == queue
  }

  ghost predicate PlansKept(before: map<RunId, Run>, after: map<RunId, Run>) {
    forall r :: r in before ==> r in after && SamePlan(before[r].steps, after[r].steps)
  }

  lemma PlansKeptTwice(a: map<RunId, Run>, b: map<RunId, Run>, c: map<RunId, Run>)
    requires PlansKept(a, b) && PlansKept(b, c)
    ensures PlansKept(a, c)
  {
  }

  /** Others act, and then one call is served. */
  method Serve(t: FeatureTarget, call: Call, smooth: bool) returns (previewed: bool)
    requires t.Valid()
    modifies t
    ensures t.Valid() && PlansKept(old(t.runs), t.runs)
    ensures previewed ==> call.DoPreview? && call.id in t.runs && Follows(t.runs[call.id].steps, call.candidates)
  {
    hide Sound, FeatureTarget.Judged, FeatureTarget.Finishes, MergesInOrder, Follows;
    previewed := false;
    t.Interfere();
    t.smooth := smooth;
    ghost var before := t.runs;
    assert PlansKept(old(t.runs), before);
    match call {
      case DoPreview(id, key, elsewhere, meanwhile, token, expiresAt, candidates) =>
        var stored, _ := t.Preview(id, key, elsewhere, meanwhile, token, expiresAt, candidates);
        previewed := stored.Ok?;
      case DoConfirm(id, token, now) => var _, _ := t.Confirm(id, token, now);
      case DoResume(id) => var _, _ := t.Resume(id);
    }
    assert PlansKept(before, t.runs);
    hide PlansKept;
    PlansKeptTwice(old(t.runs), before, t.runs);
  }

  lemma QueuesKept(queues: map<RunId, seq<DependencyOrder.Candidate>>, before: map<RunId, Run>, after: map<RunId, Run>)
    requires PlansKept(before, after) && forall r :: r in queues ==> r in before && Follows(before[r].steps, queues[r])
    ensures forall r :: r in queues ==> r in after && Follows(after[r].steps, queues[r])
  {
  }

  /** Any history of previews, confirmations and resumptions, each crashing wherever it likes
      and with others acting throughout: no source is merged twice; a completed run's target
      contains every source; the steps of every run have the shape of its status; one run at most
      is running. A run fails for drift only if, while it was running, someone moved its target or
      recorded a head that was not the actual one, or if the target already drifted by the record
      of its confirmation. So where nobody but the executor moves the head, and reconciliations
      record none that is out of date, only the last is left. */
  method History(calls: seq<Call>, smooth: seq<bool>, start: Head, ancestors: set<Head>, observed: set<Head>,
                 world: World)
    returns (runs: map<RunId, Run>, contained: set<Head>, ghost merged: seq<Head>,
             ghost movedUnder: set<RunId>, ghost restatedUnder: set<RunId>, ghost confirmations: map<RunId, Confirmation>,
             ghost queues: map<RunId, seq<DependencyOrder.Candidate>>)
    ensures forall r :: r in queues ==> r in runs && Follows(runs[r].steps, queues[r])
    ensures forall r :: r in queues ==> PreviewedBy(calls, |calls|, r, queues[r])
    ensures forall i, j :: 0 <= i < j < |merged| ==> merged[i] != merged[j]
    ensures forall r, i :: r in runs && runs[r].status == Completed && 0 <= i < |runs[r].steps|
              ==> runs[r].steps[i].sourceHead in contained
    ensures forall r :: r in confirmations <==> r in runs && runs[r].status != Previewed
    ensures forall r :: r in runs && runs[r].status == Failed ==>
              r in movedUnder || r in restatedUnder || OffAtConfirmation(confirmations[r])
    ensures (world.quiet ==> movedUnder == {}) && (world.timely ==> restatedUnder == {})
    ensures forall r :: r in runs ==> Shape(runs[r])
    ensures forall r, q :: r in runs && q in runs && runs[r].status == Running && runs[q].status == Running ==> r == q
  {
    queues := map[];
    var t := new FeatureTarget(start, ancestors, observed, world);
    for i := 0 to |calls|
      invariant fresh(t) && t.Valid()
      invariant forall r :: r in queues ==> r in t.runs && Follows(t.runs[r].steps, queues[r])
      invariant forall r :: r in queues ==> PreviewedBy(calls, i, r, queues[r])
    {
      hide Sound, SamePlan, Follows, PlansKept;
      ghost var before := t.runs;
      var previewed := Serve(t, calls[i], i < |smooth| && smooth[i]);
      QueuesKept(queues, before, t.runs);
      if previewed {
        queues := queues[calls[i].id := calls[i].candidates];
        assert PreviewedBy(calls, i + 1, calls[i].id, calls[i].candidates);
      }
    }
    runs, contained, merged := t.runs, t.contained, t.merged;
    movedUnder, restatedUnder, confirmations := t.movedUnder, t.restatedUnder, t.confirmations;
  }

  /** Nobody disturbs the run, and it is completed or its steps are ready. */
  ghost predicate OnCourse(t: FeatureTarget, r: RunId)
    reads t
  {
    t.Valid() && r in t.runs && !t.Disturbed(r)
    && (t.runs[r].status == Completed || (t.runs[r].status == Running && Ready(t.queue, t.sources, t.runs[r].steps)))
  }

  /** One more call, and whatever others do before it. */
  method ResumeOnCourse(t: FeatureTarget, r: RunId)
    requires OnCourse(t, r) && t.world == World(true, true, true, true)
    modifies t
    ensures OnCourse(t, r) && t.smooth == old(t.smooth) && (t.smooth ==> t.runs[r].status == Completed)
    ensures SamePlan(old(t.runs[r]).steps, t.runs[r].steps)
  {
    hide Sound, Drifts, MergesInOrder, Ready, FeatureTarget.Ended;
    t.Interfere();
    assert t.runs[r] == old(t.runs[r]);
    var _, _ := t.Resume(r);
  }

  /** A running run that nobody disturbs and whose steps are ready is completed by the first call that
      survives, whatever number of calls died before it, and wherever they did. */
  method CompleteDespiteCrashes(t: FeatureTarget, r: RunId, crashes: nat)
    requires t.Valid() && r in t.runs && t.runs[r].status == Running && !t.Disturbed(r)
    requires t.world == World(true, true, true, true) && Ready(t.queue, t.sources, t.runs[r].steps)
    modifies t
    ensures t.Valid() && r in t.runs && t.runs[r].status == Completed
    ensures SamePlan(old(t.runs[r]).steps, t.runs[r].steps)
  {
    t.smooth := false;
    for _ := 0 to crashes
      invariant OnCourse(t, r) && SamePlan(old(t.runs[r]).steps, t.runs[r].steps)
    {
      ResumeOnCourse(t, r);
    }
    t.smooth := true;
    ResumeOnCourse(t, r);
  }

  function OneCandidate(item: WorkItemId, source: Head): seq<DependencyOrder.Candidate> {
    [DependencyOrder.Candidate(DependencyOrder.CandidateRow(item, source, 0, "a"), 0)]
  }

  lemma QueuedStepsOfOne(item: WorkItemId, source: Head, target: Head)
    ensures QueuedSteps(OneCandidate(item, source), target) == [Step(item, source, target, None, Pending)]
  {
  }

  /** Run `id` of one source is stored and confirmed. */
  method StartRun(t: FeatureTarget, id: RunId, key: string, item: WorkItemId, source: Head)
    requires t.Valid() && !t.Clashes(id, key, {}, id)
    requires forall q :: q in t.runs ==> t.runs[q].status != Running
    modifies t`runs, t`confirmations
    ensures t.Executing(id, 0) && id in t.confirmations
    ensures var steps := [Step(item, source, t.recordedHead, None, Pending)];
            t.runs == old(t.runs)[id := Run(Running, key, id, 10, None, steps)]
            && t.confirmations[id] == Confirmation(t.recordedHead, t.head, t.contained, steps)
  {
    QueuedStepsOfOne(item, source, t.recordedHead);
    hide Sound, Apart, QueuedSteps, OneCandidate, FeatureTarget.Elsewhere, FeatureTarget.Valid;
    var stored := t.StoreRun(id, key, {}, id, 10, OneCandidate(item, source), t.recordedHead);
    assert stored;
    var taken := t.TakeLease(id, id, 0);
    assert taken;
  }

  /** Run 0 is started; its merge takes effect but is reported as failed, so the step conflicts and
      the new head is not recorded. Nobody else acts. */
  method LoseMerge() returns (t: FeatureTarget)
    ensures fresh(t) && t.Valid() && t.world.quiet && t.world.timely && t.movedUnder == t.restatedUnder == {}
    ensures t.runs.Keys == {0} && t.runs[0].status == Conflict && t.runs[0].key == "k" && t.runs[0].token == 0
    ensures t.recordedHead == 0 && t.head == 100 && t.contained == {7}
  {
    hide Sound, Drifts, FailAt, FeatureTarget.Valid, FeatureTarget.StepStopped, FeatureTarget.OthersKept, FeatureTarget.Elsewhere;
    t := new FeatureTarget(0, {}, {}, World(true, true, true, false));
    StartRun(t, 0, "k", 5, 7);
    t.TakeIn(0, 0, 100, {});
    t.FailStep(0, 0);
  }

  /** The next run is confirmed off its target: the drift check rejects it, and it fails. */
  method StaleHeadFailsNextRun()
    returns (runs: map<RunId, Run>, recorded: Head, actual: Head, ghost movedUnder: set<RunId>, ghost restatedUnder: set<RunId>)
    ensures movedUnder == restatedUnder == {} && recorded != actual
    ensures 0 in runs && runs[0].status == Conflict && 1 in runs && runs[1].status == Failed
  {
    hide Sound, FeatureTarget.Elsewhere, FeatureTarget.Valid;
    var t := LoseMerge();
    assert "l"[0] != "k"[0];
    StartRun(t, 1, "l", 6, 8);
    FreshRunDriftsExactly(t.recordedHead, t.head, t.contained, t.runs[1].steps);
    t.FailRun(1);
    runs, recorded, actual, movedUnder, restatedUnder := t.runs, t.recordedHead, t.head, t.movedUnder, t.restatedUnder;
  }

  /** A reconciliation reads head 0 and is delayed. Run 0 merges, records head 100 and completes. */
  method DelayReconciliation() returns (t: FeatureTarget)
    ensures fresh(t) && t.Valid() && t.world.quiet && !t.world.timely && t.movedUnder == t.restatedUnder == {} && t.observed == {0}
    ensures t.runs.Keys == {0} && t.runs[0].status == Completed && t.runs[0].key == "k" && t.runs[0].token == 0
    ensures t.recordedHead == t.head == 100 && t.contained == {7}
  {
    hide Sound, Drifts, FeatureTarget.Valid, FeatureTarget.OthersKept, FeatureTarget.Elsewhere;
    t := new FeatureTarget(0, {}, {}, World(true, false, true, true));
    t.Observe();
    StartRun(t, 0, "k", 5, 7);
    t.TakeIn(0, 0, 100, {});
    t.CompleteStep(0, 0, 100);
    t.FinishRun(0, 100);
  }

  /** Run 1 is confirmed at its target. Then head 0 is recorded, and run 1 drifts and fails, although
      nobody has moved the target. */
  method LateReconciliationFailsRun()
    returns (runs: map<RunId, Run>, ghost movedUnder: set<RunId>, ghost restatedUnder: set<RunId>,
             ghost confirmations: map<RunId, Confirmation>)
    ensures movedUnder == {} && restatedUnder == {1}
    ensures 0 in runs && runs[0].status == Completed && 1 in runs && runs[1].status == Failed
    ensures 1 in confirmations && confirmations[1].recorded == confirmations[1].actual && !OffAtConfirmation(confirmations[1])
  {
    hide Sound, FeatureTarget.Valid, FeatureTarget.OthersKept, FeatureTarget.Elsewhere;
    var t := DelayReconciliation();
    assert "l"[0] != "k"[0];
    StartRun(t, 1, "l", 6, 8);
    t.Record(0);
    FreshRunDriftsExactly(t.recordedHead, t.head, t.contained, t.runs[1].steps);
    t.FailRun(1);
    runs, movedUnder, restatedUnder, confirmations := t.runs, t.movedUnder, t.restatedUnder, t.confirmations;
  }

  /** `after` adds to `before` some sources of the first `n` steps, in position order. */
  ghost predicate MergesInOrder(before: seq<Head>, steps: seq<Step>, n: nat, after: seq<Head>)
    requires n <= |steps|
  {
    if n == 0 then after == before
    else
      MergesInOrder(before, steps, n - 1, after)
      || (after != [] && after[|after| - 1] == steps[n - 1].sourceHead
          && MergesInOrder(before, steps, n - 1, after[..|after| - 1]))
  }

  lemma MergesNone(before: seq<Head>, steps: seq<Step>)
    ensures MergesInOrder(before, steps, 0, before)
  {
  }

  lemma MergesExtended(before: seq<Head>, steps: seq<Step>, n: nat, mid: seq<Head>, after: seq<Head>)
    requires n < |steps| && MergesInOrder(before, steps, n, mid)
    requires after == mid || after == mid + [steps[n].sourceHead]
    ensures MergesInOrder(before, steps, n + 1, after)
  {
    assert after != mid ==> after[..|after| - 1] == mid;
  }

  lemma {:induction false} MergesLater(before: seq<Head>, steps: seq<Step>, n: nat, m: nat, after: seq<Head>)
    requires n <= m <= |steps| && MergesInOrder(before, steps, n, after)
    ensures MergesInOrder(before, steps, m, after)
  {
    if n < m {
      MergesLater(before, steps, n, m - 1, after);
    }
  }

  /** The planned items and source heads never change. */
  ghost predicate SamePlan(before: seq<Step>, after: seq<Step>) {
    |after| == |before|
    && forall i :: 0 <= i < |before| ==> after[i].item == before[i].item && after[i].sourceHead == before[i].sourceHead
  }

  /** Step by step, the run integrates the candidates of the queue in their order. */
  ghost predicate Follows(steps: seq<Step>, queue: seq<DependencyOrder.Candidate>) {
    |steps| == |queue|
    && forall i :: 0 <= i < |queue| ==> steps[i].item == queue[i].row.item && steps[i].sourceHead == queue[i].row.sourceHead
  }

  lemma QueuedInOrder(queue: seq<DependencyOrder.Candidate>, target: Head)
    ensures Follows(QueuedSteps(queue, target), queue) && Frontier(QueuedSteps(queue, target), 0)
    ensures forall i :: 0 <= i < |queue| ==> QueuedSteps(queue, target)[i].expectedTarget == target
  {
  }

  lemma PlanFollows(steps: seq<Step>, queue: seq<DependencyOrder.Candidate>, after: seq<Step>)
    requires Follows(steps, queue) && SamePlan(steps, after)
    ensures Follows(after, queue)
  {
  }

  /** In a run of a queue, in whatever state it is: the step of a transitive dependency stands before
      that of its dependant, and is integrated if that one is. */
  lemma DependenciesIntegrateFirst(g: set<(WorkItemId, WorkItemId)>, rows: seq<DependencyOrder.CandidateRow>, items: set<WorkItemId>,
                                   queue: seq<DependencyOrder.Candidate>, run: Run, p: seq<WorkItemId>,
                                   dependant: nat, dependency: nat, n: nat)
    requires DependencyOrder.IsQueue(g, rows, items, queue) && Follows(run.steps, queue) && Shape(run)
    requires Graphs.IsChain(g, p) && |p| > 1 && Graphs.LongestChain(g, p[|p| - 1], n) && n < U32_MAX
    requires dependant < |run.steps| && run.steps[dependant].item == p[0]
    requires dependency < |run.steps| && run.steps[dependency].item == p[|p| - 1]
    ensures dependency < dependant
    ensures run.steps[dependant].status == Integrated ==> run.steps[dependency].status == Integrated
    ensures run.steps[dependant].status == Conflicted ==> run.steps[dependency].status == Integrated
  {
    DependencyOrder.UncappedInQueue(g, rows, items, queue, dependency, n);
    DependencyOrder.DependenciesFirst(g, rows, items, queue, p, dependant, dependency);
    hide DependencyOrder.IsQueue, Graphs.IsChain, Graphs.LongestChain;
  }

  function QueuedSteps(candidates: seq<DependencyOrder.Candidate>, target: Head): seq<Step> {
    seq(|candidates|, i requires 0 <= i < |candidates| =>
      Step(candidates[i].row.item, candidates[i].row.sourceHead, target, None, Pending))
  }
}
