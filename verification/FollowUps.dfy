/** The session follow-up queue: its rows, its three transactions, and the workers that
    lease, call the provider and finish, interleaved in any way. */
module FollowUps {
  import opened Common

  type RowId = nat
  type SessionId = nat
  type Token = nat

  const LEASE_DURATION: int := 120_000_000_000
  const BINDING_CHANGED: string := "binding or provider evidence changed"
  const MAX_RECEIPT: nat := 64 * 1024

  datatype Status = Pending | Leased | Delivered | Failed

  datatype Row = Row(
    owner: nat,
    session: SessionId,
    generation: nat,
    sequence: nat,
    key: string,
    textHash: nat,
    createdAt: int,
    status: Status,
    token: Option<Token>,
    leasedUntil: Option<int>,
    attempts: nat,
    receipt: Option<string>,
    failure: Option<string>)

  type Table = map<RowId, Row>

  datatype FailureKind = Deferred | Rejected | Uncertain

  datatype Failure = Failure(kind: FailureKind, message: string)

  type Delivery = Result<string, Failure>

  function Prefix(kind: FailureKind): string {
    match kind
    case Deferred => "deferred: "
    case Rejected => "rejected: "
    case Uncertain => "uncertain: "
  }

  /** The stored text decides, as the source tests the prefix of the recorded failure. */
  predicate IsUncertain(failure: Option<string>) {
    failure.Some? && "uncertain:" <= failure.value
  }

  lemma OnlyUncertainIsUncertain(failure: Failure)
    ensures IsUncertain(Some(Prefix(failure.kind) + failure.message)) <==> failure.kind == Uncertain
  {
    var text := Prefix(failure.kind) + failure.message;
    match failure.kind
    case Deferred => assert text[0] == 'd';
    case Rejected => assert text[0] == 'r';
    case Uncertain => assert "uncertain:" <= text;
  }

  predicate Terminal(row: Row) {
    row.status == Delivered || row.status == Failed
  }

  // Queueing

  predicate SameLine(row: Row, session: SessionId, generation: nat) {
    row.session == session && row.generation == generation
  }

  ghost predicate NextSequence(t: Table, session: SessionId, generation: nat, n: nat) {
    n > 0
    && (forall id :: id in t && SameLine(t[id], session, generation) ==> t[id].sequence < n)
    && (n > 1 ==> exists id :: id in t && SameLine(t[id], session, generation) && t[id].sequence == n - 1)
  }

  // Leasing

  predicate Free(row: Row, now: int) {
    row.status == Pending || (row.status == Leased && row.leasedUntil.Some? && row.leasedUntil.value <= now)
  }

  predicate Wanted(row: Row, session: Option<SessionId>) {
    session.None? || session.value == row.session
  }

  /** `ORDER BY created_at, session_id, sequence`. */
  predicate Before(a: Row, b: Row) {
    a.createdAt < b.createdAt
    || (a.createdAt == b.createdAt && (a.session < b.session || (a.session == b.session && a.sequence <= b.sequence)))
  }

  /** `present` are the rows whose joined records exist. */
  predicate Eligible(t: Table, present: set<RowId>, session: Option<SessionId>, now: int, id: RowId) {
    id in t && id in present && Wanted(t[id], session) && Free(t[id], now)
  }

  ghost predicate Selected(t: Table, present: set<RowId>, session: Option<SessionId>, now: int, id: RowId) {
    Eligible(t, present, session, now, id)
    && forall other :: Eligible(t, present, session, now, other) ==> Before(t[id], t[other])
  }

  function LeaseRow(row: Row, token: Token, now: int): Row {
    row.(status := Leased, token := Some(token), leasedUntil := Some(now + LEASE_DURATION), attempts := row.attempts + 1)
  }

  function DropRow(row: Row): Row {
    row.(status := Failed, failure := Some(BINDING_CHANGED), token := None, leasedUntil := None)
  }

  // Finishing

  predicate ValidReceipt(receipt: string) {
    !Blank(receipt) && Utf8Length(receipt) <= MAX_RECEIPT
  }

  predicate Holds(row: Row, token: Token) {
    row.status == Leased && row.token == Some(token)
  }

  function FinishRow(row: Row, token: Token, delivery: Delivery): Row {
    if !Holds(row, token) then row
    else
      match delivery
      case Ok(receipt) =>
        if ValidReceipt(receipt)
        then row.(status := Delivered, receipt := Some(receipt), failure := None, token := None, leasedUntil := None)
        else row
      case Err(failure) =>
        row.(status := if failure.kind == Rejected then Failed else Pending,
             failure := Some(Prefix(failure.kind) + failure.message), token := None, leasedUntil := None)
  }

  // A worker between its lease and its finish

  datatype Reconciled = Found(receipt: string) | NotFound | ReconcileFailed(failure: Failure)

  /** Whether the worker goes on to call `deliver`. */
  predicate CallsDeliver(attempts: nat, previous: Option<string>, reconciled: Reconciled) {
    attempts <= 1 || (reconciled == NotFound && !IsUncertain(previous))
  }

  function Decide(attempts: nat, previous: Option<string>, reconciled: Reconciled, delivered: Delivery): Delivery {
    if CallsDeliver(attempts, previous, reconciled) then delivered
    else
      match reconciled
      case Found(receipt) => Ok(receipt)
      case NotFound => Err(Failure(Rejected, "the earlier provider delivery could not be reconciled safely"))
      case ReconcileFailed(failure) => Err(failure)
  }

  /** One lease and what its worker did with it. */
  datatype Flight = Flight(id: RowId, attempt: nat, previous: Option<string>, outcome: Option<Delivery>, calledDeliver: bool)

  datatype System = System(rows: Table, flights: map<Token, Flight>)

  /** One atomic step of anyone, with all of its choices. */
  datatype Action =
    | Queue(id: RowId, owner: nat, session: SessionId, generation: nat, sequence: nat, key: string, textHash: nat, at: int)
    | Grant(id: RowId, token: Token, present: set<RowId>, filter: Option<SessionId>, now: int)
    | Drop(id: RowId, present: set<RowId>, filter: Option<SessionId>, now: int)
    | Call(token: Token, reconciled: Reconciled, delivered: Delivery)
    | Finish(token: Token)

  ghost predicate Enabled(s: System, a: Action) {
    match a
    case Queue(id, _, session, generation, sequence, key, _, _) =>
      id !in s.rows && NextSequence(s.rows, session, generation, sequence)
      && forall other :: other in s.rows ==> s.rows[other].key != key
    case Grant(id, token, present, filter, now) =>
      Selected(s.rows, present, filter, now, id) && token !in s.flights && s.rows[id].attempts < U32_MAX
    case Drop(id, present, filter, now) => Selected(s.rows, present, filter, now, id)
    case Call(token, _, _) => token in s.flights && s.flights[token].outcome.None?
    case Finish(token) => token in s.flights && s.flights[token].outcome.Some? && s.flights[token].id in s.rows
  }

  function Perform(s: System, a: Action): System {
    match a
    case Queue(id, owner, session, generation, sequence, key, textHash, at) =>
      s.(rows := s.rows[id := Row(owner, session, generation, sequence, key, textHash, at, Pending, None, None, 0, None, None)])
    case Grant(id, token, _, _, now) =>
      if id in s.rows then
        s.(rows := s.rows[id := LeaseRow(s.rows[id], token, now)],
           flights := s.flights[token := Flight(id, s.rows[id].attempts + 1, s.rows[id].failure, None, false)])
      else s
    case Drop(id, _, _, _) => if id in s.rows then s.(rows := s.rows[id := DropRow(s.rows[id])]) else s
    case Call(token, reconciled, delivered) =>
      if token in s.flights then
        var f := s.flights[token];
        s.(flights := s.flights[token := f.(
             outcome := Some(Decide(f.attempt, f.previous, reconciled, delivered)),
             calledDeliver := CallsDeliver(f.attempt, f.previous, reconciled))])
      else s
    case Finish(token) =>
      if token in s.flights && s.flights[token].outcome.Some? && s.flights[token].id in s.rows then
        var f := s.flights[token];
        s.(rows := s.rows[f.id := FinishRow(s.rows[f.id], token, f.outcome.value)])
      else s
  }

  /** When the provider is asked what became of an uncertain delivery of this row, it does not defer;
      neither adapter ever does. */
  predicate Honest(s: System, a: Action, id: RowId) {
    (a.Call? && a.token in s.flights && s.flights[a.token].id == id && IsUncertain(s.flights[a.token].previous)
     && a.reconciled.ReconcileFailed?) ==> a.reconciled.failure.kind != Deferred
  }

  ghost predicate IsRun(run: seq<System>, actions: seq<Action>) {
    |run| == |actions| + 1
    && forall i :: 0 <= i < |actions| ==> Enabled(run[i], actions[i]) && run[i + 1] == Perform(run[i], actions[i])
  }

  ghost predicate Starts(s: System) {
    s.rows == map[] && s.flights == map[]
  }

  ghost function GrantsOf(s: System, id: RowId): set<Token> {
    set token | token in s.flights && s.flights[token].id == id
  }

  /** A row is leased exactly when it has a token, and that token's lease is its latest. */
  ghost predicate RowLeased(s: System, id: RowId)
    requires id in s.rows
  {
    var row := s.rows[id];
    (row.status == Leased <==> row.token.Some?)
    && (row.status == Leased <==> row.leasedUntil.Some?)
    && (row.status == Delivered <==> row.receipt.Some?)
    && row.attempts == |GrantsOf(s, id)|
    && (row.token.Some? ==>
          row.attempts > 0 && row.token.value in s.flights && s.flights[row.token.value].id == id
          && s.flights[row.token.value].attempt == row.attempts
          && (IsUncertain(row.failure) ==> IsUncertain(s.flights[row.token.value].previous)))
    && (IsUncertain(row.failure) ==> row.attempts > 0)
  }

  /** A lease granted on an uncertain row never reaches `deliver` and never defers. */
  predicate FlightSafe(f: Flight) {
    IsUncertain(f.previous) ==>
      f.attempt > 1 && !f.calledDeliver
      && (f.outcome.Some? && f.outcome.value.Err? ==> f.outcome.value.error.kind != Deferred)
  }

  ghost predicate Inv(s: System) {
    (forall id :: id in s.rows ==> RowLeased(s, id))
    && (forall token :: token in s.flights ==> s.flights[token].id in s.rows)
  }

  ghost predicate Safe(s: System, id: RowId) {
    forall token :: token in s.flights && s.flights[token].id == id ==> FlightSafe(s.flights[token])
  }

  lemma GrantAdds(s: System, a: Action, id: RowId)
    requires Enabled(s, a)
    ensures |GrantsOf(Perform(s, a), id)| == |GrantsOf(s, id)| + if a.Grant? && a.id == id then 1 else 0
  {
    var s' := Perform(s, a);
    if a.Grant? && a.id == id {
      assert GrantsOf(s', id) == GrantsOf(s, id) + {a.token};
    } else {
      assert GrantsOf(s', id) == GrantsOf(s, id);
    }
  }

  lemma RowLeasedStep(s: System, a: Action, id: RowId)
    requires Inv(s) && Enabled(s, a) && id in Perform(s, a).rows
    ensures RowLeased(Perform(s, a), id)
  {
    GrantAdds(s, a, id);
    if id in s.rows {
      assert RowLeased(s, id);
      if a.Drop? { assert BINDING_CHANGED[0] == 'b'; }
      if a.Finish? && s.flights[a.token].outcome.value.Err? {
        OnlyUncertainIsUncertain(s.flights[a.token].outcome.value.error);
      }
    } else {
      assert GrantsOf(s, id) == {};
    }
  }

  lemma InvStep(s: System, a: Action)
    requires Inv(s) && Enabled(s, a)
    ensures Inv(Perform(s, a))
  {
    forall id | id in Perform(s, a).rows ensures RowLeased(Perform(s, a), id) {
      RowLeasedStep(s, a, id);
    }
  }

  lemma SafeStep(s: System, a: Action, id: RowId)
    requires Inv(s) && Enabled(s, a) && Safe(s, id) && Honest(s, a, id)
    ensures Safe(Perform(s, a), id)
  {
    if a.Grant? { assert RowLeased(s, a.id); }
  }

  /** The uncertainty of a follow-up that is not settled is lost in exactly one way: its lease holder
      records a deferral. */
  lemma UncertaintyLostExactly(s: System, a: Action, id: RowId)
    requires Enabled(s, a) && id in s.rows && !Terminal(s.rows[id]) && IsUncertain(s.rows[id].failure)
    ensures id in Perform(s, a).rows
    ensures !(Terminal(Perform(s, a).rows[id]) || IsUncertain(Perform(s, a).rows[id].failure))
            <==> a.Finish? && s.flights[a.token].id == id && Holds(s.rows[id], a.token)
                 && s.flights[a.token].outcome.value.Err? && s.flights[a.token].outcome.value.error.kind == Deferred
  {
    if a.Finish? && s.flights[a.token].outcome.value.Err? {
      OnlyUncertainIsUncertain(s.flights[a.token].outcome.value.error);
    }
  }

  lemma TerminalSticks(s: System, a: Action, id: RowId)
    requires Inv(s) && Enabled(s, a) && id in s.rows && Terminal(s.rows[id])
    ensures id in Perform(s, a).rows && Perform(s, a).rows[id] == s.rows[id]
  {
    assert RowLeased(s, id);
  }

  ghost predicate Reached(run: seq<System>, actions: seq<Action>) {
    IsRun(run, actions) && Starts(run[0])
  }

  /** A run in which reconciliations of uncertain deliveries of this row never defer. */
  ghost predicate HonestRun(run: seq<System>, actions: seq<Action>, id: RowId) {
    Reached(run, actions) && forall i :: 0 <= i < |actions| ==> Honest(run[i], actions[i], id)
  }

  /** In every reachable state: a row is leased exactly when it has a token, the token is that
      of its latest lease, and the attempt count is the number of leases granted. */
  lemma {:induction false} RunInv(run: seq<System>, actions: seq<Action>, i: nat)
    requires Reached(run, actions) && i < |run|
    ensures Inv(run[i])
  {
    if i > 0 {
      RunInv(run, actions, i - 1);
      InvStep(run[i - 1], actions[i - 1]);
      assert run[i - 1 + 1] == Perform(run[i - 1], actions[i - 1]);
    }
  }

  lemma {:induction false} RunSafe(run: seq<System>, actions: seq<Action>, i: nat, id: RowId)
    requires HonestRun(run, actions, id) && i < |run|
    ensures Safe(run[i], id)
  {
    if i > 0 {
      RunSafe(run, actions, i - 1, id);
      RunInv(run, actions, i - 1);
      assert Honest(run[i - 1], actions[i - 1], id);
      SafeStep(run[i - 1], actions[i - 1], id);
      assert run[i - 1 + 1] == Perform(run[i - 1], actions[i - 1]);
    }
  }

  predicate SettledOrUncertain(row: Row) {
    Terminal(row) || IsUncertain(row.failure)
  }

  lemma FateStep(s: System, a: Action, id: RowId)
    requires Inv(s) && Safe(s, id) && Enabled(s, a) && Honest(s, a, id) && id in s.rows && SettledOrUncertain(s.rows[id])
    ensures id in Perform(s, a).rows && SettledOrUncertain(Perform(s, a).rows[id])
  {
    if Terminal(s.rows[id]) {
      TerminalSticks(s, a, id);
    } else {
      assert RowLeased(s, id);
      UncertaintyLostExactly(s, a, id);
    }
  }

  /** A follow-up with an uncertain outcome on record is afterwards still uncertain,
      delivered, or failed. */
  lemma {:induction false} UncertainFate(run: seq<System>, actions: seq<Action>, i: nat, j: nat, id: RowId)
    requires HonestRun(run, actions, id) && i <= j < |run|
    requires id in run[i].rows && IsUncertain(run[i].rows[id].failure)
    ensures id in run[j].rows && SettledOrUncertain(run[j].rows[id])
    decreases j
  {
    hide Inv, Safe, Enabled, Perform, Honest, IsUncertain;
    if i < j {
      var s, a := run[j - 1], actions[j - 1];
      UncertainFate(run, actions, i, j - 1, id);
      RunInv(run, actions, j - 1);
      RunSafe(run, actions, j - 1, id);
      assert Enabled(s, a) && Honest(s, a, id) && run[j - 1 + 1] == Perform(s, a);
      FateStep(s, a, id);
    }
  }

  /** A lease granted now carries the uncertainty of its row; a lease granted before keeps what it carried. */
  lemma LeaseCarriesUncertainty(s: System, a: Action, id: RowId, token: Token)
    requires Enabled(s, a) && token in Perform(s, a).flights && Perform(s, a).flights[token].id == id
    ensures token in s.flights ==> s.flights[token].id == id && Perform(s, a).flights[token].previous == s.flights[token].previous
    ensures token !in s.flights ==> id in s.rows && !Terminal(s.rows[id])
                                    && Perform(s, a).flights[token].previous == s.rows[id].failure
  {
  }

  lemma {:induction false} LaterLeasesAreUncertain(run: seq<System>, actions: seq<Action>, i: nat, j: nat, id: RowId, token: Token)
    requires HonestRun(run, actions, id) && i <= j < |run|
    requires id in run[i].rows && IsUncertain(run[i].rows[id].failure)
    requires token !in run[i].flights && token in run[j].flights && run[j].flights[token].id == id
    ensures IsUncertain(run[j].flights[token].previous)
    decreases j
  {
    assert Enabled(run[j - 1], actions[j - 1]) && run[j - 1 + 1] == Perform(run[j - 1], actions[j - 1]);
    LeaseCarriesUncertainty(run[j - 1], actions[j - 1], id, token);
    UncertainFate(run, actions, i, j - 1, id);
    if token in run[j - 1].flights {
      LaterLeasesAreUncertain(run, actions, i, j - 1, id, token);
    }
  }

  /** Once an uncertain outcome is recorded, no lease granted later leads to a `deliver` call. */
  lemma NoBlindResend(run: seq<System>, actions: seq<Action>, i: nat, j: nat, id: RowId, token: Token)
    requires HonestRun(run, actions, id) && i <= j < |run|
    requires id in run[i].rows && IsUncertain(run[i].rows[id].failure)
    requires token !in run[i].flights && token in run[j].flights && run[j].flights[token].id == id
    ensures IsUncertain(run[j].flights[token].previous) && !run[j].flights[token].calledDeliver
  {
    LaterLeasesAreUncertain(run, actions, i, j, id, token);
    RunSafe(run, actions, j, id);
    hide HonestRun;
    assert FlightSafe(run[j].flights[token]);
  }

  /** `delivered` and `failed` are final: the whole row is, so one receipt at most is recorded. */
  lemma {:induction false} TerminalRowsStay(run: seq<System>, actions: seq<Action>, i: nat, j: nat, id: RowId)
    requires Reached(run, actions) && i <= j < |run|
    requires id in run[i].rows && Terminal(run[i].rows[id])
    ensures id in run[j].rows && run[j].rows[id] == run[i].rows[id]
    decreases j
  {
    if i < j {
      TerminalRowsStay(run, actions, i, j - 1, id);
      RunInv(run, actions, j - 1);
      assert RowLeased(run[j - 1], id);
      assert run[j - 1 + 1] == Perform(run[j - 1], actions[j - 1]);
      assert Enabled(run[j - 1], actions[j - 1]);
    }
  }

  // What becomes of an answer

  /** What the row says once an answer of the provider is recorded: delivered with the receipt, failed
      on a rejection, and open for another attempt otherwise. An invalid receipt records nothing. */
  ghost predicate Records(row: Row, after: Row, answer: Delivery) {
    match answer
    case Ok(receipt) =>
      if Blank(receipt) || Utf8Length(receipt) > MAX_RECEIPT then after == row
      else after.status == Delivered && after.receipt == Some(receipt) && after.failure.None? && after.token.None?
    case Err(Failure(Rejected, message)) =>
      after.status == Failed && after.failure == Some("rejected: " + message) && after.receipt == row.receipt && after.token.None?
    case Err(Failure(Deferred, message)) =>
      after.status == Pending && after.failure == Some("deferred: " + message) && after.token.None?
    case Err(Failure(Uncertain, message)) =>
      after.status == Pending && after.failure == Some("uncertain: " + message) && after.token.None?
  }

  /** The answers of a lease holder's call decide its row: what the reconciliation of a later attempt
      found counts, and a `deliver` call only where none can have happened before. */
  lemma AnswerIsRecorded(s: System, token: Token, reconciled: Reconciled, delivered: Delivery)
    requires token in s.flights && s.flights[token].outcome.None? && s.flights[token].id in s.rows
    requires Holds(s.rows[s.flights[token].id], token)
    ensures var f := s.flights[token];
            var s' := Perform(Perform(s, Call(token, reconciled, delivered)), Finish(token));
            var row, after := s.rows[f.id], s'.rows[f.id];
            Enabled(s, Call(token, reconciled, delivered))
            && Enabled(Perform(s, Call(token, reconciled, delivered)), Finish(token))
            && s'.rows == s.rows[f.id := after]
            && (s'.flights[token].calledDeliver <==> f.attempt <= 1 || (reconciled == NotFound && !IsUncertain(f.previous)))
            && (f.attempt <= 1 ==> Records(row, after, delivered))
            && (f.attempt > 1 ==>
                  match reconciled
                  case Found(receipt) => Records(row, after, Ok(receipt))
                  case NotFound =>
                    if IsUncertain(f.previous) then after.status == Failed && after.receipt == row.receipt
                    else Records(row, after, delivered)
                  case ReconcileFailed(failure) => Records(row, after, Err(failure)))
  {
  }

  /** A lease that has an outcome got it from one call. */
  lemma {:induction false} OutcomeHasCall(run: seq<System>, actions: seq<Action>, i: nat, token: Token) returns (k: nat)
    requires IsRun(run, actions) && i < |run| && run[0].flights == map[]
    requires token in run[i].flights && run[i].flights[token].outcome.Some?
    ensures k < i && actions[k].Call? && actions[k].token == token && token in run[k].flights
    ensures run[i].flights[token] == Perform(run[k], actions[k]).flights[token]
  {
    var s, a := run[i - 1], actions[i - 1];
    assert Enabled(s, a) && run[i - 1 + 1] == Perform(s, a);
    if a.Call? && a.token == token {
      k := i - 1;
    } else {
      k := OutcomeHasCall(run, actions, i - 1, token);
    }
  }

  lemma NoRowStartsSettled(s: System, a: Action, id: RowId)
    requires Enabled(s, a) && id in Perform(s, a).rows && Terminal(Perform(s, a).rows[id])
    ensures id in s.rows
  {
  }

  /** The step that settled a row for good. */
  lemma {:induction false} SettledAt(run: seq<System>, actions: seq<Action>, i: nat, id: RowId) returns (m: nat)
    requires Reached(run, actions) && i < |run| && id in run[i].rows && Terminal(run[i].rows[id])
    ensures m < i && id in run[m].rows && !Terminal(run[m].rows[id]) && Enabled(run[m], actions[m])
    ensures id in Perform(run[m], actions[m]).rows && Perform(run[m], actions[m]).rows[id] == run[i].rows[id]
  {
    var s, a := run[i - 1], actions[i - 1];
    hide Enabled, Perform, Inv;
    assert Enabled(s, a) && run[i - 1 + 1] == Perform(s, a);
    NoRowStartsSettled(s, a, id);
    if Terminal(s.rows[id]) {
      RunInv(run, actions, i - 1);
      TerminalSticks(s, a, id);
      m := SettledAt(run, actions, i - 1, id);
    } else {
      m := i - 1;
    }
  }

  /** The provider confirmed the receipt: a reconciliation found it, or a `deliver` call that was safe
      to make returned it. */
  predicate Confirmed(f: Flight, call: Action, receipt: string)
    requires call.Call?
  {
    (f.attempt > 1 && call.reconciled == Found(receipt))
    || (call.delivered == Ok(receipt) && (f.attempt <= 1 || (call.reconciled == NotFound && !IsUncertain(f.previous))))
  }

  /** The provider rejected the delivery, or an uncertain one could not be found again. */
  predicate Refused(f: Flight, call: Action)
    requires call.Call?
  {
    (f.attempt > 1 && call.reconciled.ReconcileFailed? && call.reconciled.failure.kind == Rejected)
    || (f.attempt > 1 && call.reconciled == NotFound && IsUncertain(f.previous))
    || (call.delivered.Err? && call.delivered.error.kind == Rejected
        && (f.attempt <= 1 || (call.reconciled == NotFound && !IsUncertain(f.previous))))
  }

  predicate Explains(row: Row, f: Flight, call: Action)
    requires call.Call?
  {
    if row.status == Delivered
    then row.receipt.Some? && !Blank(row.receipt.value) && Utf8Length(row.receipt.value) <= MAX_RECEIPT
         && Confirmed(f, call, row.receipt.value)
    else Refused(f, call)
  }

  /** In every run, a delivered row holds the receipt that the provider confirmed to the lease that
      settled it, and a failed row was refused by the provider to that lease, or dropped. */
  lemma SettledByItsLease(run: seq<System>, actions: seq<Action>, i: nat, id: RowId) returns (k: nat, m: nat)
    requires Reached(run, actions) && i < |run| && id in run[i].rows && Terminal(run[i].rows[id])
    ensures m < i && id in run[m].rows && !Terminal(run[m].rows[id])
    ensures (run[i].rows[id].status == Failed && actions[m].Drop? && actions[m].id == id)
            || (k < m && actions[k].Call? && actions[m] == Finish(actions[k].token) && actions[k].token in run[k].flights
                && run[k].flights[actions[k].token].id == id && Holds(run[m].rows[id], actions[k].token)
                && Explains(run[i].rows[id], run[k].flights[actions[k].token], actions[k]))
  {
    k := 0;
    m := SettledAt(run, actions, i, id);
    if actions[m].Finish? {
      k := OutcomeHasCall(run, actions, m, actions[m].token);
    }
  }

  /** The finish of a worker whose lease was superseded changes nothing. */
  lemma SupersededFinish(s: System, token: Token)
    requires Inv(s) && Enabled(s, Finish(token))
    requires s.flights[token].attempt < s.rows[s.flights[token].id].attempts
    ensures Perform(s, Finish(token)) == s
  {
    assert RowLeased(s, s.flights[token].id);
    assert s.rows[s.flights[token].id := s.rows[s.flights[token].id]] == s.rows;
  }

  // Order within one session and binding generation

  ghost predicate Gapless(t: Table) {
    forall id, k {:trigger AtSequence(t, t[id].session, t[id].generation, k)} ::
      id in t && 0 < k <= t[id].sequence ==> AtSequence(t, t[id].session, t[id].generation, k)
  }

  ghost predicate UniqueRows(t: Table) {
    (forall id :: id in t ==> t[id].sequence > 0)
    && (forall a, b :: a in t && b in t && SamePlace(t[a], t[b]) ==> a == b)
    && (forall a, b :: a in t && b in t && t[a].key == t[b].key ==> a == b)
  }

  predicate SamePlace(a: Row, b: Row) {
    SameLine(a, b.session, b.generation) && a.sequence == b.sequence
  }

  predicate Precedes(a: Row, b: Row) {
    SameLine(a, b.session, b.generation) && a.sequence < b.sequence
  }

  ghost predicate Contiguous(t: Table) {
    Gapless(t) && UniqueRows(t)
  }

  ghost predicate AtSequence(t: Table, session: SessionId, generation: nat, k: int) {
    exists id :: id in t && SameLine(t[id], session, generation) && t[id].sequence == k
  }

  ghost predicate CreatedInOrder(t: Table) {
    forall a, b :: a in t && b in t && Precedes(t[a], t[b]) ==> t[a].createdAt <= t[b].createdAt
  }

  /** Request times of one line do not decrease. */
  ghost predicate Timely(s: System, a: Action) {
    a.Queue? ==> forall id :: id in s.rows && SameLine(s.rows[id], a.session, a.generation) ==> s.rows[id].createdAt <= a.at
  }

  ghost predicate SameIdentities(t: Table, t': Table) {
    t'.Keys == t.Keys
    && forall id :: id in t ==>
         SamePlace(t'[id], t[id]) && t'[id].key == t[id].key && t'[id].createdAt == t[id].createdAt
  }

  lemma IdentitiesKept(t: Table, t': Table)
    requires Contiguous(t) && SameIdentities(t, t')
    ensures Contiguous(t') && (CreatedInOrder(t) ==> CreatedInOrder(t'))
  {
    forall id, k | id in t' && 0 < k <= t'[id].sequence ensures AtSequence(t', t'[id].session, t'[id].generation, k) {
      assert AtSequence(t, t[id].session, t[id].generation, k);
      var w :| w in t && SameLine(t[w], t[id].session, t[id].generation) && t[w].sequence == k;
      assert SameLine(t'[w], t'[id].session, t'[id].generation);
    }
  }

  ghost predicate NotAfter(t: Table, row: Row) {
    forall id :: id in t && SameLine(t[id], row.session, row.generation) ==> t[id].createdAt <= row.createdAt
  }

  lemma QueuedRowFits(t: Table, id: RowId, row: Row)
    requires Contiguous(t) && id !in t && NextSequence(t, row.session, row.generation, row.sequence)
    requires forall other :: other in t ==> t[other].key != row.key
    ensures Contiguous(t[id := row])
    ensures CreatedInOrder(t) && NotAfter(t, row) ==> CreatedInOrder(t[id := row])
  {
    var t' := t[id := row];
    forall r, k | r in t' && 0 < k <= t'[r].sequence ensures AtSequence(t', t'[r].session, t'[r].generation, k) {
      if r != id || k < row.sequence {
        var basis :| basis in t && SameLine(t[basis], t'[r].session, t'[r].generation) && k <= t[basis].sequence;
        assert AtSequence(t, t[basis].session, t[basis].generation, k);
        var w :| w in t && SameLine(t[w], t[basis].session, t[basis].generation) && t[w].sequence == k;
        assert SameLine(t'[w], t'[r].session, t'[r].generation);
      }
    }
  }

  lemma ContiguousStep(s: System, a: Action)
    requires Contiguous(s.rows) && Enabled(s, a)
    ensures Contiguous(Perform(s, a).rows)
    ensures CreatedInOrder(s.rows) && Timely(s, a) ==> CreatedInOrder(Perform(s, a).rows)
  {
    if a.Queue? {
      QueuedRowFits(s.rows, a.id, Perform(s, a).rows[a.id]);
    } else {
      IdentitiesKept(s.rows, Perform(s, a).rows);
    }
  }

  /** Sequence numbers of a line are exactly 1..n and keys are never reused, in any run. */
  lemma {:induction false} RunContiguous(run: seq<System>, actions: seq<Action>, i: nat)
    requires Reached(run, actions) && i < |run|
    ensures Contiguous(run[i].rows)
  {
    if i > 0 {
      RunContiguous(run, actions, i - 1);
      var k := i - 1;
      assert Enabled(run[k], actions[k]) && run[k + 1] == Perform(run[k], actions[k]);
      ContiguousStep(run[k], actions[k]);
    }
  }

  /** Creation times follow the sequence when request times do. */
  lemma {:induction false} RunCreatedInOrder(run: seq<System>, actions: seq<Action>, i: nat)
    requires Reached(run, actions) && i < |run|
    requires forall k :: 0 <= k < i ==> Timely(run[k], actions[k])
    ensures CreatedInOrder(run[i].rows)
  {
    if i > 0 {
      RunCreatedInOrder(run, actions, i - 1);
      RunContiguous(run, actions, i - 1);
      var k := i - 1;
      assert Enabled(run[k], actions[k]) && run[k + 1] == Perform(run[k], actions[k]);
      ContiguousStep(run[k], actions[k]);
    }
  }

  ghost predicate Earlier(t: Table, id: RowId, other: RowId)
    requires id in t
  {
    other in t && SameLine(t[other], t[id].session, t[id].generation) && t[other].sequence < t[id].sequence
  }

  /** The row is under a lease that has not expired. */
  predicate LeaseLive(row: Row, now: int) {
    row.status == Leased && row.leasedUntil.Some? && row.leasedUntil.value > now
  }

  /** First in, first out holds at a grant exactly when no earlier follow-up of the line is
      under an unexpired lease. */
  lemma GrantsInOrder(run: seq<System>, actions: seq<Action>, i: nat, t: Table)
    requires Reached(run, actions) && i < |actions| && actions[i].Grant? && t == run[i].rows
    requires forall k :: 0 <= k < i ==> Timely(run[k], actions[k])
    requires forall other :: actions[i].id in t && Earlier(t, actions[i].id, other) ==> other in actions[i].present
    ensures actions[i].id in t
    ensures (forall other :: Earlier(t, actions[i].id, other) ==> Terminal(t[other]))
            <==> (forall other :: Earlier(t, actions[i].id, other) ==> !LeaseLive(t[other], actions[i].now))
  {
    RunContiguous(run, actions, i);
    RunCreatedInOrder(run, actions, i);
    RunInv(run, actions, i);
    var id, a := actions[i].id, actions[i];
    assert Enabled(run[i], a);
    forall other | Earlier(t, id, other) && !Terminal(t[other]) ensures LeaseLive(t[other], a.now) {
      assert RowLeased(run[i], other);
      assert Precedes(t[other], t[id]);
      if Free(t[other], a.now) {
        assert Eligible(t, a.present, a.filter, a.now, other);
        assert false;
      }
    }
  }

  /** The oldest row that is open to the caller is granted, by session and sequence among equally old ones. */
  lemma OldestIsGranted(s: System, a: Action, other: RowId)
    requires Inv(s) && Enabled(s, a) && a.Grant?
    requires other in s.rows && other in a.present && (a.filter.Some? ==> s.rows[other].session == a.filter.value)
    requires !Terminal(s.rows[other]) && !LeaseLive(s.rows[other], a.now)
    ensures a.id in s.rows && a.id in a.present && (a.filter.Some? ==> s.rows[a.id].session == a.filter.value)
    ensures !Terminal(s.rows[a.id]) && !LeaseLive(s.rows[a.id], a.now)
    ensures s.rows[a.id].createdAt <= s.rows[other].createdAt
    ensures s.rows[a.id].createdAt == s.rows[other].createdAt ==> s.rows[a.id].session <= s.rows[other].session
    ensures s.rows[a.id].createdAt == s.rows[other].createdAt && s.rows[a.id].session == s.rows[other].session ==>
              s.rows[a.id].sequence <= s.rows[other].sequence
    ensures Perform(s, a).rows[a.id].leasedUntil == Some(a.now + 120_000_000_000)
  {
    assert RowLeased(s, a.id) && RowLeased(s, other);
    assert Eligible(s.rows, a.present, a.filter, a.now, other);
  }

  /** Instead of a lease, a row whose binding no longer stands is failed for that reason, for good. */
  lemma DropFails(s: System, a: Action)
    requires Inv(s) && Enabled(s, a) && a.Drop?
    ensures a.id in s.rows && !Terminal(s.rows[a.id])
    ensures var after := Perform(s, a).rows[a.id];
            after.status == Failed && after.failure == Some("binding or provider evidence changed") && after.receipt.None?
            && after.attempts == s.rows[a.id].attempts && after.token.None?
    ensures Perform(s, a).rows.Keys == s.rows.Keys && forall id :: id in s.rows && id != a.id ==> Perform(s, a).rows[id] == s.rows[id]
  {
    assert RowLeased(s, a.id);
  }

  /** What a request said of its follow-up stays on its row. */
  lemma {:induction false} RequestStays(run: seq<System>, actions: seq<Action>, i: nat, j: nat)
    requires IsRun(run, actions) && i < j < |run| && actions[i].Queue?
    ensures var a := actions[i];
            a.id in run[j].rows
            && var row := run[j].rows[a.id];
               row.owner == a.owner && row.session == a.session && row.generation == a.generation && row.sequence == a.sequence
               && row.key == a.key && row.textHash == a.textHash && row.createdAt == a.at
    decreases j
  {
    assert Enabled(run[j - 1], actions[j - 1]) && run[j - 1 + 1] == Perform(run[j - 1], actions[j - 1]);
    if i < j - 1 {
      RequestStays(run, actions, i, j - 1);
    }
  }

  // Two concrete runs that show what the exact conditions above exclude

  /** While the first follow-up is still leased the second of its line can be leased too. */
  lemma LiveLeaseIsOvertaken() returns (run: seq<System>, actions: seq<Action>)
    ensures Reached(run, actions) && |actions| == 4 && actions[3].Grant?
    ensures actions[3].id in run[3].rows
            && exists other :: Earlier(run[3].rows, actions[3].id, other) && LeaseLive(run[3].rows[other], actions[3].now)
  {
    var first := Queue(0, 4, 7, 1, 1, "a", 0, 0);
    var second := Queue(1, 4, 7, 1, 2, "b", 0, 0);
    var s0 := System(map[], map[]);
    var s1 := Perform(s0, first);
    var s2 := Perform(s1, second);
    assert SameLine(s1.rows[0], 7, 1);
    assert s1.rows[0].key[0] != second.key[0];
    assert Enabled(s0, first) && Enabled(s1, second);
    var lease := Grant(0, 5, {0, 1}, None, 1);
    assert Eligible(s2.rows, {0, 1}, None, 1, 0);
    assert Enabled(s2, lease);
    var s3 := Perform(s2, lease);
    var overtake := Grant(1, 6, {0, 1}, None, 2);
    assert Eligible(s3.rows, {0, 1}, None, 2, 1);
    assert Enabled(s3, overtake);
    run := [s0, s1, s2, s3, Perform(s3, overtake)];
    actions := [first, second, lease, overtake];
    assert Earlier(s3.rows, 1, 0) && LeaseLive(s3.rows[0], 2);
  }

  function OneRow(status: Status, token: Option<Token>, until: Option<int>, attempts: nat, failure: Option<string>): Table {
    map[0 := Row(4, 7, 1, 1, "a", 0, 0, status, token, until, attempts, None, failure)]
  }

  /** A second worker has leased a follow-up whose first delivery was uncertain. */
  function SecondLease(): System {
    System(OneRow(Leased, Some(1), Some(2 + LEASE_DURATION), 2, Some("uncertain: " + "x")),
           map[0 := Flight(0, 1, None, Some(Err(Failure(Uncertain, "x"))), true),
               1 := Flight(0, 2, Some("uncertain: " + "x"), None, false)])
  }

  function FirstFailed(): System {
    System(OneRow(Pending, None, None, 1, Some("uncertain: " + "x")),
           map[0 := Flight(0, 1, None, Some(Err(Failure(Uncertain, "x"))), true)])
  }

  function FirstLease(): System {
    System(OneRow(Leased, Some(0), Some(1 + LEASE_DURATION), 1, None), map[0 := Flight(0, 1, None, None, false)])
  }

  lemma FirstLeaseIsReached() returns (run: seq<System>, actions: seq<Action>)
    ensures Reached(run, actions) && |actions| == 2 && run[2] == FirstLease()
  {
    actions := [Queue(0, 4, 7, 1, 1, "a", 0, 0), Grant(0, 0, {0}, None, 1)];
    var s0 := System(map[], map[]);
    var s1 := System(OneRow(Pending, None, None, 0, None), map[]);
    assert Enabled(s0, actions[0]) && Perform(s0, actions[0]) == s1;
    assert Eligible(s1.rows, {0}, None, 1, 0);
    assert Enabled(s1, actions[1]) && Perform(s1, actions[1]) == FirstLease();
    run := [s0, s1, FirstLease()];
  }

  lemma FirstFailedIsReached() returns (run: seq<System>, actions: seq<Action>)
    ensures Reached(run, actions) && |actions| == 4 && run[4] == FirstFailed()
  {
    var first, before := FirstLeaseIsReached();
    var x := Failure(Uncertain, "x");
    var after := [Call(0, NotFound, Err(x)), Finish(0)];
    var s2 := FirstLease();
    var s3 := s2.(flights := map[0 := Flight(0, 1, None, Some(Err(x)), true)]);
    assert Enabled(s2, after[0]) && Perform(s2, after[0]) == s3;
    assert Enabled(s3, after[1]) && Perform(s3, after[1]) == FirstFailed();
    hide Perform, Enabled;
    RunsJoin(first, before, [s2, s3, FirstFailed()], after);
    run, actions := first + [s2, s3, FirstFailed()][1..], before + after;
  }

  lemma SecondLeaseIsReached() returns (run: seq<System>, actions: seq<Action>)
    ensures Reached(run, actions) && |actions| == 5 && run[5] == SecondLease()
    ensures 0 in run[4].rows && IsUncertain(run[4].rows[0].failure) && run[4].flights.Keys == {0}
  {
    OnlyUncertainIsUncertain(Failure(Uncertain, "x"));
    var first, before := FirstFailedIsReached();
    var again := Grant(0, 1, {0}, None, 2);
    assert Eligible(FirstFailed().rows, {0}, None, 2, 0);
    assert Enabled(FirstFailed(), again) && Perform(FirstFailed(), again) == SecondLease();
    hide Perform, Enabled;
    RunsJoin(first, before, [FirstFailed(), SecondLease()], [again]);
    run, actions := first + [FirstFailed(), SecondLease()][1..], before + [again];
  }

  /** The second worker's reconciliation defers, and a third worker is told that nothing was delivered. */
  lemma DeferralResends() returns (run: seq<System>, actions: seq<Action>)
    ensures IsRun(run, actions) && |actions| == 4 && run[0] == SecondLease()
    ensures 2 in run[4].flights && run[4].flights[2].id == 0 && run[4].flights[2].calledDeliver
  {
    var defer := Failure(Deferred, "");
    OnlyUncertainIsUncertain(defer);
    var s0 := SecondLease();
    actions := [Call(1, ReconcileFailed(defer), Ok("r")), Finish(1), Grant(0, 2, {0}, None, 3), Call(2, NotFound, Ok("r"))];
    var s1 := Perform(s0, actions[0]);
    var s2 := Perform(s1, actions[1]);
    assert s2.rows == OneRow(Pending, None, None, 2, Some(Prefix(Deferred) + ""));
    assert Enabled(s0, actions[0]) && Enabled(s1, actions[1]) && Eligible(s2.rows, {0}, None, 3, 0);
    var s3 := Perform(s2, actions[2]);
    assert Enabled(s2, actions[2]) && s3.flights[2] == Flight(0, 3, s2.rows[0].failure, None, false);
    run := [s0, s1, s2, s3, Perform(s3, actions[3])];
  }

  lemma RunsJoin(run: seq<System>, actions: seq<Action>, run': seq<System>, actions': seq<Action>)
    requires Reached(run, actions) && IsRun(run', actions') && run[|actions|] == run'[0]
    ensures Reached(run + run'[1..], actions + actions')
    ensures forall i :: 0 <= i < |run| ==> (run + run'[1..])[i] == run[i]
    ensures forall i :: 0 <= i < |run'| ==> (run + run'[1..])[|actions| + i] == run'[i]
  {
    hide Enabled, Perform;
    var whole, all := run + run'[1..], actions + actions';
    forall i | 0 <= i < |all| ensures Enabled(whole[i], all[i]) && whole[i + 1] == Perform(whole[i], all[i]) {
      if i < |actions| {
        assert whole[i] == run[i] && whole[i + 1] == run[i + 1];
      } else {
        var k := i - |actions|;
        assert whole[i] == run'[k] && whole[i + 1] == run'[k + 1] && all[i] == actions'[k];
      }
    }
  }

  /** If a reconciliation did answer "deferred", a recorded uncertain delivery would be resent: here
      it is recorded at step 4, and a lease granted later leads to a `deliver` call. */
  lemma DeferredReconciliationResends() returns (run: seq<System>, actions: seq<Action>)
    ensures Reached(run, actions) && |actions| == 9
    ensures 0 in run[4].rows && IsUncertain(run[4].rows[0].failure) && 2 !in run[4].flights
    ensures 2 in run[9].flights && run[9].flights[2].id == 0 && run[9].flights[2].calledDeliver
  {
    hide IsRun, Perform, Enabled, SecondLease;
    var first, before := SecondLeaseIsReached();
    var second, after := DeferralResends();
    assert |first| == 6 && |second| == 5 by {
      RunLengths(first, before);
      RunLengths(second, after);
    }
    RunsJoin(first, before, second, after);
    run, actions := first + second[1..], before + after;
    assert run[4] == first[4] && run[5 + 4] == second[4];
  }

  lemma RunLengths(run: seq<System>, actions: seq<Action>)
    requires IsRun(run, actions)
    ensures |run| == |actions| + 1
  {
  }
}
