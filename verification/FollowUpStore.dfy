/** The three transactions on the follow-up table, each tied to the step it performs in the
    interleaved system. */
module FollowUpStore {
  import opened Common
  import opened FollowUps

  const MAX_KEY: nat := 512
  const MAX_TEXT: nat := 64 * 1024

  datatype OwnerKind = Workspace | Epic | Feature | WorkItem

  /** `textHash` is the hash of `text`. */
  datatype Request =
    Request(kind: OwnerKind, owner: nat, session: Option<SessionId>, generation: nat,
            text: string, textHash: nat, key: string, at: int)

  predicate Acceptable(text: string, limit: nat) {
    !Blank(text) && Utf8Length(text) <= limit && '\0' !in text
  }

  predicate WellFormed(request: Request) {
    request.generation != 0 && Acceptable(request.key, MAX_KEY) && Acceptable(request.text, MAX_TEXT)
  }

  /** A request is malformed exactly if it expects no binding, or its key or its text shows nothing, holds a
      NUL or is longer than 512 bytes or 64 KiB. */
  lemma MalformedExactly(request: Request)
    ensures !WellFormed(request)
            <==> request.generation == 0 || Unfit(request.key) || Unfit(request.text)
                 || Utf8Length(request.key) > 512 || Utf8Length(request.text) > 65536
  {
  }

  ghost predicate Unfit(text: string) {
    '\0' in text || forall c :: c in text ==> Whitespace(c)
  }

  predicate Allowed(request: Request) {
    WellFormed(request) && request.kind in {Feature, WorkItem}
  }

  datatype Target = Target(session: SessionId, generation: nat)

  datatype QueueError = InvalidRequest | Unauthorized | IdempotencyConflict | SessionUnavailable | SelectionRequired | GenerationMismatch | KeyTaken

  datatype LeaseError = AttemptOverflow

  datatype FinishError = ReceiptInvalid

  datatype Lease = Lease(id: RowId, attempt: nat, previous: Option<string>)

  predicate SameRequest(row: Row, request: Request) {
    row.owner == request.owner && row.generation == request.generation && row.textHash == request.textHash
    && (request.session.Some? ==> request.session.value == row.session)
  }

  predicate KeyUsed(rows: Table, key: string) {
    exists known :: known in rows && rows[known].key == key
  }

  /** A request that was queued is found again under its key for good, in one row, and a later request
      under that key counts as the same exactly if it names the same owner, generation and text, and no
      other session. */
  lemma QueuedRequestIsReplayed(run: seq<System>, actions: seq<Action>, i: nat, j: nat, id: RowId,
                                request: Request, session: SessionId, n: nat, later: Request)
    requires Reached(run, actions) && i < j < |run|
    requires actions[i] == FollowUps.Queue(id, request.owner, session, request.generation, n, request.key, request.textHash, request.at)
    ensures id in run[j].rows && KeyUsed(run[j].rows, request.key)
    ensures forall known :: known in run[j].rows && run[j].rows[known].key == request.key ==> known == id
    ensures SameRequest(run[j].rows[id], later)
            <==> later.owner == request.owner && later.generation == request.generation && later.textHash == request.textHash
                 && later.session in {None, Some(session)}
  {
    RequestStays(run, actions, i, j);
    RunContiguous(run, actions, j);
  }

  class FollowUpTable {
    var rows: Table

    constructor ()
      ensures rows == map[]
    {
      rows := map[];
    }

    ghost function AsSystem(): System
      reads this
    {
      System(rows, map[])
    }

    /** `SELECT COALESCE(MAX(sequence), 0) + 1` over one session and binding generation. */
    method FreeSequence(session: SessionId, generation: nat) returns (n: nat)
      ensures NextSequence(rows, session, generation, n)
    {
      n := 1;
      var rest := rows.Keys;
      while rest != {}
        invariant rest <= rows.Keys && n > 0
        invariant forall id :: id in rows && id !in rest && SameLine(rows[id], session, generation) ==> rows[id].sequence < n
        invariant n > 1 ==> exists id :: id in rows && SameLine(rows[id], session, generation) && rows[id].sequence == n - 1
      {
        var id :| id in rest;
        if SameLine(rows[id], session, generation) && rows[id].sequence >= n {
          n := rows[id].sequence + 1;
        }
        rest := rest - {id};
      }
    }

    /** The writing transaction: one row at the end of its line, unless the key is taken. */
    method Insert(request: Request, session: SessionId, id: RowId) returns (ok: bool)
      requires id !in rows
      modifies this
      ensures ok <==> !KeyUsed(old(rows), request.key)
      ensures !ok ==> rows == old(rows)
      ensures ok ==> exists n ::
                var a := FollowUps.Queue(id, request.owner, session, request.generation, n, request.key, request.textHash, request.at);
                Enabled(old(AsSystem()), a) && rows == Perform(old(AsSystem()), a).rows
    {
      var n := FreeSequence(session, request.generation);
      if KeyUsed(rows, request.key) {
        return false;
      }
      ghost var a := FollowUps.Queue(id, request.owner, session, request.generation, n, request.key, request.textHash, request.at);
      assert Enabled(AsSystem(), a);
      rows := rows[id := Row(request.owner, session, request.generation, n, request.key, request.textHash,
                             request.at, Pending, None, None, 0, None, None)];
      return true;
    }

    /** A replayed key answers with the stored follow-up or a conflict and adds nothing; a new key adds
        one row at the end of its line. `id` is freshly generated, and `meanwhile` is what others make
        of the table between the read and the write. */
    method Queue(request: Request, candidates: seq<Target>, id: RowId, meanwhile: Table) returns (r: Result<RowId, QueueError>)
      requires id !in rows && id !in meanwhile
      modifies this
      ensures r == Err(InvalidRequest) <==> !WellFormed(request)
      ensures r == Err(Unauthorized) <==> WellFormed(request) && !Allowed(request)
      ensures !Allowed(request) ==> rows == old(rows)
      ensures Allowed(request) && KeyUsed(old(rows), request.key) ==>
                rows == old(rows)
                && (exists known :: known in rows && rows[known].key == request.key
                      && r == if SameRequest(rows[known], request) then Ok(known) else Err(IdempotencyConflict))
      ensures Allowed(request) && !KeyUsed(old(rows), request.key) ==>
                r == if candidates == [] then Err(SessionUnavailable)
                     else if |candidates| > 1 then Err(SelectionRequired)
                     else if candidates[0].generation != request.generation then Err(GenerationMismatch)
                     else if KeyUsed(meanwhile, request.key) then Err(KeyTaken)
                     else Ok(id)
      ensures r.Err? ==> rows == if r.error == KeyTaken then meanwhile else old(rows)
      ensures r == Ok(id) ==>
                |candidates| == 1
                && exists n ::
                     var a := FollowUps.Queue(id, request.owner, candidates[0].session, request.generation, n, request.key, request.textHash, request.at);
                     Enabled(System(meanwhile, map[]), a) && rows == Perform(System(meanwhile, map[]), a).rows
    {
      hide WellFormed;
      if !WellFormed(request) {
        return Err(InvalidRequest);
      }
      if request.kind !in {Feature, WorkItem} {
        return Err(Unauthorized);
      }
      if known :| known in rows && rows[known].key == request.key {
        return if SameRequest(rows[known], request) then Ok(known) else Err(IdempotencyConflict);
      }
      if |candidates| != 1 {
        return Err(if candidates == [] then SessionUnavailable else SelectionRequired);
      }
      if candidates[0].generation != request.generation {
        return Err(GenerationMismatch);
      }
      rows := meanwhile;
      var inserted := Insert(request, candidates[0].session, id);
      return if inserted then Ok(id) else Err(KeyTaken);
    }

    /** The first eligible row in queue order, if there is one. */
    method Select(present: set<RowId>, session: Option<SessionId>, now: int) returns (best: Option<RowId>)
      ensures best.Some? ==> Selected(rows, present, session, now, best.value)
      ensures best.None? ==> forall id :: !Eligible(rows, present, session, now, id)
    {
      best := None;
      var rest := rows.Keys;
      while rest != {}
        invariant rest <= rows.Keys
        invariant best.Some? ==> Eligible(rows, present, session, now, best.value)
        invariant forall id :: id !in rest && Eligible(rows, present, session, now, id) ==>
                    best.Some? && Before(rows[best.value], rows[id])
      {
        var id :| id in rest;
        if Eligible(rows, present, session, now, id) && (best.None? || !Before(rows[best.value], rows[id])) {
          best := Some(id);
        }
        rest := rest - {id};
      }
    }

    /** `supported` are the rows whose binding and provider evidence still stands; `token` is fresh. */
    method LeaseNext(present: set<RowId>, session: Option<SessionId>, now: int, supported: set<RowId>, token: Token)
      returns (r: Result<Option<Lease>, LeaseError>)
      modifies this
      ensures (forall id :: !Eligible(old(rows), present, session, now, id)) ==> r == Ok(None) && rows == old(rows)
      ensures (exists id :: Eligible(old(rows), present, session, now, id)) ==>
                exists id :: Selected(old(rows), present, session, now, id)
                  && if id !in supported then r == Ok(None) && rows == old(rows)[id := DropRow(old(rows)[id])]
                     else if old(rows)[id].attempts >= U32_MAX then r == Err(AttemptOverflow) && rows == old(rows)
                     else r == Ok(Some(Lease(id, old(rows)[id].attempts + 1, old(rows)[id].failure)))
                          && rows == old(rows)[id := LeaseRow(old(rows)[id], token, now)]
    {
      var best := Select(present, session, now);
      assert best.Some? ==> best.value in rows;
      hide Eligible;
      if best.None? {
        return Ok(None);
      }
      var id := best.value;
      var row := rows[id];
      if id !in supported {
        rows := rows[id := row.(status := Failed, failure := Some(BINDING_CHANGED), token := None, leasedUntil := None)];
        return Ok(None);
      }
      if row.attempts >= U32_MAX {
        return Err(AttemptOverflow);
      }
      rows := rows[id := row.(status := Leased, token := Some(token), leasedUntil := Some(now + LEASE_DURATION), attempts := row.attempts + 1)];
      return Ok(Some(Lease(id, row.attempts + 1, row.failure)));
    }

    method FinishDelivery(id: RowId, token: Token, delivery: Delivery) returns (r: Result<Row, FinishError>)
      requires id in rows
      modifies this
      ensures rows == old(rows)[id := FinishRow(old(rows)[id], token, delivery)]
      ensures r == if delivery.Ok? && !ValidReceipt(delivery.value) then Err(ReceiptInvalid) else Ok(rows[id])
    {
      var row := rows[id];
      match delivery {
        case Ok(receipt) =>
          if !ValidReceipt(receipt) {
            return Err(ReceiptInvalid);
          }
          if row.status == Leased && row.token == Some(token) {
            rows := rows[id := row.(status := Delivered, receipt := Some(receipt), failure := None, token := None, leasedUntil := None)];
          }
        case Err(failure) =>
          if row.status == Leased && row.token == Some(token) {
            var status := if failure.kind == Rejected then Failed else Pending;
            rows := rows[id := row.(status := status, failure := Some(Prefix(failure.kind) + failure.message), token := None, leasedUntil := None)];
          }
      }
      return Ok(rows[id]);
    }
  }
}
