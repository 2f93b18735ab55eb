/** The stored operations with the statements of crates/sandbox-store/src/claims.rs and cancel.rs.
    Each method is one transaction under the database clock and does one step of Claims. */
module OperationStore {
  import opened Wrappers
  import opened Claims

  class OperationStore {
    var rows: map<Id, Row>
    ghost var clock: int
    ghost var granted: seq<Claim>

    constructor (now: int)
      ensures View() == Store(map[], now, [])
    {
      rows, clock, granted := map[], now, [];
    }

    ghost function View(): Store
      reads this
    {
      Store(rows, clock, granted)
    }

    // The oldest eligible operation whose row nobody else has locked.
    method SelectCandidate(kind: Kind, now: int, locked: set<Id>) returns (pick: Option<Id>)
      ensures IsNext(rows, kind, now, locked, pick)
    {
      pick := None;
      hide Eligible;
      var rest := rows.Keys - locked;
      while rest != {}
        invariant rest <= rows.Keys - locked
        invariant pick.None? ==>
          forall id :: id in rows && id !in locked && id !in rest ==> !Eligible(rows[id], kind, now)
        invariant pick.Some? ==>
          && pick.value in rows && pick.value !in locked && Eligible(rows[pick.value], kind, now)
          && forall id :: id in rows && id !in locked && id !in rest && Eligible(rows[id], kind, now) ==>
               Older(rows, pick.value, id)
        decreases |rest|
      {
        var id :| id in rest;
        rest := rest - {id};
        if Eligible(rows[id], kind, now) {
          if pick.None? || !Older(rows, pick.value, id) {
            pick := Some(id);
          }
        }
      }
    }

    method ClaimNext(kind: Kind, seconds: nat, now: int, locked: set<Id>)
      returns (r: Result<Option<(Claim, Status)>, ClaimError>)
      modifies this
      ensures r.Err? <==> !ValidLease(seconds)
      ensures r.Err? ==> r.error == InvalidLease && View() == old(View())
      ensures r == Ok(None) ==> IsNext(rows, kind, now, locked, None) && View() == old(View())
      ensures r.Ok? && r.value.Some? ==>
        var (claim, previous) := r.value.value;
        && IsNext(old(rows), kind, now, locked, Some(claim.operation))
        && View() == ClaimStep(old(View()), claim.operation, kind, seconds, now)
        && previous == old(rows)[claim.operation].status
        && Live(rows, claim, now) && claim in granted
    {
      if !(1 <= seconds <= 300) {
        return Err(InvalidLease);
      }
      var pick := SelectCandidate(kind, now, locked);
      if pick.None? {
        return Ok(None);
      }
      var id := pick.value;
      var row := rows[id];
      var previous := row.status;
      row := row.(revision := row.revision + 1, lease := Some(now + 1000 * seconds),
                  status := if row.status == Queued then Running else row.status, retry := None);
      rows := rows[id := row];
      granted := granted + [Claim(id, row.revision)];
      return Ok(Some((Claim(id, row.revision), previous)));
    }

    method RenewClaim(c: Claim, seconds: nat, now: int) returns (r: Result<int, ClaimError>)
      modifies this
      ensures (View(), r) == RenewStep(old(View()), c, seconds, now)
    {
      if !(1 <= seconds <= 300) {
        return Err(InvalidLease);
      }
      if c.operation in rows {
        var row := rows[c.operation];
        if row.revision == c.revision && row.status in {Running, Unknown} && row.lease.Some? && row.lease.value > now {
          rows := rows[c.operation := row.(lease := Some(now + 1000 * seconds))];
          return Ok(now + 1000 * seconds);
        }
      }
      return Err(LostClaim);
    }

    method DeferClaim(c: Claim, seconds: nat, now: int) returns (r: Option<ClaimError>)
      modifies this
      ensures (View(), r) == DeferStep(old(View()), c, seconds, now)
    {
      if !(1 <= seconds <= 3600) {
        return Some(InvalidRetryDelay);
      }
      var affected := 0;
      if c.operation in rows {
        var row := rows[c.operation];
        if row.revision == c.revision && row.status in {Running, Unknown} && row.lease.Some? && row.lease.value > now {
          rows := rows[c.operation := row.(lease := None, retry := Some(now + 1000 * seconds))];
          affected := 1;
        }
      }
      if affected == 0 {
        return Some(LostClaim);
      }
      return None;
    }

    method FindKey(project: Id, key: Id) returns (found: Option<Id>)
      ensures found.Some? ==> found.value in rows && HasKey(rows[found.value], project, key)
      ensures found.None? ==> forall id :: id in rows ==> !HasKey(rows[id], project, key)
    {
      found := None;
      var rest := rows.Keys;
      while rest != {}
        invariant rest <= rows.Keys
        invariant found.Some? ==> found.value in rows && HasKey(rows[found.value], project, key)
        invariant found.None? ==> forall id :: id in rows && id !in rest ==> !HasKey(rows[id], project, key)
        decreases |rest|
      {
        var id :| id in rest;
        rest := rest - {id};
        if rows[id].project == project && rows[id].key == key {
          found := Some(id);
        }
      }
    }

    method FindUnresolved(target: Id) returns (found: Option<Id>)
      ensures found.Some? ==> found.value in rows && Unresolved(rows[found.value], target)
      ensures found.None? ==> forall id :: id in rows ==> !Unresolved(rows[id], target)
    {
      found := None;
      hide Unresolved;
      var rest := rows.Keys;
      while rest != {}
        invariant rest <= rows.Keys
        invariant found.Some? ==> found.value in rows && Unresolved(rows[found.value], target)
        invariant found.None? ==> forall id :: id in rows && id !in rest ==> !Unresolved(rows[id], target)
        decreases |rest|
      {
        var id :| id in rest;
        rest := rest - {id};
        if Unresolved(rows[id], target) {
          found := Some(id);
        }
      }
    }

    /** Admit a cancellation: the same key answers the same operation, and a target has at most
        one unresolved cancellation. */
    method AdmitCancel(r: CancelRequest, newId: Id, now: int) returns (a: Admission)
      requires newId !in rows
      modifies this
      ensures Admits(old(rows), r, newId, now, a)
      ensures View() == AdmitStep(old(View()), r, newId, now)
    {
      hide Unresolved, HasKey;
      if !r.authorized {
        return Unauthorized;
      }
      var earlier := FindKey(r.project, r.key);
      if earlier.Some? {
        var row := rows[earlier.value];
        if row.digest != r.digest {
          return DigestConflict;
        }
        if row.status.Terminal() && row.expires.Some? && row.expires.value <= now {
          return ResponseExpired(earlier.value);
        }
        return Accepted(earlier.value, row.status);
      }
      if r.target !in rows || rows[r.target].project != r.project {
        return NotFound;
      }
      var target := rows[r.target];
      if target.kind != ExecuteKind {
        return Unsupported;
      }
      var done := target.status.Terminal();
      if !done && !target.owned {
        return Unsupported;
      }
      var pending := FindUnresolved(r.target);
      if pending.Some? {
        return Busy(pending.value);
      }
      if r.lapsed {
        return Conflict;
      }
      var status := if done then Succeeded else Queued;
      var row := Row(CancelKind, r.project, target.sandbox, now, r.key, r.digest, Some(r.target), status,
                     if done then CancelComplete else CancelRequested, 0, None, None, None, 0, 0, false, false,
                     if done then Some(target.status) else None);
      rows := rows[newId := row];
      return Accepted(newId, status);
    }

    /** Reconcile a claimed cancellation: fence a target without a dispatch intent, or report how
        the target ended. */
    method ReconcileCancel(c: Claim, now: int) returns (r: Result<Progress, DispatchError>)
      modifies this
      ensures (View(), r) == ReconcileStep(old(View()), c, now)
    {
      if c.operation !in rows {
        return Err(Lost);
      }
      var row := rows[c.operation];
      if row.revision != c.revision || row.lease.None? || row.lease.value <= now || row.status !in {Running, Unknown}
         || row.kind != CancelKind || row.phase != CancelRequested {
        return Err(Lost);
      }
      if row.target.None? || row.target.value !in rows {
        return Err(InvalidData);
      }
      var id := row.target.value;
      var target := rows[id];
      if target.kind != ExecuteKind || target.project != row.project || target.sandbox != row.sandbox {
        return Err(InvalidData);
      }
      if target.status in {Queued, Running} && target.attempts == 0 && target.receipts == 0 {
        target := target.(status := Cancelled, phase := CancelledBeforeDispatch, lease := None, retry := None,
                          revision := target.revision + 1);
      }
      rows := rows[id := target];
      var done := target.status.Terminal();
      if done {
        row := row.(status := Succeeded, phase := CancelComplete, outcome := Some(target.status), lease := None,
          retry := None);
      } else {
        row := row.(outcome := None, lease := None, retry := Some(now + 1000));
      }
      rows := rows[c.operation := row];
      return Ok(if done then Completed else Pending);
    }
  }
}
