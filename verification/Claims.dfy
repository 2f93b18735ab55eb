/** Leased claims on stored operations and command cancellation (crates/sandbox-store/src/claims.rs
    and cancel.rs): each transaction is one guarded step under the database clock. The target
    owner's own updates follow the fences of crates/sandbox-store/src/execute.rs. */
module Claims {
  import opened Wrappers

  type Id = nat

  datatype Kind = CreateKind | ExecuteKind | DestroyKind | CancelKind | FileWriteKind

  datatype Status = Queued | Running | Unknown | Succeeded | Failed | Cancelled {
    predicate Terminal() {
      this in {Succeeded, Failed, Cancelled}
    }

    predicate Open() {
      this in {Queued, Running, Unknown}
    }
  }

  datatype Phase =
    | Admitted
    | CancelRequested
    | CancelComplete
    | CancelledBeforeDispatch
    | RejectedBeforeDispatch
    | Dispatched
    | CleanupOwnedByDestroy

  // `owned` says that an execution names its allocation, `fileOwned` that a file write does.
  // Times are milliseconds of the database clock.
  datatype Row = Row(
    kind: Kind, project: Id, sandbox: Id, created: int, key: Id, digest: Id, target: Option<Id>,
    status: Status, phase: Phase, revision: nat, lease: Option<int>, retry: Option<int>, expires: Option<int>,
    attempts: nat, receipts: nat, owned: bool, fileOwned: bool, outcome: Option<Status>)

  datatype Claim = Claim(operation: Id, revision: nat)

  // The stored rows, the latest clock reading and every claim granted so far.
  datatype Store = Store(rows: map<Id, Row>, clock: int, granted: seq<Claim>)

  predicate ValidLease(seconds: nat) {
    1 <= seconds <= 300
  }

  predicate Due(at: Option<int>, now: int) {
    at.None? || at.value <= now
  }

  // What claim_next selects.
  predicate Eligible(r: Row, kind: Kind, now: int) {
    && r.kind == kind
    && (kind == CancelKind ==> r.phase == CancelRequested)
    && (kind == FileWriteKind ==> r.fileOwned)
    && r.status.Open() && r.phase != CleanupOwnedByDestroy
    && Due(r.lease, now) && Due(r.retry, now)
  }

  predicate Older(rows: map<Id, Row>, a: Id, b: Id)
    requires a in rows && b in rows
  {
    rows[a].created < rows[b].created || (rows[a].created == rows[b].created && a <= b)
  }

  // The oldest eligible operation no other transaction has locked, if there is one.
  predicate IsNext(rows: map<Id, Row>, kind: Kind, now: int, locked: set<Id>, pick: Option<Id>) {
    match pick
    case None => forall id :: id in rows && id !in locked ==> !Eligible(rows[id], kind, now)
    case Some(c) =>
      && c in rows && c !in locked && Eligible(rows[c], kind, now)
      && forall id :: id in rows && id !in locked && Eligible(rows[id], kind, now) ==> Older(rows, c, id)
  }

  predicate Live(rows: map<Id, Row>, c: Claim, now: int) {
    && c.operation in rows && rows[c.operation].revision == c.revision
    && rows[c.operation].status in {Running, Unknown}
    && rows[c.operation].lease.Some? && rows[c.operation].lease.value > now
  }

  function Granted(r: Row, seconds: nat, now: int): Row {
    r.(revision := r.revision + 1, lease := Some(now + 1000 * seconds), retry := None,
       status := if r.status == Queued then Running else r.status)
  }

  function ClaimStep(s: Store, pick: Id, kind: Kind, seconds: nat, now: int): Store {
    if pick !in s.rows || !ValidLease(seconds) || !Eligible(s.rows[pick], kind, now) then s
    else
      var r := Granted(s.rows[pick], seconds, now);
      s.(rows := s.rows[pick := r], granted := s.granted + [Claim(pick, r.revision)])
  }

  datatype ClaimError = InvalidLease | InvalidRetryDelay | LostClaim

  function RenewStep(s: Store, c: Claim, seconds: nat, now: int): (Store, Result<int, ClaimError>) {
    if !ValidLease(seconds) then (s, Err(InvalidLease))
    else if !Live(s.rows, c, now) then (s, Err(LostClaim))
    else
      var until := now + 1000 * seconds;
      (s.(rows := s.rows[c.operation := s.rows[c.operation].(lease := Some(until))]), Ok(until))
  }

  function DeferStep(s: Store, c: Claim, seconds: nat, now: int): (Store, Option<ClaimError>) {
    if !(1 <= seconds <= 3600) then (s, Some(InvalidRetryDelay))
    else if !Live(s.rows, c, now) then (s, Some(LostClaim))
    else
      var r := s.rows[c.operation].(lease := None, retry := Some(now + 1000 * seconds));
      (s.(rows := s.rows[c.operation := r]), None)
  }

  // --- cancellation ---

  // `authorized` is what the project and its token say first, `lapsed` that they no longer say
  // so when the row is inserted; `digest` binds the target.
  datatype CancelRequest = CancelRequest(
    project: Id, target: Id, key: Id, digest: Id, authorized: bool, lapsed: bool)

  datatype Admission =
    | Accepted(operation: Id, status: Status)
    | ResponseExpired(operation: Id)
    | Unauthorized
    | NotFound
    | Unsupported
    | DigestConflict
    | Busy(operation: Id)
    | Conflict

  predicate Unresolved(r: Row, target: Id) {
    r.kind == CancelKind && r.phase == CancelRequested && r.status.Open() && r.target == Some(target)
  }

  predicate HasKey(r: Row, project: Id, key: Id) {
    r.project == project && r.key == key
  }

  function Earlier(r: CancelRequest, id: Id, row: Row, now: int): Admission {
    if row.digest != r.digest then DigestConflict
    else if row.status.Terminal() && row.expires.Some? && row.expires.value <= now then ResponseExpired(id)
    else Accepted(id, row.status)
  }

  function CancelRow(r: CancelRequest, target: Row, now: int): Row {
    var done := target.status.Terminal();
    Row(CancelKind, r.project, target.sandbox, now, r.key, r.digest, Some(r.target),
        if done then Succeeded else Queued, if done then CancelComplete else CancelRequested,
        0, None, None, None, 0, 0, false, false, if done then Some(target.status) else None)
  }

  // What admission answers, with `newId` the identifier a new row would get.
  ghost predicate Admits(rows: map<Id, Row>, r: CancelRequest, newId: Id, now: int, a: Admission) {
    if !r.authorized then a == Unauthorized
    else if exists id :: id in rows && HasKey(rows[id], r.project, r.key) then
      exists id :: id in rows && HasKey(rows[id], r.project, r.key) && a == Earlier(r, id, rows[id], now)
    else if r.target !in rows || rows[r.target].project != r.project then a == NotFound
    else if rows[r.target].kind != ExecuteKind then a == Unsupported
    else if !rows[r.target].status.Terminal() && !rows[r.target].owned then a == Unsupported
    else if exists id :: id in rows && Unresolved(rows[id], r.target) then
      exists id :: id in rows && Unresolved(rows[id], r.target) && a == Busy(id)
    else if r.lapsed then a == Conflict
    else a == Accepted(newId, CancelRow(r, rows[r.target], now).status)
  }

  ghost predicate Inserts(rows: map<Id, Row>, r: CancelRequest) {
    && r.authorized && !r.lapsed && !(exists id :: id in rows && HasKey(rows[id], r.project, r.key))
    && r.target in rows && rows[r.target].project == r.project && rows[r.target].kind == ExecuteKind
    && (rows[r.target].status.Terminal() || rows[r.target].owned)
    && !(exists id :: id in rows && Unresolved(rows[id], r.target))
  }

  ghost function AdmitStep(s: Store, r: CancelRequest, newId: Id, now: int): Store {
    if newId !in s.rows && Inserts(s.rows, r)
    then s.(rows := s.rows[newId := CancelRow(r, s.rows[r.target], now)]) else s
  }

  datatype Progress = Pending | Completed

  datatype DispatchError = Lost | InvalidData

  predicate Reconcilable(rows: map<Id, Row>, c: Claim, now: int) {
    Live(rows, c, now) && rows[c.operation].kind == CancelKind && rows[c.operation].phase == CancelRequested
  }

  predicate TargetRight(rows: map<Id, Row>, c: Row) {
    && c.target.Some? && c.target.value in rows
    && rows[c.target.value].kind == ExecuteKind
    && rows[c.target.value].project == c.project && rows[c.target.value].sandbox == c.sandbox
  }

  // No dispatch intent has been committed for the target.
  predicate Undispatched(t: Row) {
    t.status in {Queued, Running} && t.attempts == 0 && t.receipts == 0
  }

  function Revoked(t: Row): Row {
    t.(status := Cancelled, phase := CancelledBeforeDispatch, lease := None, retry := None, revision := t.revision + 1)
  }

  function Resolved(c: Row, outcome: Status, now: int): Row {
    if outcome.Terminal()
    then c.(status := Succeeded, phase := CancelComplete, outcome := Some(outcome), lease := None, retry := None)
    else c.(outcome := None, lease := None, retry := Some(now + 1000))
  }

  function ReconcileStep(s: Store, c: Claim, now: int): (Store, Result<Progress, DispatchError>) {
    if !Reconcilable(s.rows, c, now) then (s, Err(Lost))
    else if !TargetRight(s.rows, s.rows[c.operation]) then (s, Err(InvalidData))
    else
      var row := s.rows[c.operation];
      var t := row.target.value;
      var target := if Undispatched(s.rows[t]) then Revoked(s.rows[t]) else s.rows[t];
      (s.(rows := s.rows[t := target][c.operation := Resolved(row, target.status, now)]),
       Ok(if target.status.Terminal() then Completed else Pending))
  }

  // --- the target's own claimants (execute.rs) ---

  predicate CancelPending(rows: map<Id, Row>, target: Id) {
    exists id :: id in rows && Unresolved(rows[id], target)
  }

  // What authority, target, capacity and host say when an execution is about to be dispatched.
  datatype Verdict = Dispatchable | Rejected | HostUnavailable

  // Commit the one dispatch intent, or reject before dispatch: because a cancellation is
  // pending, or because the execution may no longer run.
  function IntendStep(s: Store, c: Claim, verdict: Verdict, now: int): Store {
    if !Live(s.rows, c, now) || s.rows[c.operation].kind != ExecuteKind
       || s.rows[c.operation].attempts > 0 || s.rows[c.operation].status == Unknown then s
    else
      var r := s.rows[c.operation];
      if CancelPending(s.rows, c.operation) then
        if r.receipts != 0 then s
        else s.(rows := s.rows[c.operation := r.(status := Cancelled, phase := CancelledBeforeDispatch,
                                                 lease := None, retry := None)])
      else
        match verdict
        case HostUnavailable => s
        case Rejected =>
          s.(rows := s.rows[c.operation := r.(status := Failed, phase := RejectedBeforeDispatch,
                                              lease := None, retry := None)])
        case Dispatchable => s.(rows := s.rows[c.operation := r.(phase := Dispatched, attempts := 1, receipts := 1)])
  }

  // Record what the host reported about a dispatched execution.
  function ObserveStep(s: Store, c: Claim, status: Status, now: int): Store {
    if !Live(s.rows, c, now) || s.rows[c.operation].kind != ExecuteKind || s.rows[c.operation].attempts == 0
       || status == Queued then s
    else
      var r := s.rows[c.operation];
      s.(rows := s.rows[c.operation := r.(status := status, receipts := r.receipts + 1, lease := None,
                                          retry := if status.Terminal() then None else Some(now + 1000))])
  }

  // --- runs ---

  datatype Action =
    | Insert(id: Id, row: Row)
    | ClaimNext(pick: Id, kind: Kind, seconds: nat)
    | Renew(claim: Claim, seconds: nat)
    | Defer(claim: Claim, seconds: nat)
    | AdmitCancel(request: CancelRequest, newId: Id)
    | ReconcileCancel(claim: Claim)
    | Intend(claim: Claim, verdict: Verdict)
    | Observe(claim: Claim, status: Status)

  // Other operations are admitted queued, unclaimed and under an unused key.
  ghost predicate Insertable(rows: map<Id, Row>, id: Id, r: Row) {
    && id !in rows && r.kind != CancelKind && r.target.None? && r.status == Queued && r.phase == Admitted
    && r.revision == 0 && r.lease.None? && r.attempts == 0 && r.receipts == 0
    && !(exists k :: k in rows && HasKey(rows[k], r.project, r.key))
  }

  // Readings of the database clock never go back.
  datatype Event = Event(now: int, action: Action)

  ghost function Step(s: Store, e: Event): Store {
    if e.now < s.clock then s
    else
      var t := s.(clock := e.now);
      match e.action
      case Insert(id, row) => if Insertable(t.rows, id, row) then t.(rows := t.rows[id := row]) else t
      case ClaimNext(pick, kind, seconds) => ClaimStep(t, pick, kind, seconds, e.now)
      case Renew(claim, seconds) => RenewStep(t, claim, seconds, e.now).0
      case Defer(claim, seconds) => DeferStep(t, claim, seconds, e.now).0
      case AdmitCancel(request, newId) => AdmitStep(t, request, newId, e.now)
      case ReconcileCancel(claim) => ReconcileStep(t, claim, e.now).0
      case Intend(claim, verdict) => IntendStep(t, claim, verdict, e.now)
      case Observe(claim, status) => ObserveStep(t, claim, status, e.now)
  }

  ghost function Run(s: Store, events: seq<Event>): Store
    decreases |events|
  {
    if events == [] then s else Run(Step(s, events[0]), events[1..])
  }

  // --- invariant ---

  predicate RowFits(rows: map<Id, Row>, id: Id)
    requires id in rows
  {
    var r := rows[id];
    && (r.kind == CancelKind ==> TargetRight(rows, r))
    && (r.kind != CancelKind ==> r.target.None?)
    && (r.lease.Some? ==> r.status in {Running, Unknown})
    && (r.phase == CancelledBeforeDispatch ==> r.status == Cancelled && r.attempts == 0 && r.receipts == 0)
  }

  ghost predicate RowsFit(rows: map<Id, Row>) {
    && (forall id :: id in rows ==> RowFits(rows, id))
    && (forall a, b, t: Id :: a in rows && b in rows && Unresolved(rows[a], t) && Unresolved(rows[b], t) ==> a == b)
    && (forall a, b :: a in rows && b in rows && rows[a].project == rows[b].project && rows[a].key == rows[b].key ==>
      a == b)
  }

  ghost predicate GrantsFit(s: Store) {
    && (forall i :: 0 <= i < |s.granted| ==>
          s.granted[i].operation in s.rows && s.granted[i].revision <= s.rows[s.granted[i].operation].revision)
    && (forall i, j :: 0 <= i < j < |s.granted| && s.granted[i].operation == s.granted[j].operation ==>
          s.granted[i].revision < s.granted[j].revision)
  }

  ghost predicate Inv(s: Store) {
    RowsFit(s.rows) && GrantsFit(s)
  }

  // An update in place: identity kept, no cancellation reopened, revisions never lowered.
  ghost predicate Updates(before: Row, after: Row) {
    && after.kind == before.kind && after.project == before.project && after.sandbox == before.sandbox
    && after.key == before.key && after.target == before.target
    && before.revision <= after.revision
    && (forall t :: Unresolved(after, t) ==> Unresolved(before, t))
    && (after.lease.Some? ==> after.status in {Running, Unknown})
    && (after.phase == CancelledBeforeDispatch ==>
      after.status == Cancelled && after.attempts == 0 && after.receipts == 0)
    && (before.status.Terminal() ==> after.status == before.status && after.phase == before.phase
                                     && after.attempts == before.attempts && after.receipts == before.receipts)
  }

  lemma UpdateKeepsRows(rows: map<Id, Row>, id: Id, r: Row)
    requires RowsFit(rows) && id in rows && Updates(rows[id], r)
    ensures RowsFit(rows[id := r])
  {
    var rows' := rows[id := r];
    forall k | k in rows'
      ensures RowFits(rows', k)
    {
      assert RowFits(rows, k);
    }
    forall a, b, t: Id | a in rows' && b in rows' && Unresolved(rows'[a], t) && Unresolved(rows'[b], t)
      ensures a == b
    {
      assert Unresolved(rows[a], t) && Unresolved(rows[b], t);
    }
  }

  lemma UpdateKeepsGrants(s: Store, id: Id, r: Row)
    requires GrantsFit(s) && id in s.rows && s.rows[id].revision <= r.revision
    ensures GrantsFit(s.(rows := s.rows[id := r]))
  {}

  lemma UpdateKeepsInv(s: Store, id: Id, r: Row)
    requires Inv(s) && id in s.rows && Updates(s.rows[id], r)
    ensures Inv(s.(rows := s.rows[id := r]))
  {
    UpdateKeepsRows(s.rows, id, r);
    UpdateKeepsGrants(s, id, r);
    hide RowsFit, GrantsFit;
  }

  // A new operation under an unused key.
  lemma InsertKeepsInv(s: Store, id: Id, r: Row)
    requires Inv(s) && id !in s.rows
    requires !(exists k :: k in s.rows && HasKey(s.rows[k], r.project, r.key))
    requires r.kind == CancelKind ==> TargetRight(s.rows, r)
    requires r.kind != CancelKind ==> r.target.None?
    requires r.lease.None? && r.phase != CancelledBeforeDispatch
    requires forall t: Id, k :: Unresolved(r, t) && k in s.rows ==> !Unresolved(s.rows[k], t)
    ensures Inv(s.(rows := s.rows[id := r]))
  {
    var rows' := s.rows[id := r];
    forall k | k in rows'
      ensures RowFits(rows', k)
    {
      assert k in s.rows ==> RowFits(s.rows, k);
    }
    forall a, b | a in rows' && b in rows' && rows'[a].project == rows'[b].project && rows'[a].key == rows'[b].key
      ensures a == b
    {
      assert a == id && b != id ==> HasKey(s.rows[b], r.project, r.key);
      assert b == id && a != id ==> HasKey(s.rows[a], r.project, r.key);
    }
    assert GrantsFit(s.(rows := rows'));
  }

  lemma RowFitsAt(s: Store, id: Id)
    requires Inv(s) && id in s.rows
    ensures RowFits(s.rows, id)
  {
    hide GrantsFit, RowFits;
  }

  lemma ClaimKeepsInv(s: Store, pick: Id, kind: Kind, seconds: nat, now: int)
    requires Inv(s)
    ensures Inv(ClaimStep(s, pick, kind, seconds, now))
  {
    var s' := ClaimStep(s, pick, kind, seconds, now);
    if s' != s {
      RowFitsAt(s, pick);
      var r := Granted(s.rows[pick], seconds, now);
      UpdateKeepsInv(s, pick, r);
      GrantAppends(s.(rows := s.rows[pick := r]), s, pick);
      hide RowsFit, GrantsFit;
    }
  }

  lemma GrantAppends(s: Store, before: Store, pick: Id)
    requires GrantsFit(s) && GrantsFit(before) && s.granted == before.granted
    requires pick in before.rows && pick in s.rows && before.rows[pick].revision < s.rows[pick].revision
    ensures GrantsFit(s.(granted := s.granted + [Claim(pick, s.rows[pick].revision)]))
  {}

  lemma GuardedKeepsInv(s: Store, c: Claim, now: int, r: Row)
    requires Inv(s) && Live(s.rows, c, now) && Updates(s.rows[c.operation], r)
    ensures Inv(s.(rows := s.rows[c.operation := r]))
  {
    hide Inv, Updates;
    UpdateKeepsInv(s, c.operation, r);
  }

  lemma AdmitKeepsInv(s: Store, r: CancelRequest, newId: Id, now: int)
    requires Inv(s)
    ensures Inv(AdmitStep(s, r, newId, now))
  {
    if AdmitStep(s, r, newId, now) != s {
      var row := CancelRow(r, s.rows[r.target], now);
      forall t: Id, k | Unresolved(row, t) && k in s.rows
        ensures !Unresolved(s.rows[k], t)
      {}
      InsertKeepsInv(s, newId, row);
    }
    hide Inv;
  }

  lemma ReconcileKeepsInv(s: Store, c: Claim, now: int)
    requires Inv(s)
    ensures Inv(ReconcileStep(s, c, now).0)
  {
    var (s', reply) := ReconcileStep(s, c, now);
    if reply.Ok? {
      var row := s.rows[c.operation];
      var t := row.target.value;
      RowFitsAt(s, c.operation);
      RowFitsAt(s, t);
      var target := if Undispatched(s.rows[t]) then Revoked(s.rows[t]) else s.rows[t];
      assert Updates(s.rows[t], target);
      assert Updates(row, Resolved(row, target.status, now));
      hide Inv, Updates;
      UpdateKeepsInv(s, t, target);
      UpdateKeepsInv(s.(rows := s.rows[t := target]), c.operation, Resolved(row, target.status, now));
    }
  }

  lemma IntendKeepsInv(s: Store, c: Claim, verdict: Verdict, now: int)
    requires Inv(s)
    ensures Inv(IntendStep(s, c, verdict, now))
  {
    var s' := IntendStep(s, c, verdict, now);
    if s' != s {
      RowFitsAt(s, c.operation);
      hide Inv, CancelPending;
      GuardedKeepsInv(s, c, now, s'.rows[c.operation]);
    }
  }

  lemma ObserveKeepsInv(s: Store, c: Claim, status: Status, now: int)
    requires Inv(s)
    ensures Inv(ObserveStep(s, c, status, now))
  {
    var s' := ObserveStep(s, c, status, now);
    if s' != s {
      RowFitsAt(s, c.operation);
      hide Inv;
      GuardedKeepsInv(s, c, now, s'.rows[c.operation]);
    }
  }

  lemma ClockKeepsInv(s: Store, now: int)
    requires Inv(s)
    ensures Inv(s.(clock := now))
  {}

  lemma RenewKeepsInv(s: Store, c: Claim, seconds: nat, now: int)
    requires Inv(s)
    ensures Inv(RenewStep(s, c, seconds, now).0)
  {
    if Live(s.rows, c, now) {
      RowFitsAt(s, c.operation);
      hide Inv;
      GuardedKeepsInv(s, c, now, s.rows[c.operation].(lease := Some(now + 1000 * seconds)));
    }
  }

  lemma DeferKeepsInv(s: Store, c: Claim, seconds: nat, now: int)
    requires Inv(s)
    ensures Inv(DeferStep(s, c, seconds, now).0)
  {
    if Live(s.rows, c, now) {
      RowFitsAt(s, c.operation);
      hide Inv;
      GuardedKeepsInv(s, c, now, s.rows[c.operation].(lease := None, retry := Some(now + 1000 * seconds)));
    }
  }

  lemma StepKeepsInv(s: Store, e: Event)
    requires Inv(s)
    ensures Inv(Step(s, e))
  {
    if e.now >= s.clock {
      var t := s.(clock := e.now);
      ClockKeepsInv(s, e.now);
      hide Inv, ClaimStep, AdmitStep, ReconcileStep, IntendStep, ObserveStep, RenewStep, DeferStep;
      match e.action
      case Insert(id, row) => if Insertable(t.rows, id, row) { InsertKeepsInv(t, id, row); }
      case ClaimNext(pick, kind, seconds) => ClaimKeepsInv(t, pick, kind, seconds, e.now);
      case Renew(claim, seconds) => RenewKeepsInv(t, claim, seconds, e.now);
      case Defer(claim, seconds) => DeferKeepsInv(t, claim, seconds, e.now);
      case AdmitCancel(request, newId) => AdmitKeepsInv(t, request, newId, e.now);
      case ReconcileCancel(claim) => ReconcileKeepsInv(t, claim, e.now);
      case Intend(claim, verdict) => IntendKeepsInv(t, claim, verdict, e.now);
      case Observe(claim, status) => ObserveKeepsInv(t, claim, status, e.now);
    }
  }
}
