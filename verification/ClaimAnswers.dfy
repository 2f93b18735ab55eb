/** What admission of a cancellation and dispatch of an execution answer, and that an admission is
    remembered and a dispatch done once, over every run of the store
    (crates/sandbox-store/src/cancel.rs and execute.rs). */
module ClaimAnswers {
  import opened Wrappers
  import opened Claims
  import opened ClaimRuns

  // --- admission ---

  predicate Expired(row: Row, now: int) {
    row.status.Terminal() && row.expires.Some? && row.expires.value <= now
  }

  ghost predicate NewRequest(s: Store, r: CancelRequest) {
    r.authorized && forall id :: !KeyedAt(s, r, id)
  }

  // The target is an execution of the project that has ended or owns its allocation.
  predicate Cancellable(s: Store, r: CancelRequest) {
    && r.target in s.rows && s.rows[r.target].project == r.project && s.rows[r.target].kind == ExecuteKind
    && (s.rows[r.target].status.Terminal() || s.rows[r.target].owned)
  }

  ghost predicate Unpending(s: Store, r: CancelRequest) {
    forall id :: !PendingAt(s, r, id)
  }

  /** The answer under a key that was used before is about the operation that used it, whatever has
      become of the target. */
  lemma KnownKeyAnswers(s: Store, r: CancelRequest, newId: Id, now: int, a: Admission, id: Id)
    requires Inv(s) && newId !in s.rows && Admits(s.rows, r, newId, now, a)
    requires r.authorized && KeyedAt(s, r, id)
    ensures a == DigestConflict <==> s.rows[id].digest != r.digest
    ensures a.ResponseExpired? <==> s.rows[id].digest == r.digest && Expired(s.rows[id], now)
    ensures a.Accepted? <==> s.rows[id].digest == r.digest && !Expired(s.rows[id], now)
    ensures a.ResponseExpired? ==> a.operation == id
    ensures a.Accepted? ==> a.operation == id && a.status == s.rows[id].status
    ensures AdmitStep(s, r, newId, now) == s
  {
    hide GrantsFit;
    assert HasKey(s.rows[id], r.project, r.key);
    forall k | KeyedAt(s, r, k)
      ensures k == id
    {}
    hide RowsFit;
  }

  /** The answer under a new key: each refusal exactly for its reason, and otherwise a new
      cancellation, finished at once with the target's outcome exactly when the target has ended. */
  lemma NewKeyAnswers(s: Store, r: CancelRequest, newId: Id, now: int, a: Admission)
    requires Inv(s) && newId !in s.rows && Admits(s.rows, r, newId, now, a) && NewRequest(s, r)
    ensures a == NotFound <==> r.target !in s.rows || s.rows[r.target].project != r.project
    ensures a == Unsupported <==> a != NotFound && !Cancellable(s, r)
    ensures a.Busy? <==> Cancellable(s, r) && !Unpending(s, r)
    ensures a.Busy? ==> PendingAt(s, r, a.operation)
    ensures a == Conflict <==> Cancellable(s, r) && Unpending(s, r) && r.lapsed
    ensures a.Accepted? <==> Cancellable(s, r) && Unpending(s, r) && !r.lapsed
    ensures a.Accepted? ==>
              var s' := AdmitStep(s, r, newId, now);
              var target := s.rows[r.target];
              && newId in s'.rows && s' == s.(rows := s.rows[newId := s'.rows[newId]])
              && var row := s'.rows[newId];
                 && a == Accepted(newId, row.status)
                 && KeyedAt(s', r, newId) && row.digest == r.digest
                 && row.kind == CancelKind && row.target == Some(r.target) && row.sandbox == target.sandbox
                 && (target.status.Terminal() ==> row.status == Succeeded && row.outcome == Some(target.status))
                 && (!target.status.Terminal() ==> row.outcome.None? && PendingAt(s', r, newId)
                                                   && forall at :: Eligible(row, CancelKind, at))
    ensures !a.Accepted? ==> AdmitStep(s, r, newId, now) == s
  {
    hide RowsFit, GrantsFit;
    forall id | id in s.rows
      ensures !HasKey(s.rows[id], r.project, r.key)
      ensures PendingAt(s, r, id) <==> Unresolved(s.rows[id], r.target)
    {
      assert !KeyedAt(s, r, id);
    }
  }

  // What a row keeps for good.
  predicate SameRequest(before: Row, after: Row) {
    && after.project == before.project && after.key == before.key && after.digest == before.digest
    && after.expires == before.expires
  }

  lemma ReconcileKeepsRequest(s: Store, c: Claim, now: int, id: Id)
    requires id in s.rows
    ensures var s' := ReconcileStep(s, c, now).0; id in s'.rows && SameRequest(s.rows[id], s'.rows[id])
  {}

  lemma IntendKeepsRequest(s: Store, c: Claim, verdict: Verdict, now: int, id: Id)
    requires id in s.rows
    ensures var s' := IntendStep(s, c, verdict, now); id in s'.rows && SameRequest(s.rows[id], s'.rows[id])
  {
    hide CancelPending;
  }

  lemma StepKeepsRequest(s: Store, e: Event, id: Id)
    requires id in s.rows
    ensures var s' := Step(s, e); id in s'.rows && SameRequest(s.rows[id], s'.rows[id])
  {
    if e.now >= s.clock {
      var t := s.(clock := e.now);
      hide ReconcileStep, IntendStep, Inserts, Insertable, Eligible;
      match e.action
      case ReconcileCancel(claim) => ReconcileKeepsRequest(t, claim, e.now, id);
      case Intend(claim, verdict) => IntendKeepsRequest(t, claim, verdict, e.now, id);
      case _ =>
    }
  }

  lemma {:induction false} RunKeepsRequest(s: Store, events: seq<Event>, id: Id)
    requires id in s.rows
    ensures var s' := Run(s, events); id in s'.rows && SameRequest(s.rows[id], s'.rows[id])
    decreases |events|
  {
    if events != [] {
      StepKeepsRequest(s, events[0], id);
      hide Step;
      RunKeepsRequest(Step(s, events[0]), events[1..], id);
    }
  }

  /** Over every run: once a cancellation was admitted, a retry under its key is answered with that
      very operation and its present status; another request under the key conflicts; and neither
      changes anything. */
  lemma AdmittedIsRemembered(
      s: Store, r: CancelRequest, newId: Id, t: int, events: seq<Event>,
      again: CancelRequest, spare: Id, now: int, a: Admission)
    requires Inv(s) && newId !in s.rows && t >= s.clock && Inserts(s.rows, r)
    requires again.project == r.project && again.key == r.key && again.authorized
    requires var s' := Run(AdmitStep(s.(clock := t), r, newId, t), events);
             spare !in s'.rows && Admits(s'.rows, again, spare, now, a)
    ensures var s' := Run(AdmitStep(s.(clock := t), r, newId, t), events);
            && newId in s'.rows && AdmitStep(s', again, spare, now) == s'
            && a == if again.digest == r.digest then Accepted(newId, s'.rows[newId].status) else DigestConflict
  {
    var s1 := AdmitStep(s.(clock := t), r, newId, t);
    ClockKeepsInv(s, t);
    AdmitKeepsInv(s.(clock := t), r, newId, t);
    assert s1.rows[newId] == CancelRow(r, s.rows[r.target], t);
    hide Run, Inv, Admits, Inserts;
    RunKeeps(s1, events);
    RunKeepsRequest(s1, events, newId);
    KnownKeyAnswers(Run(s1, events), again, spare, now, a, newId);
  }

  // --- reconciliation ---

  /** A reconciliation is refused exactly when its claim on an unresolved cancellation is not live.
      Otherwise it completes if and only if the target has ended or was never dispatched; one that
      was never dispatched ends as cancelled, and any other target is left as it is. */
  lemma ReconciliationAnswers(s: Store, c: Claim, now: int)
    requires Inv(s)
    ensures var (s', reply) := ReconcileStep(s, c, now);
            if !Reconcilable(s.rows, c, now) then reply == Err(Lost) && s' == s
            else
              && s.rows[c.operation].target.Some? && s.rows[c.operation].target.value in s.rows
              && var t := s.rows[c.operation].target.value;
                 && t != c.operation && s'.rows.Keys == s.rows.Keys && s'.granted == s.granted
                 && reply.Ok?
                 && (reply.value == Completed <==> s.rows[t].status.Terminal() || Undispatched(s.rows[t]))
                 && (Undispatched(s.rows[t]) ==> s'.rows[t].status == Cancelled)
                 && (!Undispatched(s.rows[t]) ==> s'.rows[t] == s.rows[t])
                 && (reply.value == Completed ==>
                       && s'.rows[c.operation].status == Succeeded
                       && s'.rows[c.operation].outcome == Some(s'.rows[t].status))
                 && (reply.value == Pending ==>
                       && s'.rows[c.operation].status == s.rows[c.operation].status
                       && s'.rows[c.operation].phase == CancelRequested && s'.rows[c.operation].outcome.None?)
                 && forall id :: id in s.rows && id != c.operation && id != t ==> s'.rows[id] == s.rows[id]
  {
    if Reconcilable(s.rows, c, now) {
      RowFitsAt(s, c.operation);
    }
    hide RowsFit, GrantsFit;
  }

  // --- dispatch ---

  // The one dispatch intent of an execution is committed.
  predicate Dispatches(before: Row, after: Row) {
    before.attempts == 0 && after.attempts == 1
  }

  /** An execution is dispatched if and only if its claim is live, it was not dispatched before and
      is not unknown, no cancellation of it is pending, and it may run on a reachable host. A
      pending cancellation ends it as cancelled, a failed check as failed; an unreachable host
      leaves it as it is. */
  lemma DispatchAnswers(s: Store, c: Claim, verdict: Verdict, now: int)
    requires c.operation in s.rows
    ensures var r := s.rows[c.operation];
            var s' := IntendStep(s, c, verdict, now);
            var open := Live(s.rows, c, now) && r.kind == ExecuteKind && r.attempts == 0 && r.status != Unknown;
            && s'.rows.Keys == s.rows.Keys && s'.granted == s.granted
            && (forall id :: id in s.rows && id != c.operation ==> s'.rows[id] == s.rows[id])
            && var r' := s'.rows[c.operation];
               && (Dispatches(r, r') <==> open && !CancelPending(s.rows, c.operation) && verdict == Dispatchable)
               && (Dispatches(r, r') ==> r'.phase == Phase.Dispatched && r'.receipts == 1 && Live(s'.rows, c, now))
               && (r'.status == Cancelled && r.status != Cancelled <==>
                     open && CancelPending(s.rows, c.operation) && r.receipts == 0)
               && (r'.status == Failed && r.status != Failed <==>
                     open && !CancelPending(s.rows, c.operation) && verdict == Rejected)
               && (!Dispatches(r, r') && r'.status == r.status ==> r' == r)
  {
    hide CancelPending;
  }

  predicate IsDispatched(s: Store, id: Id) {
    id in s.rows && s.rows[id].attempts >= 1
  }

  lemma StepKeepsDispatched(s: Store, e: Event, id: Id)
    requires IsDispatched(s, id)
    ensures IsDispatched(Step(s, e), id) && Step(s, e).rows[id].attempts == s.rows[id].attempts
  {
    if e.now >= s.clock {
      var t := s.(clock := e.now);
      hide Inserts, Insertable, Eligible, CancelPending, TargetRight;
      match e.action
      case ReconcileCancel(claim) => ReconcileKeepsAttempts(t, claim, e.now, id);
      case _ => hide ReconcileStep;
    }
  }

  lemma ReconcileKeepsAttempts(s: Store, c: Claim, now: int, id: Id)
    requires id in s.rows
    ensures var s' := ReconcileStep(s, c, now).0; id in s'.rows && s'.rows[id].attempts == s.rows[id].attempts
  {}

  /** Over every run: an execution that was dispatched is never dispatched again. */
  lemma {:induction false} DispatchedAtMostOnce(s: Store, events: seq<Event>, c: Claim, verdict: Verdict, now: int)
    requires IsDispatched(s, c.operation)
    ensures var s' := Run(s, events);
            && IsDispatched(s', c.operation) && s'.rows[c.operation].attempts == s.rows[c.operation].attempts
            && IntendStep(s', c, verdict, now) == s'
    decreases |events|
  {
    if events == [] {
      hide CancelPending;
    } else {
      StepKeepsDispatched(s, events[0], c.operation);
      hide Step, IntendStep;
      DispatchedAtMostOnce(Step(s, events[0]), events[1..], c, verdict, now);
    }
  }
}
