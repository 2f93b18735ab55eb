/** What claims and cancellations promise over whole runs of the store. */
module ClaimRuns {
  import opened Wrappers
  import opened Claims

  // --- what one step does to a row ---

  // A finished row never changes its outcome, and ownership only moves forward.
  predicate RowGrows(before: Row, after: Row) {
    && after.kind == before.kind && after.target == before.target && before.revision <= after.revision
    && (before.status.Terminal() ==>
          && after.status == before.status && after.phase == before.phase
          && after.attempts == before.attempts && after.receipts == before.receipts)
  }

  ghost predicate StoreGrows(s: Store, s': Store) {
    && s.clock <= s'.clock && s.granted <= s'.granted
    && forall id :: id in s.rows ==> id in s'.rows && RowGrows(s.rows[id], s'.rows[id])
  }

  lemma StepGrows(s: Store, e: Event)
    requires Inv(s)
    ensures StoreGrows(s, Step(s, e))
  {
    if e.now >= s.clock && e.action.ReconcileCancel? {
      ReconcileGrows(s.(clock := e.now), e.action.claim, e.now);
    } else if e.now >= s.clock && e.action.Intend? {
      IntendGrows(s.(clock := e.now), e.action.claim, e.action.verdict, e.now);
    }
    if e.now >= s.clock && e.action.Observe? {
      ObserveGrows(s.(clock := e.now), e.action.claim, e.action.status, e.now);
    }
    hide RowsFit, GrantsFit, Inserts, Insertable, ReconcileStep, IntendStep, ObserveStep;
  }

  lemma ObserveGrows(s: Store, c: Claim, status: Status, now: int)
    ensures StoreGrows(s, ObserveStep(s, c, status, now))
  {}

  lemma IntendGrows(s: Store, c: Claim, verdict: Verdict, now: int)
    ensures StoreGrows(s, IntendStep(s, c, verdict, now))
  {
    hide CancelPending;
  }

  lemma ReconcileGrows(s: Store, c: Claim, now: int)
    ensures StoreGrows(s, ReconcileStep(s, c, now).0)
  {
    var (s', reply) := ReconcileStep(s, c, now);
    if reply.Ok? {
      var row := s.rows[c.operation];
      assert row.target.value != c.operation;
    }
  }

  lemma {:induction false} RunKeeps(s: Store, events: seq<Event>)
    requires Inv(s)
    ensures Inv(Run(s, events)) && StoreGrows(s, Run(s, events))
    decreases |events|
  {
    if events != [] {
      var next := Step(s, events[0]);
      StepKeepsInv(s, events[0]);
      StepGrows(s, events[0]);
      hide Inv, Step;
      RunKeeps(next, events[1..]);
    }
  }

  lemma EmptyInv(now: int)
    ensures Inv(Store(map[], now, []))
  {}

  // --- claims ---

  // Of two claims granted on one operation only the later one can be live, at any time.
  lemma OneLiveClaim(s: Store, i: nat, j: nat, now: int)
    requires Inv(s) && i < j < |s.granted| && s.granted[i].operation == s.granted[j].operation
    ensures !Live(s.rows, s.granted[i], now)
  {
    hide RowsFit;
  }

  // Expired, deferred, finished or superseded.
  predicate Dead(s: Store, c: Claim) {
    c.operation in s.rows && c.revision <= s.rows[c.operation].revision && !Live(s.rows, c, s.clock)
  }

  // A change to the row of a dead claim comes from a later claim or ends the operation.
  lemma ChangeKeepsDead(s: Store, c: Claim, other: Claim, now: int, r: Row)
    requires Dead(s, c) && now >= s.clock && Live(s.rows, other, now) && r.revision == s.rows[other.operation].revision
    ensures Dead(s.(rows := s.rows[other.operation := r], clock := now), c)
  {}

  lemma ClockKeepsDead(s: Store, c: Claim, now: int)
    requires Dead(s, c) && now >= s.clock
    ensures Dead(s.(clock := now), c)
  {}

  lemma RaiseKeepsDead(s: Store, c: Claim, id: Id, r: Row)
    requires Dead(s, c) && id in s.rows && r.revision > s.rows[id].revision
    ensures Dead(s.(rows := s.rows[id := r]), c)
  {}

  lemma StepKeepsDead(s: Store, e: Event, c: Claim)
    requires Inv(s) && Dead(s, c)
    ensures Dead(Step(s, e), c)
  {
    if e.now >= s.clock {
      var t := s.(clock := e.now);
      ClockKeepsDead(s, c, e.now);
      match e.action {
        case ClaimNext(pick, kind, seconds) =>
          if ClaimStep(t, pick, kind, seconds, e.now) != t {
            RaiseKeepsDead(t, c, pick, Granted(t.rows[pick], seconds, e.now));
          }
        case Renew(claim, seconds) =>
          if RenewStep(t, claim, seconds, e.now).1.Ok? {
            ChangeKeepsDead(t, c, claim, e.now, RenewStep(t, claim, seconds, e.now).0.rows[claim.operation]);
          }
        case Defer(claim, seconds) =>
          if DeferStep(t, claim, seconds, e.now).1.None? {
            ChangeKeepsDead(t, c, claim, e.now, DeferStep(t, claim, seconds, e.now).0.rows[claim.operation]);
          }
        case ReconcileCancel(claim) => ReconcileKeepsDead(t, claim, e.now, c);
        case Intend(claim, verdict) =>
          if IntendStep(t, claim, verdict, e.now) != t {
            ChangeKeepsDead(t, c, claim, e.now, IntendStep(t, claim, verdict, e.now).rows[claim.operation]);
          }
        case Observe(claim, status) =>
          if ObserveStep(t, claim, status, e.now) != t {
            ChangeKeepsDead(t, c, claim, e.now, ObserveStep(t, claim, status, e.now).rows[claim.operation]);
          }
        case _ => hide RowsFit, GrantsFit, Inserts, Insertable;
      }
    }
    hide Inv, Dead, CancelPending;
  }

  lemma ReconcileKeepsDead(s: Store, claim: Claim, now: int, c: Claim)
    requires Inv(s) && Dead(s, c) && now == s.clock
    ensures Dead(ReconcileStep(s, claim, now).0, c)
  {
    hide RowsFit, GrantsFit;
    if ReconcileStep(s, claim, now).1.Ok? {
      var row := s.rows[claim.operation];
      var t := row.target.value;
      if Undispatched(s.rows[t]) {
        RaiseKeepsDead(s, c, t, Revoked(s.rows[t]));
      }
      var target := if Undispatched(s.rows[t]) then Revoked(s.rows[t]) else s.rows[t];
      var s1 := s.(rows := s.rows[t := target]);
      assert s1.(clock := now) == s1;
      ChangeKeepsDead(s1, c, claim, now, Resolved(row, target.status, now));
    }
  }

  ghost predicate CannotAct(s: Store, c: Claim, seconds: nat, now: int) {
    && RenewStep(s, c, seconds, now).1.Err?
    && DeferStep(s, c, seconds, now).1.Some?
    && ReconcileStep(s, c, now).1.Err?
    && (forall verdict :: IntendStep(s, c, verdict, now) == s)
    && (forall status :: ObserveStep(s, c, status, now) == s)
  }

  // A dead claim never acts again: it neither renews, defers nor reconciles, and it neither
  // dispatches an execution nor records its outcome.
  lemma {:induction false} DeadClaimsNeverAct(s: Store, events: seq<Event>, c: Claim, seconds: nat, now: int)
    requires Inv(s) && Dead(s, c) && now >= Run(s, events).clock
    ensures Dead(Run(s, events), c) && CannotAct(Run(s, events), c, seconds, now)
    decreases |events|
  {
    if events == [] {
      hide Inv, TargetRight, Undispatched;
    } else {
      StepKeepsInv(s, events[0]);
      StepKeepsDead(s, events[0], c);
      hide Inv, Step, Dead, CannotAct;
      DeadClaimsNeverAct(Step(s, events[0]), events[1..], c, seconds, now);
    }
  }

  // --- cancellation ---

  // A target has at most one unresolved cancellation.
  lemma OneUnresolvedCancellation(s: Store, a: Id, b: Id, target: Id)
    requires Inv(s) && a in s.rows && b in s.rows && Unresolved(s.rows[a], target) && Unresolved(s.rows[b], target)
    ensures a == b
  {
    hide GrantsFit;
  }

  predicate KeyedAt(s: Store, r: CancelRequest, id: Id) {
    id in s.rows && HasKey(s.rows[id], r.project, r.key)
  }

  predicate PendingAt(s: Store, r: CancelRequest, id: Id) {
    id in s.rows && Unresolved(s.rows[id], r.target)
  }

  // Admission answers each request in exactly one way, and inserts a row exactly when it is new.
  lemma AdmissionIsDecided(s: Store, r: CancelRequest, newId: Id, now: int, a: Admission, b: Admission)
    requires Inv(s) && newId !in s.rows
    requires Admits(s.rows, r, newId, now, a) && Admits(s.rows, r, newId, now, b)
    ensures a == b
    ensures Inserts(s.rows, r) <==> a.Accepted? && a.operation == newId
    ensures AdmitStep(s, r, newId, now) != s <==> Inserts(s.rows, r)
  {
    hide GrantsFit;
    forall id, k
      ensures KeyedAt(s, r, id) && KeyedAt(s, r, k) ==> id == k
      ensures PendingAt(s, r, id) && PendingAt(s, r, k) ==> id == k
    {}
    hide RowsFit;
  }

  // However it came about, a cancellation before dispatch is final: the operation is never
  // dispatched, never claimed again, and every claim ever granted on it is dead.
  lemma CancelledBeforeDispatchIsFinal(s: Store, t: Id, events: seq<Event>)
    requires Inv(s) && t in s.rows && s.rows[t].phase == CancelledBeforeDispatch
    ensures NeverDispatched(Run(s, events), t)
  {
    RowFitsAt(s, t);
    RunKeeps(s, events);
    hide Inv, Run;
  }

  ghost predicate NeverDispatched(s: Store, t: Id) {
    && t in s.rows && s.rows[t].status == Cancelled && s.rows[t].attempts == 0 && s.rows[t].receipts == 0
    && (forall kind, at :: !Eligible(s.rows[t], kind, at))
    && (forall claim: Claim, at :: claim.operation == t ==> !Live(s.rows, claim, at))
  }

  // Reconciling a target without a dispatch intent cancels it for good.
  lemma ReconciledBeforeDispatchIsFinal(s: Store, c: Claim, now: int, events: seq<Event>)
    requires Inv(s) && now >= s.clock && ReconcileStep(s.(clock := now), c, now).1.Ok?
    requires Undispatched(s.rows[s.rows[c.operation].target.value])
    ensures var t := s.rows[c.operation].target.value;
            var (s1, reply) := ReconcileStep(s.(clock := now), c, now);
            && reply == Ok(Completed)
            && s1.rows[c.operation].status == Succeeded && s1.rows[c.operation].outcome == Some(Cancelled)
            && NeverDispatched(Run(s1, events), t)
  {
    var t := s.rows[c.operation].target.value;
    var s0 := s.(clock := now);
    var s1 := ReconcileStep(s0, c, now).0;
    ClockKeepsInv(s, now);
    ReconcileKeepsInv(s0, c, now);
    RowFitsAt(s, c.operation);
    assert s1.rows[t] == Revoked(s.rows[t]);
    hide Inv, Run;
    CancelledBeforeDispatchIsFinal(s1, t, events);
  }

  // So does a claimant that finds a cancellation pending instead of dispatching.
  lemma RefusedDispatchIsFinal(s: Store, c: Claim, verdict: Verdict, now: int, events: seq<Event>)
    requires Inv(s) && now >= s.clock && Live(s.rows, c, now) && Undispatched(s.rows[c.operation])
    requires s.rows[c.operation].kind == ExecuteKind && CancelPending(s.rows, c.operation)
    ensures NeverDispatched(Run(IntendStep(s.(clock := now), c, verdict, now), events), c.operation)
  {
    var s0 := s.(clock := now);
    ClockKeepsInv(s, now);
    IntendKeepsInv(s0, c, verdict, now);
    hide Inv, Run, NeverDispatched;
    CancelledBeforeDispatchIsFinal(IntendStep(s0, c, verdict, now), c.operation, events);
  }

  // What reconciliation reports about a target that was dispatched: its own final status, or
  // that it is still pending.
  lemma ReconciliationReportsTheTarget(s: Store, c: Claim, now: int)
    requires Inv(s) && ReconcileStep(s, c, now).1.Ok?
    ensures var t := s.rows[c.operation].target.value;
            var (s', progress) := ReconcileStep(s, c, now);
            && (progress == Ok(Completed) <==> s'.rows[t].status.Terminal())
            && (progress == Ok(Completed) ==> s'.rows[c.operation].outcome == Some(s'.rows[t].status))
            && (!Undispatched(s.rows[t]) ==> s'.rows[t] == s.rows[t])
            && !Live(s'.rows, c, now)
  {
    RowFitsAt(s, c.operation);
    hide Inv;
  }
}
