/** How long a claim is held and how long an operation is put off (crates/sandbox-store/src/claims.rs),
    and for how long an admission is remembered (cancel.rs), over every run of the store. */
module ClaimTimes {
  import opened Wrappers
  import opened Claims
  import opened ClaimRuns

  // --- what can happen to an operation that nobody may claim ---

  // The claim an event acts with.
  function ClaimOf(e: Event): Option<Claim> {
    match e.action
    case Renew(claim, _) => Some(claim)
    case Defer(claim, _) => Some(claim)
    case ReconcileCancel(claim) => Some(claim)
    case Intend(claim, _) => Some(claim)
    case Observe(claim, _) => Some(claim)
    case _ => None
  }

  predicate ActsOn(s: Store, e: Event, id: Id) {
    ClaimOf(e).Some? && ClaimOf(e).value.operation == id && Live(s.rows, ClaimOf(e).value, e.now)
  }

  ghost predicate Claimable(r: Row, now: int) {
    exists kind :: Eligible(r, kind, now)
  }

  // The same row, or revoked by the reconciliation of a cancellation before its dispatch.
  predicate Untouched(before: Row, after: Row) {
    after == before || (Undispatched(before) && after == Revoked(before))
  }

  // Every claim from `n` on is a claim on another operation.
  predicate NoneGranted(granted: seq<Claim>, n: nat, id: Id) {
    forall i :: n <= i < |granted| ==> granted[i].operation != id
  }

  lemma ReconcileLeavesAlone(s: Store, c: Claim, now: int, id: Id)
    requires id in s.rows && !(c.operation == id && Live(s.rows, c, now))
    ensures var s' := ReconcileStep(s, c, now).0;
            id in s'.rows && s'.granted == s.granted && Untouched(s.rows[id], s'.rows[id])
  {}

  lemma IntendLeavesAlone(s: Store, c: Claim, verdict: Verdict, now: int, id: Id)
    requires id in s.rows && !(c.operation == id && Live(s.rows, c, now))
    ensures var s' := IntendStep(s, c, verdict, now);
            id in s'.rows && s'.granted == s.granted && s'.rows[id] == s.rows[id]
  {
    hide CancelPending;
  }

  // An operation is changed only by granting a claim on it, with a live claim on it, or by the
  // reconciliation of a cancellation.
  lemma StepLeavesAlone(s: Store, e: Event, id: Id)
    requires id in s.rows && !ActsOn(s, e, id)
    ensures var s' := Step(s, e);
            && s.clock <= s'.clock && s.granted <= s'.granted && id in s'.rows
            && (NoneGranted(s'.granted, |s.granted|, id) ==> Untouched(s.rows[id], s'.rows[id]))
            && (!Claimable(s.rows[id], s'.clock) ==> NoneGranted(s'.granted, |s.granted|, id))
  {
    if e.now >= s.clock {
      var t := s.(clock := e.now);
      hide ReconcileStep, IntendStep, Inserts, Insertable, Eligible;
      match e.action
      case ReconcileCancel(claim) => ReconcileLeavesAlone(t, claim, e.now, id);
      case Intend(claim, verdict) => IntendLeavesAlone(t, claim, verdict, e.now, id);
      case ClaimNext(pick, kind, seconds) => ClaimLeavesAlone(t, pick, kind, seconds, e.now, id);
      case _ =>
    }
  }

  lemma ClaimLeavesAlone(s: Store, pick: Id, kind: Kind, seconds: nat, now: int, id: Id)
    requires id in s.rows
    ensures var s' := ClaimStep(s, pick, kind, seconds, now);
            && s.granted <= s'.granted && id in s'.rows && s'.clock == s.clock
            && (NoneGranted(s'.granted, |s.granted|, id) ==> s'.rows[id] == s.rows[id])
            && (!Claimable(s.rows[id], now) ==> NoneGranted(s'.granted, |s.granted|, id))
  {
    hide Eligible;
    var s' := ClaimStep(s, pick, kind, seconds, now);
    if s' != s {
      assert s'.granted[|s.granted|] == Claim(pick, s'.rows[pick].revision);
    }
  }

  // Nobody may claim the operation before `until`.
  ghost predicate Barred(r: Row, until: int) {
    forall now :: now < until ==> !Claimable(r, now)
  }

  // The event does not act with the claim that holds the row, if one does.
  predicate Quiet(e: Event, id: Id, r: Row) {
    r.lease.None? || ClaimOf(e) != Some(Claim(id, r.revision))
  }

  lemma UntouchedStays(r: Row, x: Row, y: Row)
    requires Untouched(r, x) && Untouched(x, y)
    ensures Untouched(r, y)
  {}

  lemma QuietDoesNotAct(s: Store, e: Event, id: Id, r: Row)
    requires id in s.rows && Untouched(r, s.rows[id]) && Quiet(e, id, r)
    ensures !ActsOn(s, e, id)
  {}

  lemma BarredIsNotClaimable(r: Row, x: Row, until: int, now: int)
    requires Untouched(r, x) && Barred(r, until) && now < until
    ensures !Claimable(x, now)
  {}

  /** Over every run: an operation nobody may claim before some time is left alone until then, and
      after it for as long as nobody claims it, unless its holder acts with its own claim or the
      reconciliation of a cancellation revokes it. */
  lemma {:induction false} RunLeavesAlone(s: Store, events: seq<Event>, id: Id, r: Row, until: int)
    requires id in s.rows && Untouched(r, s.rows[id]) && Barred(r, until)
    requires forall e :: e in events ==> Quiet(e, id, r)
    ensures var s' := Run(s, events);
            && s.clock <= s'.clock && s.granted <= s'.granted && id in s'.rows
            && (s'.clock < until ==> NoneGranted(s'.granted, |s.granted|, id))
            && (NoneGranted(s'.granted, |s.granted|, id) ==> Untouched(r, s'.rows[id]))
    decreases |events|
  {
    if events != [] {
      var e := events[0];
      var next := Step(s, e);
      assert e in events;
      QuietDoesNotAct(s, e, id, r);
      StepLeavesAlone(s, e, id);
      hide Step, Untouched, Barred, Claimable, Quiet, ActsOn;
      if next.clock < until {
        BarredIsNotClaimable(r, s.rows[id], until, next.clock);
      }
      if NoneGranted(next.granted, |s.granted|, id) {
        UntouchedStays(r, s.rows[id], next.rows[id]);
        RunLeavesAlone(next, events[1..], id, r, until);
      } else {
        RunGrants(next, events[1..], id);
      }
    }
  }

  // Clock and grants only grow, and no operation goes away.
  lemma {:induction false} RunGrants(s: Store, events: seq<Event>, id: Id)
    requires id in s.rows
    ensures var s' := Run(s, events); s.clock <= s'.clock && s.granted <= s'.granted && id in s'.rows
    decreases |events|
  {
    if events != [] {
      StepGrants(s, events[0], id);
      hide Step;
      RunGrants(Step(s, events[0]), events[1..], id);
    }
  }

  lemma StepGrants(s: Store, e: Event, id: Id)
    requires id in s.rows
    ensures var s' := Step(s, e); s.clock <= s'.clock && s.granted <= s'.granted && id in s'.rows
  {
    hide Inserts, Insertable, CancelPending;
  }

  // --- putting an operation off ---

  // Nobody holds it, and it is to be tried again at `until`.
  predicate Asleep(r: Row, until: int) {
    r.lease.None? && r.retry == Some(until)
  }

  // What claiming it asks for apart from time.
  predicate Suits(r: Row, kind: Kind) {
    && r.kind == kind && r.status.Open() && r.phase != CleanupOwnedByDestroy
    && (kind == CancelKind ==> r.phase == CancelRequested)
    && (kind == FileWriteKind ==> r.fileOwned)
  }

  // After any later run: nobody has claimed the operation before `until`, and as long as nobody has
  // claimed it, it is eligible exactly from then on, if it suits.
  ghost predicate OffAfter(s: Store, s': Store, id: Id, until: int)
    requires id in s.rows
  {
    && id in s'.rows && s.granted <= s'.granted
    && (s'.clock < until ==> NoneGranted(s'.granted, |s.granted|, id))
    && (NoneGranted(s'.granted, |s.granted|, id) ==>
          && Untouched(s.rows[id], s'.rows[id])
          && forall kind, now :: Eligible(s'.rows[id], kind, now) <==> Suits(s'.rows[id], kind) && now >= until)
  }

  ghost predicate PutOff(s: Store, id: Id, until: int) {
    && id in s.rows && Asleep(s.rows[id], until)
    && forall events :: OffAfter(s, Run(s, events), id, until)
  }

  lemma AsleepIsBarred(r: Row, until: int)
    requires Asleep(r, until)
    ensures Barred(r, until)
  {}

  lemma OffIsEligibleFrom(r: Row, x: Row, until: int, kind: Kind, now: int)
    requires Asleep(r, until) && Untouched(r, x)
    ensures Eligible(x, kind, now) <==> Suits(x, kind) && now >= until
  {}

  lemma SleepsUntil(s: Store, id: Id, until: int)
    requires id in s.rows && Asleep(s.rows[id], until)
    ensures PutOff(s, id, until)
  {
    var r := s.rows[id];
    AsleepIsBarred(r, until);
    forall events
      ensures OffAfter(s, Run(s, events), id, until)
    {
      var s' := Run(s, events);
      RunLeavesAlone(s, events, id, r, until);
      hide Run, Barred, Eligible, Suits, Untouched;
      if NoneGranted(s'.granted, |s.granted|, id) {
        forall kind, now {
          OffIsEligibleFrom(r, s'.rows[id], until, kind, now);
        }
      }
    }
  }

  /** A deferral succeeds exactly for a delay of 1 to 3600 seconds with a live claim. Then nobody
      claims the operation before that delay is over, it can be claimed from then on, and of the
      operation itself nothing has changed. */
  lemma DeferralPutsOff(s: Store, c: Claim, seconds: nat, now: int)
    ensures var (s', refused) := DeferStep(s, c, seconds, now);
            && (refused.None? <==> 1 <= seconds <= 3600 && Live(s.rows, c, now))
            && (refused == Some(InvalidRetryDelay) <==> seconds == 0 || seconds > 3600)
            && (refused == Some(LostClaim) <==> 1 <= seconds <= 3600 && !Live(s.rows, c, now))
            && (refused.Some? ==> s' == s)
            && (refused.None? ==>
                  && PutOff(s', c.operation, now + 1000 * seconds) && !Live(s'.rows, c, now)
                  && s'.granted == s.granted && s'.rows.Keys == s.rows.Keys
                  && s'.rows[c.operation].(lease := None, retry := None)
                     == s.rows[c.operation].(lease := None, retry := None)
                  && forall id :: id in s.rows && id != c.operation ==> s'.rows[id] == s.rows[id])
  {
    var (s', refused) := DeferStep(s, c, seconds, now);
    if refused.None? {
      SleepsUntil(s', c.operation, now + 1000 * seconds);
    }
    hide PutOff;
  }

  /** A cancellation whose target has not ended is looked at again after one second, no earlier. */
  lemma PendingCancellationIsPutOff(s: Store, c: Claim, now: int)
    requires ReconcileStep(s, c, now).1 == Ok(Pending)
    ensures PutOff(ReconcileStep(s, c, now).0, c.operation, now + 1000)
  {
    SleepsUntil(ReconcileStep(s, c, now).0, c.operation, now + 1000);
  }

  /** So is an execution the host does not report as ended. */
  lemma OpenExecutionIsPutOff(s: Store, c: Claim, status: Status, now: int)
    requires ObserveStep(s, c, status, now) != s && !status.Terminal()
    ensures PutOff(ObserveStep(s, c, status, now), c.operation, now + 1000)
  {
    SleepsUntil(ObserveStep(s, c, status, now), c.operation, now + 1000);
  }

  // --- holding a claim ---

  // After any later run in which this claim is not used: nobody else has claimed the operation
  // before `until`; and while its row is unchanged, the claim is live exactly before `until`, and
  // the operation is eligible only from then on.
  ghost predicate HeldAfter(s: Store, s': Store, id: Id, until: int)
    requires id in s.rows
  {
    && id in s'.rows && s.granted <= s'.granted
    && (s'.clock < until ==> NoneGranted(s'.granted, |s.granted|, id))
    && (NoneGranted(s'.granted, |s.granted|, id) ==> Untouched(s.rows[id], s'.rows[id]))
    && (s'.rows[id] == s.rows[id] ==>
          && (forall now :: Live(s'.rows, Claim(id, s.rows[id].revision), now) <==> now < until)
          && (forall kind, now :: Eligible(s'.rows[id], kind, now) <==>
                Suits(s'.rows[id], kind) && now >= until && Due(s'.rows[id].retry, now)))
  }

  ghost predicate Held(s: Store, id: Id, until: int) {
    && id in s.rows && s.rows[id].lease == Some(until)
    && forall events :: (forall e :: e in events ==> ClaimOf(e) != Some(Claim(id, s.rows[id].revision))) ==>
         HeldAfter(s, Run(s, events), id, until)
  }

  lemma LeasedIsBarred(r: Row, until: int)
    requires r.lease == Some(until)
    ensures Barred(r, until)
  {}

  lemma HoldsUntil(s: Store, id: Id, until: int)
    requires id in s.rows && s.rows[id].lease == Some(until) && s.rows[id].status in {Running, Unknown}
    ensures Held(s, id, until)
  {
    var r := s.rows[id];
    LeasedIsBarred(r, until);
    forall events | forall e :: e in events ==> ClaimOf(e) != Some(Claim(id, r.revision))
      ensures HeldAfter(s, Run(s, events), id, until)
    {
      hide Run, Barred, Untouched;
      RunLeavesAlone(s, events, id, r, until);
    }
  }

  /** What a claim on an operation grants: ownership until exactly the end of its lease. The
      operation moves to the next revision and from queued to running; an unknown one stays unknown,
      and its phase, attempts and receipts stay as they were. */
  lemma GrantHolds(s: Store, pick: Id, kind: Kind, seconds: nat, now: int)
    requires ClaimStep(s, pick, kind, seconds, now) != s
    ensures pick in s.rows && Eligible(s.rows[pick], kind, now) && 1 <= seconds <= 300
    ensures var s' := ClaimStep(s, pick, kind, seconds, now);
            var r, r' := s.rows[pick], s'.rows[pick];
            && Held(s', pick, now + 1000 * seconds)
            && s'.granted == s.granted + [Claim(pick, r'.revision)] && r'.revision == r.revision + 1
            && (r'.status == Unknown <==> r.status == Unknown) && r'.status in {Running, Unknown}
            && r'.(revision := 0, lease := None, retry := None, status := Queued)
               == r.(revision := 0, lease := None, retry := None, status := Queued)
            && forall id :: id in s.rows && id != pick ==> s'.rows[id] == s.rows[id]
  {
    HoldsUntil(ClaimStep(s, pick, kind, seconds, now), pick, now + 1000 * seconds);
    hide Held;
  }

  /** A renewal succeeds exactly for a lease of 1 to 300 seconds with a live claim, answers the end
      of the new lease, and the claim is held until exactly then. */
  lemma RenewalHolds(s: Store, c: Claim, seconds: nat, now: int)
    ensures var (s', reply) := RenewStep(s, c, seconds, now);
            && (reply.Ok? <==> 1 <= seconds <= 300 && Live(s.rows, c, now))
            && (reply == Err(InvalidLease) <==> seconds == 0 || seconds > 300)
            && (reply == Err(LostClaim) <==> 1 <= seconds <= 300 && !Live(s.rows, c, now))
            && (reply.Err? ==> s' == s)
            && (reply.Ok? ==>
                  && reply.value == now + 1000 * seconds && Held(s', c.operation, reply.value)
                  && s'.granted == s.granted && s'.rows.Keys == s.rows.Keys
                  && s'.rows[c.operation].(lease := None) == s.rows[c.operation].(lease := None)
                  && forall id :: id in s.rows && id != c.operation ==> s'.rows[id] == s.rows[id])
  {
    var (s', reply) := RenewStep(s, c, seconds, now);
    if reply.Ok? {
      HoldsUntil(s', c.operation, now + 1000 * seconds);
    }
    hide Held;
  }
}
