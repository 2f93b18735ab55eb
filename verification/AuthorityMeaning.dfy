/** What each operation of the launch authority answers, told from the stage of the serial alone,
    and for how long an answer is repeated. */
module AuthorityMeaning {
  import opened Wrappers
  import opened OperationIds
  import opened AuthorityRecords
  import opened AuthorityLedger
  import opened AuthorityRuns

  // The owner a stage retains.
  function OwnerAt(stage: Stage): Option<Permit> {
    if stage.ActiveStage? || stage.FencedStage? || stage.CompleteStage? then Some(stage.permit) else None
  }

  // The retirement an owner is bound to.
  function BoundTo(stage: Stage): Option<Uuid> {
    if stage.FencedStage? || stage.CompleteStage? then Some(stage.retirement) else None
  }

  // --- looking a permit up ---

  /** A permit is found exactly where it is the retained owner of its serial. Otherwise the answer
      tells apart an invalid permit, one of another host or another owner, a serial that was
      closed and one that was never registered. */
  lemma LookupMeaning(s: Saved, permit: Permit)
    requires WellFormed(s)
    ensures var stage := StageAt(s, permit.serial);
            && (Locate(s, permit).Ok? <==> OwnerAt(stage) == Some(permit))
            && (Locate(s, permit) == Err(Invalid) <==> !permit.Validated())
            && (Locate(s, permit) == Err(Ownership) <==>
                && permit.Validated()
                && (permit.host != s.host || (OwnerAt(stage).Some? && OwnerAt(stage) != Some(permit))))
            && (Locate(s, permit) == Err(Closed) <==>
                permit.Validated() && permit.host == s.host && stage.ClosedStage?)
            && (Locate(s, permit) == Err(Error.Unregistered) <==>
                permit.Validated() && permit.host == s.host && stage.Unregistered?)
  {
    match Find(s.entries, permit.serial) {
      case Some(i) => assert EntryFits(s, s.entries[i]);
      case None =>
    }
  }

  lemma StageFound(s: Saved, permit: Permit)
    requires WellFormed(s) && Locate(s, permit).Ok?
    ensures var i := Locate(s, permit).value;
            var e := s.entries[i];
            && e.permit == permit && EntryFits(s, e)
            && StageAt(s, permit.serial) ==
               match e.state
               case Active => ActiveStage(permit)
               case Fenced(r) => FencedStage(permit, r)
               case Complete(r, d) => CompleteStage(permit, r, d)
  {
    StageOfEntry(s, Locate(s, permit).value);
  }

  // The stage of a serial once its entry has another state.
  lemma StageChanges(s: Saved, permit: Permit, state: State)
    requires WellFormed(s) && Locate(s, permit).Ok?
    requires !state.Active? ==> Valid(state.retirement)
    ensures StageAt(WithState(s, Locate(s, permit).value, state), permit.serial) ==
            match state
            case Active => ActiveStage(permit)
            case Fenced(r) => FencedStage(permit, r)
            case Complete(r, d) => CompleteStage(permit, r, d)
  {
    var i := Locate(s, permit).value;
    StageFound(s, permit);
    StageOfEntry(s, i);
    WithStateMoves(s, i, state, permit.serial);
  }

  // --- fencing ---

  /** Fencing succeeds if and only if the retirement id is valid and this exact permit is retained,
      still active or already bound to that very retirement. Then it is bound to it; a refusal
      changes nothing. */
  lemma FenceMeaning(s: Saved, permit: Permit, retirement: Uuid)
    requires WellFormed(s)
    ensures var stage := StageAt(s, permit.serial);
            var (next, outcome) := Fence(s, permit, retirement);
            var after := StageAt(next, permit.serial);
            && (outcome.Ok? <==>
                && Valid(retirement) && OwnerAt(stage) == Some(permit)
                && (stage.ActiveStage? || BoundTo(stage) == Some(retirement)))
            && (outcome.Ok? ==> after == if stage.ActiveStage? then FencedStage(permit, retirement) else stage)
            && (outcome.Ok? ==> OwnerAt(after) == Some(permit) && BoundTo(after) == Some(retirement))
            && (outcome.Err? ==> next == s)
            && (outcome == Err(Conflict) <==>
                && Valid(retirement) && OwnerAt(stage) == Some(permit)
                && BoundTo(stage).Some? && BoundTo(stage) != Some(retirement))
  {
    LookupMeaning(s, permit);
    if Locate(s, permit).Ok? {
      StageFound(s, permit);
      if Valid(retirement) {
        StageChanges(s, permit, Fenced(retirement));
      }
    }
  }

  /** Over every run after an acknowledged fence, as long as the entry is retained, fencing is
      acknowledged for that retirement and for no other; once it is gone, it is answered Closed. */
  lemma AcknowledgedFenceIsRepeated(
      sha: Hash, s: Saved, permit: Permit, retirement: Uuid, ops: seq<Op>, other: Uuid)
    requires WellFormed(s) && Fence(s, permit, retirement).1.Ok?
    ensures var later := Run(sha, Fence(s, permit, retirement).0, ops);
            if OwnerAt(StageAt(later, permit.serial)).Some?
            then && (Fence(later, permit, other).1.Ok? <==> other == retirement)
                 && (Valid(other) && other != retirement ==> Fence(later, permit, other).1 == Err(Conflict))
            else Valid(other) ==> Fence(later, permit, other).1 == Err(Closed)
  {
    var fenced := Fence(s, permit, retirement).0;
    var later := Run(sha, fenced, ops);
    FenceMeaning(s, permit, retirement);
    assert fenced == Apply(sha, s, Fencing(permit, retirement)).0;
    ApplyKeepsWellFormed(sha, s, Fencing(permit, retirement));
    RunKeepsWellFormed(sha, fenced, ops);
    RunFollowsLifecycle(sha, fenced, ops, permit.serial);
    FenceMeaning(later, permit, other);
    LookupMeaning(later, permit);
    LookupMeaning(s, permit);
    hide Fence, StageAt, Run, Locate;
    assert permit.Validated() && permit.host == s.host;
    if other == retirement {
      assert Valid(other);
    }
    FenceRefusedByLookup(later, permit, other);
  }

  lemma FenceRefusedByLookup(s: Saved, permit: Permit, retirement: Uuid)
    ensures Valid(retirement) && Locate(s, permit).Err? ==>
              Fence(s, permit, retirement).1 == Err(Locate(s, permit).error)
  {}

  // --- completion ---

  predicate Completable(intent: Intent) {
    intent.Validated() && !intent.simulated
  }

  function CompleteUnder(sha: Hash, intent: Intent): Stage {
    CompleteStage(intent.permit, intent.retirement, sha(intent))
  }

  /** Completion succeeds if and only if the scope is valid and not simulated and its owner is
      fenced under its retirement or already complete under this very scope. Then it is complete
      under it; a refusal changes nothing. */
  lemma CompletionMeaning(sha: Hash, s: Saved, intent: Intent)
    requires WellFormed(s)
    ensures var stage := StageAt(s, intent.permit.serial);
            var (next, outcome) := CompleteOwner(sha, s, intent);
            && (outcome.Ok? <==>
                && Completable(intent)
                && (stage == FencedStage(intent.permit, intent.retirement) || stage == CompleteUnder(sha, intent)))
            && (outcome.Ok? ==> StageAt(next, intent.permit.serial) == CompleteUnder(sha, intent))
            && (outcome.Err? ==> next == s)
  {
    LookupMeaning(s, intent.permit);
    if Locate(s, intent.permit).Ok? {
      StageFound(s, intent.permit);
      if Completable(intent) {
        StageChanges(s, intent.permit, Complete(intent.retirement, sha(intent)));
      }
    }
  }

  /** A completion is read back if and only if the serial is complete under this very scope. */
  lemma CompletedMeaning(sha: Hash, s: Saved, intent: Intent)
    requires WellFormed(s)
    ensures Completed(sha, s, intent).Ok? <==>
            Completable(intent) && StageAt(s, intent.permit.serial) == CompleteUnder(sha, intent)
  {
    LookupMeaning(s, intent.permit);
    if Locate(s, intent.permit).Ok? {
      StageFound(s, intent.permit);
    }
  }

  /** Over every run after an acknowledged completion, as long as the entry is retained, completing
      and reading the completion are acknowledged for scopes of that retirement and digest and for
      no others. */
  lemma AcknowledgedCompletionIsRepeated(sha: Hash, s: Saved, a: Intent, ops: seq<Op>, b: Intent)
    requires WellFormed(s) && CompleteOwner(sha, s, a).1.Ok? && b.permit == a.permit
    requires OwnerAt(StageAt(Run(sha, CompleteOwner(sha, s, a).0, ops), a.permit.serial)).Some?
    ensures var later := Run(sha, CompleteOwner(sha, s, a).0, ops);
            var same := Completable(b) && b.retirement == a.retirement && sha(b) == sha(a);
            && (CompleteOwner(sha, later, b).1.Ok? <==> same)
            && (Completed(sha, later, b).Ok? <==> same)
  {
    var complete := CompleteOwner(sha, s, a).0;
    var later := Run(sha, complete, ops);
    CompletionMeaning(sha, s, a);
    assert complete == Apply(sha, s, Completing(a)).0;
    ApplyKeepsWellFormed(sha, s, Completing(a));
    RunKeepsWellFormed(sha, complete, ops);
    RunFollowsLifecycle(sha, complete, ops, a.permit.serial);
    CompletionMeaning(sha, later, b);
    CompletedMeaning(sha, later, b);
    hide CompleteOwner, Completed, StageAt, Run;
  }

  // --- forgetting ---

  /** Forgetting succeeds exactly when the completion of this scope can be read; then the serial is
      closed and every other one is where it was. A refusal changes nothing. */
  lemma ForgetMeaning(sha: Hash, s: Saved, intent: Intent, serial: nat)
    requires WellFormed(s)
    ensures var (next, outcome) := Forget(sha, s, intent);
            && (outcome.Ok? <==> Completed(sha, s, intent).Ok?)
            && (outcome.Ok? ==> StageAt(next, intent.permit.serial) == ClosedStage)
            && (outcome.Ok? && serial != intent.permit.serial ==> StageAt(next, serial) == StageAt(s, serial))
            && (outcome.Err? ==> next == s)
  {
    CompletedMeaning(sha, s, intent);
    if Completed(sha, s, intent).Ok? {
      var i := Locate(s, intent.permit).value;
      StageOfEntry(s, i);
      RemovalMoves(s, i, intent.permit.serial);
      RemovalMoves(s, i, serial);
    }
  }

  /** Over every run after an acknowledged forgetting the permit is closed: it is neither
      authorized, fenced, completed nor read as complete, and each answer is Closed. */
  lemma ForgottenStaysClosed(sha: Hash, s: Saved, a: Intent, ops: seq<Op>, b: Intent, retirement: Uuid)
    requires WellFormed(s) && Forget(sha, s, a).1.Ok? && b.permit == a.permit
    ensures var later := Run(sha, Forget(sha, s, a).0, ops);
            && Authorize(later, a.permit) == Err(Closed)
            && (Valid(retirement) ==> Fence(later, a.permit, retirement).1 == Err(Closed))
            && (Completable(b) ==>
                  && CompleteOwner(sha, later, b).1 == Err(Closed)
                  && Completed(sha, later, b) == Err(Closed)
                  && Forget(sha, later, b).1 == Err(Closed))
  {
    var closed := Forget(sha, s, a).0;
    var later := Run(sha, closed, ops);
    ForgetMeaning(sha, s, a, a.permit.serial);
    CompletedMeaning(sha, s, a);
    LookupMeaning(s, a.permit);
    assert closed == Apply(sha, s, Forgetting(a)).0;
    ApplyKeepsWellFormed(sha, s, Forgetting(a));
    RunKeepsWellFormed(sha, closed, ops);
    RunFollowsLifecycle(sha, closed, ops, a.permit.serial);
    LookupMeaning(later, a.permit);
    hide StageAt, Run, Locate;
    assert Locate(later, a.permit) == Err(Closed);
  }

  // --- registration refused ---

  /** Why a well-shaped batch is refused: it starts behind the frontier with a permit that is not
      retained, it leaves a gap, there is no room, or it clashes with what is retained. */
  lemma RegistrationRefusals(s: Saved, permits: seq<Permit>)
    requires WellFormed(s) && permits != [] && |permits| <= MAX_BATCH && Contiguous(s.host, permits)
    ensures var outcome := Register(s, permits).1;
            && (outcome == Err(RegistrationOrder) <==> permits[0].serial > s.through + 1)
            && (outcome == Err(Capacity) <==>
                permits[0].serial == s.through + 1 && |s.entries| + |permits| > MAX_ENTRIES)
            && (outcome == Err(Closed) ==>
                exists p :: p in permits && StageAt(s, p.serial).ClosedStage?)
  {
    BatchVerdictMeaning(s.host, permits, |permits|);
    assert permits[..|permits|] == permits;
    if permits[0].serial <= s.through {
      RetainedRefusal(s, permits, |permits|);
    } else if permits[0].serial == s.through + 1 && |s.entries| + |permits| <= MAX_ENTRIES {
      VerdictErrors(Extended(s, permits), s.host, s.through);
    }
  }

  lemma {:induction false} RetainedRefusal(s: Saved, permits: seq<Permit>, n: nat)
    requires WellFormed(s) && n <= |permits| && Contiguous(s.host, permits)
    ensures RetainedVerdict(s, permits, n).Err? ==>
      exists p :: p in permits && Locate(s, p).Err? && RetainedVerdict(s, permits, n).error == Locate(s, p).error
    ensures RetainedVerdict(s, permits, n) == Err(Closed) ==>
      exists p :: p in permits && StageAt(s, p.serial).ClosedStage?
    ensures RetainedVerdict(s, permits, n) !in {Err(RegistrationOrder), Err(Capacity)}
  {
    if n > 0 {
      RetainedRefusal(s, permits, n - 1);
      var p := permits[n - 1];
      assert p in permits;
      LookupMeaning(s, p);
    }
  }

  lemma {:induction false} EntriesErrors(s: Saved, host: Uuid, k: nat)
    requires k <= |s.entries|
    ensures EntriesVerdict(s, host, k) in {Ok(()), Err(Invalid), Err(Ownership)}
    decreases |s.entries| - k
  {
    if k < |s.entries| {
      EntriesErrors(s, host, k + 1);
    }
  }

  lemma VerdictErrors(s: Saved, host: Uuid, minimum: nat)
    ensures StateVerdict(s, host, minimum) in {Ok(()), Err(Invalid), Err(Ownership)}
  {
    EntriesErrors(s, host, 0);
  }
}
