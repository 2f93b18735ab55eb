/** What every run of the launch-authority ledger keeps: the one-way life of a serial,
    the irrevocability of a lost authorization, and the count behind the frontier. */
module AuthorityRuns {
  import opened Wrappers
  import opened OperationIds
  import opened AuthorityRecords
  import opened AuthorityLedger
  import Bytes

  // --- registration, without any order of checking ---

  ghost predicate Contiguous(host: Uuid, permits: seq<Permit>) {
    && (forall i :: 0 <= i < |permits| ==> permits[i].Validated() && permits[i].host == host)
    && (forall i :: 0 <= i < |permits| ==> permits[i].serial == permits[0].serial + i)
  }

  ghost predicate Retained(s: Saved, p: Permit) {
    exists i :: 0 <= i < |s.entries| && s.entries[i].permit == p
  }

  ghost predicate NoClashes(s: Saved, permits: seq<Permit>) {
    && (forall i, j :: 0 <= i < j < |permits| ==> !Clash(permits[i], permits[j]))
    && (forall i, j :: 0 <= i < |s.entries| && 0 <= j < |permits| ==> !Clash(s.entries[i].permit, permits[j]))
  }

  ghost predicate Retry(s: Saved, permits: seq<Permit>)
    requires permits != []
  {
    permits[0].serial <= s.through && forall p :: p in permits ==> Retained(s, p)
  }

  ghost predicate NextBatch(s: Saved, permits: seq<Permit>)
    requires permits != []
  {
    permits[0].serial == s.through + 1 && |s.entries| + |permits| <= MAX_ENTRIES && NoClashes(s, permits)
  }

  lemma {:induction false} BatchVerdictMeaning(host: Uuid, permits: seq<Permit>, n: nat)
    requires n <= |permits|
    ensures BatchVerdict(host, permits, n).Ok? <==> Contiguous(host, permits[..n])
  {
    if n > 0 {
      BatchVerdictMeaning(host, permits, n - 1);
      var before, upto := permits[..n - 1], permits[..n];
      assert forall i :: 0 <= i < n - 1 ==> upto[i] == before[i];
      assert upto[n - 1] == permits[n - 1];
      if n > 1 {
        assert upto[n - 2] == permits[n - 2] == before[n - 2];
        assert before[0] == upto[0];
      }
      if BatchVerdict(host, permits, n).Ok? && n > 1 {
        assert before[n - 2].serial == before[0].serial + (n - 2);
      }
    }
  }

  lemma RetainedMeansLocated(s: Saved, p: Permit)
    requires WellFormed(s) && p.Validated() && p.host == s.host
    ensures Locate(s, p).Ok? <==> Retained(s, p)
  {
    if Retained(s, p) {
      var i :| 0 <= i < |s.entries| && s.entries[i].permit == p;
      FindIsUnique(s.entries, i);
    }
  }

  lemma {:induction false} RetainedVerdictMeaning(s: Saved, permits: seq<Permit>, n: nat)
    requires WellFormed(s) && Contiguous(s.host, permits) && n <= |permits|
    ensures RetainedVerdict(s, permits, n).Ok? <==> forall p :: p in permits[..n] ==> Retained(s, p)
  {
    if n > 0 {
      RetainedVerdictMeaning(s, permits, n - 1);
      RetainedMeansLocated(s, permits[n - 1]);
      assert permits[..n] == permits[..n - 1] + [permits[n - 1]];
    }
  }

  lemma ExtendedEntry(s: Saved, permits: seq<Permit>, k: nat)
    requires permits != [] && k < |Extended(s, permits).entries|
    ensures Extended(s, permits).entries[k] ==
            if k < |s.entries| then s.entries[k] else Entry(permits[k - |s.entries|], Active)
  {}

  lemma ExtendedWellFormed(s: Saved, permits: seq<Permit>)
    requires WellFormed(s) && permits != [] && Contiguous(s.host, permits) && NextBatch(s, permits)
    ensures WellFormed(Extended(s, permits))
  {
    var next := Extended(s, permits);
    var m := |s.entries|;
    assert permits[|permits| - 1].Validated();
    forall k | 0 <= k < |next.entries|
      ensures EntryFits(next, next.entries[k])
    {
      ExtendedEntry(s, permits, k);
      if k < m {
        assert EntryFits(s, s.entries[k]);
      }
    }
    forall i, j | 0 <= i < j < |next.entries|
      ensures next.entries[i].permit.serial < next.entries[j].permit.serial
      ensures !Clash(next.entries[i].permit, next.entries[j].permit)
    {
      ExtendedEntry(s, permits, i);
      ExtendedEntry(s, permits, j);
      if i < m <= j {
        assert EntryFits(s, s.entries[i]);
      }
    }
  }

  lemma ExtendedClashes(s: Saved, permits: seq<Permit>)
    requires permits != [] && WellFormed(Extended(s, permits))
    ensures NoClashes(s, permits)
  {
    var next := Extended(s, permits);
    var m := |s.entries|;
    forall i, j | 0 <= i < j < |permits|
      ensures !Clash(permits[i], permits[j])
    {
      assert next.entries[m + i].permit == permits[i] && next.entries[m + j].permit == permits[j];
    }
    forall i, j | 0 <= i < m && 0 <= j < |permits|
      ensures !Clash(s.entries[i].permit, permits[j])
    {
      assert next.entries[i] == s.entries[i] && next.entries[m + j].permit == permits[j];
    }
  }

  /** A batch is accepted exactly when it is a contiguous batch of this host that is either
      wholly retained (and then nothing changes) or the next one, with room and without a
      clash (and then it is appended active and the frontier moves by its length). */
  lemma RegisterMeaning(s: Saved, permits: seq<Permit>)
    requires WellFormed(s)
    ensures var (next, outcome) := Register(s, permits);
            && (outcome.Ok? <==>
                && 0 < |permits| <= MAX_BATCH
                && Contiguous(s.host, permits)
                && (Retry(s, permits) || NextBatch(s, permits)))
            && (outcome.Ok? && !Retry(s, permits) ==>
                next == Extended(s, permits) && next.through == s.through + |permits|)
            && (outcome.Err? || Retry(s, permits) ==> next == s)
  {
    if 0 < |permits| <= MAX_BATCH {
      BatchVerdictMeaning(s.host, permits, |permits|);
      assert permits[..|permits|] == permits;
      if Contiguous(s.host, permits) {
        RetainedVerdictMeaning(s, permits, |permits|);
        if s.through + 1 == permits[0].serial && |s.entries| + |permits| <= MAX_ENTRIES {
          var next := Extended(s, permits);
          DecodeAcceptsExactlyWellFormed(0, next, s.host, s.through);
          if NoClashes(s, permits) {
            ExtendedWellFormed(s, permits);
          } else if WellFormed(next) {
            ExtendedClashes(s, permits);
          }
        }
      }
    }
  }

  // --- runs ---

  datatype Op =
    | Registering(permits: seq<Permit>)
    | Fencing(permit: Permit, retirement: Uuid)
    | Completing(intent: Intent)
    | Forgetting(intent: Intent)
    | Reloading(host: Uuid, minimum: nat)

  ghost function Apply(sha: Hash, s: Saved, op: Op): (Saved, Outcome) {
    match op
    case Registering(permits) => Register(s, permits)
    case Fencing(permit, retirement) => Fence(s, permit, retirement)
    case Completing(intent) => CompleteOwner(sha, s, intent)
    case Forgetting(intent) => Forget(sha, s, intent)
    case Reloading(host, minimum) => Reload(s, host, minimum)
  }

  ghost function Run(sha: Hash, s: Saved, ops: seq<Op>): Saved
    decreases |ops|
  {
    if ops == [] then s else Run(sha, Apply(sha, s, ops[0]).0, ops[1..])
  }

  function New(host: Uuid): Saved {
    Saved(1, host, 0, [])
  }

  lemma WithStateKeepsWellFormed(s: Saved, i: nat, state: State)
    requires WellFormed(s) && i < |s.entries|
    requires !state.Active? ==> Valid(state.retirement)
    ensures WellFormed(WithState(s, i, state))
  {
    var next := WithState(s, i, state);
    assert forall k :: 0 <= k < |s.entries| ==> next.entries[k].permit == s.entries[k].permit;
    forall k | 0 <= k < |next.entries|
      ensures EntryFits(next, next.entries[k])
    {
      assert EntryFits(s, s.entries[k]);
    }
  }

  lemma RemovalKeepsWellFormed(s: Saved, i: nat)
    requires WellFormed(s) && i < |s.entries|
    ensures WellFormed(s.(entries := s.entries[..i] + s.entries[i + 1..]))
  {
    var next := s.(entries := s.entries[..i] + s.entries[i + 1..]);
    forall k | 0 <= k < |next.entries|
      ensures next.entries[k] == s.entries[if k < i then k else k + 1]
      ensures EntryFits(next, next.entries[k])
    {
      assert EntryFits(s, s.entries[if k < i then k else k + 1]);
    }
    forall j, k | 0 <= j < k < |next.entries|
      ensures next.entries[j].permit.serial < next.entries[k].permit.serial
      ensures !Clash(next.entries[j].permit, next.entries[k].permit)
    {
      assert next.entries[j] == s.entries[if j < i then j else j + 1];
      assert next.entries[k] == s.entries[if k < i then k else k + 1];
    }
  }

  lemma ApplyKeepsWellFormed(sha: Hash, s: Saved, op: Op)
    requires WellFormed(s)
    ensures WellFormed(Apply(sha, s, op).0)
    ensures Apply(sha, s, op).0.host == s.host && Apply(sha, s, op).0.through >= s.through
  {
    match op {
      case Registering(permits) =>
        RegisterMeaning(s, permits);
        if Apply(sha, s, op).0 != s {
          ExtendedWellFormed(s, permits);
        }
      case Fencing(permit, retirement) =>
        var r := Locate(s, permit);
        if r.Ok? && Valid(retirement) {
          WithStateKeepsWellFormed(s, r.value, Fenced(retirement));
        }
      case Completing(intent) =>
        var r := Locate(s, intent.permit);
        if r.Ok? && intent.Validated() {
          WithStateKeepsWellFormed(s, r.value, Complete(intent.retirement, sha(intent)));
        }
      case Forgetting(intent) =>
        var r := Locate(s, intent.permit);
        if r.Ok? {
          RemovalKeepsWellFormed(s, r.value);
        }
      case Reloading(_, _) =>
    }
  }

  /** Every reachable ledger is well formed and reads back to itself. */
  lemma {:induction false} RunKeepsWellFormed(sha: Hash, s: Saved, ops: seq<Op>)
    requires WellFormed(s)
    ensures WellFormed(Run(sha, s, ops))
    ensures Run(sha, s, ops).host == s.host && s.through <= Run(sha, s, ops).through
    ensures Reload(Run(sha, s, ops), s.host, s.through).1.Ok?
    decreases |ops|
  {
    if ops == [] {
      DecodeAcceptsExactlyWellFormed(0, s, s.host, s.through);
    } else {
      ApplyKeepsWellFormed(sha, s, ops[0]);
      var next := Apply(sha, s, ops[0]).0;
      RunKeepsWellFormed(sha, next, ops[1..]);
      DecodeAcceptsExactlyWellFormed(0, Run(sha, s, ops), s.host, s.through);
    }
  }

  // --- the life of a serial ---

  datatype Stage =
    | Unregistered
    | ActiveStage(permit: Permit)
    | FencedStage(permit: Permit, retirement: Uuid)
    | CompleteStage(permit: Permit, retirement: Uuid, digest: Bytes.Digest)
    | ClosedStage

  function StageAt(s: Saved, serial: nat): Stage {
    match Find(s.entries, serial)
    case None => if serial <= s.through then ClosedStage else Stage.Unregistered
    case Some(i) =>
      var e := s.entries[i];
      match e.state
      case Active => ActiveStage(e.permit)
      case Fenced(r) => FencedStage(e.permit, r)
      case Complete(r, d) => CompleteStage(e.permit, r, d)
  }

  // The only moves, each caused by the one operation that names the exact owner.
  ghost predicate Moves(sha: Hash, before: Stage, op: Op, after: Stage) {
    match op
    case Registering(permits) => before.Unregistered? && after.ActiveStage? && after.permit in permits
    case Fencing(p, r) => before == ActiveStage(p) && after == FencedStage(p, r)
    case Completing(intent) =>
      && before == FencedStage(intent.permit, intent.retirement)
      && after == CompleteStage(intent.permit, intent.retirement, sha(intent))
      && intent.Validated() && !intent.simulated
    case Forgetting(intent) =>
      && before == CompleteStage(intent.permit, intent.retirement, sha(intent))
      && after == ClosedStage
    case Reloading(_, _) => false
  }

  lemma StageOfEntry(s: Saved, i: nat)
    requires WellFormed(s) && i < |s.entries|
    ensures Find(s.entries, s.entries[i].permit.serial) == Some(i)
  {
    FindIsUnique(s.entries, i);
  }

  lemma AbsentAfterRegister(s: Saved, permits: seq<Permit>, serial: nat)
    requires WellFormed(s) && permits != [] && Contiguous(s.host, permits) && NextBatch(s, permits)
    requires Find(s.entries, serial).None? && !(s.through < serial <= s.through + |permits|)
    ensures Find(Extended(s, permits).entries, serial).None?
  {
    var next := Extended(s, permits);
    forall k | 0 <= k < |next.entries|
      ensures next.entries[k].permit.serial != serial
    {
      ExtendedEntry(s, permits, k);
    }
  }

  lemma NewSerialMoves(s: Saved, permits: seq<Permit>, k: nat)
    requires WellFormed(s) && permits != [] && Contiguous(s.host, permits) && NextBatch(s, permits)
    requires k < |permits|
    ensures StageAt(s, permits[k].serial).Unregistered?
    ensures StageAt(Extended(s, permits), permits[k].serial) == ActiveStage(permits[k])
  {
    var next := Extended(s, permits);
    ExtendedWellFormed(s, permits);
    assert forall i :: 0 <= i < |s.entries| ==> EntryFits(s, s.entries[i]);
    ExtendedEntry(s, permits, |s.entries| + k);
    StageOfEntry(next, |s.entries| + k);
  }

  lemma OldSerialStays(s: Saved, permits: seq<Permit>, serial: nat)
    requires WellFormed(s) && permits != [] && Contiguous(s.host, permits) && NextBatch(s, permits)
    requires !(s.through < serial <= s.through + |permits|)
    ensures StageAt(Extended(s, permits), serial) == StageAt(s, serial)
  {
    var found := Find(s.entries, serial);
    if found.Some? {
      ExtendedWellFormed(s, permits);
      ExtendedEntry(s, permits, found.value);
      StageOfEntry(Extended(s, permits), found.value);
    } else {
      AbsentAfterRegister(s, permits, serial);
    }
  }

  lemma WithStateMoves(s: Saved, i: nat, state: State, serial: nat)
    requires WellFormed(s) && i < |s.entries|
    requires !state.Active? ==> Valid(state.retirement)
    ensures Find(WithState(s, i, state).entries, serial) == Find(s.entries, serial)
  {
    var next := WithState(s, i, state);
    WithStateKeepsWellFormed(s, i, state);
    assert forall k :: 0 <= k < |s.entries| ==> next.entries[k].permit == s.entries[k].permit;
    match Find(s.entries, serial) {
      case Some(k) => StageOfEntry(next, k);
      case None =>
    }
  }

  lemma RemovalMoves(s: Saved, i: nat, serial: nat)
    requires WellFormed(s) && i < |s.entries|
    ensures var next := s.(entries := s.entries[..i] + s.entries[i + 1..]);
            if serial == s.entries[i].permit.serial then StageAt(next, serial) == ClosedStage
            else StageAt(next, serial) == StageAt(s, serial)
  {
    var next := s.(entries := s.entries[..i] + s.entries[i + 1..]);
    RemovalKeepsWellFormed(s, i);
    assert EntryFits(s, s.entries[i]);
    StageOfEntry(s, i);
    var found := Find(s.entries, serial);
    if found.Some? && found.value != i {
      var k := if found.value < i then found.value else found.value - 1;
      assert next.entries[k] == s.entries[found.value];
      StageOfEntry(next, k);
    } else {
      AbsentAfterRemoval(s, i, serial);
    }
  }

  lemma AbsentAfterRemoval(s: Saved, i: nat, serial: nat)
    requires WellFormed(s) && i < |s.entries|
    requires Find(s.entries, serial).None? || Find(s.entries, serial) == Some(i)
    ensures Find(s.entries[..i] + s.entries[i + 1..], serial).None?
  {
    var entries := s.entries[..i] + s.entries[i + 1..];
    forall k | 0 <= k < |entries|
      ensures entries[k].permit.serial != serial
    {
      var j := if k < i then k else k + 1;
      assert entries[k] == s.entries[j];
      StageOfEntry(s, j);
    }
  }

  lemma FenceMoves(sha: Hash, s: Saved, permit: Permit, retirement: Uuid, serial: nat)
    requires WellFormed(s)
    ensures var after := StageAt(Fence(s, permit, retirement).0, serial);
            after == StageAt(s, serial) || Moves(sha, StageAt(s, serial), Fencing(permit, retirement), after)
  {
    var r := Locate(s, permit);
    if r.Ok? && Valid(retirement) {
      WithStateMoves(s, r.value, Fenced(retirement), serial);
    }
  }

  lemma CompleteMoves(sha: Hash, s: Saved, intent: Intent, serial: nat)
    requires WellFormed(s)
    ensures var after := StageAt(CompleteOwner(sha, s, intent).0, serial);
            after == StageAt(s, serial) || Moves(sha, StageAt(s, serial), Completing(intent), after)
  {
    var r := Locate(s, intent.permit);
    if r.Ok? && intent.Validated() {
      WithStateMoves(s, r.value, Complete(intent.retirement, sha(intent)), serial);
    }
  }

  lemma ForgetMoves(sha: Hash, s: Saved, intent: Intent, serial: nat)
    requires WellFormed(s)
    ensures var after := StageAt(Forget(sha, s, intent).0, serial);
            after == StageAt(s, serial) || Moves(sha, StageAt(s, serial), Forgetting(intent), after)
  {
    var r := Locate(s, intent.permit);
    if r.Ok? {
      StageOfEntry(s, r.value);
      RemovalMoves(s, r.value, serial);
    }
  }

  /** One operation, successful or not, either leaves a serial's stage alone or makes the
      single move that the operation names for that serial's exact owner. */
  lemma StepFollowsLifecycle(sha: Hash, s: Saved, op: Op, serial: nat)
    requires WellFormed(s)
    ensures var after := StageAt(Apply(sha, s, op).0, serial);
            after == StageAt(s, serial) || Moves(sha, StageAt(s, serial), op, after)
  {
    match op {
      case Registering(permits) =>
        RegisterMeaning(s, permits);
        if Apply(sha, s, op).0 != s {
          if s.through < serial <= s.through + |permits| {
            NewSerialMoves(s, permits, serial - s.through - 1);
          } else {
            OldSerialStays(s, permits, serial);
          }
        }
      case Fencing(permit, retirement) => FenceMoves(sha, s, permit, retirement, serial);
      case Completing(intent) => CompleteMoves(sha, s, intent, serial);
      case Forgetting(intent) => ForgetMoves(sha, s, intent, serial);
      case Reloading(_, _) =>
    }
  }

  // Everything a stage may still become.
  predicate Leads(a: Stage, b: Stage) {
    || a == b
    || a.Unregistered?
    || b.ClosedStage?
    || (a.ActiveStage? && (b.FencedStage? || b.CompleteStage?) && b.permit == a.permit)
    || (a.FencedStage? && b.CompleteStage? && b.permit == a.permit && b.retirement == a.retirement)
  }

  /** Over every run a serial only moves unregistered, active, fenced, complete, closed;
      its owner and, once fenced, its retirement never change. */
  lemma {:induction false} RunFollowsLifecycle(sha: Hash, s: Saved, ops: seq<Op>, serial: nat)
    requires WellFormed(s)
    ensures Leads(StageAt(s, serial), StageAt(Run(sha, s, ops), serial))
    decreases |ops|
  {
    if ops != [] {
      var next := Apply(sha, s, ops[0]).0;
      ApplyKeepsWellFormed(sha, s, ops[0]);
      StepFollowsLifecycle(sha, s, ops[0], serial);
      RunFollowsLifecycle(sha, next, ops[1..], serial);
    }
  }

  lemma AuthorizedMeansActive(s: Saved, permit: Permit)
    requires WellFormed(s)
    ensures Authorize(s, permit).Ok? <==>
            permit.Validated() && permit.host == s.host && StageAt(s, permit.serial) == ActiveStage(permit)
  {}

  lemma {:induction false} RunSplits(sha: Hash, s: Saved, first: seq<Op>, second: seq<Op>)
    ensures Run(sha, s, first + second) == Run(sha, Run(sha, s, first), second)
    decreases |first|
  {
    if first == [] {
      assert first + second == second;
    } else {
      assert (first + second)[0] == first[0] && (first + second)[1..] == first[1..] + second;
      RunSplits(sha, Apply(sha, s, first[0]).0, first[1..], second);
    }
  }

  lemma ActiveNeverReturns(before: Stage, middle: Stage, after: Stage)
    requires before.ActiveStage? && Leads(before, middle) && Leads(middle, after)
    ensures after == before ==> middle == before
  {}

  /** An exact permit that has once been authorized and then stopped being so is never
      authorized again, whatever is registered, retried or reloaded afterwards. */
  lemma LostAuthorizationNeverReturns(sha: Hash, s: Saved, first: seq<Op>, second: seq<Op>, permit: Permit)
    requires WellFormed(s)
    requires Authorize(s, permit).Ok?
    requires Authorize(Run(sha, s, first), permit).Err?
    ensures Authorize(Run(sha, s, first + second), permit).Err?
  {
    RunSplits(sha, s, first, second);
    var middle := Run(sha, s, first);
    var last := Run(sha, middle, second);
    RunKeepsWellFormed(sha, s, first);
    RunKeepsWellFormed(sha, middle, second);
    RunFollowsLifecycle(sha, s, first, permit.serial);
    RunFollowsLifecycle(sha, middle, second, permit.serial);
    AuthorizedMeansActive(s, permit);
    AuthorizedMeansActive(middle, permit);
    AuthorizedMeansActive(last, permit);
    ActiveNeverReturns(StageAt(s, permit.serial), StageAt(middle, permit.serial), StageAt(last, permit.serial));
  }

  /** Once a completion is recorded, only the very same frozen scope is ever reported
      completed at that serial, as long as the digest does not collide on the two. */
  lemma CompletionBindsScope(sha: Hash, s: Saved, a: Intent, ops: seq<Op>, b: Intent)
    requires WellFormed(s) && a.permit.serial == b.permit.serial
    requires sha(a) == sha(b) ==> a == b
    requires CompleteOwner(sha, s, a).1.Ok?
    requires Completed(sha, Run(sha, CompleteOwner(sha, s, a).0, ops), b).Ok?
    ensures a == b
  {
    var next := Apply(sha, s, Completing(a)).0;
    ApplyKeepsWellFormed(sha, s, Completing(a));
    RunFollowsLifecycle(sha, next, ops, a.permit.serial);
    StageOfEntry(s, Locate(s, a.permit).value);
    StageOfEntry(next, Locate(s, a.permit).value);
  }

  // --- counting ---

  ghost function Forgets(sha: Hash, s: Saved, ops: seq<Op>): nat
    decreases |ops|
  {
    if ops == [] then 0
    else
      var (next, outcome) := Apply(sha, s, ops[0]);
      (if ops[0].Forgetting? && outcome.Ok? then 1 else 0) + Forgets(sha, next, ops[1..])
  }

  lemma {:induction false} FrontierMoves(sha: Hash, s: Saved, ops: seq<Op>)
    requires WellFormed(s)
    ensures Run(sha, s, ops).through - s.through ==
            |Run(sha, s, ops).entries| - |s.entries| + Forgets(sha, s, ops)
    decreases |ops|
  {
    if ops != [] {
      ApplyKeepsWellFormed(sha, s, ops[0]);
      if ops[0].Registering? {
        RegisterMeaning(s, ops[0].permits);
      }
      FrontierMoves(sha, Apply(sha, s, ops[0]).0, ops[1..]);
    }
  }

  /** Every serial ever issued is either still retained or was forgotten once. */
  lemma FrontierCountsEverySerial(sha: Hash, host: Uuid, ops: seq<Op>)
    requires Valid(host)
    ensures var s := Run(sha, New(host), ops);
            s.through == |s.entries| + Forgets(sha, New(host), ops)
  {
    FrontierMoves(sha, New(host), ops);
  }
}
