/** What failed writes of the guest runner leave in its state directory, and what comes of it:
    receipts that retirement deletes unchecked, capacity that is gone without the registry
    knowing, and directories that never open again. */
module RunnerLeftovers {
  import opened Wrappers
  import opened OperationIds
  import opened Totals
  import opened RunnerModel
  import opened RunnerSafety
  import opened RunnerRecovery
  import opened RunnerRuns
  import opened RunnerWorkspace
  import opened RunnerReopening
  import opened RunnerCancellation
  import Capture

  // --- retirements that another opening completes ---

  /** An opening deletes exactly the receipts its prune reaches behind the durable barrier. */
  lemma OpeningTakesExactlyTheCovered(m: Machine, e: Event, id: Uuid)
    requires Inv(m) && Workspace(m) && m.memory.None? && e.Open? && id in m.disk.receipts
    ensures id !in Step(m, e).disk.receipts <==>
      && Welcome(m.disk, e.caller)
      && CoveredBy(DiskBarrier(m.disk), id) && !Crowded(m.disk, m.side)
      && PrunedEntry(DiskBarrier(m.disk).value, e.prune, ReceiptEntry(id))
    ensures id !in Step(m, e).disk.receipts ==> Retirable(m, m.disk.receipts[id])
  {
    var ready := Prepared(m, e.contextWrite, e.prune);
    LoadSteps(ready, DiskBarrier(ready.disk), e.order, e.repairs, e.stuck);
    assert m.disk.binding.Some? && m.disk.binding.value.Validated(m.context);
    Unwelcome(m, e);
    if DiskBarrier(m.disk).Some? {
      AlwaysPrunable(m, DiskBarrier(m.disk).value);
      assert id in ready.disk.receipts <==> !PrunedEntry(DiskBarrier(m.disk).value, e.prune, ReceiptEntry(id));
    }
    assert CoveredBy(DiskBarrier(m.disk), id) ==> Retirable(m, m.disk.receipts[id]);
    hide LoadStep, Prunable, Crowded, Covers, Inv, Workspace, Retirable, Mended, Welcome, Step, Prepared;
    if Welcome(m.disk, e.caller) {
      OpenShape(m, e);
    }
  }

  lemma Unwelcome(m: Machine, e: Event)
    requires Inv(m) && m.memory.None? && e.Open? && m.disk.binding.Some?
    ensures if Welcome(m.disk, e.caller) then e.caller.context == m.context else Step(m, e) == m
  {
    if Welcome(m.disk, e.caller) {
      Configured(m, e.caller);
    }
    hide Inv, Ready, OpenAs, Welcome;
  }

  lemma OpenShape(m: Machine, e: Event)
    requires m.memory.None? && e.Open? && Welcome(m.disk, e.caller) && e.caller.context == m.context
    requires m.disk.binding.Some?
    requires DiskBarrier(m.disk).Some? ==> Prunable(m.disk, m.side, m.groups, DiskBarrier(m.disk).value)
    ensures var ready := Prepared(m, e.contextWrite, e.prune);
            var loaded := LoadStep(ready, DiskBarrier(ready.disk), e.order, e.repairs, e.stuck);
            Step(m, e) ==
            if DiskBarrier(m.disk).None? then loaded
            else if Crowded(m.disk, m.side) then m
            else if e.prune.PruneFailed? then ready
            else loaded
  {
    assert m.(context := m.context) == m;
    hide LoadStep, Prunable, Crowded, Welcome;
  }

  /** A retirement that failed after its barrier became durable, and the opening that completes
      it, together take a receipt without confirmed cleanup if and only if the retirement
      covered one the registry had never admitted. */
  lemma CompletedRetirementTakesUnresolvedExactlyWhenUnknown(
      m: Machine, requested: Barrier, w: Write, p: Prune, e: Event, id: Uuid)
    requires Inv(m) && Workspace(m) && id in m.disk.receipts
    requires RetireStep(m, requested, w, p).0 != m && !w.FailedOld?
    requires e.Open? && e.prune.PruneAll?
    requires var failed := RetireStep(m, requested, w, p).0;
             Welcome(failed.disk, e.caller) && !Crowded(failed.disk, failed.side)
    ensures var opening := Step(RetireStep(m, requested, w, p).0.(memory := None), e);
            id !in opening.disk.receipts && !m.disk.receipts[id].Resolved()
            <==> Covers(requested.through, id) && id !in m.memory.value.receipts
  {
    var failed := RetireStep(m, requested, w, p).0;
    var closed := failed.(memory := None);
    RetireReached(m, requested, w, p, id);
    hide RetireStep, Inv, Workspace, Covers, Step, Crowded, Retirable, Evolves, Receipt.Resolved,
         Welcome;
    if Covers(requested.through, id) {
      CoveredRetirable(m, requested, w, p, id);
    }
    ClosedAfterRetirement(m, requested, w, p);
    if id in failed.disk.receipts {
      OpeningTakesExactlyTheCovered(closed, e, id);
    } else {
      TakenStaysTaken(closed, e, id);
    }
  }

  lemma TakenStaysTaken(m: Machine, e: Event, id: Uuid)
    requires Inv(m) && CoveredBy(DiskBarrier(m.disk), id) && id !in m.disk.receipts
    ensures id !in Step(m, e).disk.receipts
  {
    hide Inv, Step, Covers;
    StepIsDiskStep(m, e);
  }

  lemma ClosedAfterRetirement(m: Machine, requested: Barrier, w: Write, p: Prune)
    requires Inv(m) && Workspace(m)
    ensures var closed := RetireStep(m, requested, w, p).0.(memory := None); Inv(closed) && Workspace(closed)
  {
    hide Inv, Workspace, RetireStep;
    var failed := RetireStep(m, requested, w, p).0;
    RetireKeepsInv(m, requested, w, p);
    RetireKeepsWorkspace(m, requested, w, p);
    CrashKeepsInv(failed);
    RegistryKeepsWorkspace(failed, failed.(memory := None));
  }

  // A retirement whose barrier became durable has touched only what it covers.
  lemma RetireReached(m: Machine, requested: Barrier, w: Write, p: Prune, id: Uuid)
    requires Inv(m) && id in m.disk.receipts
    requires RetireStep(m, requested, w, p).0 != m && !w.FailedOld?
    ensures var failed := RetireStep(m, requested, w, p).0;
            && DiskBarrier(failed.disk) == Some(requested)
            && (id in failed.disk.receipts ==> failed.disk.receipts[id] == m.disk.receipts[id])
            && (id !in failed.disk.receipts ==> Covers(requested.through, id))
  {
    hide RetireStep, Covers;
    RetireCases(m, requested, w, p);
    hide Inv;
  }

  // --- an interrupted first opening ---

  /** If the first opening of a directory fails with its temporary file left behind, no opening
      ever succeeds: the file counts as an entry without a context. */
  lemma InterruptedFirstOpeningStaysClosed(
      context: Context, temp: Uuid, prune: Prune, order: seq<Entry>, repairs: map<Uuid, Repair>, stuck: set<Uuid>,
      events: seq<Event>)
    requires context.Validated()
    ensures var first := Open(Booted(context), FailedOld(Some(temp)), prune, order, repairs, stuck);
            var m := Step(Fresh(), first);
            && m.disk == Fresh().disk && m.side == {TempFile(temp)}
            && Run(m, events).memory.None?
  {
    var first := Open(Booted(context), FailedOld(Some(temp)), prune, order, repairs, stuck);
    var m := Step(Fresh(), first);
    assert m == Fresh().(context := context, side := {TempFile(temp)}) by {
      hide LoadStep;
    }
    FreshInv();
    StepKeepsInv(Fresh(), first);
    hide Inv, Step, Run;
    CrampedForever(m, events);
  }

  // --- starts that fail and leave their temporary files ---

  ghost function FailedStarts(r: Request, now: int, temps: seq<Uuid>): seq<Event> {
    seq(|temps|, i requires 0 <= i < |temps| => Start(r, now, FailedOld(Some(temps[i]))))
  }

  function TempFiles(temps: seq<Uuid>): set<SideFile> {
    set name | name in temps :: TempFile(name)
  }

  lemma {:induction false} FailedStartsLitter(m: Machine, r: Request, now: int, temps: seq<Uuid>)
    requires m.memory.Some? && r.wellFormed && 1 <= r.outputLimit <= Capture.MAX_OUTPUT
    requires !CoveredBy(m.memory.value.barrier, r.operation) && r.operation !in m.memory.value.receipts
    requires Admissible(m.memory.value, r, now)
    ensures Run(m, FailedStarts(r, now, temps)) == m.(side := m.side + TempFiles(temps))
    decreases |temps|
  {
    if temps == [] {
      assert m.side + TempFiles([]) == m.side;
    } else {
      var next := Step(m, Start(r, now, FailedOld(Some(temps[0]))));
      assert next == m.(side := m.side + {TempFile(temps[0])});
      assert FailedStarts(r, now, temps)[1..] == FailedStarts(r, now, temps[1..]);
      hide Step, Admissible;
      FailedStartsLitter(next, r, now, temps[1..]);
      assert temps == [temps[0]] + temps[1..];
      assert TempFiles(temps) == {TempFile(temps[0])} + TempFiles(temps[1..]);
    }
  }

  lemma {:induction false} DistinctTempFiles(temps: seq<Uuid>)
    requires forall i, j :: 0 <= i < j < |temps| ==> temps[i] != temps[j]
    ensures |TempFiles(temps)| == |temps|
    decreases |temps|
  {
    if temps != [] {
      DistinctTempFiles(temps[1..]);
      assert temps == [temps[0]] + temps[1..];
      assert TempFiles(temps) == {TempFile(temps[0])} + TempFiles(temps[1..]);
      assert temps[0] !in temps[1..];
    }
  }

  /** Starts that fail do not fail the registry, so their temporary files pile up. Once there are
      more than 640, retirement refuses everything and after a crash the directory never opens,
      although it holds no receipt at all. */
  lemma FailedStartsCrowdTheDirectory(context: Context, r: Request, now: int, temps: seq<Uuid>)
    requires context.Validated()
    requires r.wellFormed && 1 <= r.outputLimit <= 16 * 1024 * 1024 && 0 < r.deadline - now <= LONGEST_MS
    requires forall i, j :: 0 <= i < j < |temps| ==> temps[i] != temps[j]
    requires |temps| > 640
    ensures var m := Run(Fresh(), [Opening(context)] + FailedStarts(r, now, temps));
            && m.memory == Some(Registry(None, map[], None, false, false)) && m.disk.receipts == map[]
            && (forall b, w, p :: RetireStep(m, b, w, p) == (m, None))
            && (forall events :: Run(m.(memory := None), events).memory.None?)
  {
    var opening := Opening(context);
    var ready := Step(Fresh(), opening);
    var all := [opening] + FailedStarts(r, now, temps);
    assert all[1..] == FailedStarts(r, now, temps) && all[0] == opening;
    assert Run(Fresh(), all) == Run(ready, FailedStarts(r, now, temps));
    var m := Run(Fresh(), all);
    OpenedFirst(context);
    FreshInv();
    RunKeepsInv(Fresh(), all);
    CrashKeepsInv(m);
    hide Run, Inv, Step;
    assert Admissible(ready.memory.value, r, now) by {
      assert Limits(map[]) == map[];
    }
    FailedStartsLitter(ready, r, now, temps);
    DistinctTempFiles(temps);
    assert ready.side + TempFiles(temps) == TempFiles(temps);
    assert Crowded(m.disk, m.side);
    forall events
      ensures Run(m.(memory := None), events).memory.None?
    {
      CrampedForever(m.(memory := None), events);
    }
    hide Prunable, Covers, FailedStarts, TempFiles;
  }

  // --- capacity a failed start takes without the registry knowing ---

  // Two starts, the first of which fails after its write committed.
  lemma TwoStarts(m: Machine, a: Request, b: Request, nowA: int, nowB: int)
    requires m.memory.Some? && a.operation != b.operation
    requires a.operation !in m.memory.value.receipts && b.operation !in m.memory.value.receipts
    requires StartStep(m, a, nowA, FailedNew).0 != m && StartStep(m, b, nowB, Synced).1.Some?
    ensures var m1 := StartStep(m, a, nowA, FailedNew).0;
            var m2 := StartStep(m1, b, nowB, Synced).0;
            && m2.disk.binding == m.disk.binding
            && m2.disk.receipts == m.disk.receipts[a.operation := Intent(m.context, a)][b.operation :=
              Intent(m.context, b)]
            && m2.memory.Some? && b.operation in m2.memory.value.receipts
    ensures var reg := m.memory.value;
            && !reg.failed && reg.active.None?
            && !CoveredBy(reg.barrier, a.operation) && !CoveredBy(reg.barrier, b.operation)
  {
    var m1 := StartStep(m, a, nowA, FailedNew).0;
    assert m1 == m.(disk := m.disk.(receipts := m.disk.receipts[a.operation := Intent(m.context, a)]));
    hide Total, Limits, Covers;
  }

  lemma BothCounted(receipts: map<Uuid, Receipt>, ra: Receipt, rb: Receipt)
    requires ra.operation !in receipts && rb.operation !in receipts && ra.operation != rb.operation
    requires Total(Limits(receipts)) + ra.outputLimit + rb.outputLimit > MAX_RESERVED
    ensures !WithinCapacity(receipts[ra.operation := ra][rb.operation := rb])
  {
    hide Total, Limits;
    LimitsGrow(receipts, ra.operation, ra);
    LimitsGrow(receipts[ra.operation := ra], rb.operation, rb);
  }

  lemma OvercommittedIsCramped(receipts: map<Uuid, Receipt>, m: Machine, ra: Receipt, rb: Receipt)
    requires ra.operation !in receipts && rb.operation !in receipts && ra.operation != rb.operation
    requires Total(Limits(receipts)) + ra.outputLimit + rb.outputLimit > MAX_RESERVED
    requires m.disk.receipts == receipts[ra.operation := ra][rb.operation := rb]
    requires forall id :: id in receipts ==> !CoveredBy(DiskBarrier(m.disk), id)
    requires !CoveredBy(DiskBarrier(m.disk), ra.operation) && !CoveredBy(DiskBarrier(m.disk), rb.operation)
    ensures !Roomy(m)
  {
    hide Total, Limits, Covers;
    BothCounted(receipts, ra, rb);
    assert Kept(m.disk) == m.disk.receipts;
  }

  /** Two admissible starts whose reservations do not fit together: if the first fails after its
      write committed, the second is still admitted, and after a crash no opening ever succeeds. */
  lemma FailedStartCanBlockReopening(m: Machine, a: Request, b: Request, nowA: int, nowB: int)
    requires Inv(m) && m.memory.Some?
    requires m.disk.receipts.Keys == m.memory.value.receipts.Keys
    requires a.operation != b.operation
    requires a.operation !in m.memory.value.receipts && b.operation !in m.memory.value.receipts
    requires StartStep(m, a, nowA, FailedNew).0 != m && StartStep(m, b, nowB, Synced).1.Some?
    requires Total(Limits(m.memory.value.receipts)) + a.outputLimit + b.outputLimit > MAX_RESERVED
    ensures var m2 := StartStep(StartStep(m, a, nowA, FailedNew).0, b, nowB, Synced).0;
            && m2.memory.Some? && b.operation in m2.memory.value.receipts
            && forall events :: Run(m2.(memory := None), events).memory.None?
  {
    hide StartStep, Step, Run, Inv, Total, Limits, Covers, Roomy;
    var m1 := StartStep(m, a, nowA, FailedNew).0;
    var m2 := StartStep(m1, b, nowB, Synced).0;
    var closed := m2.(memory := None);
    StartKeepsInv(m, a, nowA, FailedNew);
    StartKeepsInv(m1, b, nowB, Synced);
    CrashKeepsInv(m2);
    TwoStarts(m, a, b, nowA, nowB);
    IdleUncovered(m);
    IdleMirrors(m);
    OvercommittedIsCramped(m.disk.receipts, closed, Intent(m.context, a), Intent(m.context, b));
    forall events
      ensures Run(closed, events).memory.None?
    {
      CrampedForever(closed, events);
    }
  }

  lemma IdleUncovered(m: Machine)
    requires Inv(m) && m.memory.Some? && !m.memory.value.failed
    ensures m.disk.binding.Some? && m.memory.value.barrier == DiskBarrier(m.disk)
    ensures forall id :: id in m.disk.receipts ==> !CoveredBy(m.memory.value.barrier, id)
  {
    hide DiskInv, Admitted, ActiveFits, Bounded, Mirrored;
  }

  lemma IdleMirrors(m: Machine)
    requires Inv(m) && m.memory.Some? && !m.memory.value.failed && m.memory.value.active.None?
    requires m.disk.receipts.Keys == m.memory.value.receipts.Keys
    ensures m.disk.receipts == m.memory.value.receipts
  {
    var reg := m.memory.value;
    forall id | id in reg.receipts
      ensures m.disk.receipts[id] == reg.receipts[id]
    {
      assert MirroredAt(m, reg, id) by {
        hide DiskInv, Admitted, ActiveFits, Bounded, MirroredAt;
      }
      assert reg.receipts[id].state.Terminal() by {
        hide DiskInv, Admitted, InStep, Bounded;
      }
    }
    hide Inv;
  }

  // --- such a run from an empty directory ---

  // A runner at rest that holds these receipts and nothing else.
  function Resting(context: Context, receipts: map<Uuid, Receipt>): Machine {
    Machine(context, Disk(Some(Legacy(context)), receipts), {}, {},
            Some(Registry(None, receipts, None, false, false)), [])
  }

  function LateCommand(r: Request, now: int): seq<Event> {
    [Start(r, now, Synced), Check(r.deadline), Finish(Reported(TimedOut, None, None, []), true, Synced)]
  }

  function Late(context: Context, r: Request): Receipt {
    Intent(context, r).(state := TimedOut, cleanupConfirmed := true)
  }

  predicate Wanted(r: Request, now: int) {
    r.wellFormed && 1 <= r.outputLimit <= Capture.MAX_OUTPUT && 0 < r.deadline - now <= LONGEST_MS
  }

  // A command that is past its deadline at its check ends resolved without having run.
  lemma LateCommandRests(context: Context, receipts: map<Uuid, Receipt>, r: Request, now: int)
    requires Wanted(r, now) && r.operation !in receipts && |receipts| < MAX_RECORDS
    requires Total(Limits(receipts)) + r.outputLimit <= MAX_RESERVED
    ensures Run(Resting(context, receipts), LateCommand(r, now)) ==
            Resting(context, receipts[r.operation := Late(context, r)])
  {
    hide Total, Limits;
    var start, check, finish := LateCommand(r, now)[0], LateCommand(r, now)[1], LateCommand(r, now)[2];
    var m := Resting(context, receipts);
    var intent := Intent(context, r);
    var started := Step(m, start);
    assert started == m.(disk := m.disk.(receipts := receipts[r.operation := intent]),
                         memory := Some(Registry(None, receipts[r.operation := intent],
                                                 Some(Active(r.operation, Pending, false, [])), false, false)));
    var checked := Step(started, check);
    assert checked == started.(memory :=
      Some(started.memory.value.(active := Some(Active(r.operation, Refused(TimedOut), false, [])))));
    assert Captured(intent, []) == Capture.Start(r.outputLimit);
    assert [] + finish.outcome.captures == [];
    assert Final(checked.memory.value.active.value, intent, finish.outcome, true) == Late(context, r);
    var done := Step(checked, finish);
    assert receipts[r.operation := intent][r.operation := Late(context, r)]
      == receipts[r.operation := Late(context, r)];
    assert done == Resting(context, receipts[r.operation := Late(context, r)]);
    RunsThree(m, start, check, finish);
  }

  // One more resolved command of 16 MiB.
  lemma OneMoreRests(context: Context, receipts: map<Uuid, Receipt>, r: Request, now: int)
    requires Wanted(r, now) && r.outputLimit == 16 * 1024 * 1024 && r.operation !in receipts && |receipts| <= 2
    requires Total(Limits(receipts)) == |receipts| * 0x100_0000 && Inv(Resting(context, receipts))
    ensures var more := receipts[r.operation := Late(context, r)];
            && Run(Resting(context, receipts), LateCommand(r, now)) == Resting(context, more)
            && |more| == |receipts| + 1 && Total(Limits(more)) == |more| * 0x100_0000
            && Inv(Resting(context, more))
  {
    assert Late(context, r).outputLimit == r.outputLimit;
    hide *;
    LateCommandRests(context, receipts, r, now);
    RunKeepsInv(Resting(context, receipts), LateCommand(r, now));
    LimitsGrow(receipts, r.operation, Late(context, r));
    SizeGrows(receipts, r.operation, Late(context, r));
  }

  function FirstThree(context: Context, r: seq<Request>): map<Uuid, Receipt>
    requires |r| >= 3
  {
    map[][r[0].operation := Late(context, r[0])][r[1].operation := Late(context, r[1])]
         [r[2].operation := Late(context, r[2])]
  }

  lemma ThreeRest(context: Context, now: int, r: seq<Request>)
    requires context.Validated() && |r| == 5
    requires forall i :: 0 <= i < 5 ==> Wanted(r[i], now) && r[i].outputLimit == 16 * 1024 * 1024
    requires forall i, j :: 0 <= i < j < 5 ==> r[i].operation != r[j].operation
    ensures var three := FirstThree(context, r);
            && Run(Run(Run(Run(Fresh(), [Opening(context)]),
                           LateCommand(r[0], now)), LateCommand(r[1], now)), LateCommand(r[2], now))
               == Resting(context, three)
            && |three| == 3 && Total(Limits(three)) == 48 * 1024 * 1024 && Inv(Resting(context, three))
  {
    hide *;
    FirstRests(context);
    var one := map[][r[0].operation := Late(context, r[0])];
    var two := one[r[1].operation := Late(context, r[1])];
    OneMoreRests(context, map[], r[0], now);
    OneMoreRests(context, one, r[1], now);
    OneMoreRests(context, two, r[2], now);
    FirstThreeIs(context, r);
  }

  lemma FirstRests(context: Context)
    requires context.Validated()
    ensures Run(Fresh(), [Opening(context)]) == Resting(context, map[])
    ensures Inv(Resting(context, map[])) && Total(Limits(map[])) == 0
  {
    var opening := [Opening(context)];
    OpenedFirst(context);
    FreshInv();
    assert Limits(map[]) == map[];
    hide Inv, Step;
    assert Run(Fresh(), opening) == Run(Step(Fresh(), opening[0]), []);
    RunKeepsInv(Fresh(), opening);
  }

  lemma FirstThreeIs(context: Context, r: seq<Request>)
    requires |r| == 5
    ensures FirstThree(context, r) ==
            map[][r[0].operation := Late(context, r[0])][r[1].operation := Late(context, r[1])]
                 [r[2].operation := Late(context, r[2])]
    ensures FirstThree(context, r).Keys == {r[0].operation, r[1].operation, r[2].operation}
  {}

  /** From an empty directory: three commands of 16 MiB that end resolved, a fourth whose write
      fails after committing, and a fifth that is admitted, since the registry counts four times
      16 MiB. After a crash no opening ever succeeds, since the disk holds five. */
  lemma FiveCommandsCanBlockReopening(context: Context, now: int, r: seq<Request>)
    requires context.Validated() && |r| == 5
    requires forall i :: 0 <= i < 5 ==> Wanted(r[i], now) && r[i].outputLimit == 16 * 1024 * 1024
    requires forall i, j :: 0 <= i < j < 5 ==> r[i].operation != r[j].operation
    ensures var m := Run(Run(Run(Run(Fresh(), [Opening(context)]),
                                 LateCommand(r[0], now)), LateCommand(r[1], now)), LateCommand(r[2], now));
            var (left, refused) := StartStep(m, r[3], now, FailedNew);
            var (full, admitted) := StartStep(left, r[4], now, Synced);
            && refused.None? && admitted.Some?
            && forall events :: Run(full.(memory := None), events).memory.None?
  {
    hide Run, Inv, Total, Limits, StartStep, Step, LateCommand, Late, FirstThree;
    ThreeRest(context, now, r);
    FirstThreeIs(context, r);
    var three := FirstThree(context, r);
    var m := Resting(context, three);
    AdmittedUnaware(context, three, r[3], r[4], now);
    FailedStartCanBlockReopening(m, r[3], r[4], now, now);
  }

  lemma AdmittedUnaware(context: Context, receipts: map<Uuid, Receipt>, a: Request, b: Request, now: int)
    requires Wanted(a, now) && Wanted(b, now) && a.operation != b.operation
    requires a.operation !in receipts && b.operation !in receipts && |receipts| < MAX_RECORDS
    requires Total(Limits(receipts)) + a.outputLimit <= MAX_RESERVED
      && Total(Limits(receipts)) + b.outputLimit <= MAX_RESERVED
    ensures var m := Resting(context, receipts);
            var (left, refused) := StartStep(m, a, now, FailedNew);
            && left != m && refused.None?
            && StartStep(m, b, now, Synced).1.Some? && StartStep(left, b, now, Synced).1.Some?
  {
    hide Total, Limits;
    var m := Resting(context, receipts);
    assert StartStep(m, a, now, FailedNew).0
      == m.(disk := m.disk.(receipts := receipts[a.operation := Intent(context, a)]));
  }
}
