/** The promises of the guest runner over whole runs: any sequence of requests, failed writes,
    crashes and reopenings, from an empty state directory. */
module RunnerRuns {
  import opened Wrappers
  import opened OperationIds
  import opened Totals
  import opened RunnerModel
  import opened RunnerSafety
  import opened RunnerRecovery

  // --- what one step does to the durable receipts ---

  ghost predicate Evolves(m: Machine, before: Receipt, after: Receipt) {
    || Mended(before, after)
    || (!before.state.Terminal() && (after.digest == before.digest || !IsLaunched(m, before.operation)))
  }

  // A receipt only goes behind the barrier, and only when nothing is left to resolve.
  ghost predicate DiskStep(m: Machine, m': Machine) {
    && (forall id :: id in m.disk.receipts ==>
          if id in m'.disk.receipts then Evolves(m, m.disk.receipts[id], m'.disk.receipts[id])
          else CoveredBy(DiskBarrier(m'.disk), id) && Retirable(m, m.disk.receipts[id]))
    && (forall id :: id in m'.disk.receipts && id !in m.disk.receipts ==> !CoveredBy(DiskBarrier(m'.disk), id))
    && (forall id :: CoveredBy(DiskBarrier(m.disk), id) ==> CoveredBy(DiskBarrier(m'.disk), id))
    && m.launches <= m'.launches
  }

  lemma SameDiskSteps(m: Machine, m': Machine)
    requires m'.disk == m.disk && m.launches <= m'.launches
    ensures DiskStep(m, m')
  {}

  lemma PutSteps(m: Machine, r: Receipt, w: Write, m': Machine)
    requires m'.disk == PutReceipt(m.disk, r, w) && m'.launches == m.launches
    requires !CoveredBy(DiskBarrier(m.disk), r.operation)
    requires r.operation in m.disk.receipts ==> Evolves(m, m.disk.receipts[r.operation], r)
    ensures DiskStep(m, m')
  {
    hide IsLaunched, Covers, Retirable;
  }

  lemma StartSteps(m: Machine, r: Request, now: int, w: Write)
    requires Inv(m)
    ensures DiskStep(m, StartStep(m, r, now, w).0)
  {
    var m' := StartStep(m, r, now, w).0;
    if m' == m {
      SameDiskSteps(m, m');
    } else {
      var intent := Intent(m.context, r);
      forall l | l in m.launches
        ensures l.operation != r.operation
      {
        StartIsNew(m, r, now, w, l);
      }
      assert m'.disk == PutReceipt(m.disk, intent, w);
      if r.operation in m.disk.receipts {
        assert ReceiptFits(m, r.operation, m.disk.receipts[r.operation]);
      }
      hide DiskInv, ActiveFits, Admitted, Bounded, Total, Receipt.Validated;
      PutSteps(m, intent, w, m');
    }
    hide *;
  }

  // The active command's receipt on disk is still a launch intent.
  lemma ActiveSteps(m: Machine, r: Receipt, w: Write, m': Machine)
    requires Inv(m) && m.memory.Some? && m.memory.value.active.Some?
    requires m.memory.value.active.value.operation == r.operation
    requires r.operation in m.memory.value.receipts && r.digest == m.memory.value.receipts[r.operation].digest
    requires m'.disk == PutReceipt(m.disk, r, w) && m'.launches == m.launches
    ensures DiskStep(m, m')
  {
    ActiveFacts(m);
    hide Inv, Receipt.Validated;
    PutSteps(m, r, w, m');
    hide *;
  }

  lemma UnsettledIsActive(m: Machine, id: Uuid)
    requires Inv(m) && m.memory.Some? && id in m.memory.value.receipts && !m.memory.value.receipts[id].state.Terminal()
    ensures m.memory.value.receipts[id].operation == id
    ensures m.memory.value.active.Some? && m.memory.value.active.value.operation == id
  {
    hide DiskInv, InStep, Bounded;
    assert ReceiptFits(m, id, m.memory.value.receipts[id]);
  }

  lemma CancelSteps(m: Machine, id: Uuid, w: Write)
    requires Inv(m)
    ensures DiskStep(m, CancelStep(m, id, w).0)
  {
    var m' := CancelStep(m, id, w).0;
    if m' == m {
      SameDiskSteps(m, m');
    } else {
      UnsettledIsActive(m, id);
      var r := m.memory.value.receipts[id].(cancelRequested := true);
      assert m'.disk == PutReceipt(m.disk, r, w);
      hide Inv;
      ActiveSteps(m, r, w, m');
    }
    hide *;
  }

  lemma FinishSteps(m: Machine, o: Outcome, cleaned: bool, w: Write)
    requires Inv(m)
    ensures DiskStep(m, FinishStep(m, o, cleaned, w))
  {
    var m' := FinishStep(m, o, cleaned, w);
    if m' == m {
      SameDiskSteps(m, m');
    } else {
      FinalFits(m, o, cleaned);
      var a := m.memory.value.active.value;
      var final := Final(a, m.memory.value.receipts[a.operation], o, cleaned);
      assert m'.disk == PutReceipt(m.disk, final, w);
      hide Inv, Plausible, Final, Receipt.Validated;
      ActiveSteps(m, final, w, m');
    }
    hide *;
  }

  lemma RetireSteps(m: Machine, requested: Barrier, w: Write, p: Prune)
    requires Inv(m)
    ensures DiskStep(m, RetireStep(m, requested, w, p).0)
  {
    var m' := RetireStep(m, requested, w, p).0;
    if m' == m {
      SameDiskSteps(m, m');
    } else {
      RetireFacts(m, requested, w, p);
      RetireShape(m, requested, w, p);
      RetireCases(m, requested, w, p);
      forall id | id in m.disk.receipts && id !in m'.disk.receipts
        ensures CoveredBy(DiskBarrier(m'.disk), id) && Retirable(m, m.disk.receipts[id])
      {
        CoveredRetirable(m, requested, w, p, id);
      }
      hide RetireStep, Inv, Retirable, Prunable, IsLaunched, Receipt.Validated, Covers;
    }
  }

  lemma LoadSteps(
      m: Machine, barrier: Option<Barrier>, order: seq<Entry>, repairs: map<Uuid, Repair>, stuck: set<Uuid>)
    ensures var m' := LoadStep(m, barrier, order, repairs, stuck);
            && m'.launches == m.launches && m'.disk.binding == m.disk.binding
            && m'.disk.receipts.Keys == m.disk.receipts.Keys
            && forall id :: id in m.disk.receipts ==> Mended(m.disk.receipts[id], m'.disk.receipts[id])
  {
    if Listing(order, m.disk, m.side) {
      RecoverStarts(m, order, repairs, stuck);
    }
    hide Recover, LoadedRight, Mended, Listing, Crowded, Total, Limits;
  }

  // What an opening has done to the state directory before it reads the receipts.
  function Prepared(m: Machine, contextWrite: Write, prune: Prune): Machine {
    if m.disk.binding.None?
    then m.(disk := PutBinding(m.disk, Legacy(m.context), contextWrite), side := Littered(m.side, contextWrite))
    else
      match DiskBarrier(m.disk)
      case None => m
      case Some(b) => m.(disk := Pruned(m.disk, b, prune), side := PrunedSide(m.side, b, prune))
  }

  lemma OpenCases(
      m: Machine, contextWrite: Write, prune: Prune, order: seq<Entry>, repairs: map<Uuid, Repair>, stuck: set<Uuid>)
    ensures var m' := OpenAs(m, contextWrite, prune, order, repairs, stuck);
            var ready := Prepared(m, contextWrite, prune);
            || m' == m
            || m' == ready
            || (ready.disk.binding.Some?
                && m' == LoadStep(ready, DiskBarrier(ready.disk), order, repairs, stuck))
  {
    hide LoadStep, Prunable, Crowded, EntryCount, Context.Validated, Barrier.Validated;
  }

  lemma OpenAsSteps(
      m: Machine, contextWrite: Write, prune: Prune, order: seq<Entry>, repairs: map<Uuid, Repair>, stuck: set<Uuid>)
    requires Ready(m)
    ensures DiskStep(m, OpenAs(m, contextWrite, prune, order, repairs, stuck))
  {
    var ready := Prepared(m, contextWrite, prune);
    OpenCases(m, contextWrite, prune, order, repairs, stuck);
    LoadSteps(ready, DiskBarrier(ready.disk), order, repairs, stuck);
    PreparedSteps(m, contextWrite, prune);
    SameDiskSteps(m, m);
    MendedSteps(m, ready, LoadStep(ready, DiskBarrier(ready.disk), order, repairs, stuck));
    hide *;
  }

  // The context makes no difference to what may become of the receipts.
  lemma StepsIgnoreContext(m: Machine, context: Context, m': Machine)
    requires DiskStep(m.(context := context), m')
    ensures DiskStep(m, m')
  {
    SameLaunchesAll(m, m.(context := context));
    hide IsLaunched, Covers, Mended, Receipt.Resolved;
  }

  lemma OpenSteps(
      m: Machine, caller: Caller, contextWrite: Write, prune: Prune, order: seq<Entry>, repairs: map<Uuid, Repair>,
      stuck: set<Uuid>)
    requires Inv(m)
    ensures DiskStep(m, OpenStep(m, caller, contextWrite, prune, order, repairs, stuck))
  {
    hide Inv, OpenAs, Welcome, DiskStep, Ready;
    if m.memory.None? && Welcome(m.disk, caller) {
      var configured := m.(context := caller.context);
      Configured(m, caller);
      OpenAsSteps(configured, contextWrite, prune, order, repairs, stuck);
      StepsIgnoreContext(m, caller.context, OpenAs(configured, contextWrite, prune, order, repairs, stuck));
    } else {
      SameDiskSteps(m, m);
    }
  }

  lemma MendedSteps(m: Machine, ready: Machine, m': Machine)
    requires DiskStep(m, ready) && ready.launches == m.launches
    requires forall id :: id in ready.disk.receipts ==>
      id in m.disk.receipts && ready.disk.receipts[id] == m.disk.receipts[id]
    requires m'.disk.binding == ready.disk.binding && m'.launches == ready.launches
    requires m'.disk.receipts.Keys == ready.disk.receipts.Keys
    requires forall id :: id in ready.disk.receipts ==> Mended(ready.disk.receipts[id], m'.disk.receipts[id])
    ensures DiskStep(m, m')
  {
    hide IsLaunched, Receipt.Validated, Covers, Mended, Retirable;
  }

  lemma PreparedSteps(m: Machine, contextWrite: Write, prune: Prune)
    requires Inv(m)
    ensures var ready := Prepared(m, contextWrite, prune);
            && DiskStep(m, ready) && ready.launches == m.launches
            && (forall id :: id in ready.disk.receipts ==>
                  id in m.disk.receipts && ready.disk.receipts[id] == m.disk.receipts[id])
  {
    hide IsLaunched, Receipt.Validated, Covers, Retirable, Littered, PrunedSide, MemoryInv;
  }

  lemma StepIsDiskStep(m: Machine, e: Event)
    requires Inv(m)
    ensures DiskStep(m, Step(m, e))
  {
    match e
    case Open(caller, contextWrite, prune, order, repairs, stuck) =>
      OpenSteps(m, caller, contextWrite, prune, order, repairs, stuck);
    case Start(request, now, write) => StartSteps(m, request, now, write);
    case Check(now) => SameDiskSteps(m, CheckStep(m, now));
    case Spawn(reach) => SameDiskSteps(m, SpawnStep(m, reach));
    case CancelCommand(id, write) => CancelSteps(m, id, write);
    case PublishOutput(captures) => SameDiskSteps(m, PublishStep(m, captures));
    case WriteReport(id) => SameDiskSteps(m, ReportStep(m, id));
    case Finish(outcome, cleaned, write) => FinishSteps(m, outcome, cleaned, write);
    case Retire(requested, write, prune) => RetireSteps(m, requested, write, prune);
    case Close => SameDiskSteps(m, Step(m, e));
    case Crash => SameDiskSteps(m, Step(m, e));
    hide DiskStep, OpenStep, StartStep, CancelStep, FinishStep, RetireStep;
  }

  // --- every run ---

  // No operation is launched twice, and each launch stays accounted for under its digest.
  lemma LaunchedAtMostOnce(events: seq<Event>)
    ensures var m := Run(Fresh(), events);
            && (forall i, j :: 0 <= i < j < |m.launches| ==> m.launches[i].operation != m.launches[j].operation)
            && (forall l :: l in m.launches ==> Receipted(m, l))
  {
    FreshInv();
    RunKeepsInv(Fresh(), events);
    hide Run;
  }

  lemma {:induction false} BarrierOnlyGrows(m: Machine, events: seq<Event>, id: Uuid)
    requires Inv(m) && CoveredBy(DiskBarrier(m.disk), id)
    ensures CoveredBy(DiskBarrier(Run(m, events).disk), id)
    ensures id !in m.disk.receipts ==> id !in Run(m, events).disk.receipts
    decreases |events|
  {
    if events != [] {
      StepIsDiskStep(m, events[0]);
      StepKeepsInv(m, events[0]);
      hide Inv, Step;
      BarrierOnlyGrows(Step(m, events[0]), events[1..], id);
    }
  }

  // A settled receipt is never rewritten; it leaves the disk only resolved and for good.
  lemma {:induction false} SettledIsFinal(m: Machine, events: seq<Event>, id: Uuid)
    requires Inv(m) && id in m.disk.receipts && m.disk.receipts[id].Settled()
    ensures var m' := Run(m, events);
            if id in m'.disk.receipts then m'.disk.receipts[id] == m.disk.receipts[id]
            else m.disk.receipts[id].Resolved() && CoveredBy(DiskBarrier(m'.disk), id)
    decreases |events|
  {
    if events != [] {
      StepIsDiskStep(m, events[0]);
      StepKeepsInv(m, events[0]);
      hide Inv, Step;
      var next := Step(m, events[0]);
      if id in next.disk.receipts {
        SettledIsFinal(next, events[1..], id);
      } else {
        BarrierOnlyGrows(next, events[1..], id);
      }
    }
  }

  // An unknown outcome is never retired and never becomes known.
  lemma {:induction false} UnknownIsNeverRetired(m: Machine, events: seq<Event>, id: Uuid)
    requires Inv(m) && id in m.disk.receipts && m.disk.receipts[id].state == Unknown
    ensures var m' := Run(m, events); id in m'.disk.receipts && m'.disk.receipts[id].state == Unknown
    decreases |events|
  {
    if events != [] {
      StepIsDiskStep(m, events[0]);
      StepKeepsInv(m, events[0]);
      hide Inv, Step;
      UnknownIsNeverRetired(Step(m, events[0]), events[1..], id);
    }
  }

  // One step keeps a launch's receipt, under its digest, or takes it resolved.
  lemma LaunchStaysOrWasResolved(m: Machine, e: Event, l: Launch)
    requires Inv(m) && l in m.launches && l.operation in m.disk.receipts
    requires m.disk.receipts[l.operation].digest == l.digest
    ensures var next := Step(m, e);
            && Inv(next) && l in next.launches
            && (if l.operation in next.disk.receipts then next.disk.receipts[l.operation].digest == l.digest
                else m.disk.receipts[l.operation].Resolved())
  {
    StepIsDiskStep(m, e);
    StepKeepsInv(m, e);
    IsLaunchedHas(m, l);
    assert m.disk.receipts[l.operation].operation == l.operation by {
      assert ReceiptFits(m, l.operation, m.disk.receipts[l.operation]);
    }
    hide Inv, Step, Receipt.Validated, IsLaunched, Covers;
  }

  // Before a launch's receipt disappears it stood resolved on disk under the launch's digest.
  lemma {:induction false} LaunchIsRetiredOnlyResolved(m: Machine, events: seq<Event>, l: Launch) returns (k: nat)
    requires Inv(m) && l in m.launches && l.operation in m.disk.receipts
    requires m.disk.receipts[l.operation].digest == l.digest
    requires l.operation !in Run(m, events).disk.receipts
    ensures k < |events|
    ensures var n := Run(m, events[..k]);
            l.operation in n.disk.receipts && n.disk.receipts[l.operation].Resolved()
            && n.disk.receipts[l.operation].digest == l.digest
    decreases |events|
  {
    var next := Step(m, events[0]);
    var id := l.operation;
    LaunchStaysOrWasResolved(m, events[0], l);
    hide Inv, Step, Receipt.Resolved;
    if id in next.disk.receipts {
      k := LaunchIsRetiredOnlyResolved(next, events[1..], l);
      assert events[..k + 1][1..] == events[1..][..k];
      k := k + 1;
    } else {
      k := 0;
    }
  }

  // --- receipts retirement can take without confirmed cleanup ---

  // Acknowledged retirement takes an unresolved receipt exactly when it covers one the
  // registry never admitted; such an operation was never launched.
  lemma UnresolvedIsRetiredExactlyWhenUnknownToTheRegistry(m: Machine, requested: Barrier, w: Write, p: Prune, id: Uuid)
    requires Inv(m) && id in m.disk.receipts
    requires RetireStep(m, requested, w, p).0 != m && RetireStep(m, requested, w, p).1.Some?
    ensures id !in RetireStep(m, requested, w, p).0.disk.receipts && !m.disk.receipts[id].Resolved()
      <==> Covers(requested.through, id) && id !in m.memory.value.receipts
    ensures Covers(requested.through, id) && id !in m.memory.value.receipts ==>
      m.disk.receipts[id].state == LaunchIntent && !IsLaunched(m, id)
  {
    RetireCases(m, requested, w, p);
    assert m.disk.receipts[id].operation == id by {
      assert ReceiptFits(m, id, m.disk.receipts[id]);
    }
    if Covers(requested.through, id) {
      CoveredRetirable(m, requested, w, p, id);
    }
    hide Inv, Prunable, IsLaunched, Receipt.Validated, Covers;
  }

  // An opening for a context that names this boot, of an empty state directory, in which nothing
  // fails.
  function Opening(context: Context): Event {
    Open(Caller(context, context.bootId), Synced, PruneAll, [], map[], {})
  }

  lemma OpenedFirst(context: Context)
    requires context.Validated()
    ensures Step(Fresh(), Opening(context)) ==
            Machine(context, Disk(Some(Legacy(context)), map[]), {}, {},
                    Some(Registry(None, map[], None, false, false)), [])
  {}

  // A start whose write failed after committing leaves such a receipt behind.
  lemma FailedStartCanBeRetired(context: Context, r: Request, now: int, b: Barrier)
    requires context.Validated() && b.Validated(context) && Covers(b.through, r.operation)
    requires r.wellFormed && 1 <= r.outputLimit <= 16 * 1024 * 1024 && 0 < r.deadline - now <= LONGEST_MS
    ensures var ready := Step(Fresh(), Opening(context));
            var started := Step(ready, Start(r, now, FailedNew));
            var retired := RetireStep(started, b, Synced, PruneAll);
            && r.operation in started.disk.receipts
            && started.disk.receipts[r.operation].state == LaunchIntent
            && !started.disk.receipts[r.operation].cleanupConfirmed
            && retired.1 == Some(b)
            && r.operation !in retired.0.disk.receipts
  {
    var ready := Step(Fresh(), Opening(context));
    OpenedFirst(context);
    var started := Step(ready, Start(r, now, FailedNew));
    assert started == ready.(disk := ready.disk.(receipts := map[r.operation := Intent(context, r)])) by {
      assert Limits(map[]) == map[];
    }
  }

  // --- requests that can no longer launch ---

  lemma LaunchedNeverRestarts(m: Machine, r: Request, now: int, w: Write, l: Launch)
    requires Inv(m) && l in m.launches && l.operation == r.operation
    ensures StartStep(m, r, now, w).0 == m
    ensures StartStep(m, r, now, w).1.Some? ==>
      r.digest == l.digest && StartStep(m, r, now, w).1.value.digest == l.digest
  {
    if StartStep(m, r, now, w).0 != m {
      StartIsNew(m, r, now, w, l);
    }
    if m.memory.Some? {
      assert Known(m.memory.value, l);
    }
    hide DiskInv, ActiveFits, Bounded, InStep, Admissible, Receipt.Validated;
  }

  // Cancelled before its check: signalled or refused while active, settled or retired afterwards.
  ghost predicate Barred(m: Machine, id: Uuid) {
    && !IsLaunched(m, id)
    && (CoveredBy(DiskBarrier(m.disk), id) || id in m.disk.receipts)
    && (m.memory.Some? ==> BarredIn(m.memory.value, id))
  }

  predicate BarredIn(reg: Registry, id: Uuid) {
    || (CoveredBy(reg.barrier, id) && !(reg.active.Some? && reg.active.value.operation == id))
    || (id in reg.receipts
        && (reg.active.Some? && reg.active.value.operation == id ==>
              !reg.active.value.phase.Checked? && (reg.active.value.phase.Pending? ==> reg.active.value.signalled)))
  }

  lemma SpawnBarred(m: Machine, reach: Reach, id: Uuid)
    requires Inv(m) && Barred(m, id)
    ensures Barred(SpawnStep(m, reach), id)
  {
    var m' := SpawnStep(m, reach);
    if m' != m {
      assert m.memory.value.active.value.operation != id;
      forall i | 0 <= i < |m'.launches|
        ensures m'.launches[i].operation != id
      {
        if i < |m.launches| {
          assert m'.launches[i] == m.launches[i];
        }
      }
    }
    hide Inv, Covers;
  }

  lemma OpenAsBarred(
      m: Machine, contextWrite: Write, prune: Prune, order: seq<Entry>, repairs: map<Uuid, Repair>, stuck: set<Uuid>,
      id: Uuid)
    requires Ready(m) && Barred(m, id)
    ensures Barred(OpenAs(m, contextWrite, prune, order, repairs, stuck), id)
  {
    var m' := OpenAs(m, contextWrite, prune, order, repairs, stuck);
    OpenAsSteps(m, contextWrite, prune, order, repairs, stuck);
    if m'.memory.Some? {
      OpenedRegistry(m, contextWrite, prune, order, repairs, stuck);
    }
    OpenCases(m, contextWrite, prune, order, repairs, stuck);
    LoadSteps(Prepared(m, contextWrite, prune), DiskBarrier(Prepared(m, contextWrite, prune).disk), order, repairs,
      stuck);
    hide OpenAs, LoadStep, Inv, Covers, Retirable, Mended;
    assert m'.launches == m.launches;
    hide Prepared;
  }

  lemma OpenBarred(
      m: Machine, caller: Caller, contextWrite: Write, prune: Prune, order: seq<Entry>, repairs: map<Uuid, Repair>,
      stuck: set<Uuid>, id: Uuid)
    requires Inv(m) && Barred(m, id)
    ensures Barred(OpenStep(m, caller, contextWrite, prune, order, repairs, stuck), id)
  {
    hide Inv, OpenAs, Welcome, Ready, Covers;
    if m.memory.None? && Welcome(m.disk, caller) {
      var configured := m.(context := caller.context);
      Configured(m, caller);
      SameLaunchesAll(m, configured);
      OpenAsBarred(configured, contextWrite, prune, order, repairs, stuck, id);
    }
  }

  // A runner that opened knows every receipt on disk.
  lemma OpenedRegistry(
      m: Machine, contextWrite: Write, prune: Prune, order: seq<Entry>, repairs: map<Uuid, Repair>, stuck: set<Uuid>)
    requires Ready(m) && OpenAs(m, contextWrite, prune, order, repairs, stuck).memory.Some?
    ensures var m' := OpenAs(m, contextWrite, prune, order, repairs, stuck);
            m'.memory.value.receipts.Keys == m'.disk.receipts.Keys && !m'.memory.value.failed
            && m'.memory.value.barrier == DiskBarrier(m'.disk) && m'.memory.value.active.None? && m'.groups == {}
  {
    var ready := Prepared(m, contextWrite, prune);
    OpenCases(m, contextWrite, prune, order, repairs, stuck);
    LoadedRegistry(ready, DiskBarrier(ready.disk), order, repairs, stuck);
    hide OpenAs, LoadStep, Inv, Covers;
  }

  lemma LoadedRegistry(
      m: Machine, barrier: Option<Barrier>, order: seq<Entry>, repairs: map<Uuid, Repair>, stuck: set<Uuid>)
    requires m.memory.None?
    ensures var m' := LoadStep(m, barrier, order, repairs, stuck);
            && m'.disk.binding == m.disk.binding
            && (m'.memory.Some? ==>
                  && m'.memory.value.receipts.Keys == m'.disk.receipts.Keys && !m'.memory.value.failed
                  && m'.memory.value.barrier == barrier && m'.memory.value.active.None? && m'.groups == {})
  {
    if Listing(order, m.disk, m.side) {
      RecoverStarts(m, order, repairs, stuck);
      var r := Recover(m.context, Recovery(m.disk, m.side, m.groups, map[], true), order, repairs, stuck);
      if r.ok {
        assert r.loaded.Keys == r.disk.receipts.Keys by {
          forall id | id in r.loaded
            ensures id in r.disk.receipts
          {
            assert LoadedRight(m.context, r, id);
          }
        }
      }
    }
    hide Recover, LoadedRight, Mended, Listing, Crowded, Total, Limits;
  }

  lemma MemoryBarred(m: Machine, e: Event, id: Uuid)
    requires Inv(m) && Barred(m, id) && m.memory.Some?
    requires !e.Open? && !e.Spawn? && !e.WriteReport? && !e.Retire? && !e.Crash?
    ensures Step(m, e).memory.Some? && BarredIn(Step(m, e).memory.value, id)
    ensures Step(m, e).launches == m.launches
  {
    hide Inv, Covers, Admissible, Plausible, Final, Captured, IsLaunched, Receipt.Validated;
  }

  lemma RetireBarred(m: Machine, requested: Barrier, w: Write, p: Prune, id: Uuid)
    requires Inv(m) && Barred(m, id)
    ensures Barred(RetireStep(m, requested, w, p).0, id)
  {
    var m' := RetireStep(m, requested, w, p).0;
    hide RetireStep, Inv, Retirable, Prunable, Crowded, Covers, Evolves, Barrier.Validated, Receipt.Resolved;
    if m' != m {
      RetireFacts(m, requested, w, p);
      RetireShape(m, requested, w, p);
      RetireSteps(m, requested, w, p);
      SameLaunchesAll(m, m');
      hide IsLaunched;
    }
  }

  lemma SettledIsInactive(m: Machine, id: Uuid)
    requires Inv(m) && m.memory.Some? && id in m.memory.value.receipts && m.memory.value.receipts[id].state.Terminal()
    ensures !(m.memory.value.active.Some? && m.memory.value.active.value.operation == id)
  {
    hide DiskInv, InStep, Admitted, Bounded;
  }

  lemma StepBarred(m: Machine, e: Event, id: Uuid)
    requires Inv(m) && Barred(m, id)
    ensures Barred(Step(m, e), id)
  {
    match e
    case Open(caller, contextWrite, prune, order, repairs, stuck) =>
      OpenBarred(m, caller, contextWrite, prune, order, repairs, stuck, id);
    case Spawn(reach) => SpawnBarred(m, reach, id);
    case WriteReport(_) =>
      SameLaunchesAll(m, Step(m, e));
    case Retire(requested, write, prune) => RetireBarred(m, requested, write, prune, id);
    case Crash =>
      SameLaunchesAll(m, Step(m, e));
    case _ =>
      if m.memory.Some? {
        MemoryBarred(m, e, id);
        StepIsDiskStep(m, e);
        SameLaunchesAll(m, Step(m, e));
      }
      hide Inv, IsLaunched, StartStep, CancelStep, PublishStep, FinishStep, BarredIn, Covers;
  }

  lemma {:induction false} RunBarred(m: Machine, events: seq<Event>, id: Uuid)
    requires Inv(m) && Barred(m, id)
    ensures !IsLaunched(Run(m, events), id)
    decreases |events|
  {
    if events != [] {
      StepBarred(m, events[0], id);
      StepKeepsInv(m, events[0]);
      hide Inv, Step, IsLaunched, BarredIn;
      RunBarred(Step(m, events[0]), events[1..], id);
    }
  }

  // The worker of this command has looked at the cancel signal and will not look again.
  predicate PastCheck(m: Machine, id: Uuid) {
    m.memory.Some? && m.memory.value.active.Some? && m.memory.value.active.value.operation == id
    && m.memory.value.active.value.phase.Checked?
  }

  // An acknowledged cancellation that comes before that check rules the launch out for good.
  lemma CancelledBeforeCheckNeverRuns(m: Machine, id: Uuid, w: Write, events: seq<Event>)
    requires Inv(m) && !IsLaunched(m, id) && CancelStep(m, id, w).1.Some? && !PastCheck(m, id)
    ensures !IsLaunched(Run(CancelStep(m, id, w).0, events), id)
  {
    var m' := CancelStep(m, id, w).0;
    var reg := m.memory.value;
    assert Barred(m', id) by {
      SameLaunchesAll(m, m');
      assert ReceiptFits(m, id, reg.receipts[id]) && Backed(m, id);
      if reg.receipts[id].state.Terminal() {
        SettledIsInactive(m, id);
      } else {
        UnsettledIsActive(m, id);
      }
      hide Inv, IsLaunched, Receipt.Validated;
    }
    CancelKeepsInv(m, id, w);
    RunBarred(m', events, id);
    hide *;
  }
}
