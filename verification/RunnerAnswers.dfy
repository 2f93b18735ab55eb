/** What the operations of the guest runner answer, each told without the order of its checks, and
    for how long: a start is remembered, the worker's one check decides, a result is the report. */
module RunnerAnswers {
  import opened Wrappers
  import opened OperationIds
  import opened Totals
  import opened RunnerModel
  import opened RunnerSafety
  import opened RunnerRecovery
  import opened RunnerRuns
  import opened RunnerOutputs
  import opened RunnerWorkspace
  import opened RunnerCancellation
  import Bytes
  import Capture

  // --- start ---

  // Another command fits now: the runner is idle and healthy and has room for the receipt and its
  // output, and the deadline lies within the next six hours.
  ghost predicate HasRoom(reg: Registry, r: Request, now: int) {
    && !reg.closed && !reg.failed && reg.active.None?
    && now < r.deadline <= now + LONGEST_MS
    && |reg.receipts| < MAX_RECORDS && Total(Limits(reg.receipts)) + r.outputLimit <= MAX_RESERVED
  }

  /** The answer to a start. An operation behind the barrier gets none; one that has a receipt gets
      that receipt, exactly under the same digest; any other is admitted exactly if there is room
      and its intent is on disk, and the answer is that intent. */
  lemma StartAnswers(m: Machine, r: Request, now: int, w: Write)
    requires m.memory.Some? && r.wellFormed && 1 <= r.outputLimit <= Capture.MAX_OUTPUT
    ensures var (m', reply) := StartStep(m, r, now, w);
            var reg := m.memory.value;
            if CoveredBy(reg.barrier, r.operation) then reply.None? && m' == m
            else if r.operation in reg.receipts then
              && m' == m
              && (reply.Some? <==> reg.receipts[r.operation].digest == r.digest)
              && (reply.Some? ==> reply.value == reg.receipts[r.operation])
            else
              && (reply.Some? <==> HasRoom(reg, r, now) && w.Synced?)
              && (m' != m ==> HasRoom(reg, r, now))
              && (reply.None? ==> m'.memory == m.memory && m'.launches == m.launches)
              && (reply.Some? ==>
                    var i := reply.value;
                    && i.operation == r.operation && i.digest == r.digest && i.state == LaunchIntent
                    && i.deadline == r.deadline && i.outputLimit == r.outputLimit && i.context == m.context
                    && !i.cancelRequested && !i.cleanupConfirmed && i.exitCode.None? && i.signal.None?
                    && (forall stdout :: OutputOf(i, stdout) == Capture.EMPTY)
                    && m'.disk == m.disk.(receipts := m.disk.receipts[r.operation := i])
                    && m'.memory.Some? && m'.memory.value.receipts == reg.receipts[r.operation := i]
                    && m'.memory.value.active.Some? && m'.memory.value.active.value.operation == r.operation
                    && m'.memory.value.active.value.phase.Pending? && !m'.memory.value.active.value.signalled
                    && m'.launches == m.launches && m'.groups == m.groups)
  {
    hide Covers, Total, Limits;
  }

  // The operation is behind the barrier or has a receipt under the digest, on disk and in memory.
  ghost predicate Remembered(m: Machine, l: Launch) {
    Receipted(m, l) && (m.memory.Some? ==> Known(m.memory.value, l))
  }

  lemma QuietRemembers(m: Machine, m': Machine, l: Launch)
    requires Remembered(m, l) && m'.disk == m.disk
    requires m'.memory.Some? ==>
               m.memory.Some? && m'.memory.value.barrier == m.memory.value.barrier
               && (l.operation in m.memory.value.receipts ==>
                     l.operation in m'.memory.value.receipts
                     && m'.memory.value.receipts[l.operation].digest == m.memory.value.receipts[l.operation].digest)
    ensures Remembered(m', l)
  {
    hide Covers;
  }

  lemma StartRemembers(m: Machine, r: Request, now: int, w: Write, l: Launch)
    requires Inv(m) && Remembered(m, l)
    ensures Remembered(StartStep(m, r, now, w).0, l)
  {
    hide Covers, Total, Limits, Inv;
  }

  lemma StepKeepsDigest(m: Machine, r: Receipt, w: Write, m': Machine, l: Launch)
    requires Inv(m) && Remembered(m, l) && m.memory.Some? && m'.memory.Some?
    requires r.operation in m.memory.value.receipts && r.digest == m.memory.value.receipts[r.operation].digest
    requires m'.disk == PutReceipt(m.disk, r, w) && m'.memory.value.barrier == m.memory.value.barrier
    requires l.operation in m.memory.value.receipts ==>
               l.operation in m'.memory.value.receipts
               && m'.memory.value.receipts[l.operation].digest == m.memory.value.receipts[l.operation].digest
    ensures Remembered(m', l)
  {
    hide Inv, Covers;
    if CoveredBy(m.memory.value.barrier, l.operation) {
      BarrierOnDisk(m, l.operation);
    }
  }

  lemma BarrierOnDisk(m: Machine, id: Uuid)
    requires Inv(m) && m.memory.Some? && CoveredBy(m.memory.value.barrier, id)
    ensures CoveredBy(DiskBarrier(m.disk), id)
  {
    hide DiskInv, ActiveFits, Bounded, InStep;
  }

  lemma CancelRemembers(m: Machine, id: Uuid, w: Write, l: Launch)
    requires Inv(m) && Remembered(m, l)
    ensures Remembered(CancelStep(m, id, w).0, l)
  {
    var m' := CancelStep(m, id, w).0;
    if m' != m {
      var reg := m.memory.value;
      assert reg.receipts[id].operation == id by {
        assert ReceiptFits(m, id, reg.receipts[id]);
      }
      hide Inv, Remembered;
      StepKeepsDigest(m, reg.receipts[id].(cancelRequested := true), w, m', l);
    }
  }

  lemma FinishRemembers(m: Machine, o: Outcome, cleaned: bool, w: Write, l: Launch)
    requires Inv(m) && Remembered(m, l)
    ensures Remembered(FinishStep(m, o, cleaned, w), l)
  {
    var m' := FinishStep(m, o, cleaned, w);
    if m' != m {
      ActiveFacts(m);
      var a := m.memory.value.active.value;
      hide Inv, Remembered, Plausible, Captured, Receipt.Validated, OnDiskAsIntent;
      StepKeepsDigest(m, Final(a, m.memory.value.receipts[a.operation], o, cleaned), w, m', l);
    }
  }

  lemma RetireRemembers(m: Machine, requested: Barrier, w: Write, p: Prune, l: Launch)
    requires Inv(m) && Remembered(m, l)
    ensures Remembered(RetireStep(m, requested, w, p).0, l)
  {
    var m' := RetireStep(m, requested, w, p).0;
    hide RetireStep, Inv, Covers;
    if m' != m {
      RetireShape(m, requested, w, p);
      RetireReachesFurther(m, requested, w, p);
      RetireCoversMore(m, requested, w, p, l.operation);
    }
  }

  lemma RetireCoversMore(m: Machine, requested: Barrier, w: Write, p: Prune, id: Uuid)
    requires Inv(m) && RetireStep(m, requested, w, p).0 != m
    ensures CoveredBy(DiskBarrier(m.disk), id) ==> CoveredBy(DiskBarrier(RetireStep(m, requested, w, p).0.disk), id)
  {
    StepIsDiskStep(m, Retire(requested, w, p));
    hide Inv, RetireStep, Covers, Evolves, Retirable;
  }

  lemma OpenAsRemembers(
      m: Machine, contextWrite: Write, prune: Prune, order: seq<Entry>, repairs: map<Uuid, Repair>, stuck: set<Uuid>,
      l: Launch)
    requires Ready(m) && Remembered(m, l) && m.memory.None?
    ensures Remembered(OpenAs(m, contextWrite, prune, order, repairs, stuck), l)
  {
    var ready := Prepared(m, contextWrite, prune);
    var m' := OpenAs(m, contextWrite, prune, order, repairs, stuck);
    var loaded := LoadStep(ready, DiskBarrier(ready.disk), order, repairs, stuck);
    hide OpenAs, LoadStep, Inv, Ready, Covers, Known, Receipted, Prepared;
    OpenCases(m, contextWrite, prune, order, repairs, stuck);
    PreparedRemembers(m, contextWrite, prune, l);
    LoadedRemembers(ready, loaded, order, repairs, stuck, l);
    if m'.memory.Some? {
      OpenAsKeepsInv(m, contextWrite, prune, order, repairs, stuck);
      OpenedRegistry(m, contextWrite, prune, order, repairs, stuck);
      OpenedMirrors(m', l);
    }
  }

  lemma PreparedRemembers(m: Machine, contextWrite: Write, prune: Prune, l: Launch)
    requires Receipted(m, l)
    ensures Receipted(Prepared(m, contextWrite, prune), l)
  {
    hide Covers, PrunedSide, Littered;
  }

  lemma LoadedRemembers(
      ready: Machine, loaded: Machine, order: seq<Entry>, repairs: map<Uuid, Repair>, stuck: set<Uuid>, l: Launch)
    requires Receipted(ready, l) && loaded == LoadStep(ready, DiskBarrier(ready.disk), order, repairs, stuck)
    ensures Receipted(loaded, l)
  {
    LoadSteps(ready, DiskBarrier(ready.disk), order, repairs, stuck);
    hide LoadStep, Covers, Receipt.Settled;
  }

  lemma OpenedMirrors(m: Machine, l: Launch)
    requires Inv(m) && m.memory.Some? && !m.memory.value.failed && m.memory.value.barrier == DiskBarrier(m.disk)
    requires m.memory.value.receipts.Keys == m.disk.receipts.Keys && Receipted(m, l)
    ensures Known(m.memory.value, l)
  {
    if l.operation in m.memory.value.receipts {
      assert MirroredAt(m, m.memory.value, l.operation);
    }
    hide DiskInv, ActiveFits, Bounded, Admitted, Covers;
  }

  lemma OpenRemembers(m: Machine, e: Event, l: Launch)
    requires Inv(m) && Remembered(m, l) && e.Open?
    ensures Remembered(Step(m, e), l)
  {
    hide Inv, OpenAs, Welcome, Ready, Covers;
    if m.memory.None? && Welcome(m.disk, e.caller) {
      Configured(m, e.caller);
      OpenAsRemembers(m.(context := e.caller.context), e.contextWrite, e.prune, e.order, e.repairs, e.stuck, l);
    }
  }

  lemma StepRemembers(m: Machine, e: Event, l: Launch)
    requires Inv(m) && Remembered(m, l)
    ensures Remembered(Step(m, e), l)
  {
    match e
    case Open(_, _, _, _, _, _) => OpenRemembers(m, e, l);
    case Start(request, now, write) => StartRemembers(m, request, now, write, l);
    case CancelCommand(id, write) => CancelRemembers(m, id, write, l);
    case Finish(outcome, cleaned, write) => FinishRemembers(m, outcome, cleaned, write, l);
    case Retire(requested, write, prune) => RetireRemembers(m, requested, write, prune, l);
    case _ => OtherRemembers(m, e, l);
    hide *;
  }

  lemma OtherRemembers(m: Machine, e: Event, l: Launch)
    requires Remembered(m, l)
    requires e.Check? || e.Spawn? || e.PublishOutput? || e.WriteReport? || e.Close? || e.Crash?
    ensures Remembered(Step(m, e), l)
  {
    hide Remembered, Captured, IsLaunched;
    QuietRemembers(m, Step(m, e), l);
  }

  lemma {:induction false} RunRemembers(m: Machine, events: seq<Event>, l: Launch)
    requires Inv(m) && Remembered(m, l)
    ensures Remembered(Run(m, events), l)
    decreases |events|
  {
    if events != [] {
      StepRemembers(m, events[0], l);
      StepKeepsInv(m, events[0]);
      hide Inv, Step, Remembered;
      RunRemembers(Step(m, events[0]), events[1..], l);
    }
  }

  /** Over every run, with crashes and reopenings: once a start was admitted, a start of the same
      operation changes nothing, whatever its digest; and until the operation goes behind the barrier
      a running runner answers it, exactly under the digest of the first one. */
  lemma AdmittedStartIsRemembered(
      m: Machine, r: Request, now: int, w: Write, events: seq<Event>, again: Request, later: int, v: Write)
    requires Inv(m) && StartStep(m, r, now, w).1.Some? && StartStep(m, r, now, w).0 != m
    requires again.operation == r.operation && again.wellFormed && 1 <= again.outputLimit <= Capture.MAX_OUTPUT
    ensures var n := Run(StartStep(m, r, now, w).0, events);
            var (n', reply) := StartStep(n, again, later, v);
            && n' == n
            && (reply.Some? <==>
                  n.memory.Some? && !CoveredBy(n.memory.value.barrier, r.operation) && again.digest == r.digest)
            && (reply.Some? ==> reply.value.digest == r.digest && reply.value.operation == r.operation)
  {
    var m' := StartStep(m, r, now, w).0;
    var l := Launch(r.operation, r.digest);
    StartedIsRemembered(m, r, now, w);
    StartKeepsInv(m, r, now, w);
    RunRemembers(m', events, l);
    RunKeepsInv(m', events);
    var n := Run(m', events);
    if n.memory.Some? {
      StartAnswers(n, again, later, v);
      if r.operation in n.memory.value.receipts {
        ReceiptNamesItself(n, r.operation);
      }
    }
    hide Inv, Run, Covers, HasRoom, Admissible;
  }

  lemma ReceiptNamesItself(m: Machine, id: Uuid)
    requires Inv(m) && m.memory.Some? && id in m.memory.value.receipts
    ensures m.memory.value.receipts[id].operation == id
  {
    hide DiskInv, ActiveFits, Bounded, InStep;
    assert ReceiptFits(m, id, m.memory.value.receipts[id]);
  }

  lemma StartedIsRemembered(m: Machine, r: Request, now: int, w: Write)
    requires StartStep(m, r, now, w).1.Some? && StartStep(m, r, now, w).0 != m
    ensures Remembered(StartStep(m, r, now, w).0, Launch(r.operation, r.digest))
  {
    hide Inv, Covers, Admissible;
  }

  // --- the worker's check ---

  lemma LateCheckBars(m: Machine, now: int)
    requires Inv(m) && m.memory.Some? && m.memory.value.active.Some? && m.memory.value.active.value.phase.Pending?
    requires var a := m.memory.value.active.value;
             && a.operation in m.memory.value.receipts
             && (a.signalled || now >= m.memory.value.receipts[a.operation].deadline)
    ensures Barred(CheckStep(m, now), m.memory.value.active.value.operation)
  {
    ActiveFacts(m);
    PendingIsNotLaunched(m);
    SameLaunchesAll(m, CheckStep(m, now));
    hide Inv, Covers, IsLaunched, Receipt.Validated;
  }

  lemma PendingIsNotLaunched(m: Machine)
    requires Inv(m) && m.memory.Some? && m.memory.value.active.Some? && m.memory.value.active.value.phase.Pending?
    ensures !IsLaunched(m, m.memory.value.active.value.operation)
  {
    hide DiskInv, InStep, Bounded, Admitted;
  }

  /** The worker of a command looks once at the signal and the clock, and that decides: the command
      can still be launched if and only if it was not signalled and its deadline is ahead. */
  lemma TheCheckDecides(m: Machine, now: int)
    requires Inv(m) && Workspace(m)
    requires m.memory.Some? && m.memory.value.active.Some? && m.memory.value.active.value.phase.Pending?
    ensures var a := m.memory.value.active.value;
            && a.operation in m.memory.value.receipts
            && ((exists events :: IsLaunched(Run(CheckStep(m, now), events), a.operation)) <==>
                !a.signalled && now < m.memory.value.receipts[a.operation].deadline)
  {
    hide *;
    var a := m.memory.value.active.value;
    ActiveFacts(m);
    if a.signalled || now >= m.memory.value.receipts[a.operation].deadline {
      forall events {
        LateNeverLaunches(m, now, events);
      }
    } else {
      InTimeCanLaunch(m, now);
    }
  }

  lemma LateNeverLaunches(m: Machine, now: int, events: seq<Event>)
    requires Inv(m) && m.memory.Some? && m.memory.value.active.Some? && m.memory.value.active.value.phase.Pending?
    requires var a := m.memory.value.active.value;
             && a.operation in m.memory.value.receipts
             && (a.signalled || now >= m.memory.value.receipts[a.operation].deadline)
    ensures !IsLaunched(Run(CheckStep(m, now), events), m.memory.value.active.value.operation)
  {
    hide *;
    LateCheckBars(m, now);
    CheckKeepsInv(m, now);
    RunBarred(CheckStep(m, now), events, m.memory.value.active.value.operation);
  }

  lemma InTimeCanLaunch(m: Machine, now: int)
    requires Inv(m) && Workspace(m)
    requires m.memory.Some? && m.memory.value.active.Some? && m.memory.value.active.value.phase.Pending?
    requires var a := m.memory.value.active.value;
             && a.operation in m.memory.value.receipts
             && !a.signalled && now < m.memory.value.receipts[a.operation].deadline
    ensures IsLaunched(Run(CheckStep(m, now), [Spawn(Process)]), m.memory.value.active.value.operation)
  {
    CheckKeepsInv(m, now);
    CheckKeepsWorkspace(m, now);
    InTimeIsPastCheck(m, now);
    hide Inv, Workspace, IsLaunched, CheckStep, Run, PastCheck;
    PastCheckCanLaunch(CheckStep(m, now), m.memory.value.active.value.operation);
    RunsOne(CheckStep(m, now), Spawn(Process));
  }

  lemma InTimeIsPastCheck(m: Machine, now: int)
    requires m.memory.Some? && m.memory.value.active.Some? && m.memory.value.active.value.phase.Pending?
    requires var a := m.memory.value.active.value;
             && a.operation in m.memory.value.receipts
             && !a.signalled && now < m.memory.value.receipts[a.operation].deadline
    ensures PastCheck(CheckStep(m, now), m.memory.value.active.value.operation)
  {}

  lemma RunsOne(m: Machine, e: Event)
    ensures Run(m, [e]) == Step(m, e)
  {
    hide Step;
    assert Run(m, [e]) == Run(Step(m, e), [e][1..]) && [e][1..] == [];
  }

  // --- the end ---

  /** The result of a command. With confirmed cleanup the durable receipt shows the state and exit
      that were reported, for a command that was refused at its check the reason it was refused for;
      without, it is unknown and says that cleanup is open. The registry shows the same unless the
      write is not confirmed; then it is unknown there. Only a clean and durable end leaves the
      runner fit for another command. */
  lemma FinishAnswers(m: Machine, o: Outcome, cleaned: bool, w: Write)
    requires Inv(m) && FinishStep(m, o, cleaned, w) != m
    ensures m.memory.Some? && m.memory.value.active.Some?
    ensures var reg, m' := m.memory.value, FinishStep(m, o, cleaned, w);
            var a := reg.active.value;
            var id := a.operation;
            && id in reg.receipts && m'.memory.Some? && id in m'.memory.value.receipts
            && var kept := m'.memory.value.receipts[id];
               && m'.memory.value.active.None?
               && m'.memory.value.failed == (reg.failed || !cleaned || !w.Synced?)
               && m'.groups == (if cleaned then m.groups - {id} else m.groups)
               && m'.launches == m.launches
               && (w.FailedOld? ==> m'.disk == m.disk)
               && (!w.Synced? ==> kept.state == Unknown && kept.exitCode.None? && kept.signal.None?)
               && (!w.FailedOld? ==>
                     && id in m'.disk.receipts && m'.disk == m.disk.(receipts := m'.disk.receipts)
                     && var r := m'.disk.receipts[id];
                        && (w.Synced? ==> kept == r)
                        && r.digest == reg.receipts[id].digest && r.deadline == reg.receipts[id].deadline
                        && r.cancelRequested == reg.receipts[id].cancelRequested
                        && r.cleanupConfirmed == cleaned
                        && (o.Reported? && cleaned ==>
                              r.state == o.state && r.exitCode == o.exitCode && r.signal == o.signal)
                        && (!o.Reported? || !cleaned ==>
                              r.state == Unknown && r.exitCode.None? && r.signal.None?)
                        && (a.phase.Refused? && cleaned ==>
                              && r.state == a.phase.verdict && r.state in {TimedOut, Cancelled}
                              && (r.state == Cancelled ==> r.cancelRequested)
                              && OutputOf(r, true) == Capture.EMPTY && OutputOf(r, false) == Capture.EMPTY))
  {
    ActiveFacts(m);
    ActiveWorker(m);
    RefusedIsEmpty(m);
    OpenHasNoExit(m);
    hide Inv, Captured, OnDiskAsIntent, Receipt.Validated;
    var a := m.memory.value.active.value;
    if a.phase.Refused? {
      assert a.captures + [] == [];
      EmptyCapture(m.memory.value.receipts[a.operation]);
    }
  }

  lemma EmptyCapture(r: Receipt)
    ensures Captured(r, []).out.result == Capture.EMPTY && Captured(r, []).err.result == Capture.EMPTY
  {}

  lemma RefusedIsEmpty(m: Machine)
    requires Inv(m) && m.memory.Some? && m.memory.value.active.Some?
    ensures var a := m.memory.value.active.value;
            a.signalled ==> a.operation in m.memory.value.receipts
                            && m.memory.value.receipts[a.operation].cancelRequested
  {
    hide DiskInv, InStep, Bounded, Admitted;
  }

  lemma OpenHasNoExit(m: Machine)
    requires Inv(m) && m.memory.Some? && m.memory.value.active.Some?
    ensures var id := m.memory.value.active.value.operation;
            && id in m.memory.value.receipts
            && m.memory.value.receipts[id].exitCode.None? && m.memory.value.receipts[id].signal.None?
  {
    hide DiskInv, InStep, Bounded;
    assert ReceiptFits(m, m.memory.value.active.value.operation,
      m.memory.value.receipts[m.memory.value.active.value.operation]);
  }

  // --- cancellation ---

  /** The answer to a cancellation. An ended command's receipt is answered as it is; a command that
      has not ended is marked and signalled exactly if the mark is durable. */
  lemma CancelAnswers(m: Machine, id: Uuid, w: Write)
    requires Inv(m) && m.memory.Some?
    ensures var (m', reply) := CancelStep(m, id, w);
            var reg := m.memory.value;
            if id !in reg.receipts then reply.None? && m' == m
            else if reg.receipts[id].state.Terminal() then reply == Some(reg.receipts[id]) && m' == m
            else
              && reg.active.Some? && reg.active.value.operation == id
              && (reply.Some? <==> w.Synced?)
              && (reply.None? ==> m'.memory == m.memory)
              && (reply.Some? ==>
                    && reply.value.cancelRequested
                    && reply.value.(cancelRequested := false) == reg.receipts[id].(cancelRequested := false)
                    && m'.disk == m.disk.(receipts := m.disk.receipts[id := reply.value])
                    && m'.memory == Some(reg.(receipts := reg.receipts[id := reply.value],
                                              active := Some(reg.active.value.(signalled := true))))
                    && m'.groups == m.groups && m'.launches == m.launches)
  {
    if id in m.memory.value.receipts && !m.memory.value.receipts[id].state.Terminal() {
      UnsettledIsActive(m, id);
    }
    hide Inv;
  }

  // --- retirement ---

  // The barrier already reaches that far.
  predicate Reached(reg: Registry, requested: Barrier) {
    reg.barrier.Some? && !Less(reg.barrier.value.through, requested.through)
  }

  // Everything the barrier covers is resolved and has no cgroup.
  ghost predicate Clear(m: Machine, reg: Registry, requested: Barrier) {
    && (reg.active.Some? ==> !Covers(requested.through, reg.active.value.operation))
    && (forall id :: id in reg.receipts && Covers(requested.through, id) ==> reg.receipts[id].Resolved())
    && Prunable(m.disk, m.side, m.groups, requested) && !Crowded(m.disk, m.side)
  }

  /** The answer to a retirement: the barrier that holds if it already reaches that far, else the
      requested one, exactly if all it covers is resolved and barrier and deletion are durable.
      Then nothing it covers is left, and nothing else is touched. */
  lemma RetireAnswers(m: Machine, requested: Barrier, w: Write, p: Prune)
    requires Inv(m) && m.memory.Some?
    ensures var (m', reply) := RetireStep(m, requested, w, p);
            var reg := m.memory.value;
            var open := requested.Validated(m.context) && !reg.failed && !reg.closed;
            && (reply.Some? <==>
                  open && (Reached(reg, requested) || (Clear(m, reg, requested) && w.Synced? && p.PruneAll?)))
            && (open && Reached(reg, requested) ==> reply == reg.barrier && m' == m)
            && (open && !Reached(reg, requested) && reply.Some? ==>
                  && reply.value == requested && m'.memory.Some? && m'.memory.value.barrier == reply
                  && m'.disk.binding == Some(Retired(requested))
                  && m'.disk.receipts == Uncovered(m.disk.receipts, requested)
                  && m'.memory.value.receipts == Uncovered(reg.receipts, requested)
                  && (forall f :: f in m'.side <==> f in m.side && !Covers(requested.through, f.Id())))
            && (m' != m ==> open && !Reached(reg, requested) && Clear(m, reg, requested))
            && (m' != m && reply.None? ==> m'.memory.Some? && m'.memory.value.failed)
  {
    hide Inv, Covers, Less, Prunable, Crowded, Receipt.Resolved, Barrier.Validated;
    var (m', reply) := RetireStep(m, requested, w, p);
    if m' != m && p.PruneAll? && w.Synced? {
      assert m'.disk.receipts == Uncovered(m.disk.receipts, requested);
    }
  }
}
