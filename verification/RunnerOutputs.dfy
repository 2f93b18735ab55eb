/** The output of guest commands: what the counters of a receipt say about the two streams of its
    process, from the first publication to the final receipt, and what reading by them gives. */
module RunnerOutputs {
  import opened Wrappers
  import opened Bytes
  import opened OperationIds
  import opened Totals
  import opened RunnerModel
  import opened RunnerSafety
  import opened RunnerRecovery
  import opened RunnerRuns
  import Capture

  function OutputOf(r: Receipt, stdout: bool): Capture.Output {
    if stdout then r.stdout else r.stderr
  }

  // The bytes the process wrote to one of its pipes, as far as they were read.
  function PipeOf(r: Receipt, captures: seq<Capture.Event>, stdout: bool): seq<byte> {
    Capture.PipeBytes(Capture.Start(r.outputLimit), captures, stdout)
  }

  function FileOf(r: Receipt, captures: seq<Capture.Event>, stdout: bool): seq<byte> {
    if stdout then Captured(r, captures).out.file else Captured(r, captures).err.file
  }

  // --- the final receipt ---

  lemma FinalCounters(a: Active, r: Receipt, o: Outcome, stdout: bool)
    requires r.Validated() && o.Reported? && Plausible(a, r, o) && WorkerFits(a)
    ensures var all := a.captures + o.captures;
            var file, pipe := FileOf(r, all, stdout), PipeOf(r, all, stdout);
            && file <= pipe
            && OutputOf(Final(a, r, o, true), stdout) ==
               Capture.Output(Capture.Min(|pipe|, Capture.MAX_U64), |file|, |file| < |pipe|)
  {
    var all := a.captures + o.captures;
    assert Captured(r, all).Ended() by {
      if a.phase.Refused? {
        assert all == [];
      }
    }
    Capture.CountersDescribeTheirStream(r.outputLimit, all, stdout);
    hide Receipt.Validated;
  }

  /** However the two capture tasks interleaved: when a command ends with its outcome known and its
      cleanup confirmed, then for each stream the stored count in the durable receipt is the length
      of that stream's file, which is a prefix of what was read from that stream's pipe; its seen
      count is what was read, up to the counter's maximum; and it is marked truncated exactly when
      the file is shorter. The registry says the same unless the write failed. */
  lemma FinalReceiptDescribesItsStreams(m: Machine, o: Outcome, w: Write, stdout: bool)
    requires Inv(m) && FinishStep(m, o, true, w) != m && o.Reported? && !w.FailedOld?
    ensures var a := m.memory.value.active.value;
            var r := m.memory.value.receipts[a.operation];
            var all := a.captures + o.captures;
            var file, pipe := FileOf(r, all, stdout), PipeOf(r, all, stdout);
            var m' := FinishStep(m, o, true, w);
            && a.operation in m'.disk.receipts && a.operation in m'.memory.value.receipts
            && file <= pipe
            && OutputOf(m'.disk.receipts[a.operation], stdout) ==
               Capture.Output(Capture.Min(|pipe|, Capture.MAX_U64), |file|, |file| < |pipe|)
            && OutputOf(m'.memory.value.receipts[a.operation], stdout)
               == OutputOf(m'.disk.receipts[a.operation], stdout)
            && m'.disk.receipts[a.operation].state == o.state
            && (w.Synced? ==> m'.memory.value.receipts[a.operation] == m'.disk.receipts[a.operation])
            && |file| <= r.outputLimit
  {
    var a := m.memory.value.active.value;
    var r := m.memory.value.receipts[a.operation];
    ActiveFacts(m);
    ActiveWorker(m);
    FinalCounters(a, r, o, stdout);
    FinalFits(m, o, true);
    hide Inv, Plausible, Captured, FileOf, PipeOf;
    var final := Final(a, r, o, true);
    assert OutputOf(final, stdout).stored <= r.outputLimit;
  }

  // --- reading by a receipt ---

  /** One ranged read: the stream asked for decides which file is opened and which counter bounds
      it. */
  method ReadStream(
      r: Receipt, out: Option<seq<byte>>, err: Option<seq<byte>>, stdout: bool, offset: nat, limit: nat, short: nat)
    returns (chunk: Option<Capture.OutputChunk>, complete: bool)
    ensures complete == r.Resolved()
    ensures var file, stored := if stdout then out else err, OutputOf(r, stdout).stored;
            && (chunk.Some? <==>
                && 0 < limit <= Capture.MAX_CHUNK && offset <= r.outputLimit
                && match file
                   case Some(bytes) => |bytes| <= r.outputLimit && offset <= stored <= |bytes|
                   case None => stored == 0 && offset == 0)
            && (chunk.Some? ==>
                && chunk.value.nextOffset == offset + |chunk.value.data| <= stored
                && (chunk.value.atEnd <==> chunk.value.nextOffset == stored)
                && (!chunk.value.atEnd ==> chunk.value.data != [])
                && (file.Some? ==> chunk.value.data == file.value[offset..chunk.value.nextOffset]))
  {
    var stored := if stdout then r.stdout.stored else r.stderr.stored;
    var file := if stdout then out else err;
    complete := r.state.Terminal() && r.state != Unknown && r.cleanupConfirmed;
    chunk := Capture.ReadOutput(file, stored, r.outputLimit, offset, limit, short);
  }

  /** Following the offsets by a receipt that describes its streams gives the whole file of the
      stream asked for, in chunks of any size. */
  method ReadWhole(r: Receipt, out: seq<byte>, err: seq<byte>, stdout: bool, limit: nat, short: nat -> nat)
    returns (data: seq<byte>)
    requires 0 < limit <= Capture.MAX_CHUNK
    requires OutputOf(r, stdout).stored <= |if stdout then out else err| <= r.outputLimit
    ensures data == (if stdout then out else err)[..OutputOf(r, stdout).stored]
    ensures OutputOf(r, stdout).stored == |if stdout then out else err| ==> data == if stdout then out else err
  {
    data := [];
    ghost var file, stored := if stdout then out else err, OutputOf(r, stdout).stored;
    var done := false;
    while !done
      invariant |data| <= stored && data == file[..|data|]
      invariant done ==> |data| == stored
      decreases stored - |data|, !done
    {
      var chunk, complete := ReadStream(r, Some(out), Some(err), stdout, |data|, limit, short(|data|));
      data := data + chunk.value.data;
      assert data == file[..chunk.value.nextOffset];
      done := chunk.value.atEnd;
    }
  }

  // --- live counters ---

  // The active receipt shows what its capture tasks have published.
  ghost predicate Metered(m: Machine) {
    m.memory.Some? && m.memory.value.active.Some? ==>
      MeteredBy(m.memory.value.receipts, m.memory.value.active.value)
  }

  predicate MeteredBy(receipts: map<Uuid, Receipt>, a: Active) {
    a.operation in receipts ==>
      var r := receipts[a.operation];
      var now := Captured(r, a.captures);
      r.stdout == now.published && r.stderr == now.publishedErr
  }

  lemma FreshMetered()
    ensures Metered(Fresh())
  {}

  lemma OpenIsIdle(m: Machine, e: Event)
    requires Inv(m) && e.Open? && m.memory.None? && Step(m, e).memory.Some?
    ensures Step(m, e).memory.value.active.None?
  {
    hide Inv, OpenAs, Welcome, Ready;
    Configured(m, e.caller);
    OpenedRegistry(m.(context := e.caller.context), e.contextWrite, e.prune, e.order, e.repairs, e.stuck);
  }

  lemma StepKeepsMetered(m: Machine, e: Event)
    requires Inv(m) && Metered(m)
    ensures Metered(Step(m, e))
  {
    hide Inv, StartStep, CheckStep, SpawnStep, ReportStep, CancelStep, PublishStep, FinishStep, RetireStep, OpenAs,
         Welcome, MeteredBy;
    match e
    case Open(_, _, _, _, _, _) =>
      if m.memory.None? && Step(m, e).memory.Some? {
        OpenIsIdle(m, e);
      }
    case Start(request, now, write) => StartMeters(m, request, now, write);
    case Check(now) => WorkKeepsMeter(m, now, NoGroup, m.context.allocation);
    case Spawn(reach) => WorkKeepsMeter(m, 0, reach, m.context.allocation);
    case WriteReport(id) => WorkKeepsMeter(m, 0, NoGroup, id);
    case CancelCommand(id, write) => CancelKeepsMeter(m, id, write);
    case PublishOutput(captures) => PublishMeters(m, captures);
    case Finish(outcome, cleaned, write) => FinishLeavesNoMeter(m, outcome, cleaned, write);
    case Retire(requested, write, prune) => RetireKeepsMeter(m, requested, write, prune);
    case _ =>
  }

  lemma WorkKeepsMeter(m: Machine, now: int, reach: Reach, id: Uuid)
    requires Metered(m)
    ensures Metered(CheckStep(m, now)) && Metered(SpawnStep(m, reach)) && Metered(ReportStep(m, id))
  {
    hide Captured;
  }

  lemma CancelKeepsMeter(m: Machine, id: Uuid, w: Write)
    requires Metered(m)
    ensures Metered(CancelStep(m, id, w).0)
  {}

  lemma PublishMeters(m: Machine, captures: seq<Capture.Event>)
    requires Metered(m)
    ensures Metered(PublishStep(m, captures))
  {}

  lemma FinishLeavesNoMeter(m: Machine, o: Outcome, cleaned: bool, w: Write)
    requires Metered(m)
    ensures Metered(FinishStep(m, o, cleaned, w))
  {
    hide Captured, Plausible, Final;
  }

  lemma StartMeters(m: Machine, r: Request, now: int, w: Write)
    requires Metered(m)
    ensures Metered(StartStep(m, r, now, w).0)
  {
    var m' := StartStep(m, r, now, w).0;
    if m' != m && w.Synced? {
      assert m.memory.value.active.None?;
      assert Captured(Intent(m.context, r), []) == Capture.Start(r.outputLimit);
    }
    hide Covers, Total, Limits;
  }

  lemma RetireKeepsMeter(m: Machine, requested: Barrier, w: Write, p: Prune)
    requires Metered(m)
    ensures Metered(RetireStep(m, requested, w, p).0)
  {
    hide Captured, Covers, Crowded, Prunable, Pruned, PrunedSide, Receipt.Resolved;
  }

  ghost predicate NoLess(before: Receipt, after: Receipt) {
    Capture.Grows(before.stdout, after.stdout) && Capture.Grows(before.stderr, after.stderr)
  }

  lemma StartBehind(limit: nat, captures: seq<Capture.Event>)
    ensures Capture.Behind(Capture.Run(Capture.Start(limit), captures))
  {
    Capture.CountersOnlyGrow(Capture.Start(limit), captures);
  }

  // More capturing, or its end, takes nothing back.
  lemma MeterGrows(r: Receipt, captures: seq<Capture.Event>, more: seq<Capture.Event>)
    ensures var now, later := Captured(r, captures), Captured(r, captures + more);
            && Capture.Grows(now.published, later.published) && Capture.Grows(now.publishedErr, later.publishedErr)
            && Capture.Grows(later.published, later.out.result) && Capture.Grows(later.publishedErr, later.err.result)
  {
    StartBehind(r.outputLimit, captures);
    Capture.RunSplits(Capture.Start(r.outputLimit), captures, more);
    Capture.CountersOnlyGrow(Capture.Run(Capture.Start(r.outputLimit), captures), more);
    hide Capture.Run;
  }

  lemma PublishGrows(m: Machine, captures: seq<Capture.Event>, id: Uuid)
    requires Metered(m) && m.memory.Some? && id in m.memory.value.receipts
    ensures var m' := PublishStep(m, captures);
            m'.memory.Some? && id in m'.memory.value.receipts
            && NoLess(m.memory.value.receipts[id], m'.memory.value.receipts[id])
  {
    if m.memory.value.active.Some? && m.memory.value.active.value.operation == id {
      var a := m.memory.value.active.value;
      MeterGrows(m.memory.value.receipts[id], a.captures, captures);
    }
    hide Captured;
  }

  lemma FinalIsNoLess(a: Active, r: Receipt, o: Outcome, cleaned: bool)
    requires r.stdout == Captured(r, a.captures).published && r.stderr == Captured(r, a.captures).publishedErr
    ensures NoLess(r, Final(a, r, o, cleaned))
    ensures NoLess(r, Final(a, r, o, cleaned).(state := Unknown, exitCode := None, signal := None))
  {
    if o.Reported? {
      MeterGrows(r, a.captures, o.captures);
    }
    hide Captured;
  }

  lemma SameIsNoLess(r: Receipt)
    ensures NoLess(r, r)
  {}

  lemma FinishGrows(m: Machine, o: Outcome, cleaned: bool, w: Write, id: Uuid)
    requires Metered(m) && m.memory.Some? && id in m.memory.value.receipts
    ensures var m' := FinishStep(m, o, cleaned, w);
            m'.memory.Some? && id in m'.memory.value.receipts
            && NoLess(m.memory.value.receipts[id], m'.memory.value.receipts[id])
  {
    SameIsNoLess(m.memory.value.receipts[id]);
    if m.memory.value.active.Some? && m.memory.value.active.value.operation == id {
      FinalIsNoLess(m.memory.value.active.value, m.memory.value.receipts[id], o, cleaned);
    }
    hide Captured, Plausible, Final, NoLess;
  }

  // What a step keeps of the registry's receipts and barrier.
  ghost predicate KeepsCounts(m: Machine, m': Machine) {
    && m.memory.Some? && m'.memory.Some?
    && (forall id :: id in m.memory.value.receipts && id in m'.memory.value.receipts ==>
          NoLess(m.memory.value.receipts[id], m'.memory.value.receipts[id]))
    && (forall id :: id in m.memory.value.receipts && id !in m'.memory.value.receipts ==>
          CoveredBy(m'.memory.value.barrier, id))
    && (forall id :: id !in m.memory.value.receipts && CoveredBy(m.memory.value.barrier, id) ==>
          id !in m'.memory.value.receipts && CoveredBy(m'.memory.value.barrier, id))
  }

  lemma StartKeepsCounts(m: Machine, r: Request, now: int, w: Write)
    requires m.memory.Some?
    ensures KeepsCounts(m, StartStep(m, r, now, w).0)
  {
    hide Covers, Total, Limits;
  }

  lemma CancelKeepsCounts(m: Machine, id: Uuid, w: Write)
    requires m.memory.Some?
    ensures KeepsCounts(m, CancelStep(m, id, w).0)
  {
    hide Covers;
  }

  lemma RetireKeepsCounts(m: Machine, requested: Barrier, w: Write, p: Prune)
    requires Inv(m) && m.memory.Some?
    ensures KeepsCounts(m, RetireStep(m, requested, w, p).0)
  {
    hide Inv, Covers, RetireStep;
    var m' := RetireStep(m, requested, w, p).0;
    if m' != m {
      RetireReachesFurther(m, requested, w, p);
      RetiredRegistry(m, requested, w, p);
    } else {
      hide NoLess;
      SameRegistryKeepsCounts(m, m);
    }
  }

  lemma RetireReachesFurther(m: Machine, requested: Barrier, w: Write, p: Prune)
    requires Inv(m) && RetireStep(m, requested, w, p).0 != m
    ensures m.memory.Some? && forall id :: CoveredBy(m.memory.value.barrier, id) ==> Covers(requested.through, id)
  {
    RetireFacts(m, requested, w, p);
    hide *;
  }

  lemma RetiredRegistry(m: Machine, requested: Barrier, w: Write, p: Prune)
    requires m.memory.Some? && RetireStep(m, requested, w, p).0 != m
    ensures var reg, m' := m.memory.value, RetireStep(m, requested, w, p).0;
            && m'.memory.Some?
            && (m'.memory.value.barrier == reg.barrier || m'.memory.value.barrier == Some(requested))
            && (m'.memory.value.receipts == reg.receipts
                || (m'.memory.value.receipts == Uncovered(reg.receipts, requested)
                    && m'.memory.value.barrier == Some(requested)))
  {
    hide Covers, Crowded, Prunable, Pruned, PrunedSide, Receipt.Resolved, Less, Uncovered;
  }

  lemma PublishKeepsCounts(m: Machine, captures: seq<Capture.Event>)
    requires Metered(m) && m.memory.Some?
    ensures KeepsCounts(m, PublishStep(m, captures))
  {
    forall id | id in m.memory.value.receipts {
      PublishGrows(m, captures, id);
    }
    hide Captured, Covers, Metered;
  }

  lemma FinishKeepsCounts(m: Machine, o: Outcome, cleaned: bool, w: Write)
    requires Metered(m) && m.memory.Some?
    ensures KeepsCounts(m, FinishStep(m, o, cleaned, w))
  {
    forall id | id in m.memory.value.receipts {
      FinishGrows(m, o, cleaned, w, id);
    }
    hide Captured, Plausible, Covers, Metered, Final;
  }

  lemma SameRegistryKeepsCounts(m: Machine, m': Machine)
    requires m.memory.Some? && m'.memory.Some?
    requires m'.memory.value.receipts == m.memory.value.receipts && m'.memory.value.barrier == m.memory.value.barrier
    ensures KeepsCounts(m, m')
  {
    hide Covers;
  }

  // One step of a running agent never takes back what a receipt has counted.
  lemma StepKeepsCounts(m: Machine, e: Event)
    requires Inv(m) && Metered(m) && m.memory.Some? && !e.Crash?
    ensures KeepsCounts(m, Step(m, e))
  {
    hide Inv, Metered, StartStep, CheckStep, SpawnStep, ReportStep, CancelStep, PublishStep, FinishStep, RetireStep,
         KeepsCounts, OpenAs, Welcome;
    match e
    case Start(request, now, write) => StartKeepsCounts(m, request, now, write);
    case CancelCommand(id, write) => CancelKeepsCounts(m, id, write);
    case PublishOutput(captures) => PublishKeepsCounts(m, captures);
    case Finish(outcome, cleaned, write) => FinishKeepsCounts(m, outcome, cleaned, write);
    case Retire(requested, write, prune) => RetireKeepsCounts(m, requested, write, prune);
    case Check(now) => QuietSteps(m, now, NoGroup, m.context.allocation);
    case Spawn(reach) => QuietSteps(m, 0, reach, m.context.allocation);
    case WriteReport(id) => QuietSteps(m, 0, NoGroup, id);
    case _ => SameRegistryKeepsCounts(m, Step(m, e));
  }

  lemma QuietSteps(m: Machine, now: int, reach: Reach, id: Uuid)
    requires m.memory.Some?
    ensures KeepsCounts(m, CheckStep(m, now)) && KeepsCounts(m, SpawnStep(m, reach))
    ensures KeepsCounts(m, ReportStep(m, id))
  {
    SameRegistryKeepsCounts(m, CheckStep(m, now));
    SameRegistryKeepsCounts(m, SpawnStep(m, reach));
    SameRegistryKeepsCounts(m, ReportStep(m, id));
    hide KeepsCounts;
  }

  lemma KeptAt(m: Machine, m': Machine, id: Uuid)
    requires KeepsCounts(m, m')
    ensures m.memory.Some? && m'.memory.Some?
    ensures id in m.memory.value.receipts && id in m'.memory.value.receipts ==>
      NoLess(m.memory.value.receipts[id], m'.memory.value.receipts[id])
    ensures id in m.memory.value.receipts && id !in m'.memory.value.receipts ==>
      CoveredBy(m'.memory.value.barrier, id)
    ensures id !in m.memory.value.receipts && CoveredBy(m.memory.value.barrier, id) ==>
      id !in m'.memory.value.receipts && CoveredBy(m'.memory.value.barrier, id)
  {
    hide NoLess, Covers;
  }

  lemma NoLessTransitively(a: Receipt, b: Receipt, c: Receipt)
    requires NoLess(a, b) && NoLess(b, c)
    ensures NoLess(a, c)
  {}

  lemma {:induction false} RetiredStaysAwayOverRun(m: Machine, events: seq<Event>, id: Uuid)
    requires Inv(m) && Metered(m) && m.memory.Some? && Crash !in events
    requires id !in m.memory.value.receipts && CoveredBy(m.memory.value.barrier, id)
    ensures var m' := Run(m, events); m'.memory.Some? && id !in m'.memory.value.receipts
    decreases |events|
  {
    if events != [] {
      assert events[0] in events;
      StepKeepsCounts(m, events[0]);
      StepKeepsInv(m, events[0]);
      StepKeepsMetered(m, events[0]);
      hide Inv, Step, Metered, Covers, KeepsCounts, NoLess;
      KeptAt(m, Step(m, events[0]), id);
      RetiredStaysAwayOverRun(Step(m, events[0]), events[1..], id);
    }
  }

  /** Over every run without a crash the counters of a receipt that is still there never decrease,
      from the first publication to the final receipt and beyond. */
  lemma {:induction false} CountersNeverDecrease(m: Machine, events: seq<Event>, id: Uuid)
    requires Inv(m) && Metered(m) && m.memory.Some? && id in m.memory.value.receipts && Crash !in events
    ensures var m' := Run(m, events);
            && m'.memory.Some? && Metered(m')
            && (id in m'.memory.value.receipts ==>
                  NoLess(m.memory.value.receipts[id], m'.memory.value.receipts[id]))
    decreases |events|
  {
    if events == [] {
      hide Inv, Metered;
    } else {
      var e, next := events[0], Step(m, events[0]);
      assert e in events;
      StepKeepsCounts(m, e);
      StepKeepsInv(m, e);
      StepKeepsMetered(m, e);
      hide Inv, Step, Metered, Covers, KeepsCounts, NoLess;
      KeptAt(m, next, id);
      if id in next.memory.value.receipts {
        CountersNeverDecrease(next, events[1..], id);
        var last := Run(next, events[1..]).memory.value.receipts;
        if id in last {
          NoLessTransitively(m.memory.value.receipts[id], next.memory.value.receipts[id], last[id]);
        }
      } else {
        RetiredStaysAwayOverRun(next, events[1..], id);
        RunKeepsMetered(next, events[1..]);
      }
    }
  }

  lemma {:induction false} RunKeepsMetered(m: Machine, events: seq<Event>)
    requires Inv(m) && Metered(m)
    ensures Metered(Run(m, events))
    decreases |events|
  {
    if events != [] {
      StepKeepsMetered(m, events[0]);
      StepKeepsInv(m, events[0]);
      hide Inv, Step, Metered;
      RunKeepsMetered(Step(m, events[0]), events[1..]);
    }
  }
}
