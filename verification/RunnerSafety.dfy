/** What every run of the guest runner keeps, across failed writes, crashes and reopening:
    no operation is launched twice, every launch stays receipted or behind the barrier, and
    retirement never takes an unresolved launch. */
module RunnerSafety {
  import opened Wrappers
  import opened OperationIds
  import opened Totals
  import opened RunnerModel
  import Capture

  // --- the durable part ---

  ghost predicate ReceiptFits(m: Machine, id: Uuid, r: Receipt) {
    r.operation == id && r.context == m.context && r.Validated()
  }

  predicate IsLaunched(m: Machine, id: Uuid) {
    exists i :: 0 <= i < |m.launches| && m.launches[i].operation == id
  }

  ghost predicate Receipted(m: Machine, l: Launch) {
    || CoveredBy(DiskBarrier(m.disk), l.operation)
    || (l.operation in m.disk.receipts && m.disk.receipts[l.operation].digest == l.digest)
  }

  ghost predicate DiskInv(m: Machine) {
    && (m.disk.binding.Some? ==> m.disk.binding.value.Validated(m.context))
    && (m.disk.binding.None? ==> m.disk.receipts == map[] && m.launches == [])
    && (forall id :: id in m.disk.receipts ==> ReceiptFits(m, id, m.disk.receipts[id]))
    && (forall i, j :: 0 <= i < j < |m.launches| ==> m.launches[i].operation != m.launches[j].operation)
    && (forall l :: l in m.launches ==> Receipted(m, l))
    && (forall id :: id in m.disk.receipts && CoveredBy(DiskBarrier(m.disk), id) ==>
          Retirable(m, m.disk.receipts[id]))
  }

  // Behind the barrier there are only resolved receipts and intents that never launched.
  ghost predicate Retirable(m: Machine, r: Receipt) {
    r.Resolved() || (r.state == LaunchIntent && !IsLaunched(m, r.operation))
  }

  // --- the registry against the disk ---

  ghost predicate Known(reg: Registry, l: Launch) {
    || CoveredBy(reg.barrier, l.operation)
    || (l.operation in reg.receipts && reg.receipts[l.operation].digest == l.digest)
  }

  ghost predicate OnDiskAsIntent(m: Machine, r: Receipt) {
    && !CoveredBy(DiskBarrier(m.disk), r.operation)
    && r.operation in m.disk.receipts
    && m.disk.receipts[r.operation].digest == r.digest
    && !m.disk.receipts[r.operation].state.Terminal()
  }

  // Without a process nothing is captured, and a worker refuses for one of two reasons.
  predicate WorkerFits(a: Active) {
    && (a.phase != Entered(true) ==> a.captures == [])
    && (a.phase.Refused? ==> a.phase.verdict == TimedOut || (a.phase.verdict == Cancelled && a.signalled))
  }

  ghost predicate ActiveFits(m: Machine, reg: Registry) {
    && (forall id :: id in reg.receipts && !reg.receipts[id].state.Terminal() ==>
          reg.active.Some? && reg.active.value.operation == id)
    && (reg.active.Some? ==>
      var a := reg.active.value;
      && a.operation in reg.receipts
      && !reg.receipts[a.operation].state.Terminal()
      && (a.signalled ==> reg.receipts[a.operation].cancelRequested)
      && OnDiskAsIntent(m, reg.receipts[a.operation])
      && WorkerFits(a)
      && (!a.phase.Entered? ==> !IsLaunched(m, a.operation)))
  }

  // Settled receipts agree with the disk; the active one is on disk as a launch intent.
  ghost predicate Mirrored(m: Machine, reg: Registry) {
    forall id :: id in reg.receipts ==> MirroredAt(m, reg, id)
  }

  ghost predicate MirroredAt(m: Machine, reg: Registry, id: Uuid)
    requires id in reg.receipts
  {
    && id in m.disk.receipts
    && m.disk.receipts[id].digest == reg.receipts[id].digest
    && (if reg.receipts[id].state.Terminal() then m.disk.receipts[id] == reg.receipts[id]
        else !m.disk.receipts[id].state.Terminal())
  }

  // A receipt the registry never admitted is what a failed start left behind.
  ghost predicate StraysAreIntents(m: Machine, reg: Registry) {
    forall id :: id in m.disk.receipts && id !in reg.receipts ==>
      m.disk.receipts[id].state == LaunchIntent
  }

  ghost predicate Admitted(m: Machine, reg: Registry) {
    && (forall id :: id in reg.receipts ==> ReceiptFits(m, id, reg.receipts[id]) && Backed(m, id))
    && (reg.barrier.Some? ==> CoveredBy(DiskBarrier(m.disk), reg.barrier.value.through))
    && (forall l :: l in m.launches ==> Known(reg, l))
  }

  predicate Backed(m: Machine, id: Uuid) {
    CoveredBy(DiskBarrier(m.disk), id) || id in m.disk.receipts
  }

  ghost predicate Bounded(reg: Registry) {
    |reg.receipts| <= MAX_RECORDS && Total(Limits(reg.receipts)) <= MAX_RESERVED
  }

  // As long as nothing has failed the registry and the disk agree.
  ghost predicate InStep(m: Machine, reg: Registry) {
    !reg.failed ==>
      && reg.barrier == DiskBarrier(m.disk)
      && Mirrored(m, reg)
      && StraysAreIntents(m, reg)
      && (forall id :: id in m.disk.receipts ==> !CoveredBy(reg.barrier, id))
  }

  ghost predicate MemoryInv(m: Machine, reg: Registry) {
    m.disk.binding.Some? && Admitted(m, reg) && ActiveFits(m, reg) && Bounded(reg) && InStep(m, reg)
  }

  ghost predicate Inv(m: Machine) {
    && (m.disk.binding.Some? ==> m.context.Validated())
    && DiskInv(m)
    && (m.memory.Some? ==> MemoryInv(m, m.memory.value))
  }

  lemma SameLaunchesAll(m: Machine, m': Machine)
    requires m'.launches == m.launches
    ensures forall id :: IsLaunched(m', id) <==> IsLaunched(m, id)
  {}

  // --- writes to one receipt ---

  lemma IsLaunchedHas(m: Machine, l: Launch)
    requires l in m.launches
    ensures IsLaunched(m, l.operation)
  {
    var i :| 0 <= i < |m.launches| && m.launches[i] == l;
  }

  // A receipt may be rewritten as long as no launch of that operation has another digest
  // and the operation is not behind the barrier.
  lemma PutKeepsDiskInv(m: Machine, r: Receipt, w: Write)
    requires DiskInv(m) && m.disk.binding.Some?
    requires ReceiptFits(m, r.operation, r)
    requires !CoveredBy(DiskBarrier(m.disk), r.operation)
    requires forall l :: l in m.launches && l.operation == r.operation ==> l.digest == r.digest
    ensures DiskInv(m.(disk := PutReceipt(m.disk, r, w)))
  {
    var m' := m.(disk := PutReceipt(m.disk, r, w));
    forall l | l in m'.launches
      ensures Receipted(m', l)
    {
      assert Receipted(m, l);
    }
    SameLaunchesAll(m, m');
    forall id | id in m'.disk.receipts && CoveredBy(DiskBarrier(m'.disk), id)
      ensures Retirable(m', m'.disk.receipts[id])
    {
      assert Retirable(m, m.disk.receipts[id]);
    }
  }

  // The launches of the active command carry the digest of its receipt.
  lemma ActiveDigest(m: Machine, l: Launch)
    requires Inv(m) && l in m.launches
    requires m.memory.Some? && m.memory.value.active.Some? && m.memory.value.active.value.operation == l.operation
    ensures l.operation in m.memory.value.receipts
    ensures l.digest == m.memory.value.receipts[l.operation].digest
  {
    ActiveFacts(m);
    assert Known(m.memory.value, l);
    hide DiskInv, ActiveFits, Bounded, InStep, Receipt.Validated;
  }

  lemma LimitsGrow(receipts: map<Uuid, Receipt>, id: Uuid, r: Receipt)
    requires id !in receipts
    ensures Total(Limits(receipts[id := r])) == Total(Limits(receipts)) + r.outputLimit
  {
    hide Total;
    assert Limits(receipts[id := r]) == Limits(receipts)[id := r.outputLimit];
    TotalUpdates(Limits(receipts), id, r.outputLimit);
    assert Limits(receipts) - {id} == Limits(receipts);
  }

  lemma StartKeepsBounds(reg: Registry, r: Request, now: int, receipt: Receipt)
    requires Bounded(reg) && Admissible(reg, r, now) && r.operation !in reg.receipts
    requires receipt.outputLimit == r.outputLimit
    ensures Bounded(reg.(receipts := reg.receipts[r.operation := receipt]))
  {
    hide Total, Limits;
    LimitsGrow(reg.receipts, r.operation, receipt);
    var receipts := reg.receipts[r.operation := receipt];
    SizeGrows(reg.receipts, r.operation, receipt);
  }

  lemma StartIsNew(m: Machine, r: Request, now: int, w: Write, l: Launch)
    requires Inv(m) && StartStep(m, r, now, w).0 != m && l in m.launches
    ensures l.operation != r.operation
  {
    hide DiskInv, ActiveFits, Bounded, InStep, Admissible;
    assert Known(m.memory.value, l);
  }

  // One operation's receipt changes, in memory, on disk or both.
  ghost predicate Touches(m: Machine, m': Machine, reg: Registry, reg': Registry, id: Uuid) {
    && m'.disk.binding == m.disk.binding && m'.launches == m.launches && m'.context == m.context
    && reg'.barrier == reg.barrier
    && (forall k :: k != id && k in m'.disk.receipts ==>
      k in m.disk.receipts && m'.disk.receipts[k] == m.disk.receipts[k])
    && (forall k :: k != id && k in m.disk.receipts ==> k in m'.disk.receipts)
    && (forall k :: k != id && k in reg'.receipts ==> k in reg.receipts && reg'.receipts[k] == reg.receipts[k])
    && (forall k :: k != id && k in reg.receipts ==> k in reg'.receipts)
  }

  lemma TouchKeepsAdmitted(m: Machine, m': Machine, reg: Registry, reg': Registry, id: Uuid)
    requires Touches(m, m', reg, reg', id) && Admitted(m, reg)
    requires id in reg'.receipts ==> ReceiptFits(m, id, reg'.receipts[id]) && Backed(m', id)
    requires forall l :: l in m.launches && l.operation == id ==>
      CoveredBy(reg.barrier, id) || (id in reg'.receipts && reg'.receipts[id].digest == l.digest)
    ensures Admitted(m', reg')
  {
    forall l | l in m'.launches
      ensures Known(reg', l)
    {
      assert Known(reg, l);
    }
    forall k | k in reg'.receipts
      ensures ReceiptFits(m', k, reg'.receipts[k]) && Backed(m', k)
    {
      assert k != id ==> ReceiptFits(m, k, reg.receipts[k]) && Backed(m, k);
    }
  }

  lemma TouchKeepsInStep(m: Machine, m': Machine, reg: Registry, reg': Registry, id: Uuid)
    requires Touches(m, m', reg, reg', id) && InStep(m, reg)
    requires !reg'.failed ==>
      && !reg.failed
      && (id in reg'.receipts ==> MirroredAt(m', reg', id))
      && (id in m'.disk.receipts ==>
            !CoveredBy(reg.barrier, id) && (id !in reg'.receipts ==> m'.disk.receipts[id].state == LaunchIntent))
    ensures InStep(m', reg')
  {
    if !reg'.failed {
      forall k | k in reg'.receipts
        ensures MirroredAt(m', reg', k)
      {
        assert k != id ==> MirroredAt(m, reg, k);
      }
    }
  }

  lemma StartKeepsMemory(m: Machine, r: Request, now: int, w: Write)
    requires Inv(m) && StartStep(m, r, now, w).0 != m
    ensures var m' := StartStep(m, r, now, w).0; MemoryInv(m', m'.memory.value)
  {
    var m' := StartStep(m, r, now, w).0;
    var reg, reg' := m.memory.value, m'.memory.value;
    forall l | l in m.launches
      ensures l.operation != r.operation
    {
      StartIsNew(m, r, now, w, l);
    }
    StartKeepsActiveFits(m, r, now, w);
    if w.Synced? {
      StartKeepsBounds(reg, r, now, Intent(m.context, r));
    }
    hide ActiveFits, Bounded, DiskInv, Total, Admitted, InStep;
    TouchKeepsAdmitted(m, m', reg, reg', r.operation);
    TouchKeepsInStep(m, m', reg, reg', r.operation);
  }

  lemma StartKeepsActiveFits(m: Machine, r: Request, now: int, w: Write)
    requires Inv(m) && StartStep(m, r, now, w).0 != m
    ensures var m' := StartStep(m, r, now, w).0; ActiveFits(m', m'.memory.value)
  {
    hide DiskInv, Bounded, Total, Admitted, Mirrored, StraysAreIntents;
    if w.Synced? && IsLaunched(m, r.operation) {
      var i :| 0 <= i < |m.launches| && m.launches[i].operation == r.operation;
      StartIsNew(m, r, now, w, m.launches[i]);
    }
  }

  lemma StartKeepsInv(m: Machine, r: Request, now: int, w: Write)
    requires Inv(m)
    ensures Inv(StartStep(m, r, now, w).0)
  {
    hide DiskInv;
    var m' := StartStep(m, r, now, w).0;
    if m' != m {
      StartKeepsMemory(m, r, now, w);
      var receipt := Intent(m.context, r);
      forall l | l in m.launches
        ensures l.operation != r.operation
      {
        assert Known(m.memory.value, l);
      }
      PutKeepsDiskInv(m, receipt, w);
      DiskInvIgnoresMemory(m.(disk := PutReceipt(m.disk, receipt, w)), m');
    }
  }

  // A registry that differs in its active command or its flags only.
  predicate SameRecords(m: Machine, reg: Registry, m': Machine, reg': Registry) {
    && m'.disk == m.disk && m'.launches == m.launches && m'.context == m.context
    && reg'.receipts == reg.receipts && reg'.barrier == reg.barrier
  }

  lemma SameRecordsKeepAdmitted(m: Machine, reg: Registry, m': Machine, reg': Registry)
    requires Admitted(m, reg) && SameRecords(m, reg, m', reg')
    ensures Admitted(m', reg')
  {
    hide Receipt.Validated, Covers;
    forall l | l in m'.launches
      ensures Known(reg', l)
    {
      assert Known(reg, l);
    }
  }

  lemma SameRecordsKeepInStep(m: Machine, reg: Registry, m': Machine, reg': Registry)
    requires InStep(m, reg) && SameRecords(m, reg, m', reg') && reg'.failed == reg.failed
    ensures InStep(m', reg')
  {
    hide Covers;
    if !reg.failed {
      forall id | id in reg'.receipts
        ensures MirroredAt(m', reg', id)
      {
        assert MirroredAt(m, reg, id);
      }
    }
  }

  // Only the phase of the active command changes, and it does not become Pending or Checked
  // once it was entered.
  lemma PhaseKeepsInv(m: Machine, m': Machine)
    requires Inv(m) && m.memory.Some? && m.memory.value.active.Some?
    requires m'.disk == m.disk && m'.launches == m.launches && m'.context == m.context && m'.memory.Some?
    requires m'.memory.value == m.memory.value.(active := m'.memory.value.active)
    requires m'.memory.value.active.Some?
    requires m'.memory.value.active.value == m.memory.value.active.value.(phase := m'.memory.value.active.value.phase)
    requires m.memory.value.active.value.phase.Entered? ==> m'.memory.value.active.value.phase.Entered?
    requires WorkerFits(m'.memory.value.active.value)
    ensures Inv(m')
  {
    var reg, reg' := m.memory.value, m'.memory.value;
    SameLaunchesAll(m, m');
    assert ActiveFits(m', reg') by {
      hide DiskInv, Admitted, InStep, Bounded, IsLaunched, Covers;
    }
    hide DiskInv, Admitted, InStep, ActiveFits;
    DiskInvIgnoresMemory(m, m');
    SameRecordsKeepAdmitted(m, reg, m', reg');
    SameRecordsKeepInStep(m, reg, m', reg');
  }

  lemma ActiveWorker(m: Machine)
    requires Inv(m) && m.memory.Some? && m.memory.value.active.Some?
    ensures WorkerFits(m.memory.value.active.value)
  {
    hide DiskInv, Admitted, InStep, Bounded, IsLaunched;
  }

  lemma CheckKeepsInv(m: Machine, now: int)
    requires Inv(m)
    ensures Inv(CheckStep(m, now))
  {
    var m' := CheckStep(m, now);
    if m' != m {
      ActiveWorker(m);
      hide Inv;
      PhaseKeepsInv(m, m');
    }
  }

  // One more launch of the active command, which had none.
  lemma LaunchKeepsInv(m: Machine, m': Machine)
    requires Inv(m) && m.memory.Some? && m.memory.value.active.Some?
    requires var a := m.memory.value.active.value;
             && a.operation in m.memory.value.receipts && !IsLaunched(m, a.operation)
             && a.phase.Entered?
             && m'.launches == m.launches + [Launch(a.operation, m.memory.value.receipts[a.operation].digest)]
    requires m'.disk == m.disk && m'.context == m.context && m'.memory == m.memory
    ensures Inv(m')
  {
    var reg := m.memory.value;
    var id := reg.active.value.operation;
    forall l | l in m'.launches
      ensures Receipted(m', l) && Known(m'.memory.value, l)
    {
      if l in m.launches {
        assert Receipted(m, l) && Known(reg, l);
      }
    }
    forall i, j | 0 <= i < j < |m'.launches|
      ensures m'.launches[i].operation != m'.launches[j].operation
    {
      if j == |m.launches| {
        assert m.launches[i].operation != id;
      }
    }
    forall k | k in m'.disk.receipts && CoveredBy(DiskBarrier(m'.disk), k)
      ensures Retirable(m', m'.disk.receipts[k])
    {
      assert k != id && Retirable(m, m.disk.receipts[k]);
      if IsLaunched(m', k) {
        var i :| 0 <= i < |m'.launches| && m'.launches[i].operation == k;
        assert m.launches[i].operation == k;
        assert IsLaunched(m, k);
      }
    }
  }

  // The active command before it enters: not launched, and nothing captured.
  lemma CheckedIsNotLaunched(m: Machine)
    requires Inv(m) && m.memory.Some? && m.memory.value.active.Some? && !m.memory.value.active.value.phase.Entered?
    ensures !IsLaunched(m, m.memory.value.active.value.operation)
  {
    hide DiskInv, Admitted, InStep, Bounded, IsLaunched;
  }

  // A spawn step is an entering step and perhaps a launch.
  lemma SpawnShape(m: Machine, reach: Reach)
    requires SpawnStep(m, reach) != m
    ensures m.memory.Some? && m.memory.value.active.Some? && m.memory.value.active.value.phase.Checked?
    ensures var reg, m' := m.memory.value, SpawnStep(m, reach);
            var a := reg.active.value;
            && a.operation in reg.receipts && m'.disk == m.disk && m'.context == m.context
            && m'.memory.Some? && m'.memory.value.active.Some?
            && var a' := m'.memory.value.active.value;
               && a'.phase.Entered? && a' == a.(phase := a'.phase)
               && m'.memory == Some(reg.(active := Some(a')))
               && (m'.launches == m.launches
                   || m'.launches == m.launches + [Launch(a.operation, reg.receipts[a.operation].digest)])
  {}

  lemma SpawnKeepsInv(m: Machine, reach: Reach)
    requires Inv(m)
    ensures Inv(SpawnStep(m, reach))
  {
    var m' := SpawnStep(m, reach);
    hide SpawnStep, Inv, IsLaunched;
    if m' != m {
      SpawnShape(m, reach);
      CheckedIsNotLaunched(m);
      ActiveWorker(m);
      var entered := m.(memory := m'.memory);
      PhaseKeepsInv(m, entered);
      if m'.launches == m.launches {
        PhaseKeepsInv(m, m');
      } else {
        SameLaunchesAll(m, entered);
        LaunchKeepsInv(entered, m');
      }
    }
  }

  lemma ReportKeepsInv(m: Machine, id: Uuid)
    requires Inv(m)
    ensures Inv(ReportStep(m, id))
  {
    SideKeepsInv(m, ReportStep(m, id));
  }

  // The invariant is not about the other files of the state directory, nor about cgroups.
  lemma SideKeepsInv(m: Machine, m': Machine)
    requires Inv(m) && m' == m.(side := m'.side, groups := m'.groups)
    ensures Inv(m')
  {
    SameLaunchesAll(m, m');
    if m.memory.Some? {
      var reg := m.memory.value;
      assert ActiveFits(m', reg) by {
        hide DiskInv, Admitted, InStep, Bounded, IsLaunched, Covers;
      }
      hide DiskInv, Admitted, InStep, ActiveFits;
      SameRecordsKeepAdmitted(m, reg, m', reg);
      SameRecordsKeepInStep(m, reg, m', reg);
    }
    hide DiskInv, MemoryInv;
    DiskInvIgnoresMemory(m, m');
  }

  // The command itself is where it was.
  predicate Resumed(a: Active, a': Active) {
    a' == a.(signalled := a'.signalled, captures := a'.captures)
  }

  // The active receipt is rewritten in memory, on disk, or both, still as a launch intent.
  ghost predicate Rewrites(m: Machine, r: Receipt, m': Machine) {
    && m.memory.Some? && m.memory.value.active.Some? && m'.memory.Some?
    && m.memory.value.active.value.operation == r.operation
    && r.operation in m.memory.value.receipts
    && ReceiptFits(m, r.operation, r) && !r.state.Terminal()
    && r.digest == m.memory.value.receipts[r.operation].digest
    && r.outputLimit == m.memory.value.receipts[r.operation].outputLimit
    && (m.memory.value.receipts[r.operation].cancelRequested ==> r.cancelRequested)
    && (m'.disk == m.disk || m'.disk == m.disk.(receipts := m.disk.receipts[r.operation := r]))
    && m'.launches == m.launches && m'.context == m.context
    && var reg, reg' := m.memory.value, m'.memory.value;
       && (reg'.receipts == reg.receipts || reg'.receipts == reg.receipts[r.operation := r])
       && reg'.active.Some? && Resumed(reg.active.value, reg'.active.value)
       && (reg'.active.value.captures != reg.active.value.captures ==> reg.active.value.phase == Entered(true))
       && (reg.active.value.signalled ==> reg'.active.value.signalled)
       && (reg'.active.value.signalled ==>
             reg.active.value.signalled || reg'.receipts[r.operation].cancelRequested)
       && reg'.barrier == reg.barrier && reg'.failed == reg.failed
  }

  lemma SameLimits(reg: Registry, reg': Registry)
    requires reg'.receipts.Keys == reg.receipts.Keys
    requires forall id :: id in reg.receipts ==> reg'.receipts[id].outputLimit == reg.receipts[id].outputLimit
    requires Bounded(reg)
    ensures Bounded(reg')
  {
    assert Limits(reg'.receipts) == Limits(reg.receipts);
  }

  lemma RewriteKeepsMemory(m: Machine, r: Receipt, m': Machine)
    requires Inv(m) && Rewrites(m, r, m')
    ensures MemoryInv(m', m'.memory.value)
  {
    var reg, reg' := m.memory.value, m'.memory.value;
    RewriteKeepsActiveFits(m, r, m');
    SameLimits(reg, reg');
    forall l | l in m.launches && l.operation == r.operation
      ensures reg'.receipts[r.operation].digest == l.digest
    {
      ActiveDigest(m, l);
    }
    ActiveFacts(m);
    assert reg'.failed || MirroredAt(m', reg', r.operation) by {
      hide DiskInv, Bounded, Admitted;
      assert reg.failed || MirroredAt(m, reg, r.operation);
    }
    RewriteTouches(m, r, m');
    InStepBarrier(m, reg);
    hide DiskInv, Bounded, Known, ActiveFits, InStep, Touches, Receipt.Validated;
    TouchKeepsAdmitted(m, m', reg, reg', r.operation);
    hide Admitted;
    TouchKeepsInStep(m, m', reg, reg', r.operation);
  }

  lemma RewriteTouches(m: Machine, r: Receipt, m': Machine)
    requires Rewrites(m, r, m')
    ensures Touches(m, m', m.memory.value, m'.memory.value, r.operation)
  {
    hide Receipt.Validated;
  }

  lemma RewriteKeepsActiveFits(m: Machine, r: Receipt, m': Machine)
    requires Inv(m) && Rewrites(m, r, m')
    ensures ActiveFits(m', m'.memory.value)
  {
    ActiveFacts(m);
    hide DiskInv, Bounded, Admitted, InStep;
    SameLaunchesAll(m, m');
  }

  lemma ActiveFacts(m: Machine)
    requires Inv(m) && m.memory.Some? && m.memory.value.active.Some?
    ensures var id := m.memory.value.active.value.operation;
            && m.disk.binding.Some?
            && id in m.memory.value.receipts
            && OnDiskAsIntent(m, m.memory.value.receipts[id])
            && ReceiptFits(m, id, m.memory.value.receipts[id])
  {
    hide DiskInv;
  }

  lemma RewriteKeepsDisk(m: Machine, r: Receipt, m': Machine)
    requires Inv(m) && Rewrites(m, r, m')
    ensures DiskInv(m')
  {
    ActiveFacts(m);
    forall l | l in m.launches && l.operation == r.operation
      ensures l.digest == r.digest
    {
      ActiveDigest(m, l);
    }
    hide MemoryInv;
    var w := if m'.disk == m.disk then FailedOld(None) else Synced;
    PutKeepsDiskInv(m, r, w);
    DiskInvIgnoresMemory(m.(disk := PutReceipt(m.disk, r, w)), m');
  }

  lemma RewriteKeepsInv(m: Machine, r: Receipt, m': Machine)
    requires Inv(m) && Rewrites(m, r, m')
    ensures Inv(m')
  {
    hide DiskInv, MemoryInv;
    RewriteKeepsMemory(m, r, m');
    RewriteKeepsDisk(m, r, m');
  }

  lemma DiskInvIgnoresMemory(m: Machine, m': Machine)
    requires DiskInv(m)
    requires m'.disk == m.disk && m'.launches == m.launches && m'.context == m.context
    ensures DiskInv(m')
  {
    forall l | l in m'.launches
      ensures Receipted(m', l)
    {
      assert Receipted(m, l);
    }
    SameLaunchesAll(m, m');
    forall id | id in m'.disk.receipts && CoveredBy(DiskBarrier(m'.disk), id)
      ensures Retirable(m', m'.disk.receipts[id])
    {
      assert Retirable(m, m.disk.receipts[id]);
    }
  }

  lemma CancelKeepsInv(m: Machine, id: Uuid, w: Write)
    requires Inv(m)
    ensures Inv(CancelStep(m, id, w).0)
  {
    hide DiskInv;
    var m' := CancelStep(m, id, w).0;
    if m' != m {
      RewriteKeepsInv(m, m.memory.value.receipts[id].(cancelRequested := true), m');
    }
  }

  // What the capture tasks count always fits the receipt.
  lemma CapturedFits(r: Receipt, captures: seq<Capture.Event>)
    requires r.Validated()
    ensures var now := Captured(r, captures);
            && r.(stdout := now.published, stderr := now.publishedErr).Validated()
            && (now.Ended() ==>
                  && now.out.result.Consistent() && now.err.result.Consistent()
                  && now.out.result.stored + now.err.result.stored <= r.outputLimit)
  {
    Capture.CountersFitReceipt(r.outputLimit, captures);
  }

  lemma PublishKeepsInv(m: Machine, captures: seq<Capture.Event>)
    requires Inv(m)
    ensures Inv(PublishStep(m, captures))
  {
    hide DiskInv;
    var m' := PublishStep(m, captures);
    if m' != m {
      var id := m.memory.value.active.value.operation;
      ActiveFacts(m);
      CapturedFits(m.memory.value.receipts[id], m.memory.value.active.value.captures + captures);
      hide Captured, Receipt.Validated, MemoryInv;
      RewriteKeepsInv(m, m'.memory.value.receipts[id], m');
    }
  }

  lemma FinalFits(m: Machine, o: Outcome, cleaned: bool)
    requires Inv(m) && m.memory.Some? && m.memory.value.active.Some?
    requires var a := m.memory.value.active.value;
             a.operation in m.memory.value.receipts && Plausible(a, m.memory.value.receipts[a.operation], o)
    ensures var id := m.memory.value.active.value.operation;
            var r := m.memory.value.receipts[id];
            var final := Final(m.memory.value.active.value, r, o, cleaned);
            && ReceiptFits(m, id, final)
            && ReceiptFits(m, id, final.(state := Unknown, exitCode := None, signal := None))
            && final.state.Terminal() && final.operation == id
            && final.digest == r.digest && final.outputLimit == r.outputLimit
  {
    ActiveFacts(m);
    ActiveWorker(m);
    var a := m.memory.value.active.value;
    assert a.signalled ==> m.memory.value.receipts[a.operation].cancelRequested by {
      hide DiskInv, Admitted, InStep, Bounded, Plausible, Captured;
    }
    ActiveIsOpen(m);
    hide Inv, OnDiskAsIntent, Plausible, Captured, Receipt.Validated, WorkerFits;
    FinalIsValid(a, m.memory.value.receipts[a.operation], o, cleaned);
  }

  lemma ActiveIsOpen(m: Machine)
    requires Inv(m) && m.memory.Some? && m.memory.value.active.Some?
    requires m.memory.value.active.value.operation in m.memory.value.receipts
    ensures !m.memory.value.receipts[m.memory.value.active.value.operation].state.Terminal()
  {
    hide DiskInv, Admitted, InStep, Bounded;
  }

  // What any plausible end of an open command makes of its receipt is a valid one.
  lemma FinalIsValid(a: Active, r: Receipt, o: Outcome, cleaned: bool)
    requires r.Validated() && !r.state.Terminal() && Plausible(a, r, o) && WorkerFits(a)
    requires a.signalled ==> r.cancelRequested
    ensures var final := Final(a, r, o, cleaned);
            && final.Validated() && final.(state := Unknown, exitCode := None, signal := None).Validated()
            && final.state.Terminal()
  {
    if o.Reported? {
      CapturedFits(r, a.captures + o.captures);
    }
    hide Captured;
  }

  lemma FinishKeepsMemory(m: Machine, o: Outcome, cleaned: bool, w: Write)
    requires Inv(m) && FinishStep(m, o, cleaned, w) != m
    ensures var m' := FinishStep(m, o, cleaned, w); MemoryInv(m', m'.memory.value)
  {
    hide Plausible, Final, Captured, Receipt.Validated, Littered;
    var m' := FinishStep(m, o, cleaned, w);
    var reg, reg' := m.memory.value, m'.memory.value;
    var id := reg.active.value.operation;
    FinishKeepsActiveFits(m, o, cleaned, w);
    FinishTouches(m, o, cleaned, w);
    FinishShape(m, o, cleaned, w);
    ActiveFacts(m);
    forall l | l in m.launches && l.operation == id
      ensures reg'.receipts[id].digest == l.digest
    {
      ActiveDigest(m, l);
    }
    InStepBarrier(m, reg);
    hide FinishStep, DiskInv, Known, ActiveFits, InStep, ReceiptFits, Touches;
    SameLimits(reg, reg');
    hide Bounded;
    TouchKeepsAdmitted(m, m', reg, reg', id);
    hide Admitted;
    TouchKeepsInStep(m, m', reg, reg', id);
  }

  lemma FinishTouches(m: Machine, o: Outcome, cleaned: bool, w: Write)
    requires Inv(m) && FinishStep(m, o, cleaned, w) != m
    ensures var m' := FinishStep(m, o, cleaned, w);
            Touches(m, m', m.memory.value, m'.memory.value, m.memory.value.active.value.operation)
  {
    FinalFits(m, o, cleaned);
    var m' := FinishStep(m, o, cleaned, w);
    var reg, reg' := m.memory.value, m'.memory.value;
    var id := reg.active.value.operation;
    var final := Final(reg.active.value, reg.receipts[id], o, cleaned);
    assert m'.disk == PutReceipt(m.disk, final, w) && m'.launches == m.launches && m'.context == m.context;
    assert reg'.barrier == reg.barrier && id in reg'.receipts && reg'.receipts == reg.receipts[id := reg'.receipts[id]];
    hide FinishStep, Final, Plausible, Inv, PutReceipt, Touches, Receipt.Validated;
    PutTouches(m, m', reg, reg', final, w, reg'.receipts[id]);
  }

  lemma PutTouches(m: Machine, m': Machine, reg: Registry, reg': Registry, r: Receipt, w: Write, kept: Receipt)
    requires m'.disk == PutReceipt(m.disk, r, w) && m'.launches == m.launches && m'.context == m.context
    requires reg'.barrier == reg.barrier && reg'.receipts == reg.receipts[r.operation := kept]
    ensures Touches(m, m', reg, reg', r.operation)
  {}

  lemma FinishShape(m: Machine, o: Outcome, cleaned: bool, w: Write)
    requires Inv(m) && FinishStep(m, o, cleaned, w) != m
    ensures var m' := FinishStep(m, o, cleaned, w);
            var id := m.memory.value.active.value.operation;
            var reg, reg' := m.memory.value, m'.memory.value;
            && id in reg.receipts && id in reg'.receipts
            && reg'.receipts.Keys == reg.receipts.Keys
            && m'.disk.binding == m.disk.binding
            && ReceiptFits(m, id, reg'.receipts[id])
            && reg'.receipts[id].state.Terminal()
            && reg'.receipts[id].digest == reg.receipts[id].digest
            && reg'.receipts[id].outputLimit == reg.receipts[id].outputLimit
            && (!reg'.failed ==> !reg.failed && id in m'.disk.receipts && m'.disk.receipts[id] == reg'.receipts[id])
  {
    FinalFits(m, o, cleaned);
    hide Plausible, Final, Inv, Receipt.Validated;
  }

  lemma InStepBarrier(m: Machine, reg: Registry)
    requires InStep(m, reg)
    ensures !reg.failed ==> reg.barrier == DiskBarrier(m.disk)
  {}

  lemma FinishKeepsActiveFits(m: Machine, o: Outcome, cleaned: bool, w: Write)
    requires Inv(m) && FinishStep(m, o, cleaned, w) != m
    ensures var m' := FinishStep(m, o, cleaned, w); ActiveFits(m', m'.memory.value)
  {
    FinalFits(m, o, cleaned);
    hide DiskInv, Plausible, Bounded, Admitted, InStep, Final;
  }

  lemma FinishKeepsInv(m: Machine, o: Outcome, cleaned: bool, w: Write)
    requires Inv(m)
    ensures Inv(FinishStep(m, o, cleaned, w))
  {
    var m' := FinishStep(m, o, cleaned, w);
    if m' != m {
      var id := m.memory.value.active.value.operation;
      var final := Final(m.memory.value.active.value, m.memory.value.receipts[id], o, cleaned);
      ActiveFacts(m);
      FinalFits(m, o, cleaned);
      FinishKeepsMemory(m, o, cleaned, w);
      forall l | l in m.launches && l.operation == id
        ensures l.digest == final.digest
      {
        ActiveDigest(m, l);
      }
      hide DiskInv, MemoryInv, Plausible;
      PutKeepsDiskInv(m, final, w);
      DiskInvIgnoresMemory(m.(disk := PutReceipt(m.disk, final, w)), m');
    }
  }
}
