/** Opening the guest runner on whatever a crash left, and retiring history: both keep the
    invariant of RunnerSafety. */
module RunnerRecovery {
  import opened Wrappers
  import opened OperationIds
  import opened Totals
  import opened RunnerModel
  import opened RunnerSafety

  // --- opening ---

  // Recovery leaves a receipt alone or, unless it was settled, marks it unknown and clean.
  predicate Mended(before: Receipt, after: Receipt) {
    after == before || (!before.Settled() && after == before.Recovered())
  }

  ghost predicate RecoveryInv(context: Context, start: Disk, r: Recovery) {
    && r.disk.binding == start.binding
    && r.disk.receipts.Keys == start.receipts.Keys
    && (forall id :: id in start.receipts ==> Mended(start.receipts[id], r.disk.receipts[id]))
    && (forall id :: id in r.loaded ==> LoadedRight(context, r, id))
    && |r.loaded| <= MAX_RECORDS && Total(Limits(r.loaded)) <= MAX_RESERVED
  }

  ghost predicate LoadedRight(context: Context, r: Recovery, id: Uuid)
    requires id in r.loaded
  {
    && id in r.disk.receipts && r.loaded[id] == r.disk.receipts[id]
    && r.loaded[id].Settled() && r.loaded[id].context == context && r.loaded[id].operation == id
    && r.loaded[id].Validated()
  }

  lemma LoadGrows(loaded: map<Uuid, Receipt>, id: Uuid, r: Receipt)
    requires id !in loaded && |loaded| < MAX_RECORDS && Total(Limits(loaded)) + r.outputLimit <= MAX_RESERVED
    ensures |loaded[id := r]| <= MAX_RECORDS && Total(Limits(loaded[id := r])) <= MAX_RESERVED
  {
    LimitsGrow(loaded, id, r);
    SizeGrows(loaded, id, r);
    hide Total, Limits;
  }

  lemma RecoveredFits(r: Receipt)
    requires r.Validated()
    ensures r.Recovered().Validated() && r.Recovered().Settled()
  {}

  lemma LoadOneShape(context: Context, r: Recovery, id: Uuid, repairs: map<Uuid, Repair>)
    requires r.ok && id !in r.loaded && LoadOne(context, r, id, repairs) != r.(ok := false)
    ensures var r' := LoadOne(context, r, id, repairs);
            && id in r.disk.receipts && r'.disk.binding == r.disk.binding
            && r.disk.receipts[id].operation == id && r.disk.receipts[id].context == context
            && r.disk.receipts[id].Validated()
            && var fixed := if r.disk.receipts[id].Settled() then r.disk.receipts[id]
              else r.disk.receipts[id].Recovered();
               && (r'.disk.receipts == r.disk.receipts[id := fixed] || (r'.disk == r.disk && !r'.ok))
               && (r'.ok ==> |r.loaded| < MAX_RECORDS && Total(Limits(r.loaded)) + fixed.outputLimit <= MAX_RESERVED)
               && r'.loaded == if r'.ok then r.loaded[id := fixed] else r.loaded
  {
    hide Total, Limits, Receipt.Validated;
    if r.disk.receipts[id].Settled() {
      assert r.disk.receipts[id := r.disk.receipts[id]] == r.disk.receipts;
    }
  }

  lemma LoadOneMends(context: Context, start: Disk, r: Recovery, id: Uuid, repairs: map<Uuid, Repair>)
    requires RecoveryInv(context, start, r) && id !in r.loaded && r.ok
    ensures var r' := LoadOne(context, r, id, repairs);
            && r'.disk.binding == start.binding
            && r'.disk.receipts.Keys == start.receipts.Keys
            && (forall k :: k in start.receipts ==> Mended(start.receipts[k], r'.disk.receipts[k]))
  {
    var r' := LoadOne(context, r, id, repairs);
    if r' != r.(ok := false) {
      LoadOneShape(context, r, id, repairs);
    }
    hide LoadOne, Receipt.Validated, LoadedRight, Total, Limits;
  }

  lemma LoadOneLoads(context: Context, start: Disk, r: Recovery, id: Uuid, repairs: map<Uuid, Repair>)
    requires RecoveryInv(context, start, r) && id !in r.loaded && r.ok
    ensures var r' := LoadOne(context, r, id, repairs);
            && (forall k :: k in r'.loaded ==> LoadedRight(context, r', k))
            && |r'.loaded| <= MAX_RECORDS && Total(Limits(r'.loaded)) <= MAX_RESERVED
            && (r'.ok ==> r'.loaded.Keys == r.loaded.Keys + {id})
  {
    var r' := LoadOne(context, r, id, repairs);
    hide Total, Limits, Mended;
    if r' != r.(ok := false) {
      LoadOneShape(context, r, id, repairs);
      RecoveredFits(r.disk.receipts[id]);
      hide LoadOne, Receipt.Validated;
      if r'.ok {
        LoadGrows(r.loaded, id, r'.loaded[id]);
      }
    }
    hide LoadOne, Receipt.Validated;
    forall k | k in r'.loaded
      ensures LoadedRight(context, r', k)
    {
      assert k in r.loaded ==> LoadedRight(context, r, k);
    }
  }

  lemma LoadOneKeeps(context: Context, start: Disk, r: Recovery, id: Uuid, repairs: map<Uuid, Repair>)
    requires RecoveryInv(context, start, r) && id !in r.loaded && r.ok
    ensures RecoveryInv(context, start, LoadOne(context, r, id, repairs))
    ensures LoadOne(context, r, id, repairs).ok ==>
      LoadOne(context, r, id, repairs).loaded.Keys == r.loaded.Keys + {id}
  {
    var r' := LoadOne(context, r, id, repairs);
    LoadOneMends(context, start, r, id, repairs);
    LoadOneLoads(context, start, r, id, repairs);
    hide LoadOne, Receipt.Validated, LoadedRight, Total, Limits, Mended;
  }

  lemma VisitKeeps(
      context: Context, start: Disk, r: Recovery, e: Entry, repairs: map<Uuid, Repair>, stuck: set<Uuid>)
    requires RecoveryInv(context, start, r) && r.ok
    requires e.ReceiptEntry? ==> e.operation !in r.loaded
    ensures var r' := Visit(context, r, e, repairs, stuck);
            && RecoveryInv(context, start, r')
            && (r'.ok ==> r'.loaded.Keys == r.loaded.Keys + (if e.ReceiptEntry? then {e.operation} else {}))
  {
    if e.ReceiptEntry? {
      LoadOneKeeps(context, start, r, e.operation, repairs);
      hide RecoveryInv, LoadOne;
    } else {
      var r' := Visit(context, r, e, repairs, stuck);
      assert r' == r.(side := r'.side, ok := r'.ok);
      hide Visit, Mended, Total, Limits;
      forall id | id in r'.loaded
        ensures LoadedRight(context, r', id)
      {
        assert LoadedRight(context, r, id);
      }
    }
  }

  lemma {:induction false} RecoverKeeps(
      context: Context, start: Disk, r: Recovery, order: seq<Entry>, repairs: map<Uuid, Repair>, stuck: set<Uuid>)
    requires RecoveryInv(context, start, r)
    requires forall id :: ReceiptEntry(id) in order ==> id !in r.loaded
    requires forall i, j :: 0 <= i < j < |order| ==> order[i] != order[j]
    ensures var r' := Recover(context, r, order, repairs, stuck);
            && RecoveryInv(context, start, r')
            && (r'.ok ==> forall id :: id in r.loaded || ReceiptEntry(id) in order ==> id in r'.loaded)
    decreases |order|
  {
    if order != [] && r.ok {
      var e, next := order[0], Visit(context, r, order[0], repairs, stuck);
      assert e in order;
      VisitKeeps(context, start, r, e, repairs, stuck);
      hide RecoveryInv, Visit;
      if next.ok {
        forall id | ReceiptEntry(id) in order[1..]
          ensures id !in next.loaded
        {
          assert ReceiptEntry(id) in order && ReceiptEntry(id) != e;
        }
        RecoverKeeps(context, start, next, order[1..], repairs, stuck);
      }
      assert forall f :: f in order ==> f == e || f in order[1..];
    }
  }

  // The disk after recovery, whether or not it finished.
  lemma MendedDisk(m: Machine, m': Machine)
    requires DiskInv(m) && m.disk.binding.Some?
    requires m'.disk.binding == m.disk.binding && m'.context == m.context && m'.launches == m.launches
    requires m'.disk.receipts.Keys == m.disk.receipts.Keys
    requires forall id :: id in m.disk.receipts ==> Mended(m.disk.receipts[id], m'.disk.receipts[id])
    requires forall id :: id in m.disk.receipts ==> !CoveredBy(DiskBarrier(m.disk), id)
    ensures DiskInv(m')
  {
    forall id | id in m'.disk.receipts
      ensures ReceiptFits(m', id, m'.disk.receipts[id])
    {
      RecoveredFits(m.disk.receipts[id]);
    }
    hide Receipt.Validated;
    forall l | l in m'.launches
      ensures Receipted(m', l)
    {
      assert Receipted(m, l);
    }
  }

  lemma RecoverStarts(m: Machine, order: seq<Entry>, repairs: map<Uuid, Repair>, stuck: set<Uuid>)
    requires Listing(order, m.disk, m.side)
    ensures var r' := Recover(m.context, Recovery(m.disk, m.side, m.groups, map[], true), order, repairs, stuck);
            && RecoveryInv(m.context, m.disk, r')
            && (r'.ok ==> forall id :: id in m.disk.receipts ==> id in r'.loaded)
  {
    var r := Recovery(m.disk, m.side, m.groups, map[], true);
    assert RecoveryInv(m.context, m.disk, r) by {
      assert Limits(map[]) == map[];
    }
    hide Recover, RecoveryInv;
    RecoverKeeps(m.context, m.disk, r, order, repairs, stuck);
    forall id | id in m.disk.receipts
      ensures ReceiptEntry(id) in order
    {
      assert Present(m.disk, m.side, ReceiptEntry(id));
    }
  }

  lemma LoadKeepsInv(
      m: Machine, barrier: Option<Barrier>, order: seq<Entry>, repairs: map<Uuid, Repair>, stuck: set<Uuid>)
    requires Inv(m) && m.memory.None? && m.disk.binding.Some? && barrier == DiskBarrier(m.disk)
    requires forall id :: id in m.disk.receipts ==> !CoveredBy(barrier, id)
    ensures Inv(LoadStep(m, barrier, order, repairs, stuck))
  {
    if Listing(order, m.disk, m.side) && !Crowded(m.disk, m.side) {
      RecoverStarts(m, order, repairs, stuck);
      hide Recover, Listing, Total, Limits, Receipt.Validated, Mended, LoadedRight;
      var r' := Recover(m.context, Recovery(m.disk, m.side, m.groups, map[], true), order, repairs, stuck);
      var m' := m.(disk := r'.disk, side := r'.side, groups := r'.groups);
      MendedDisk(m, m');
      if r'.ok && r'.groups == {} {
        var reg := Registry(barrier, r'.loaded, None, false, false);
        var m'' := m'.(memory := Some(reg));
        DiskInvIgnoresMemory(m', m'');
        LoadedMemory(m'', reg, r', m.disk);
      }
      hide RecoveryInv, MemoryInv, DiskInv;
    }
  }

  lemma LoadedMemory(m: Machine, reg: Registry, r: Recovery, start: Disk)
    requires DiskInv(m) && m.disk == r.disk && m.disk.binding.Some? && reg.barrier == DiskBarrier(m.disk)
    requires RecoveryInv(m.context, start, r)
    requires reg.receipts == r.loaded && reg.active.None?
    requires forall id :: id in start.receipts ==> id in r.loaded && !CoveredBy(reg.barrier, id)
    ensures MemoryInv(m, reg)
  {
    hide Total, Limits, Receipt.Validated, Mended;
    forall id | id in reg.receipts
      ensures ReceiptFits(m, id, reg.receipts[id]) && reg.receipts[id].state.Terminal() && MirroredAt(m, reg, id)
    {
      assert LoadedRight(m.context, r, id);
    }
    forall l | l in m.launches
      ensures Known(reg, l)
    {
      assert Receipted(m, l);
    }
    if reg.barrier.Some? {
      CoversItself(reg.barrier.value);
    }
  }

  lemma CoversItself(b: Barrier)
    ensures Covers(b.through, b.through)
  {}

  lemma PruneKeepsDiskInv(m: Machine, b: Barrier, p: Prune)
    requires DiskInv(m) && DiskBarrier(m.disk) == Some(b)
    ensures DiskInv(m.(disk := Pruned(m.disk, b, p)))
  {
    var m' := m.(disk := Pruned(m.disk, b, p));
    forall l | l in m'.launches
      ensures Receipted(m', l)
    {
      assert Receipted(m, l);
    }
    SameLaunchesAll(m, m');
    hide Receipt.Validated, IsLaunched;
    forall id | id in m'.disk.receipts && CoveredBy(DiskBarrier(m'.disk), id)
      ensures Retirable(m', m'.disk.receipts[id])
    {
      assert Retirable(m, m.disk.receipts[id]);
    }
  }

  lemma BindKeepsDiskInv(m: Machine, w: Write)
    requires DiskInv(m) && m.disk.binding.None? && m.context.Validated()
    ensures DiskInv(m.(disk := PutBinding(m.disk, Legacy(m.context), w)))
  {}

  // A closed machine about to be opened for its context.
  ghost predicate Ready(m: Machine) {
    Inv(m) && m.memory.None? && m.context.Validated()
  }

  // A directory bound to a context welcomes no other.
  lemma Configured(m: Machine, caller: Caller)
    requires Inv(m) && m.memory.None? && Welcome(m.disk, caller)
    ensures Ready(m.(context := caller.context))
    ensures m.disk.binding.Some? ==> caller.context == m.context
  {
    hide Receipt.Validated, IsLaunched, Context.Validated;
  }

  lemma OpenAsKeepsInv(
      m: Machine, contextWrite: Write, prune: Prune, order: seq<Entry>, repairs: map<Uuid, Repair>, stuck: set<Uuid>)
    requires Ready(m)
    ensures Inv(OpenAs(m, contextWrite, prune, order, repairs, stuck))
  {
    if m.disk.binding.None? {
      BindKeepsDiskInv(m, contextWrite);
      var m' := m.(disk := PutBinding(m.disk, Legacy(m.context), contextWrite),
        side := Littered(m.side, contextWrite));
      DiskInvIgnoresMemory(m.(disk := m'.disk), m');
      if contextWrite.Synced? {
        LoadKeepsInv(m', None, order, repairs, stuck);
      }
    } else if DiskBarrier(m.disk).None? {
      LoadKeepsInv(m, None, order, repairs, stuck);
    } else {
      var barrier := DiskBarrier(m.disk).value;
      PruneKeepsDiskInv(m, barrier, prune);
      var m' := m.(disk := Pruned(m.disk, barrier, prune), side := PrunedSide(m.side, barrier, prune));
      DiskInvIgnoresMemory(m.(disk := m'.disk), m');
      if prune.PruneAll? {
        LoadKeepsInv(m', Some(barrier), order, repairs, stuck);
      }
    }
    hide DiskInv, LoadStep, Receipt.Validated;
  }

  lemma OpenKeepsInv(
      m: Machine, caller: Caller, contextWrite: Write, prune: Prune, order: seq<Entry>, repairs: map<Uuid, Repair>,
      stuck: set<Uuid>)
    requires Inv(m)
    ensures Inv(OpenStep(m, caller, contextWrite, prune, order, repairs, stuck))
  {
    hide Inv, OpenAs, Welcome, Ready;
    if m.memory.None? && Welcome(m.disk, caller) {
      Configured(m, caller);
      OpenAsKeepsInv(m.(context := caller.context), contextWrite, prune, order, repairs, stuck);
    }
  }

  // --- retiring ---

  lemma RetireFacts(m: Machine, requested: Barrier, w: Write, p: Prune)
    requires Inv(m) && RetireStep(m, requested, w, p).0 != m
    ensures m.memory.Some? && m.disk.binding.Some?
    ensures m.memory.value.barrier == DiskBarrier(m.disk) && requested.Validated(m.context)
    ensures forall id :: CoveredBy(m.memory.value.barrier, id) ==> Covers(requested.through, id)
    ensures m.memory.value.barrier.Some? ==> Less(m.memory.value.barrier.value.through, requested.through)
    ensures forall id :: id in m.memory.value.receipts && Covers(requested.through, id) ==>
      m.memory.value.receipts[id].Resolved()
    ensures m.memory.value.active.Some? ==> !Covers(requested.through, m.memory.value.active.value.operation)
    ensures Prunable(m.disk, m.side, m.groups, requested) && !Crowded(m.disk, m.side)
    ensures !m.memory.value.failed
  {
    hide DiskInv, Admitted, ActiveFits, Mirrored, StraysAreIntents, Bounded, Receipt.Validated;
  }

  // What a new barrier covers on disk is resolved, or an intent the registry never admitted.
  lemma CoveredRetirable(m: Machine, requested: Barrier, w: Write, p: Prune, id: Uuid)
    requires Inv(m) && RetireStep(m, requested, w, p).0 != m
    requires id in m.disk.receipts && Covers(requested.through, id)
    ensures Retirable(m, m.disk.receipts[id])
    ensures m.disk.receipts[id].Resolved() <==> id in m.memory.value.receipts
  {
    RetireFacts(m, requested, w, p);
    var reg := m.memory.value;
    assert ReceiptFits(m, id, m.disk.receipts[id]);
    hide DiskInv, RetireStep, Receipt.Validated, ActiveFits, Bounded;
    if id in reg.receipts {
      assert MirroredAt(m, reg, id);
    } else {
      assert m.disk.receipts[id].state == LaunchIntent;
      forall l | l in m.launches
        ensures l.operation != id
      {
        assert Known(reg, l);
      }
    }
  }

  lemma RebindKeepsDiskInv(m: Machine, requested: Barrier, w: Write, p: Prune)
    requires Inv(m) && RetireStep(m, requested, w, p).0 != m
    ensures DiskInv(m.(disk := PutBinding(m.disk, Retired(requested), w)))
  {
    var m' := m.(disk := PutBinding(m.disk, Retired(requested), w));
    RetireFacts(m, requested, w, p);
    SameLaunchesAll(m, m');
    forall id | id in m'.disk.receipts && CoveredBy(DiskBarrier(m'.disk), id)
      ensures Retirable(m', m'.disk.receipts[id])
    {
      if !w.FailedOld? {
        CoveredRetirable(m, requested, w, p, id);
      }
    }
    hide RetireStep, MemoryInv, Receipt.Validated;
    forall l | l in m'.launches
      ensures Receipted(m', l)
    {
      assert Receipted(m, l);
    }
  }

  lemma RetireKeepsDisk(m: Machine, requested: Barrier, w: Write, p: Prune)
    requires Inv(m)
    ensures DiskInv(RetireStep(m, requested, w, p).0)
  {
    var m' := RetireStep(m, requested, w, p).0;
    if m' != m {
      RebindKeepsDiskInv(m, requested, w, p);
      var bound := m.(disk := PutBinding(m.disk, Retired(requested), w));
      if w.Synced? {
        PruneKeepsDiskInv(bound, requested, p);
        DiskInvIgnoresMemory(bound.(disk := Pruned(bound.disk, requested, p)), m');
      } else {
        DiskInvIgnoresMemory(bound, m');
      }
    }
    hide *;
  }

  lemma UncoveredBounded(receipts: map<Uuid, Receipt>, b: Barrier)
    ensures |Uncovered(receipts, b)| <= |receipts|
    ensures Total(Limits(Uncovered(receipts, b))) <= Total(Limits(receipts))
  {
    SizeMonotone(Uncovered(receipts, b), receipts);
    TotalMonotone(Limits(Uncovered(receipts, b)), Limits(receipts));
    hide Total;
  }

  // The registry and the disk after retirement, case by case.
  predicate Retires(m: Machine, requested: Barrier, m': Machine) {
    && m.memory.Some? && m'.memory.Some? && m'.launches == m.launches && m'.context == m.context
    && var reg, reg' := m.memory.value, m'.memory.value;
       && reg'.active == reg.active
       && (reg'.receipts == reg.receipts || reg'.receipts == Uncovered(reg.receipts, requested))
       && (reg'.receipts == reg.receipts || reg'.barrier == Some(requested))
       && (reg'.barrier == reg.barrier || (reg'.barrier == Some(requested) && DiskBarrier(m'.disk) == Some(requested)))
       && (DiskBarrier(m'.disk) == DiskBarrier(m.disk) || DiskBarrier(m'.disk) == Some(requested))
       && m'.disk.binding.Some?
       && (forall id :: id in m'.disk.receipts ==> id in m.disk.receipts && m'.disk.receipts[id] == m.disk.receipts[id])
       && (forall id :: id in m.disk.receipts && !Covers(requested.through, id) ==> id in m'.disk.receipts)
       && (DiskBarrier(m'.disk) == Some(requested) || m'.disk.receipts == m.disk.receipts)
       && (!reg'.failed ==>
             && reg'.barrier == DiskBarrier(m'.disk) == Some(requested)
             && reg'.receipts == Uncovered(reg.receipts, requested)
             && m'.disk.receipts == Uncovered(m.disk.receipts, requested))
  }

  function Rebound(m: Machine, requested: Barrier, w: Write): Machine
    requires m.memory.Some?
  {
    m.(disk := PutBinding(m.disk, Retired(requested), w), side := Littered(m.side, w),
       memory := Some(m.memory.value.(failed := true)))
  }

  function Shortened(m: Machine, requested: Barrier, p: Prune): Machine
    requires m.memory.Some?
  {
    var reg := m.memory.value;
    m.(disk := Pruned(PutBinding(m.disk, Retired(requested), Synced), requested, p),
       side := PrunedSide(m.side, requested, p),
       memory := Some(if p.PruneFailed? then reg.(barrier := Some(requested), failed := true)
                      else reg.(barrier := Some(requested), receipts := Uncovered(reg.receipts, requested))))
  }

  lemma RetireCases(m: Machine, requested: Barrier, w: Write, p: Prune)
    requires Inv(m) && RetireStep(m, requested, w, p).0 != m
    ensures m.memory.Some?
    ensures RetireStep(m, requested, w, p).0 == if w.Synced? then Shortened(m, requested, p)
      else Rebound(m, requested, w)
  {
    hide Inv, Prunable, Barrier.Validated, Receipt.Resolved, Less, Covers;
  }

  lemma ReboundRetires(m: Machine, requested: Barrier, w: Write)
    requires m.memory.Some? && m.disk.binding.Some?
    ensures Retires(m, requested, Rebound(m, requested, w))
  {
    hide Covers;
  }

  lemma ShortenedRetires(m: Machine, requested: Barrier, p: Prune)
    requires m.memory.Some? && m.disk.binding.Some?
    ensures Retires(m, requested, Shortened(m, requested, p))
  {
    hide Covers;
    if p.PruneAll? {
      assert Shortened(m, requested, p).disk.receipts == Uncovered(m.disk.receipts, requested);
    }
  }

  lemma RetireShape(m: Machine, requested: Barrier, w: Write, p: Prune)
    requires Inv(m) && RetireStep(m, requested, w, p).0 != m
    ensures Retires(m, requested, RetireStep(m, requested, w, p).0)
  {
    RetireFacts(m, requested, w, p);
    RetireCases(m, requested, w, p);
    ReboundRetires(m, requested, w);
    ShortenedRetires(m, requested, p);
    hide *;
  }

  lemma RetireKeepsAdmitted(m: Machine, requested: Barrier, m': Machine)
    requires m.memory.Some? && Admitted(m, m.memory.value) && Retires(m, requested, m')
    requires m.memory.value.barrier == DiskBarrier(m.disk)
    requires forall id :: CoveredBy(m.memory.value.barrier, id) ==> Covers(requested.through, id)
    ensures Admitted(m', m'.memory.value)
  {
    hide Receipt.Validated;
    CoversItself(requested);
    forall l | l in m'.launches
      ensures Known(m'.memory.value, l)
    {
      assert Known(m.memory.value, l);
    }
  }

  lemma RetireKeepsActiveFits(m: Machine, requested: Barrier, m': Machine)
    requires m.memory.Some? && ActiveFits(m, m.memory.value) && Retires(m, requested, m')
    requires m.memory.value.active.Some? ==> !Covers(requested.through, m.memory.value.active.value.operation)
    requires forall id :: id in m.memory.value.receipts ==> m.memory.value.receipts[id].operation == id
    ensures ActiveFits(m', m'.memory.value)
  {
    SameLaunchesAll(m, m');
    hide Receipt.Validated, IsLaunched;
  }

  lemma RetireKeepsInStep(m: Machine, requested: Barrier, m': Machine)
    requires m.memory.Some? && InStep(m, m.memory.value) && !m.memory.value.failed && Retires(m, requested, m')
    ensures InStep(m', m'.memory.value)
  {
    var reg, reg' := m.memory.value, m'.memory.value;
    if !reg'.failed {
      forall id | id in reg'.receipts
        ensures MirroredAt(m', reg', id)
      {
        assert MirroredAt(m, reg, id);
      }
    }
  }

  lemma RetireKeepsInv(m: Machine, requested: Barrier, w: Write, p: Prune)
    requires Inv(m)
    ensures Inv(RetireStep(m, requested, w, p).0)
  {
    RetireKeepsDisk(m, requested, w, p);
    var m' := RetireStep(m, requested, w, p).0;
    if m' != m {
      RetireFacts(m, requested, w, p);
      RetireShape(m, requested, w, p);
      var reg := m.memory.value;
      UncoveredBounded(reg.receipts, requested);
      hide RetireStep, DiskInv, Total, Limits, Uncovered, Receipt.Validated, Prunable, ActiveFits, InStep;
      RetireKeepsAdmitted(m, requested, m');
      RetireKeepsActiveFits(m, requested, m');
      RetireKeepsInStep(m, requested, m');
      hide Admitted;
    }
  }

  // --- every step, every run ---

  lemma CrashKeepsInv(m: Machine)
    requires Inv(m)
    ensures Inv(m.(memory := None))
  {
    DiskInvIgnoresMemory(m, m.(memory := None));
    hide DiskInv, MemoryInv;
  }

  lemma CloseKeepsInv(m: Machine)
    requires Inv(m) && m.memory.Some?
    ensures Inv(m.(memory := Some(m.memory.value.(closed := true))))
  {
    var reg := m.memory.value;
    var reg' := reg.(closed := true);
    var m' := m.(memory := Some(reg'));
    SameLaunchesAll(m, m');
    assert ActiveFits(m', reg') by {
      hide DiskInv, Admitted, InStep, Bounded, IsLaunched, Covers;
    }
    hide DiskInv, Admitted, InStep, ActiveFits;
    DiskInvIgnoresMemory(m, m');
    SameRecordsKeepAdmitted(m, reg, m', reg');
    SameRecordsKeepInStep(m, reg, m', reg');
  }

  lemma StepKeepsInv(m: Machine, e: Event)
    requires Inv(m)
    ensures Inv(Step(m, e))
  {
    match e
    case Open(caller, contextWrite, prune, order, repairs, stuck) =>
      OpenKeepsInv(m, caller, contextWrite, prune, order, repairs, stuck);
    case Start(request, now, write) => StartKeepsInv(m, request, now, write);
    case Check(now) => CheckKeepsInv(m, now);
    case Spawn(reach) => SpawnKeepsInv(m, reach);
    case CancelCommand(id, write) => CancelKeepsInv(m, id, write);
    case PublishOutput(captures) => PublishKeepsInv(m, captures);
    case WriteReport(id) => ReportKeepsInv(m, id);
    case Finish(outcome, cleaned, write) => FinishKeepsInv(m, outcome, cleaned, write);
    case Retire(requested, write, prune) => RetireKeepsInv(m, requested, write, prune);
    case Close => if m.memory.Some? { CloseKeepsInv(m); }
    case Crash => CrashKeepsInv(m);
    hide Inv, OpenStep, StartStep, CheckStep, SpawnStep, CancelStep, PublishStep, ReportStep, FinishStep, RetireStep;
  }

  lemma {:induction false} RunKeepsInv(m: Machine, events: seq<Event>)
    requires Inv(m)
    ensures Inv(Run(m, events))
    decreases |events|
  {
    if events != [] {
      StepKeepsInv(m, events[0]);
      hide Inv, Step;
      RunKeepsInv(Step(m, events[0]), events[1..]);
    }
  }

  lemma FreshInv()
    ensures Inv(Fresh())
  {}
}
