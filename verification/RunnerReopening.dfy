/** When the guest runner opens again: exactly when the caller's context names this boot and is the
    one bound to the directory, if any is; the receipts it keeps fit the capacity; the directory
    has a context or nothing else in it; and it is not too crowded. A directory that misses one of
    these never opens again for that context. */
module RunnerReopening {
  import opened Wrappers
  import opened OperationIds
  import opened Totals
  import opened RunnerModel
  import opened RunnerSafety
  import opened RunnerRecovery
  import opened RunnerRuns
  import opened RunnerWorkspace
  import Bytes

  ghost predicate WithinCapacity(receipts: map<Uuid, Receipt>) {
    |receipts| <= MAX_RECORDS && Total(Limits(receipts)) <= MAX_RESERVED
  }

  // Every unsettled receipt can be repaired.
  predicate Repairable(receipts: map<Uuid, Receipt>, repairs: map<Uuid, Repair>) {
    forall id :: id in receipts && !receipts[id].Settled() ==>
      id in repairs && repairs[id].cleaned && repairs[id].write.Synced?
  }

  predicate Fitting(context: Context, receipts: map<Uuid, Receipt>) {
    forall id :: id in receipts ==>
      receipts[id].context == context && receipts[id].operation == id && receipts[id].Validated()
  }

  lemma SameLimitsFit(a: map<Uuid, Receipt>, b: map<Uuid, Receipt>)
    requires a.Keys == b.Keys && forall id :: id in a ==> a[id].outputLimit == b[id].outputLimit
    ensures WithinCapacity(a) <==> WithinCapacity(b)
  {
    assert Limits(a) == Limits(b);
    SizeMonotone(a, b);
    SizeMonotone(b, a);
  }

  // One more receipt of the whole still fits.
  lemma PartFits(loaded: map<Uuid, Receipt>, whole: map<Uuid, Receipt>, id: Uuid)
    requires WithinCapacity(whole) && id in whole && id !in loaded && loaded.Keys <= whole.Keys
    requires forall k :: k in loaded ==> loaded[k].outputLimit == whole[k].outputLimit
    ensures |loaded| < MAX_RECORDS && Total(Limits(loaded)) + whole[id].outputLimit <= MAX_RESERVED
  {
    var more := loaded[id := whole[id]];
    SizeGrows(loaded, id, whole[id]);
    LimitsGrow(loaded, id, whole[id]);
    SizeMonotone(more, whole);
    TotalMonotone(Limits(more), Limits(whole));
    hide Total;
  }

  lemma LoadedPart(context: Context, start: Disk, r: Recovery)
    requires RecoveryInv(context, start, r)
    ensures r.loaded.Keys <= start.receipts.Keys
    ensures forall k :: k in r.loaded ==> r.loaded[k].outputLimit == start.receipts[k].outputLimit
  {
    forall k | k in r.loaded
      ensures k in start.receipts && r.loaded[k].outputLimit == start.receipts[k].outputLimit
    {
      assert LoadedRight(context, r, k);
      assert Mended(start.receipts[k], r.disk.receipts[k]);
    }
    hide Total, Limits, LoadedRight;
  }

  lemma LoadOneSucceeds(context: Context, start: Disk, r: Recovery, id: Uuid, repairs: map<Uuid, Repair>)
    requires RecoveryInv(context, start, r) && r.ok && WithinCapacity(start.receipts)
    requires Fitting(context, start.receipts) && Repairable(start.receipts, repairs)
    requires id in start.receipts && id !in r.loaded && r.disk.receipts[id] == start.receipts[id]
    ensures var r' := LoadOne(context, r, id, repairs);
            && r'.ok
            && (forall g :: g in r'.groups ==> g in r.groups && (g == id ==> start.receipts[id].Settled()))
            && (forall k :: k != id && k in r.disk.receipts ==>
                  k in r'.disk.receipts && r'.disk.receipts[k] == r.disk.receipts[k])
  {
    LoadedPart(context, start, r);
    PartFits(r.loaded, start.receipts, id);
    hide RecoveryInv, WithinCapacity, Total, Limits, Receipt.Validated;
  }

  // Every temporary file can be removed.
  predicate Removable(side: set<SideFile>, stuck: set<Uuid>) {
    forall name :: name in stuck ==> TempFile(name) !in side
  }

  // Not loaded yet, and as it was on disk when recovery began.
  predicate Awaits(start: Disk, r: Recovery, id: Uuid) {
    id in start.receipts && id !in r.loaded && id in r.disk.receipts && r.disk.receipts[id] == start.receipts[id]
  }

  predicate Distinct(order: seq<Entry>) {
    forall i, j :: 0 <= i < j < |order| ==> order[i] != order[j]
  }

  lemma TailOf(order: seq<Entry>, e: Entry)
    requires order != [] && Distinct(order)
    ensures Distinct(order[1..])
    ensures e in order[1..] <==> e in order && e != order[0]
  {
    assert order == [order[0]] + order[1..];
  }

  lemma VisitSucceeds(
      context: Context, start: Disk, r: Recovery, e: Entry, repairs: map<Uuid, Repair>, stuck: set<Uuid>)
    requires RecoveryInv(context, start, r) && r.ok && WithinCapacity(start.receipts)
    requires Fitting(context, start.receipts) && Repairable(start.receipts, repairs)
    requires e.ReceiptEntry? ==> Awaits(start, r, e.operation)
    requires e.SideEntry? && e.file.TempFile? ==> e.file.name !in stuck
    ensures var r' := Visit(context, r, e, repairs, stuck);
            && r'.ok
            && (forall g :: g in r'.groups ==>
                  g in r.groups && (e == ReceiptEntry(g) ==> start.receipts[g].Settled()))
            && (forall id :: Awaits(start, r, id) && e != ReceiptEntry(id) ==> Awaits(start, r', id))
  {
    if e.ReceiptEntry? {
      LoadOneSucceeds(context, start, r, e.operation, repairs);
      LoadOneShape(context, r, e.operation, repairs);
    }
    hide RecoveryInv, LoadOne, WithinCapacity, Fitting, Repairable, Receipt.Validated;
  }

  lemma {:induction false} RecoverSucceeds(
      context: Context, start: Disk, r: Recovery, order: seq<Entry>, repairs: map<Uuid, Repair>, stuck: set<Uuid>)
    requires RecoveryInv(context, start, r) && r.ok && WithinCapacity(start.receipts)
    requires Fitting(context, start.receipts) && Repairable(start.receipts, repairs)
    requires Distinct(order)
    requires forall id :: ReceiptEntry(id) in order ==> Awaits(start, r, id)
    requires forall name :: SideEntry(TempFile(name)) in order ==> name !in stuck
    requires forall g :: g in r.groups ==>
      ReceiptEntry(g) in order && g in start.receipts && !start.receipts[g].Settled()
    ensures var r' := Recover(context, r, order, repairs, stuck); r'.ok && r'.groups == {}
    decreases |order|
  {
    if order != [] {
      hide RecoveryInv, Visit, WithinCapacity, Fitting, Repairable, Distinct, Awaits, Receipt.Settled;
      var e, next := order[0], Visit(context, r, order[0], repairs, stuck);
      assert e in order;
      VisitSucceeds(context, start, r, e, repairs, stuck);
      assert e.ReceiptEntry? ==> e.operation !in r.loaded by {
        assert e.ReceiptEntry? ==> Awaits(start, r, e.operation);
        AwaitsMeans(start, r);
      }
      VisitKeeps(context, start, r, e, repairs, stuck);
      TailOf(order, e);
      forall id | ReceiptEntry(id) in order[1..]
        ensures Awaits(start, next, id)
      {
        TailOf(order, ReceiptEntry(id));
      }
      forall name | SideEntry(TempFile(name)) in order[1..]
        ensures name !in stuck
      {
        TailOf(order, SideEntry(TempFile(name)));
      }
      forall g | g in next.groups
        ensures ReceiptEntry(g) in order[1..] && g in start.receipts && !start.receipts[g].Settled()
      {
        TailOf(order, ReceiptEntry(g));
      }
      RecoverSucceeds(context, start, next, order[1..], repairs, stuck);
    }
  }

  lemma AwaitsMeans(start: Disk, r: Recovery)
    ensures forall id :: Awaits(start, r, id) ==> id !in r.loaded
  {}

  lemma RecoveredIsWithinCapacity(m: Machine, order: seq<Entry>, repairs: map<Uuid, Repair>, stuck: set<Uuid>)
    requires Listing(order, m.disk, m.side)
    ensures Recover(m.context, Recovery(m.disk, m.side, m.groups, map[], true), order, repairs, stuck).ok ==>
      WithinCapacity(m.disk.receipts)
  {
    var r' := Recover(m.context, Recovery(m.disk, m.side, m.groups, map[], true), order, repairs, stuck);
    RecoverStarts(m, order, repairs, stuck);
    if r'.ok {
      LoadedPart(m.context, m.disk, r');
      hide Recover, Listing, Total, Limits, Mended, LoadedRight;
      SameLimitsFit(r'.loaded, m.disk.receipts);
    }
  }

  lemma RecoverSucceedsExactlyWithinCapacity(
      m: Machine, order: seq<Entry>, repairs: map<Uuid, Repair>, stuck: set<Uuid>)
    requires Listing(order, m.disk, m.side) && Fitting(m.context, m.disk.receipts) && Workspace(m)
    requires Repairable(m.disk.receipts, repairs) && Removable(m.side, stuck)
    ensures var r := Recover(m.context, Recovery(m.disk, m.side, m.groups, map[], true), order, repairs, stuck);
            r.ok && r.groups == {} <==> WithinCapacity(m.disk.receipts)
  {
    var r := Recovery(m.disk, m.side, m.groups, map[], true);
    RecoveredIsWithinCapacity(m, order, repairs, stuck);
    hide Recover, WithinCapacity, Fitting, Repairable;
    if WithinCapacity(m.disk.receipts) {
      assert RecoveryInv(m.context, m.disk, r) by {
        assert Limits(map[]) == map[];
      }
      hide RecoveryInv;
      forall e | e in order
        ensures Present(m.disk, m.side, e)
      {}
      forall g | g in r.groups
        ensures ReceiptEntry(g) in order && g in m.disk.receipts && !m.disk.receipts[g].Settled()
      {
        assert Housed(m, g) && Present(m.disk, m.side, ReceiptEntry(g));
      }
      forall id | ReceiptEntry(id) in order
        ensures Awaits(m.disk, r, id)
      {
        assert Present(m.disk, m.side, ReceiptEntry(id));
      }
      forall name | SideEntry(TempFile(name)) in order
        ensures name !in stuck
      {
        assert Present(m.disk, m.side, SideEntry(TempFile(name)));
      }
      hide Workspace;
      RecoverSucceeds(m.context, m.disk, r, order, repairs, stuck);
    }
  }

  lemma LoadSucceedsExactlyWithinCapacity(
      m: Machine, barrier: Option<Barrier>, order: seq<Entry>, repairs: map<Uuid, Repair>, stuck: set<Uuid>)
    requires m.memory.None? && Listing(order, m.disk, m.side) && Fitting(m.context, m.disk.receipts) && Workspace(m)
    requires Repairable(m.disk.receipts, repairs) && Removable(m.side, stuck)
    ensures LoadStep(m, barrier, order, repairs, stuck).memory.Some? <==>
      WithinCapacity(m.disk.receipts) && !Crowded(m.disk, m.side)
  {
    RecoverSucceedsExactlyWithinCapacity(m, order, repairs, stuck);
    hide Recover, WithinCapacity, Fitting, Repairable, Listing, Workspace, Crowded;
  }

  // What opening keeps of the receipts: everything the durable barrier does not cover.
  function Kept(disk: Disk): map<Uuid, Receipt> {
    map id | id in disk.receipts && !CoveredBy(DiskBarrier(disk), id) :: disk.receipts[id]
  }

  // The kept receipts fit, there is a context or nothing stray, and the directory is not crowded.
  ghost predicate Roomy(m: Machine) {
    && WithinCapacity(Kept(m.disk))
    && (m.disk.binding.Some? || m.side == {})
    && !Crowded(m.disk, m.side)
  }

  ghost predicate Openable(m: Machine, caller: Caller) {
    Welcome(m.disk, caller) && Roomy(m)
  }

  lemma PruningMakesRoom(m: Machine, b: Barrier)
    ensures EntryCount(Pruned(m.disk, b, PruneAll), PrunedSide(m.side, b, PruneAll)) <= EntryCount(m.disk, m.side)
  {
    hide Covers;
    SizeMonotone(Pruned(m.disk, b, PruneAll).receipts, m.disk.receipts);
    SubsetSize(PrunedSide(m.side, b, PruneAll), m.side);
  }

  lemma SubsetSize<T>(a: set<T>, b: set<T>)
    requires a <= b
    ensures |a| <= |b|
  {
    assert b == a + (b - a);
  }

  // No cgroup stands in the way of a prune by the durable barrier.
  lemma AlwaysPrunable(m: Machine, b: Barrier)
    requires Inv(m) && Workspace(m) && DiskBarrier(m.disk) == Some(b)
    ensures Prunable(m.disk, m.side, m.groups, b)
  {
    hide Inv, Covers;
    forall g | g in m.groups
      ensures !Covers(b.through, g)
    {
      assert Housed(m, g);
    }
  }

  lemma KeptIsFitting(m: Machine)
    requires Inv(m)
    ensures Fitting(m.context, Kept(m.disk))
  {
    forall id | id in Kept(m.disk)
      ensures ReceiptFits(m, id, m.disk.receipts[id])
    {}
    hide Receipt.Validated, MemoryInv, Covers;
  }

  lemma OpensExactlyWhenRoomy(m: Machine, order: seq<Entry>, repairs: map<Uuid, Repair>, stuck: set<Uuid>)
    requires Ready(m) && Workspace(m)
    requires var ready := Prepared(m, Synced, PruneAll);
             Listing(order, ready.disk, ready.side) && Repairable(ready.disk.receipts, repairs)
             && Removable(ready.side, stuck)
    ensures OpenAs(m, Synced, PruneAll, order, repairs, stuck).memory.Some? <==> Roomy(m)
  {
    var ready := Prepared(m, Synced, PruneAll);
    KeptIsFitting(m);
    PreparedKeepsWorkspace(m, Synced, PruneAll);
    assert ready.disk.receipts == Kept(m.disk) by {
      hide Covers;
    }
    LoadSucceedsExactlyWithinCapacity(ready, DiskBarrier(ready.disk), order, repairs, stuck);
    if DiskBarrier(m.disk).Some? {
      AlwaysPrunable(m, DiskBarrier(m.disk).value);
      PruningMakesRoom(m, DiskBarrier(m.disk).value);
    }
    hide LoadStep, WithinCapacity, Fitting, Repairable, Listing, MemoryInv, Workspace, Covers, Kept, Pruned,
      PrunedSide, Prunable;
    if m.disk.binding.None? {
      assert m.side == {} <==> |m.side| == 0;
      assert m.disk.receipts == map[];
    }
  }

  lemma RoomIgnoresContext(m: Machine, context: Context)
    ensures Roomy(m.(context := context)) <==> Roomy(m)
  {
    hide WithinCapacity, Kept;
  }

  /** Without failures on the way a runner opens if and only if the directory is openable, whoever
      the caller is. */
  lemma OpensExactlyWhenOpenable(
      m: Machine, caller: Caller, order: seq<Entry>, repairs: map<Uuid, Repair>, stuck: set<Uuid>)
    requires Inv(m) && Workspace(m) && m.memory.None?
    requires Welcome(m.disk, caller) ==>
      var ready := Prepared(m.(context := caller.context), Synced, PruneAll);
      Listing(order, ready.disk, ready.side) && Repairable(ready.disk.receipts, repairs)
      && Removable(ready.side, stuck)
    ensures OpenStep(m, caller, Synced, PruneAll, order, repairs, stuck).memory.Some? <==> Openable(m, caller)
  {
    hide Inv, Workspace, Roomy, OpenAs, Welcome, Ready, Listing, Repairable, Removable, Prepared;
    if Welcome(m.disk, caller) {
      Configured(m, caller);
      WorkspaceIgnoresContext(m, caller.context);
      RoomIgnoresContext(m, caller.context);
      OpensExactlyWhenRoomy(m.(context := caller.context), order, repairs, stuck);
    }
  }

  // --- directories that never open again ---

  lemma SameLimitsKept(a: Disk, b: Disk)
    requires DiskBarrier(a) == DiskBarrier(b) && a.receipts.Keys == b.receipts.Keys
    requires forall id :: id in a.receipts ==> a.receipts[id].outputLimit == b.receipts[id].outputLimit
    ensures WithinCapacity(Kept(a)) <==> WithinCapacity(Kept(b))
  {
    hide WithinCapacity, Covers;
    SameLimitsFit(Kept(a), Kept(b));
  }

  // An opening, however far it gets, keeps what counts against the capacity.
  lemma OpeningKeepsLoad(m: Machine, e: Event)
    requires Inv(m) && m.memory.None? && m.disk.binding.Some? && e.Open?
    ensures var m' := Step(m, e);
            && m'.disk.binding == m.disk.binding && m'.context == m.context
            && (WithinCapacity(Kept(m'.disk)) <==> WithinCapacity(Kept(m.disk)))
  {
    hide Inv, OpenAs, Welcome, Ready, WithinCapacity, Kept;
    if Welcome(m.disk, e.caller) {
      Configured(m, e.caller);
      assert m.(context := m.context) == m;
      OpenAsKeepsLoad(m, e);
    }
  }

  lemma OpenAsKeepsLoad(m: Machine, e: Event)
    requires m.disk.binding.Some? && e.Open?
    ensures var m' := OpenAs(m, e.contextWrite, e.prune, e.order, e.repairs, e.stuck);
            && m'.disk.binding == m.disk.binding && m'.context == m.context
            && (WithinCapacity(Kept(m'.disk)) <==> WithinCapacity(Kept(m.disk)))
  {
    var m' := OpenAs(m, e.contextWrite, e.prune, e.order, e.repairs, e.stuck);
    LoadKeepsContext(Prepared(m, e.contextWrite, e.prune), e);
    var ready := Prepared(m, e.contextWrite, e.prune);
    OpenCases(m, e.contextWrite, e.prune, e.order, e.repairs, e.stuck);
    LoadSteps(ready, DiskBarrier(ready.disk), e.order, e.repairs, e.stuck);
    PreparedKeepsKept(m, e.contextWrite, e.prune);
    hide OpenAs, LoadStep, Prepared, WithinCapacity, Kept;
    if m' != m {
      forall id | id in m'.disk.receipts
        ensures id in ready.disk.receipts && m'.disk.receipts[id].outputLimit == ready.disk.receipts[id].outputLimit
      {}
      hide Mended;
      SameLimitsKept(m'.disk, ready.disk);
    }
  }

  lemma LoadKeepsContext(m: Machine, e: Event)
    requires e.Open?
    ensures LoadStep(m, DiskBarrier(m.disk), e.order, e.repairs, e.stuck).context == m.context
  {
    hide Recover, Listing, Crowded;
  }

  lemma PreparedKeepsKept(m: Machine, contextWrite: Write, prune: Prune)
    requires m.disk.binding.Some?
    ensures var ready := Prepared(m, contextWrite, prune);
            ready.disk.binding == m.disk.binding && Kept(ready.disk) == Kept(m.disk) && ready.context == m.context
  {
    hide Covers;
  }

  lemma OpenedKnowsAll(m: Machine, e: Event)
    requires Inv(m) && m.memory.None? && e.Open? && Step(m, e).memory.Some?
    ensures var m' := Step(m, e);
            m'.memory.value.receipts.Keys == m'.disk.receipts.Keys && !m'.memory.value.failed
            && m'.memory.value.barrier == DiskBarrier(m'.disk) && m'.memory.value.active.None?
  {
    hide Inv, OpenAs, Welcome, Ready;
    Configured(m, e.caller);
    OpenedRegistry(m.(context := e.caller.context), e.contextWrite, e.prune, e.order, e.repairs, e.stuck);
  }

  lemma OpenedFits(m: Machine, e: Event)
    requires Inv(m) && m.memory.None? && e.Open? && Step(m, e).memory.Some?
    ensures WithinCapacity(Kept(Step(m, e).disk))
  {
    var m' := Step(m, e);
    var reg := m'.memory.value;
    StepKeepsInv(m, e);
    OpenedKnowsAll(m, e);
    hide Step;
    forall id | id in reg.receipts
      ensures reg.receipts[id].outputLimit == m'.disk.receipts[id].outputLimit && !CoveredBy(DiskBarrier(m'.disk), id)
    {
      assert MirroredAt(m', reg, id);
      assert reg.receipts[id].state.Terminal() by {
        hide InStep;
      }
    }
    assert Kept(m'.disk) == m'.disk.receipts;
    SameLimitsFit(reg.receipts, m'.disk.receipts);
    hide Total, Limits;
  }

  lemma CrowdedIsRefused(m: Machine, e: Event)
    requires m.memory.None? && e.Open?
    requires if m.disk.binding.Some? then Crowded(m.disk, m.side) else m.side != {}
    ensures Step(m, e) == m.(context := Step(m, e).context)
  {
    assert m.side != {} ==> |m.side| > 0;
    hide Prunable, Listing, Recover, Welcome;
  }

  lemma EmptyIsRoomy(m: Machine)
    requires Inv(m) && m.disk.binding.None?
    ensures m.side == {} ==> Roomy(m)
  {
    assert m.disk.receipts == map[] && Kept(m.disk) == map[] && Limits(map[]) == map[];
    hide Inv;
  }

  lemma CrampedStays(m: Machine, e: Event)
    requires Inv(m) && m.memory.None? && !Roomy(m)
    ensures Step(m, e).memory.None? && !Roomy(Step(m, e))
  {
    var m' := Step(m, e);
    if e.Open? {
      if m.disk.binding.None? {
        EmptyIsRoomy(m);
        CrowdedIsRefused(m, e);
        RoomIgnoresContext(m, m'.context);
      } else if Crowded(m.disk, m.side) {
        CrowdedIsRefused(m, e);
        RoomIgnoresContext(m, m'.context);
      } else {
        OpeningKeepsLoad(m, e);
        if m'.memory.Some? {
          OpenedFits(m, e);
        }
      }
      hide Step, Inv, WithinCapacity, Crowded, Kept;
    } else if e.WriteReport? {
      hide Inv, WithinCapacity, Kept;
      SubsetSize(m.side, m'.side);
    } else {
      assert m' == m;
    }
  }

  lemma {:induction false} CrampedForever(m: Machine, events: seq<Event>)
    requires Inv(m) && m.memory.None? && !Roomy(m)
    ensures Run(m, events).memory.None?
    decreases |events|
  {
    if events != [] {
      CrampedStays(m, events[0]);
      StepKeepsInv(m, events[0]);
      hide Inv, Step, Roomy;
      CrampedForever(Step(m, events[0]), events[1..]);
    }
  }

  lemma {:induction false} ListAll<T>(s: set<T>) returns (order: seq<T>)
    ensures forall e :: e in order <==> e in s
    ensures forall i, j :: 0 <= i < j < |order| ==> order[i] != order[j]
    decreases |s|
  {
    if s == {} {
      order := [];
    } else {
      var e :| e in s;
      var rest := ListAll(s - {e});
      order := [e] + rest;
    }
  }

  lemma ListingExists(disk: Disk, side: set<SideFile>) returns (order: seq<Entry>)
    ensures Listing(order, disk, side)
  {
    var entries := (set id | id in disk.receipts :: ReceiptEntry(id)) + (set f | f in side :: SideEntry(f));
    order := ListAll(entries);
    forall e
      ensures e in order <==> Present(disk, side, e)
    {
      assert e in order <==> e in entries;
    }
  }

  // --- contexts that never get in again ---

  // Once a context is bound, it stays: no step changes it.
  lemma BoundStays(m: Machine, e: Event)
    requires Inv(m) && m.disk.binding.Some?
    ensures Step(m, e).disk.binding.Some? && Step(m, e).context == m.context
  {
    if e.Open? {
      if m.memory.None? {
        OpeningKeepsLoad(m, e);
      }
      hide OpenAs, Welcome, WithinCapacity, Kept;
    } else {
      hide Inv, Recover, Covers, Admissible, Plausible, Final, Captured, Crowded, Prunable, Listing, Barrier.Validated,
           Receipt.Validated;
    }
  }

  // Nobody who is not welcome now is ever let in.
  lemma {:induction false} UnwelcomeForever(m: Machine, events: seq<Event>, context: Context)
    requires Inv(m) && m.disk.binding.Some? && context != m.context
    ensures Run(m, events).memory.Some? ==> Run(m, events).context != context
    decreases |events|
  {
    if events != [] {
      BoundStays(m, events[0]);
      StepKeepsInv(m, events[0]);
      hide Inv, Step;
      UnwelcomeForever(Step(m, events[0]), events[1..], context);
    }
  }

  // The opening of a caller that the guest was booted for.
  function Booted(context: Context): Caller {
    Caller(context, context.bootId)
  }

  lemma OpenRunnerIsValid(m: Machine)
    requires Inv(m) && m.memory.Some?
    ensures m.context.Validated()
  {}

  /** A directory that is not openable for a context never opens for it again, whatever happens. */
  lemma UnopenableForever(m: Machine, events: seq<Event>, context: Context)
    requires Inv(m) && m.memory.None? && !Openable(m, Booted(context))
    ensures Run(m, events).memory.Some? ==> Run(m, events).context != context
  {
    if !Roomy(m) {
      CrampedForever(m, events);
    } else if m.disk.binding.Some? && context != m.context {
      UnwelcomeForever(m, events, context);
    } else {
      RunKeepsInv(m, events);
      hide Run, Roomy;
      if Run(m, events).memory.Some? {
        OpenRunnerIsValid(Run(m, events));
      }
    }
  }

  lemma OpenableOpens(m: Machine, context: Context) returns (e: Event)
    requires Inv(m) && Workspace(m) && m.memory.None? && Openable(m, Booted(context))
    ensures Step(m, e).memory.Some? && Step(m, e).context == context
  {
    var ready := Prepared(m.(context := context), Synced, PruneAll);
    var order := ListingExists(ready.disk, ready.side);
    var repairs := map id | id in ready.disk.receipts :: Repair(true, Synced);
    hide Inv, Workspace, Roomy, Welcome, Listing, OpenAs, Prepared, Receipt.Settled;
    e := Open(Booted(context), Synced, PruneAll, order, repairs, {});
    OpensExactlyWhenOpenable(m, Booted(context), order, repairs, {});
    OpenAsKeepsContext(m.(context := context), e);
  }

  lemma OpenAsKeepsContext(m: Machine, e: Event)
    requires e.Open?
    ensures OpenAs(m, e.contextWrite, e.prune, e.order, e.repairs, e.stuck).context == m.context
  {
    var ready := Prepared(m, e.contextWrite, e.prune);
    OpenCases(m, e.contextWrite, e.prune, e.order, e.repairs, e.stuck);
    LoadKeepsContext(ready, e);
    hide OpenAs, LoadStep;
  }

  /** A closed state directory can ever be opened again for a context if and only if it is openable
      for it now. */
  lemma ReopensExactlyWhenOpenable(m: Machine, context: Context)
    requires Inv(m) && Workspace(m) && m.memory.None?
    ensures (exists events :: Run(m, events).memory.Some? && Run(m, events).context == context)
      <==> Openable(m, Booted(context))
  {
    hide Inv, Workspace, Openable, Step;
    if Openable(m, Booted(context)) {
      var e := OpenableOpens(m, context);
      assert Run(m, [e]) == Run(Step(m, e), []);
      assert Run(m, [e]).memory.Some?;
    } else {
      forall events
        ensures Run(m, events).memory.Some? ==> Run(m, events).context != context
      {
        UnopenableForever(m, events, context);
      }
    }
  }

  /** It can ever be opened again for anybody if and only if there is room. */
  lemma ReopensForSomebodyExactlyWhenRoomy(m: Machine, context: Context)
    requires Inv(m) && Workspace(m) && m.memory.None? && context.Validated()
    ensures (exists events :: Run(m, events).memory.Some?) <==> Roomy(m)
  {
    hide Inv, Workspace, Roomy, Step;
    if Roomy(m) {
      var admitted := if m.disk.binding.Some? then m.context else context;
      BoundIsWelcome(m, admitted);
      var e := OpenableOpens(m, admitted);
      assert Run(m, [e]) == Run(Step(m, e), []);
      assert Run(m, [e]).memory.Some?;
    } else {
      forall events
        ensures Run(m, events).memory.None?
      {
        CrampedForever(m, events);
      }
    }
  }

  lemma BoundIsWelcome(m: Machine, context: Context)
    requires Inv(m) && (if m.disk.binding.Some? then context == m.context else context.Validated())
    ensures Welcome(m.disk, Booted(context))
  {
    hide Receipt.Validated, IsLaunched, MemoryInv;
  }

  // --- another boot ---

  /** After the guest has booted again, the directory refuses every caller: a context that names
      the new boot is not the bound one, and the bound one names the old boot. */
  lemma AnotherBootRefusesEverybody(m: Machine, e: Event)
    requires Inv(m) && m.memory.None? && m.disk.binding.Some? && e.Open? && e.caller.bootId != m.context.bootId
    ensures Step(m, e) == m
  {
    hide Inv, OpenAs, Ready;
    if Welcome(m.disk, e.caller) {
      Configured(m, e.caller);
    }
  }

  /** Opened once and closed without a single command, a directory opens again for the same context
      but never for one that differs only in its boot id. */
  lemma OnlyTheBootDiffers(context: Context, bootId: Bytes.Text, events: seq<Event>)
    requires context.Validated() && bootId != context.bootId
    ensures var m := Run(Fresh(), [Opening(context), Crash]);
            var rebooted := context.(bootId := bootId);
            && m.memory.None? && Openable(m, Booted(context))
            && !Openable(m, Booted(rebooted))
            && (Run(m, events).memory.Some? ==> Run(m, events).context != rebooted)
  {
    var running := Step(Fresh(), Opening(context));
    var m := Run(Fresh(), [Opening(context), Crash]);
    OpenedFirst(context);
    assert m == running.(memory := None) by {
      hide OpenStep;
      assert [Opening(context), Crash][1..] == [Crash] && [Crash][1..] == [];
      assert Run(Fresh(), [Opening(context), Crash]) == Run(running, [Crash]) == Run(Step(running, Crash), []);
    }
    FreshInv();
    RunKeepsInv(Fresh(), [Opening(context), Crash]);
    assert Kept(m.disk) == map[] && Limits(map[]) == map[];
    hide Inv, Run, Step;
    UnopenableForever(m, events, context.(bootId := bootId));
  }
}
