/** The rest of the guest runner's workspace: which operations own a cgroup or output files.
    A cgroup always belongs to an unsettled, uncovered receipt on disk, and a command that has
    not entered its cgroup yet finds nothing in its way. */
module RunnerWorkspace {
  import opened Wrappers
  import opened OperationIds
  import opened Totals
  import opened RunnerModel
  import opened RunnerSafety
  import opened RunnerRecovery
  import opened RunnerRuns
  import Capture

  // An operation the registry knows, and has entered if it is the active one.
  predicate InSession(reg: Registry, id: Uuid) {
    && (CoveredBy(reg.barrier, id) || id in reg.receipts)
    && (reg.active.Some? && reg.active.value.operation == id ==> reg.active.value.phase.Entered?)
  }

  predicate Placed(m: Machine, id: Uuid) {
    Backed(m, id) && (m.memory.Some? ==> InSession(m.memory.value, id))
  }

  predicate Housed(m: Machine, id: Uuid) {
    && Placed(m, id) && !CoveredBy(DiskBarrier(m.disk), id)
    && id in m.disk.receipts && !m.disk.receipts[id].Settled()
  }

  ghost predicate Workspace(m: Machine) {
    && (forall id :: id in m.groups ==> Housed(m, id))
    && (forall id, kind :: OutputFile(id, kind) in m.side ==> Placed(m, id))
  }

  // --- steps that leave the set of cgroups and output files alone ---

  // Nothing that was placed or housed stops being so.
  ghost predicate Settles(m: Machine, m': Machine) {
    && (forall id :: id in m'.groups ==> id in m.groups && (Housed(m, id) ==> Housed(m', id)))
    && (forall id, kind :: OutputFile(id, kind) in m'.side ==> OutputFile(id, kind) in m.side)
    && (forall id :: Placed(m, id) ==> Placed(m', id))
  }

  lemma SettlesKeeps(m: Machine, m': Machine)
    requires Workspace(m) && Settles(m, m')
    ensures Workspace(m')
  {
    hide Housed, Placed;
  }

  // The registry changes at most the phase of the active command, or loses it.
  predicate SameSession(reg: Registry, reg': Registry) {
    && reg'.barrier == reg.barrier && reg'.receipts.Keys == reg.receipts.Keys
    && (reg'.active.Some? ==>
          && reg.active.Some? && reg'.active.value.operation == reg.active.value.operation
          && (reg.active.value.phase.Entered? ==> reg'.active.value.phase.Entered?))
  }

  lemma SessionKeeps(m: Machine, m': Machine)
    requires m'.disk.binding == m.disk.binding && m.disk.receipts.Keys <= m'.disk.receipts.Keys
    requires m'.memory.Some? ==> m.memory.Some? && SameSession(m.memory.value, m'.memory.value)
    requires m'.groups <= m.groups
    requires forall id, kind :: OutputFile(id, kind) in m'.side ==> OutputFile(id, kind) in m.side
    requires forall id :: id in m'.groups && id in m.disk.receipts && !m.disk.receipts[id].Settled() ==>
      !m'.disk.receipts[id].Settled()
    ensures Settles(m, m')
  {
    hide Covers;
  }

  lemma LitterHasNoOutput(side: set<SideFile>, w: Write)
    ensures forall id, kind :: OutputFile(id, kind) in Littered(side, w) ==> OutputFile(id, kind) in side
  {}

  lemma CancelKeepsWorkspace(m: Machine, id: Uuid, w: Write)
    requires Inv(m) && Workspace(m)
    ensures Workspace(CancelStep(m, id, w).0)
  {
    var m' := CancelStep(m, id, w).0;
    if m' != m {
      UnsettledIsActive(m, id);
      LitterHasNoOutput(m.side, w);
      hide Inv, Littered, Workspace;
      SessionKeeps(m, m');
      SettlesKeeps(m, m');
    }
  }

  lemma FinishKeepsWorkspace(m: Machine, o: Outcome, cleaned: bool, w: Write)
    requires Inv(m) && Workspace(m)
    ensures Workspace(FinishStep(m, o, cleaned, w))
  {
    var m' := FinishStep(m, o, cleaned, w);
    if m' != m {
      assert m.memory.Some? && m.memory.value.active.Some?;
      MemoryOperations(m);
      FinishChanges(m, o, cleaned, w);
      hide Inv, Workspace, FinishStep, SameSession, Receipt.Settled;
      SessionKeeps(m, m');
      SettlesKeeps(m, m');
    }
  }

  lemma MemoryOperations(m: Machine)
    requires Inv(m) && m.memory.Some?
    ensures forall id :: id in m.memory.value.receipts ==> m.memory.value.receipts[id].operation == id
  {
    hide DiskInv, ActiveFits, InStep, Bounded, Receipt.Validated;
    forall id | id in m.memory.value.receipts
      ensures ReceiptFits(m, id, m.memory.value.receipts[id])
    {}
  }

  lemma FinishChanges(m: Machine, o: Outcome, cleaned: bool, w: Write)
    requires FinishStep(m, o, cleaned, w) != m && m.memory.Some? && m.memory.value.active.Some?
    requires forall id :: id in m.memory.value.receipts ==> m.memory.value.receipts[id].operation == id
    ensures var m' := FinishStep(m, o, cleaned, w);
            && m'.disk.binding == m.disk.binding && m.disk.receipts.Keys <= m'.disk.receipts.Keys
            && m'.memory.Some? && SameSession(m.memory.value, m'.memory.value) && m'.groups <= m.groups
            && (forall id, kind :: OutputFile(id, kind) in m'.side ==> OutputFile(id, kind) in m.side)
            && (forall id :: id in m'.groups && id in m.disk.receipts && !m.disk.receipts[id].Settled() ==>
                  !m'.disk.receipts[id].Settled())
  {
    LitterHasNoOutput(m.side, w);
    hide Littered, Captured, Plausible, Receipt.Validated;
  }

  lemma RegistryKeepsWorkspace(m: Machine, m': Machine)
    requires Workspace(m) && m'.disk == m.disk && m'.side == m.side && m'.groups == m.groups
    requires m'.memory.Some? ==> m.memory.Some? && SameSession(m.memory.value, m'.memory.value)
    ensures Workspace(m')
  {
    hide Workspace;
    SessionKeeps(m, m');
    SettlesKeeps(m, m');
  }

  lemma CheckKeepsWorkspace(m: Machine, now: int)
    requires Inv(m) && Workspace(m)
    ensures Workspace(CheckStep(m, now))
  {
    hide Inv, Workspace;
    if CheckStep(m, now) != m {
      RegistryKeepsWorkspace(m, CheckStep(m, now));
    }
  }

  lemma PublishKeepsWorkspace(m: Machine, captures: seq<Capture.Event>)
    requires Inv(m) && Workspace(m)
    ensures Workspace(PublishStep(m, captures))
  {
    hide Inv, Workspace, Captured;
    if PublishStep(m, captures) != m {
      RegistryKeepsWorkspace(m, PublishStep(m, captures));
    }
  }

  // --- the other steps ---

  lemma StartKeepsWorkspace(m: Machine, r: Request, now: int, w: Write)
    requires Inv(m) && Workspace(m)
    ensures Workspace(StartStep(m, r, now, w).0)
  {
    var m' := StartStep(m, r, now, w).0;
    if m' != m {
      LitterHasNoOutput(m.side, w);
      hide Inv, Littered, Admissible, Covers;
      forall id | id in m'.groups
        ensures Housed(m', id)
      {
        assert Housed(m, id);
      }
      forall id, kind | OutputFile(id, kind) in m'.side
        ensures Placed(m', id)
      {
        assert Placed(m, id);
      }
    }
  }

  lemma SpawnPlaces(m: Machine, reach: Reach)
    requires SpawnStep(m, reach) != m
    ensures m.memory.Some? && m.memory.value.active.Some?
    ensures var m' := SpawnStep(m, reach);
            var op := m.memory.value.active.value.operation;
            && m'.disk == m.disk && m'.memory.Some? && SameSession(m.memory.value, m'.memory.value)
            && op in m.memory.value.receipts && m'.memory.value.active.Some?
              && m'.memory.value.active.value.phase.Entered?
            && m'.groups <= m.groups + {op}
            && (forall id, kind :: OutputFile(id, kind) in m'.side ==> id == op || OutputFile(id, kind) in m.side)
  {}

  lemma SpawnKeepsWorkspace(m: Machine, reach: Reach)
    requires Inv(m) && Workspace(m)
    ensures Workspace(SpawnStep(m, reach))
  {
    hide SpawnStep, Inv, Workspace, Housed, Covers;
    if SpawnStep(m, reach) != m {
      SpawnPlaces(m, reach);
      SpawnHouses(m, reach);
      EnteredKeepsWorkspace(m, SpawnStep(m, reach), m.memory.value.active.value.operation);
    }
  }

  lemma SpawnHouses(m: Machine, reach: Reach)
    requires Inv(m) && SpawnStep(m, reach) != m && m.memory.Some? && m.memory.value.active.Some?
    ensures Housed(SpawnStep(m, reach), m.memory.value.active.value.operation)
  {
    SpawnPlaces(m, reach);
    ActiveFacts(m);
    MemoryOperations(m);
    hide SpawnStep, Inv, Covers, Receipt.Validated, ReceiptFits;
  }

  // Nothing but the workspace of one housed operation grows.
  lemma EnteredKeepsWorkspace(m: Machine, m': Machine, op: Uuid)
    requires Workspace(m) && Housed(m', op)
    requires m'.disk == m.disk && m.memory.Some? && m'.memory.Some? && SameSession(m.memory.value, m'.memory.value)
    requires m'.groups <= m.groups + {op}
    requires forall id, kind :: OutputFile(id, kind) in m'.side ==> id == op || OutputFile(id, kind) in m.side
    ensures Workspace(m')
  {
    hide Covers, Receipt.Settled;
    forall id | id in m'.groups
      ensures Housed(m', id)
    {
      assert id == op || Housed(m, id);
    }
    forall id, kind | OutputFile(id, kind) in m'.side
      ensures Placed(m', id)
    {
      assert id == op || Placed(m, id);
    }
  }

  lemma ReportKeepsWorkspace(m: Machine, id: Uuid)
    requires Inv(m) && Workspace(m)
    ensures Workspace(ReportStep(m, id))
  {
    var m' := ReportStep(m, id);
    hide Inv, Covers;
    forall g | g in m'.groups
      ensures Housed(m', g)
    {
      assert Housed(m, g);
    }
    forall k, kind | OutputFile(k, kind) in m'.side
      ensures Placed(m', k)
    {
      assert OutputFile(k, kind) in m.side || Housed(m, k);
    }
  }

  lemma RetireKeepsWorkspace(m: Machine, requested: Barrier, w: Write, p: Prune)
    requires Inv(m) && Workspace(m)
    ensures Workspace(RetireStep(m, requested, w, p).0)
  {
    var m' := RetireStep(m, requested, w, p).0;
    if m' != m {
      RetireFacts(m, requested, w, p);
      RetireShape(m, requested, w, p);
      RetireCases(m, requested, w, p);
      LitterHasNoOutput(m.side, w);
      assert forall id, kind :: OutputFile(id, kind) in m'.side ==> OutputFile(id, kind) in m.side;
      assert m'.groups == m.groups;
      hide RetireStep, Inv, Covers, Littered;
      RetiredWorkspace(m, requested, m');
    }
  }

  lemma RetiredWorkspace(m: Machine, requested: Barrier, m': Machine)
    requires Workspace(m) && Retires(m, requested, m') && m'.groups == m.groups
    requires forall id, kind :: OutputFile(id, kind) in m'.side ==> OutputFile(id, kind) in m.side
    requires forall id :: id in m.disk.receipts && Covers(requested.through, id) ==> id !in m.groups
    requires m.memory.value.barrier == DiskBarrier(m.disk)
    requires forall id :: CoveredBy(m.memory.value.barrier, id) ==> Covers(requested.through, id)
    ensures Workspace(m')
  {
    hide Covers;
    forall id | id in m'.groups
      ensures Housed(m', id)
    {
      assert Housed(m, id);
    }
    forall id, kind | OutputFile(id, kind) in m'.side
      ensures Placed(m', id)
    {
      assert Placed(m, id);
    }
  }

  // --- opening ---

  lemma {:induction false} RecoverGroups(
      context: Context, r: Recovery, order: seq<Entry>, repairs: map<Uuid, Repair>, stuck: set<Uuid>)
    requires forall g :: g in r.groups ==> g in r.disk.receipts && !r.disk.receipts[g].Settled()
    ensures var r' := Recover(context, r, order, repairs, stuck);
            && (forall g :: g in r'.groups ==>
                  g in r.groups && g in r'.disk.receipts && !r'.disk.receipts[g].Settled())
            && (forall id, kind :: OutputFile(id, kind) in r'.side ==> OutputFile(id, kind) in r.side)
    decreases |order|
  {
    if order != [] && r.ok {
      var next := Visit(context, r, order[0], repairs, stuck);
      VisitGroups(context, r, order[0], repairs, stuck);
      hide Visit;
      RecoverGroups(context, next, order[1..], repairs, stuck);
    }
  }

  lemma VisitGroups(context: Context, r: Recovery, e: Entry, repairs: map<Uuid, Repair>, stuck: set<Uuid>)
    requires forall g :: g in r.groups ==> g in r.disk.receipts && !r.disk.receipts[g].Settled()
    ensures var r' := Visit(context, r, e, repairs, stuck);
            && (forall g :: g in r'.groups ==>
                  g in r.groups && g in r'.disk.receipts && !r'.disk.receipts[g].Settled())
            && (forall id, kind :: OutputFile(id, kind) in r'.side ==> OutputFile(id, kind) in r.side)
  {
    hide Total, Limits, Receipt.Validated;
    if e.ReceiptEntry? && e.operation in repairs {
      LitterHasNoOutput(r.side, repairs[e.operation].write);
    }
  }

  lemma LoadKeepsWorkspace(
      m: Machine, barrier: Option<Barrier>, order: seq<Entry>, repairs: map<Uuid, Repair>, stuck: set<Uuid>)
    requires m.memory.None? && Workspace(m) && barrier == DiskBarrier(m.disk)
    ensures Workspace(LoadStep(m, barrier, order, repairs, stuck))
  {
    if Listing(order, m.disk, m.side) && !Crowded(m.disk, m.side) {
      var m' := LoadStep(m, barrier, order, repairs, stuck);
      forall g | g in m.groups
        ensures g in m.disk.receipts && !m.disk.receipts[g].Settled()
      {
        assert Housed(m, g);
      }
      RecoverGroups(m.context, Recovery(m.disk, m.side, m.groups, map[], true), order, repairs, stuck);
      LoadSteps(m, barrier, order, repairs, stuck);
      LoadedRegistry(m, barrier, order, repairs, stuck);
      assert forall id, kind :: OutputFile(id, kind) in m'.side ==> OutputFile(id, kind) in m.side;
      assert forall g :: g in m'.groups ==> g in m.groups && !m'.disk.receipts[g].Settled();
      hide LoadStep, Recover, Listing, Crowded, Covers, Mended, Receipt.Settled;
      forall g | g in m'.groups
        ensures Housed(m', g)
      {
        assert Housed(m, g);
      }
      forall id, kind | OutputFile(id, kind) in m'.side
        ensures Placed(m', id)
      {
        assert Placed(m, id);
      }
    }
  }

  lemma OpenAsKeepsWorkspace(
      m: Machine, contextWrite: Write, prune: Prune, order: seq<Entry>, repairs: map<Uuid, Repair>, stuck: set<Uuid>)
    requires Ready(m) && Workspace(m)
    ensures Workspace(OpenAs(m, contextWrite, prune, order, repairs, stuck))
  {
    var ready := Prepared(m, contextWrite, prune);
    PreparedKeepsWorkspace(m, contextWrite, prune);
    OpenCases(m, contextWrite, prune, order, repairs, stuck);
    assert ready.memory.None?;
    hide OpenAs, LoadStep, Inv, Workspace, Prepared;
    LoadKeepsWorkspace(ready, DiskBarrier(ready.disk), order, repairs, stuck);
  }

  lemma WorkspaceIgnoresContext(m: Machine, context: Context)
    requires Workspace(m)
    ensures Workspace(m.(context := context))
  {
    var configured := m.(context := context);
    hide Covers;
    forall g | g in m.groups
      ensures Housed(configured, g)
    {
      assert Housed(m, g);
    }
    forall id, kind | OutputFile(id, kind) in m.side
      ensures Placed(configured, id)
    {
      assert Placed(m, id);
    }
  }

  lemma OpenKeepsWorkspace(
      m: Machine, caller: Caller, contextWrite: Write, prune: Prune, order: seq<Entry>, repairs: map<Uuid, Repair>,
      stuck: set<Uuid>)
    requires Inv(m) && Workspace(m)
    ensures Workspace(OpenStep(m, caller, contextWrite, prune, order, repairs, stuck))
  {
    hide Inv, OpenAs, Welcome, Ready, Workspace;
    if m.memory.None? && Welcome(m.disk, caller) {
      Configured(m, caller);
      WorkspaceIgnoresContext(m, caller.context);
      OpenAsKeepsWorkspace(m.(context := caller.context), contextWrite, prune, order, repairs, stuck);
    }
  }

  lemma PreparedKeepsWorkspace(m: Machine, contextWrite: Write, prune: Prune)
    requires Inv(m) && Workspace(m) && m.memory.None?
    ensures Workspace(Prepared(m, contextWrite, prune))
  {
    var ready := Prepared(m, contextWrite, prune);
    LitterHasNoOutput(m.side, contextWrite);
    PreparedSteps(m, contextWrite, prune);
    assert ready.groups == m.groups && ready.memory.None?;
    assert forall id, kind :: OutputFile(id, kind) in ready.side ==> OutputFile(id, kind) in m.side;
    assert forall id :: CoveredBy(DiskBarrier(ready.disk), id) <==> CoveredBy(DiskBarrier(m.disk), id);
    hide Prepared, Inv, Covers, Littered, Retirable, Mended;
    forall g | g in ready.groups
      ensures Housed(ready, g)
    {
      assert Housed(m, g);
    }
    forall id, kind | OutputFile(id, kind) in ready.side
      ensures Placed(ready, id)
    {
      assert Placed(m, id);
    }
  }

  // --- every step, every run ---

  lemma StepKeepsWorkspace(m: Machine, e: Event)
    requires Inv(m) && Workspace(m)
    ensures Workspace(Step(m, e))
  {
    match e
    case Open(caller, contextWrite, prune, order, repairs, stuck) =>
      OpenKeepsWorkspace(m, caller, contextWrite, prune, order, repairs, stuck);
    case Start(request, now, write) => StartKeepsWorkspace(m, request, now, write);
    case Check(now) => CheckKeepsWorkspace(m, now);
    case Spawn(reach) => SpawnKeepsWorkspace(m, reach);
    case CancelCommand(id, write) => CancelKeepsWorkspace(m, id, write);
    case PublishOutput(captures) => PublishKeepsWorkspace(m, captures);
    case WriteReport(id) => ReportKeepsWorkspace(m, id);
    case Finish(outcome, cleaned, write) => FinishKeepsWorkspace(m, outcome, cleaned, write);
    case Retire(requested, write, prune) => RetireKeepsWorkspace(m, requested, write, prune);
    case Close => RegistryKeepsWorkspace(m, Step(m, e));
    case Crash => RegistryKeepsWorkspace(m, Step(m, e));
    hide Inv, Workspace, OpenStep, StartStep, CheckStep, SpawnStep, CancelStep, PublishStep, ReportStep, FinishStep,
         RetireStep;
  }

  /** From an empty state directory every run keeps both invariants. */
  lemma {:induction false} RunKeepsWorkspace(m: Machine, events: seq<Event>)
    requires Inv(m) && Workspace(m)
    ensures Inv(Run(m, events)) && Workspace(Run(m, events))
    decreases |events|
  {
    if events != [] {
      StepKeepsInv(m, events[0]);
      StepKeepsWorkspace(m, events[0]);
      hide Inv, Workspace, Step;
      RunKeepsWorkspace(Step(m, events[0]), events[1..]);
    }
  }

  lemma FreshWorkspace()
    ensures Workspace(Fresh())
  {}
}
