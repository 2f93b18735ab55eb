/** What the simulated supervisor promises over whole runs: which evidence never changes, what
    only grows, and what can never happen again. */
module HostRuns {
  import opened Wrappers
  import opened Totals
  import opened Bytes
  import opened HostModel
  import opened HostSafety
  import opened HostSteps
  import opened HostFiles

  // --- evidence only grows ---

  predicate RecordGrows(r: Record, r': Record) {
    r'.create == r.create && (r.phase.Released? ==> r'.phase.Released?) && r.leaseUntil <= r'.leaseUntil
  }

  // A settled command never changes, and no digest or reservation ever does.
  predicate CommandGrows(c: Command, c': Command) {
    && c'.digest == c.digest && c'.notStarted == c.notStarted && c'.outputLimit == c.outputLimit
    && (c.Settled() ==> c' == c)
  }

  // A commit that did not match can only be aborted.
  predicate FileGrows(r: FileRecord, r': FileRecord) {
    && r'.digest == r.digest && r'.size == r.size && r'.notStarted == r.notStarted
    && (r.Finished() ==> r' == r)
    && (r.commitRequested ==> r' == r || r' == r.(abortRequested := true, state := 5))
    && (r.abortRequested ==> r'.abortRequested)
  }

  predicate ArchiveGrows(a: Archive, a': Archive) {
    a'.ticket == a.ticket && a.revision <= a'.revision && (a.plans.Some? ==> a'.plans == a.plans)
  }

  predicate LeaseGrows(f: Fence, f': Fence) {
    && f.leaseRevision <= f'.leaseRevision
    && (f.leaseRequest.Some? ==>
          f'.leaseRequest.Some?
          && (f'.leaseRequest.value.0 > f.leaseRequest.value.0 || f'.leaseRequest == f.leaseRequest))
  }

  ghost predicate FenceGrows(f: Fence, f': Fence) {
    && SameOwner(f', f.project, f.sandbox, f.generation) && (f.stopped ==> f'.stopped)
    && LeaseGrows(f, f')
    && (forall op :: op in f.revisions ==> op in f'.revisions && f.revisions[op] <= f'.revisions[op])
    && (forall op :: op in f.commands ==> op in f'.commands && CommandGrows(f.commands[op], f'.commands[op]))
    && (forall op :: op in f.files ==> op in f'.files && FileGrows(f.files[op], f'.files[op]))
    && (forall op :: op in f.archives ==> op in f'.archives && ArchiveGrows(f.archives[op], f'.archives[op]))
  }

  predicate KnownFile(h: Host, k: Key) {
    k.allocation in h.fences && k.operation in h.fences[k.allocation].files
  }

  // A staged file only gets longer, and one that lost its buffer never gets it back.
  ghost predicate StagedGrows(h: Host, h': Host) {
    forall k: Key :: k in h'.staged && KnownFile(h, k) ==> k in h.staged && h.staged[k] <= h'.staged[k]
  }

  ghost predicate Grows(h: Host, h': Host) {
    && (forall id :: id in h.allocations ==> id in h'.allocations && RecordGrows(h.allocations[id], h'.allocations[id]))
    && h.started <= h'.started
    && (forall id :: id in h.fences ==> id in h'.fences && FenceGrows(h.fences[id], h'.fences[id]))
    && StagedGrows(h, h')
  }

  lemma FenceGrowsItself(f: Fence)
    ensures FenceGrows(f, f)
  {}

  lemma FenceGrowsTransitively(f: Fence, g: Fence, k: Fence)
    requires FenceGrows(f, g) && FenceGrows(g, k)
    ensures FenceGrows(f, k)
  {}

  lemma FilesStayKnown(a: Host, b: Host, k: Key)
    requires Grows(a, b) && KnownFile(a, k)
    ensures KnownFile(b, k)
  {
    assert FenceGrows(a.fences[k.allocation], b.fences[k.allocation]);
  }

  lemma StagedGrowsTransitively(a: Host, b: Host, c: Host)
    requires Grows(a, b) && StagedGrows(b, c)
    ensures StagedGrows(a, c)
  {
    forall k: Key | k in c.staged && KnownFile(a, k)
      ensures k in a.staged && a.staged[k] <= c.staged[k]
    {
      FilesStayKnown(a, b, k);
      hide KnownFile, FenceGrows, RecordGrows;
    }
  }

  lemma GrowsTransitively(a: Host, b: Host, c: Host)
    requires Grows(a, b) && Grows(b, c)
    ensures Grows(a, c)
  {
    StagedGrowsTransitively(a, b, c);
    hide StagedGrows;
    forall id | id in a.fences
      ensures id in c.fences && FenceGrows(a.fences[id], c.fences[id])
    {
      FenceGrowsTransitively(a.fences[id], b.fences[id], c.fences[id]);
    }
    hide FenceGrows;
  }

  // Everything but the listed parts stays; the fences grow one by one.
  lemma GrowsByFences(h: Host, h': Host)
    requires forall id :: id in h.allocations ==>
      id in h'.allocations && RecordGrows(h.allocations[id], h'.allocations[id])
    requires h.started <= h'.started
    requires forall id :: id in h.fences ==> id in h'.fences && FenceGrows(h.fences[id], h'.fences[id])
    requires forall k :: k in h'.staged ==> k in h.staged && h'.staged[k] == h.staged[k]
    ensures Grows(h, h')
  {
    hide FenceGrows, RecordGrows;
  }

  lemma GrowsAtFence(h: Host, h': Host, id: Id)
    requires h'.allocations == h.allocations && h'.started == h.started && h'.staged == h.staged
    requires id in h.fences && id in h'.fences && h'.fences == h.fences[id := h'.fences[id]]
    requires FenceGrows(h.fences[id], h'.fences[id])
    ensures Grows(h, h')
  {
    forall a | a in h.fences
      ensures FenceGrows(h.fences[a], h'.fences[a])
    {
      FenceGrowsItself(h.fences[a]);
    }
    hide FenceGrows;
    GrowsByFences(h, h');
  }

  lemma GrowsItself(h: Host)
    ensures Grows(h, h)
  {
    forall a | a in h.fences
      ensures FenceGrows(h.fences[a], h.fences[a])
    {
      FenceGrowsItself(h.fences[a]);
    }
    hide FenceGrows;
    GrowsByFences(h, h);
  }

  lemma ExpireGrows(h: Host, mono: int)
    ensures Grows(h, Expire(h, mono))
  {
    forall a | a in h.fences
      ensures FenceGrows(h.fences[a], h.fences[a])
    {
      FenceGrowsItself(h.fences[a]);
    }
    hide FenceGrows;
    GrowsByFences(h, Expire(h, mono));
  }

  lemma ClaimGrows(h: Host, o: Ownership)
    ensures Grows(h, Claim(h, o).0)
  {
    var h' := Claim(h, o).0;
    if Claim(h, o).1.None? {
      if o.allocation in h.fences {
        GrowsAtFence(h, h', o.allocation);
      } else {
        forall a | a in h.fences
          ensures FenceGrows(h.fences[a], h'.fences[a])
        {
          FenceGrowsItself(h.fences[a]);
        }
        GrowsByFences(h, h');
      }
    } else {
      GrowsItself(h);
    }
    hide Grows, FenceGrows;
  }

  lemma EnterGrows(cfg: Config, h: Host, o: Ownership, clock: Clock)
    ensures Grows(h, Enter(cfg, h, o, clock).0)
  {
    hide Grows, Expire, Claim, CheckOwner;
    ExpireGrows(h, clock.mono);
    ClaimGrows(Expire(h, clock.mono), o);
    GrowsTransitively(h, Expire(h, clock.mono), Claim(Expire(h, clock.mono), o).0);
  }

  lemma StartGrows(cfg: Config, h: Host, r: CreateRequest, clock: Clock)
    requires Startable(cfg, h, r)
    ensures Grows(h, Started(h, r, clock))
  {
    forall a | a in h.fences
      ensures FenceGrows(h.fences[a], h.fences[a])
    {
      FenceGrowsItself(h.fences[a]);
    }
    hide FenceGrows, Fits, Succeeds;
    GrowsByFences(h, Started(h, r, clock));
  }

  lemma HaltGrows(h: Host, o: Ownership)
    ensures Grows(h, Halt(h, o))
  {
    var h' := Halt(h, o);
    forall a | a in h.fences
      ensures FenceGrows(h.fences[a], h'.fences[a])
    {
      FenceGrowsItself(h.fences[a]);
    }
    hide FenceGrows;
    GrowsByFences(h, h');
  }

  lemma LeaseStepGrows(cfg: Config, h: Host, o: LeaseOwnership, until: Option<int>, clock: Clock)
    requires Inv(cfg, h)
    ensures Grows(h, LeaseStep(cfg, h, o, until, clock).0)
  {
    hide Inv, Expire, Leased, LeaseRefusal, CheckLease, Grows, Sight, FenceFits;
    var h1 := Expire(h, clock.mono);
    ExpireGrows(h, clock.mono);
    ExpireKeepsInv(cfg, h, clock.mono);
    if o.allocation in h1.fences && LeaseRefusal(h1, h1.fences[o.allocation], o, until).None? {
      FenceFitsAt(cfg, h1, o.allocation);
      LeasedGrows(h1, o, until, clock);
      GrowsTransitively(h, h1, Leased(h1, o, until, clock));
    }
  }

  lemma LeasedGrows(h: Host, o: LeaseOwnership, until: Option<int>, clock: Clock)
    requires o.allocation in h.fences && FenceFits(h.fences[o.allocation])
    requires LeaseRefusal(h, h.fences[o.allocation], o, until).None?
    ensures Grows(h, Leased(h, o, until, clock))
  {
    var h' := Leased(h, o, until, clock);
    forall a | a in h.fences
      ensures FenceGrows(h.fences[a], h'.fences[a])
    {
      FenceGrowsItself(h.fences[a]);
    }
    hide FenceGrows, CommandsFit, FilesFit;
    GrowsByFences(h, h');
  }

  // --- commands ---

  lemma RevisitedGrows(c: Command, running: bool, cancel: bool, now: int)
    requires CommandFits(c)
    ensures CommandGrows(c, Revisited(c, running, cancel, now))
  {}

  lemma CommandAt(f: Fence, op: Id, c: Command)
    requires op in f.commands ==> CommandGrows(f.commands[op], c)
    ensures FenceGrows(f, f.(commands := f.commands[op := c]))
  {}

  lemma CommandStepGrows(cfg: Config, h: Host, o: Ownership, payload: Option<Execute>, digest: Digest, cancel: bool,
      clock: Clock)
    requires Inv(cfg, h)
    ensures Grows(h, CommandStep(cfg, h, o, payload, digest, cancel, clock).0)
  {
    hide Inv, CommandEntry, CommandStep, Grows, FenceGrows, FenceFits, Revisited, Expire, Claim, Eligible;
    var h1 := CommandEntry(cfg, h, o, payload, clock).0;
    var (h2, reply) := CommandStep(cfg, h, o, payload, digest, cancel, clock);
    CommandEntryShape(cfg, h, o, payload, clock);
    ExpireGrows(h, clock.mono);
    ClaimGrows(Expire(h, clock.mono), o);
    GrowsTransitively(h, Expire(h, clock.mono), Claim(Expire(h, clock.mono), o).0);
    CommandEntryKeepsInv(cfg, h, o, payload, clock);
    CommandShape(cfg, h, o, payload, digest, cancel, clock);
    if reply.Ok? {
      var f := h1.fences[o.allocation];
      if o.operation in f.commands {
        CommandFitsAt(cfg, h1, o.allocation, o.operation);
        RevisitedGrows(f.commands[o.operation], Live(h1, o.allocation) && !f.stopped, cancel, clock.now);
      }
      CommandAt(f, o.operation, reply.value);
      GrowsAtFence(h1, h2, o.allocation);
      GrowsTransitively(h, h1, h2);
    }
  }

  lemma CommandFitsAt(cfg: Config, h: Host, id: Id, op: Id)
    requires Inv(cfg, h) && id in h.fences && op in h.fences[id].commands
    ensures CommandFits(h.fences[id].commands[op])
  {
    FenceFitsAt(cfg, h, id);
    hide Inv, FilesFit, CommandFits;
  }

  lemma FinishCommandGrows(cfg: Config, h: Host, id: Id, op: Id, exit: int)
    requires Inv(cfg, h)
    ensures Grows(h, FinishCommandStep(h, id, op, exit).0)
  {
    hide Inv, Grows, FenceGrows;
    var h' := FinishCommandStep(h, id, op, exit).0;
    if FinishCommandStep(h, id, op, exit).1.None? {
      CommandFitsAt(cfg, h, id, op);
      CommandAt(h.fences[id], op, h'.fences[id].commands[op]);
      GrowsAtFence(h, h', id);
    } else {
      GrowsItself(h);
    }
  }

  // --- archives ---

  lemma ArchiveAt(f: Fence, op: Id, a: Archive)
    requires op in f.archives ==> ArchiveGrows(f.archives[op], a)
    ensures FenceGrows(f, f.(archives := f.archives[op := a]))
  {}

  lemma PrepareGrows(cfg: Config, h: Host, p: Publication, mono: int)
    ensures Grows(h, PrepareArchive(cfg, h, p, mono).0)
  {
    hide Grows, FenceGrows, Expire, PrepareArchive;
    var (h2, reply) := PrepareArchive(cfg, h, p, mono);
    var h1 := Expire(h, mono);
    ExpireGrows(h, mono);
    GrowsItself(h);
    PrepareShape(cfg, h, p, mono);
    if reply.Ok? {
      ArchiveAt(h1.fences[p.ticket.allocation], p.ticket.operation, reply.value);
      GrowsAtFence(h1, h2, p.ticket.allocation);
      GrowsTransitively(h, h1, h2);
    }
  }

  lemma RecordArchiveGrows(h: Host, p: Publication, plans: Plans)
    ensures Grows(h, RecordArchive(h, p, plans).0)
  {
    hide Grows, FenceGrows;
    var (h', reply) := RecordArchive(h, p, plans);
    GrowsItself(h);
    if reply.Ok? {
      var f := h.fences[p.ticket.allocation];
      ArchiveAt(f, p.ticket.operation, f.archives[p.ticket.operation].(plans := Some(plans)));
      GrowsAtFence(h, h', p.ticket.allocation);
    }
  }

  // --- files ---

  lemma FileAt(f: Fence, op: Id, r: FileRecord)
    requires op in f.files ==> FileGrows(f.files[op], r)
    ensures FenceGrows(f, f.(files := f.files[op := r]))
  {}

  lemma KeepFileGrows(h: Host, h': Host, key: Key, file: FileRecord)
    requires key.allocation in h.fences
    requires h'.allocations == h.allocations && h'.started == h.started
    requires h'.fences == KeepFile(h, key, file).fences
    requires KnownFile(h, key) ==> FileGrows(h.fences[key.allocation].files[key.operation], file)
    requires forall k: Key :: k in h'.staged && k != key ==> k in h.staged && h'.staged[k] == h.staged[k]
    requires key in h'.staged && KnownFile(h, key) ==> key in h.staged && h.staged[key] <= h'.staged[key]
    ensures Grows(h, h')
  {
    FileAt(h.fences[key.allocation], key.operation, file);
    forall a | a in h.fences
      ensures FenceGrows(h.fences[a], h'.fences[a])
    {
      FenceGrowsItself(h.fences[a]);
    }
    hide FenceGrows, KnownFile;
  }

  lemma WriteGrows(h: Host, key: Key, file: FileRecord, offset: nat, data: seq<byte>)
    requires KnownFile(h, key) && file == h.fences[key.allocation].files[key.operation]
    ensures Grows(h, WriteChunk(h, key, file, offset, data).0)
  {
    hide Grows, RetainedBytes;
    var (h', reply) := WriteChunk(h, key, file, offset, data);
    if reply.Ok? {
      KeepFileGrows(h, h', key, file);
    } else {
      GrowsItself(h);
    }
  }

  lemma CommitGrows(hashes: Hashes, h: Host, key: Key, file: FileRecord, upload: Upload)
    requires KnownFile(h, key) && file == h.fences[key.allocation].files[key.operation] && file.Open()
    ensures Grows(h, CommitFile(hashes, h, key, file, upload).0)
  {
    hide Grows;
    var (h', reply) := CommitFile(hashes, h, key, file, upload);
    if reply.Ok? {
      KeepFileGrows(h, h', key, reply.value.file);
    } else {
      GrowsItself(h);
    }
  }

  lemma TransferGrows(hashes: Hashes, h: Host, key: Key, upload: Upload, a: Action, running: bool)
    requires KnownFile(h, key)
    ensures Grows(h, Transfer(hashes, h, key, h.fences[key.allocation].files[key.operation], upload, a, running).0)
  {
    hide Grows, WriteChunk, CommitFile;
    var file := h.fences[key.allocation].files[key.operation];
    SameFile(h, key, file);
    GrowsItself(h);
    if !file.Finished() && running {
      if a.Write? && file.Open() {
        WriteGrows(h, key, file, a.offset, a.data);
      } else if a.Commit? && file.Open() {
        CommitGrows(hashes, h, key, file, upload);
      } else if a.Abort? && !file.abortRequested {
        var aborted := file.(abortRequested := true, state := 5);
        KeepFileGrows(h, KeepFile(h.(staged := h.staged - {key}), key, aborted), key, aborted);
      }
    }
  }

  lemma FileStepGrows(cfg: Config, hashes: Hashes, h: Host, o: Ownership, upload: Upload, a: Action, clock: Clock)
    ensures Grows(h, FileStep(cfg, hashes, h, o, upload, a, clock).0)
  {
    hide Grows, FileEntry, Transfer, Expire, Claim, Beginning;
    var (h1, refused) := FileEntry(cfg, hashes, h, o, upload, a, clock);
    var h2 := FileStep(cfg, hashes, h, o, upload, a, clock).0;
    GrowsItself(h);
    ExpireGrows(h, clock.mono);
    ClaimGrows(Expire(h, clock.mono), o);
    GrowsTransitively(h, Expire(h, clock.mono), Claim(Expire(h, clock.mono), o).0);
    FileEntryShape(cfg, hashes, h, o, upload, a, clock);
    if refused.None? && o.allocation in h1.fences {
      var key := Key(o.allocation, o.operation);
      if o.operation in h1.fences[o.allocation].files {
        TransferGrows(hashes, h1, key, upload, a, Live(h1, o.allocation) && !h1.fences[o.allocation].stopped);
      } else {
        KeepFileGrows(h1, h2, key, h2.fences[o.allocation].files[o.operation]);
      }
      GrowsTransitively(h, h1, h2);
    }
  }

  // --- every step, every run ---

  lemma CreateGrows(cfg: Config, h: Host, r: CreateRequest, clock: Clock)
    ensures Grows(h, CreateStep(cfg, h, r, clock).0)
  {
    hide Grows, Enter, CreateStep, Startable, Started;
    var h1 := Enter(cfg, h, r.owner, clock).0;
    EnterGrows(cfg, h, r.owner, clock);
    CreateShape(cfg, h, r, clock);
    if Startable(cfg, h1, r) {
      StartGrows(cfg, h1, r, clock);
      GrowsTransitively(h, h1, Started(h1, r, clock));
    }
  }

  lemma ObserveGrows(cfg: Config, h: Host, o: Ownership, stop: bool, clock: Clock)
    ensures Grows(h, ObserveStep(cfg, h, o, stop, clock).0)
  {
    hide Grows, Enter, Halt;
    var h1 := Enter(cfg, h, o, clock).0;
    EnterGrows(cfg, h, o, clock);
    HaltGrows(h1, o);
    GrowsTransitively(h, h1, Halt(h1, o));
  }

  lemma StepKeeps(cfg: Config, hashes: Hashes, h: Host, e: Event)
    requires Inv(cfg, h)
    ensures Inv(cfg, Step(cfg, hashes, h, e)) && Grows(h, Step(cfg, hashes, h, e))
  {
    match e
    case Tick(mono) => ExpireKeepsInv(cfg, h, mono); ExpireGrows(h, mono);
    case Create(request, clock) => CreateKeepsInv(cfg, h, request, clock); CreateGrows(cfg, h, request, clock);
    case Observe(owner, stop, clock) =>
      ObserveKeepsInv(cfg, h, owner, stop, clock);
      ObserveGrows(cfg, h, owner, stop, clock);
    case Lease(lessee, until, clock) =>
      LeaseKeepsInv(cfg, h, lessee, until, clock);
      LeaseStepGrows(cfg, h, lessee, until, clock);
    case HoldNext => HoldKeeps(cfg, h);
    case RunCommand(owner, payload, digest, cancel, clock) =>
      CommandKeepsInv(cfg, h, owner, payload, digest, cancel, clock);
      CommandStepGrows(cfg, h, owner, payload, digest, cancel, clock);
    case FinishCommand(allocation, operation, exit) =>
      FinishCommandKeepsInv(cfg, h, allocation, operation, exit);
      FinishCommandGrows(cfg, h, allocation, operation, exit);
    case TransferFile(owner, upload, action, clock) =>
      FileKeepsInv(cfg, hashes, h, owner, upload, action, clock);
      FileStepGrows(cfg, hashes, h, owner, upload, action, clock);
    case Prepare(publication, mono) =>
      PrepareKeepsInv(cfg, h, publication, mono);
      PrepareGrows(cfg, h, publication, mono);
    case RecordPlans(publication, plans) =>
      RecordKeepsInv(cfg, h, publication, plans);
      RecordArchiveGrows(h, publication, plans);
    hide Inv, Grows, Expire, CreateStep, ObserveStep, LeaseStep, CommandStep, FinishCommandStep, FileStep,
         PrepareArchive, RecordArchive;
  }

  lemma HoldKeepsAllocations(h: Host, h': Host)
    requires AllocationInv(h) && h' == h.(holdNext := true)
    ensures AllocationInv(h') && OnlyEnds(h, h')
  {
    forall id | id in h'.allocations
      ensures RecordFits(h', id)
    {
      assert RecordFits(h, id);
    }
  }

  lemma HoldKeepsBuffers(h: Host, h': Host)
    requires BufferInv(h) && h' == h.(holdNext := true)
    ensures BufferInv(h')
  {
    assert RetainedBytes(h') == RetainedBytes(h);
    hide RetainedBytes;
    forall k: Key
      ensures Staging(h', k) == Staging(h, k)
    {}
    forall id
      ensures Running(h', id) == Running(h, id)
    {}
    hide Staging, Running;
  }

  lemma HoldKeeps(cfg: Config, h: Host)
    requires Inv(cfg, h)
    ensures Inv(cfg, h.(holdNext := true)) && Grows(h, h.(holdNext := true))
  {
    hide AllocationInv, BufferInv, FenceInv, WithinCapacity, FenceGrows, LogFits, Grows;
    var h' := h.(holdNext := true);
    HoldKeepsAllocations(h, h');
    HoldKeepsBuffers(h, h');
    EndsKeepLog(h, h');
    forall a | a in h.fences
      ensures FenceGrows(h.fences[a], h.fences[a])
    {
      FenceGrowsItself(h.fences[a]);
    }
    GrowsByFences(h, h');
  }

  // Every state reached keeps the invariant, and nothing recorded is ever taken back.
  lemma {:induction false} RunKeeps(cfg: Config, hashes: Hashes, h: Host, events: seq<Event>)
    requires Inv(cfg, h)
    ensures Inv(cfg, Run(cfg, hashes, h, events)) && Grows(h, Run(cfg, hashes, h, events))
    decreases |events|
  {
    hide Inv, Grows, Step;
    if events == [] {
      GrowsItself(h);
    } else {
      var next := Step(cfg, hashes, h, events[0]);
      StepKeeps(cfg, hashes, h, events[0]);
      RunKeeps(cfg, hashes, next, events[1..]);
      GrowsTransitively(h, next, Run(cfg, hashes, next, events[1..]));
    }
  }

  lemma FreshInv(cfg: Config)
    ensures Inv(cfg, Fresh())
  {
    assert ReadyUse(map[], Vcpu) == map[] && ReadyUse(map[], Memory) == map[] && ReadyUse(map[], Disk) == map[];
    assert FileCounts(map[]) == map[];
    assert Lengths<Key>(map[]) == map[] && Lengths<(Id, Id)>(map[]) == map[];
  }

  // --- consequences ---

  predicate BothRunning(h: Host, a: Id, b: Id) {
    Live(h, a) && Live(h, b) && h.allocations[a].create.owner.sandbox == h.allocations[b].create.owner.sandbox
  }

  // A sandbox never has two running allocations.
  lemma OneRunningPerSandbox(cfg: Config, h: Host, a: Id, b: Id)
    requires Inv(cfg, h) && BothRunning(h, a, b)
    ensures a == b
  {
    assert RecordFits(h, a) && RecordFits(h, b);
    hide LogFits, WithinCapacity, FenceInv, BufferInv;
  }

  // Starts are counted exactly, name distinct allocations, and rise in generation.
  lemma StartsAreCountedAndOrdered(cfg: Config, h: Host, i: nat, j: nat)
    requires Inv(cfg, h) && i < j < |h.started|
    ensures h.totalStarts == |h.allocations| == |h.started|
    ensures h.started[i] in h.allocations && h.started[j] in h.allocations && h.started[i] != h.started[j]
    ensures var a, b := h.allocations[h.started[i]].create.owner, h.allocations[h.started[j]].create.owner;
            a.sandbox == b.sandbox ==> a.generation < b.generation
  {
    assert Profile(h)[i] == (SandboxOf(h, h.started[i]), GenerationOf(h, h.started[i]));
    assert Profile(h)[j] == (SandboxOf(h, h.started[j]), GenerationOf(h, h.started[j]));
    hide AllocationInv, WithinCapacity, FenceInv, BufferInv, Profile;
  }

  // A retried create for a known allocation starts nothing and revives nothing.
  lemma RetriedCreateStartsNothing(cfg: Config, h: Host, r: CreateRequest, clock: Clock)
    requires r.owner.allocation in h.allocations
    ensures var h' := CreateStep(cfg, h, r, clock).0;
            && h'.started == h.started && h'.totalStarts == h.totalStarts
            && h'.allocations == Lapsed(h.allocations, clock.mono)
  {
    ClaimKeepsLive(Expire(h, clock.mono), r.owner);
    hide CreateRefusal, CheckOwner;
  }

  lemma StepKeepsUnstarted(cfg: Config, hashes: Hashes, h: Host, e: Event, id: Id)
    requires Inv(cfg, h) && Stopped(h, id) && id !in h.allocations
    ensures id !in Step(cfg, hashes, h, e).allocations
  {
    if e.Create? {
      var h1 := Enter(cfg, h, e.request.owner, e.clock).0;
      CreateShape(cfg, h, e.request, e.clock);
      EnterGrows(cfg, h, e.request.owner, e.clock);
      EnterAllocations(cfg, h, e.request.owner, e.clock);
      assert Stopped(h1, id) by {
        assert FenceGrows(h.fences[id], h1.fences[id]);
      }
      hide Inv, Enter, CreateStep, Fits, Succeeds, FenceGrows;
    } else {
      OtherStepsStartNothing(cfg, hashes, h, e);
    }
    hide Step;
  }

  lemma EnterAllocations(cfg: Config, h: Host, o: Ownership, clock: Clock)
    ensures Enter(cfg, h, o, clock).0.allocations.Keys == h.allocations.Keys
  {
    ClaimKeepsLive(Expire(h, clock.mono), o);
    hide Claim, CheckOwner;
  }

  lemma CommandStartsNothing(cfg: Config, h: Host, o: Ownership, payload: Option<Execute>, digest: Digest,
      cancel: bool, clock: Clock)
    ensures CommandStep(cfg, h, o, payload, digest, cancel, clock).0.allocations.Keys == h.allocations.Keys
  {
    hide CommandStep, CommandEntry, Claim;
    CommandEntryShape(cfg, h, o, payload, clock);
    CommandShape(cfg, h, o, payload, digest, cancel, clock);
    ClaimKeepsLive(Expire(h, clock.mono), o);
  }

  lemma TransferStartsNothing(hashes: Hashes, h: Host, key: Key, file: FileRecord, upload: Upload, a: Action,
      running: bool)
    ensures Transfer(hashes, h, key, file, upload, a, running).0.allocations == h.allocations
  {
    hide RetainedBytes;
  }

  lemma FileStartsNothing(cfg: Config, hashes: Hashes, h: Host, o: Ownership, upload: Upload, a: Action, clock: Clock)
    ensures FileStep(cfg, hashes, h, o, upload, a, clock).0.allocations.Keys == h.allocations.Keys
  {
    hide FileEntry, Claim, Beginning, Transfer, Live, Expire;
    FileEntryShape(cfg, hashes, h, o, upload, a, clock);
    ClaimKeepsLive(Expire(h, clock.mono), o);
    ExpireSees(h, clock.mono);
    var h1 := FileEntry(cfg, hashes, h, o, upload, a, clock).0;
    if o.allocation in h1.fences && o.operation in h1.fences[o.allocation].files {
      var f := h1.fences[o.allocation];
      TransferStartsNothing(hashes, h1, Key(o.allocation, o.operation), f.files[o.operation], upload, a,
                            Live(h1, o.allocation) && !f.stopped);
    }
  }

  lemma LeaseStartsNothing(cfg: Config, h: Host, o: LeaseOwnership, until: Option<int>, clock: Clock)
    ensures LeaseStep(cfg, h, o, until, clock).0.allocations.Keys == h.allocations.Keys
  {
    hide CheckLease, LeaseRefusal, Sight;
  }

  lemma OtherStepsStartNothing(cfg: Config, hashes: Hashes, h: Host, e: Event)
    requires !e.Create?
    ensures Step(cfg, hashes, h, e).allocations.Keys == h.allocations.Keys
  {
    hide CommandStep, FileStep, LeaseStep, Enter, PrepareArchive;
    match e
    case RunCommand(owner, payload, digest, cancel, clock) =>
      CommandStartsNothing(cfg, h, owner, payload, digest, cancel, clock);
    case TransferFile(owner, upload, action, clock) =>
      FileStartsNothing(cfg, hashes, h, owner, upload, action, clock);
    case Lease(lessee, until, clock) => LeaseStartsNothing(cfg, h, lessee, until, clock);
    case Observe(owner, stop, clock) => EnterAllocations(cfg, h, owner, clock);
    case Prepare(publication, mono) => PrepareShape(cfg, h, publication, mono);
    case _ =>
  }

  // An allocation stopped before it was started is never started.
  lemma {:induction false} StoppedBeforeStartNeverStarts(cfg: Config, hashes: Hashes, h: Host, events: seq<Event>,
      id: Id)
    requires Inv(cfg, h) && Stopped(h, id) && id !in h.allocations
    ensures id !in Run(cfg, hashes, h, events).allocations
    decreases |events|
  {
    if events != [] {
      var next := Step(cfg, hashes, h, events[0]);
      StepKeeps(cfg, hashes, h, events[0]);
      StepKeepsUnstarted(cfg, hashes, h, events[0], id);
      assert Stopped(next, id) by {
        assert FenceGrows(h.fences[id], next.fences[id]);
      }
      hide Inv, Step, Stopped, Grows;
      StoppedBeforeStartNeverStarts(cfg, hashes, next, events[1..], id);
    }
  }

  lemma RunGrowsFence(cfg: Config, hashes: Hashes, h: Host, events: seq<Event>, id: Id)
    requires Inv(cfg, h) && id in h.fences
    ensures Inv(cfg, Run(cfg, hashes, h, events)) && id in Run(cfg, hashes, h, events).fences
    ensures FenceGrows(h.fences[id], Run(cfg, hashes, h, events).fences[id])
  {
    hide Inv, Run, FenceGrows, RecordGrows, StagedGrows;
    RunKeeps(cfg, hashes, h, events);
  }

  // Two accepted renewals under one lease revision asked for the same deadline.
  lemma OneDeadlinePerRevision(
      cfg: Config, hashes: Hashes, h: Host, o: LeaseOwnership, d: int, clock: Clock, events: seq<Event>,
      o': LeaseOwnership, d': int, clock': Clock)
    requires Inv(cfg, h) && o.allocation in h.fences
    requires o'.allocation == o.allocation && o'.revision == o.revision
    requires LeaseStep(cfg, h, o, Some(d), clock).1.Ok?
    requires var later := Run(cfg, hashes, LeaseStep(cfg, h, o, Some(d), clock).0, events);
             LeaseStep(cfg, later, o', Some(d'), clock').1.Ok?
    ensures d' == d
  {
    hide Inv, LeaseStep, Run, CommandsFit, FilesFit;
    var h1 := LeaseStep(cfg, h, o, Some(d), clock).0;
    var h2 := Run(cfg, hashes, h1, events);
    AcceptedRenewal(cfg, h, o, d, clock);
    LeaseKeepsInv(cfg, h, o, Some(d), clock);
    RunGrowsFence(cfg, hashes, h1, events, o.allocation);
    FenceFitsAt(cfg, h2, o.allocation);
    AcceptedRenewal(cfg, h2, o', d', clock');
  }

  lemma AcceptedRenewal(cfg: Config, h: Host, o: LeaseOwnership, d: int, clock: Clock)
    requires o.allocation in h.fences && LeaseStep(cfg, h, o, Some(d), clock).1.Ok?
    ensures var f := h.fences[o.allocation];
            && o.revision >= f.leaseRevision
            && (f.leaseRequest.Some? && f.leaseRequest.value.0 == o.revision ==> f.leaseRequest.value.1 == d)
    ensures var h' := LeaseStep(cfg, h, o, Some(d), clock).0;
            o.allocation in h'.fences && h'.fences[o.allocation].leaseRequest == Some((o.revision, d))
  {
    hide CheckLease, Sight, Extend;
  }

  // A publisher superseded by a newer revision never records plans again.
  lemma SupersededPublisherNeverRecords(cfg: Config, hashes: Hashes, h: Host, events: seq<Event>, p: Publication,
      plans: Plans)
    requires Inv(cfg, h) && p.ticket.allocation in h.fences
    requires var archives := h.fences[p.ticket.allocation].archives;
             p.ticket.operation in archives && archives[p.ticket.operation].revision > p.revision
    ensures RecordArchive(Run(cfg, hashes, h, events), p, plans).1.Err?
  {
    hide Inv, Run;
    RunGrowsFence(cfg, hashes, h, events, p.ticket.allocation);
  }

  // Once recorded, plans are all that any publisher can ever succeed with.
  lemma RecordedPlansAreFinal(
      cfg: Config, hashes: Hashes, h: Host, p: Publication, plans: Plans, events: seq<Event>, q: Publication,
        plans': Plans)
    requires Inv(cfg, h) && RecordArchive(h, p, plans).1.Ok?
    requires q.ticket.allocation == p.ticket.allocation && q.ticket.operation == p.ticket.operation
    requires RecordArchive(Run(cfg, hashes, RecordArchive(h, p, plans).0, events), q, plans').1.Ok?
    ensures plans' == plans && q.ticket == p.ticket && q.revision >= p.revision
  {
    hide Inv, Run;
    var h1 := RecordArchive(h, p, plans).0;
    RecordKeepsInv(cfg, h, p, plans);
    RunGrowsFence(cfg, hashes, h1, events, p.ticket.allocation);
  }

  // --- commands and files in a run ---

  lemma UnknownCommandIsFenced(cfg: Config, h: Host, o: Ownership, digest: Digest, cancel: bool, clock: Clock)
    requires CommandStep(cfg, h, o, None, digest, cancel, clock).1.Ok?
    requires o.allocation in h.fences ==> o.operation !in h.fences[o.allocation].commands
    ensures var h' := CommandStep(cfg, h, o, None, digest, cancel, clock).0;
            && o.allocation in h'.fences && o.operation in h'.fences[o.allocation].commands
            && h'.fences[o.allocation].commands[o.operation] == FencedCommand(digest)
  {
    hide CommandStep, CommandEntry, Claim, Live, Revisited;
    CommandShape(cfg, h, o, None, digest, cancel, clock);
    CommandEntryShape(cfg, h, o, None, clock);
    ClaimShape(Expire(h, clock.mono), o);
  }

  // An inspection or cancellation of an unknown operation rules its execution out for good.
  lemma InspectedBeforeExecutedNeverRuns(
      cfg: Config, hashes: Hashes, h: Host, o: Ownership, digest: Digest, cancel: bool, clock: Clock,
        events: seq<Event>)
    requires Inv(cfg, h) && CommandStep(cfg, h, o, None, digest, cancel, clock).1.Ok?
    requires o.allocation in h.fences ==> o.operation !in h.fences[o.allocation].commands
    ensures var h' := Run(cfg, hashes, CommandStep(cfg, h, o, None, digest, cancel, clock).0, events);
            && o.allocation in h'.fences && o.operation in h'.fences[o.allocation].commands
            && h'.fences[o.allocation].commands[o.operation] == FencedCommand(digest)
  {
    hide Inv, Run, CommandStep;
    var h1 := CommandStep(cfg, h, o, None, digest, cancel, clock).0;
    UnknownCommandIsFenced(cfg, h, o, digest, cancel, clock);
    CommandKeepsInv(cfg, h, o, None, digest, cancel, clock);
    RunGrowsFence(cfg, hashes, h1, events, o.allocation);
  }

  lemma RunGrowsStaged(cfg: Config, hashes: Hashes, h: Host, events: seq<Event>, key: Key)
    requires Inv(cfg, h) && KnownFile(h, key) && key in Run(cfg, hashes, h, events).staged
    ensures key in h.staged && h.staged[key] <= Run(cfg, hashes, h, events).staged[key]
  {
    hide Inv, Run, FenceGrows, RecordGrows, KnownFile;
    RunKeeps(cfg, hashes, h, events);
    StagedGrowsAt(h, Run(cfg, hashes, h, events), key);
    hide Grows;
  }

  lemma StagedGrowsAt(h: Host, h': Host, key: Key)
    requires Grows(h, h') && KnownFile(h, key) && key in h'.staged
    ensures key in h.staged && h.staged[key] <= h'.staged[key]
  {
    hide FenceGrows, RecordGrows, KnownFile;
  }

  // An accepted chunk stays at its offset for as long as the file is staged.
  lemma WrittenChunkStays(
      cfg: Config, hashes: Hashes, h: Host, key: Key, file: FileRecord, offset: nat, data: seq<byte>,
        events: seq<Event>)
    requires Inv(cfg, h) && KnownFile(h, key) && file == h.fences[key.allocation].files[key.operation] && file.Open()
    requires WriteChunk(h, key, file, offset, data).1.Ok?
    requires key in Run(cfg, hashes, WriteChunk(h, key, file, offset, data).0, events).staged
    ensures var bytes := Run(cfg, hashes, WriteChunk(h, key, file, offset, data).0, events).staged[key];
            offset + |data| <= |bytes| && bytes[offset..offset + |data|] == data
  {
    hide Inv, Run, WriteChunk;
    var h1 := WriteChunk(h, key, file, offset, data).0;
    ChunkIsApplied(h, key, file, offset, data);
    WriteKeepsInv(cfg, h, key, file, offset, data);
    WriteGrows(h, key, file, offset, data);
    FilesStayKnown(h, h1, key);
    hide Grows, KnownFile;
    RunGrowsStaged(cfg, hashes, h1, events, key);
    var bytes := Run(cfg, hashes, h1, events).staged[key];
    assert bytes[offset..offset + |data|] == h1.staged[key][offset..offset + |data|];
  }

  lemma ChunkIsApplied(h: Host, key: Key, file: FileRecord, offset: nat, data: seq<byte>)
    requires WriteChunk(h, key, file, offset, data).1.Ok?
    ensures var h' := WriteChunk(h, key, file, offset, data).0;
            && key in h.staged && key in h'.staged && h.staged[key] <= h'.staged[key]
            && offset + |data| <= |h'.staged[key]| && h'.staged[key][offset..offset + |data|] == data
            && |h'.staged[key]| == if offset + |data| > |h.staged[key]| then offset + |data| else |h.staged[key]|
  {
    hide RetainedBytes;
    var bytes := h.staged[key];
    AppliedSlice(bytes, data, offset, if |bytes| - offset < |data| then |bytes| - offset else |data|);
  }

  lemma AppliedSlice(bytes: seq<byte>, data: seq<byte>, offset: nat, overlap: nat)
    requires offset + overlap <= |bytes| && overlap <= |data|
    requires overlap == |data| || offset + overlap == |bytes|
    requires bytes[offset..offset + overlap] == data[..overlap]
    ensures offset + |data| <= |bytes + data[overlap..]|
    ensures (bytes + data[overlap..])[offset..offset + |data|] == data
  {
    var more := bytes + data[overlap..];
    forall i | 0 <= i < |data|
      ensures more[offset + i] == data[i]
    {
      if i < overlap {
        assert bytes[offset..offset + overlap][i] == data[..overlap][i];
      } else {
        assert more[offset + i] == data[overlap..][offset + i - |bytes|];
      }
    }
    assert more[offset..offset + |data|] == data;
  }

  // A commit publishes exactly the staged bytes, and only if size and content hash match.
  lemma CommitPublishesExactly(hashes: Hashes, h: Host, key: Key, file: FileRecord, upload: Upload)
    requires KnownFile(h, key) && file.Open() && CommitFile(hashes, h, key, file, upload).1.Ok?
    ensures var (h', reply) := CommitFile(hashes, h, key, file, upload);
            var p := (key.allocation, upload.path);
            && key in h.staged
            && (|h.staged[key]| == upload.size && hashes.content(h.staged[key]) == upload.sha256
              <==> reply.value.file.state == 3)
            && (reply.value.file.state == 3 ==> h'.published == h.published[p := h.staged[key]] && key !in h'.staged)
            && (reply.value.file.state != 3 ==>
              h'.published == h.published && h'.staged == h.staged && reply.value.uncertain)
  {}

  // A commit settles a transfer at once: published if the bytes match, and otherwise it can
  // only ever be aborted.
  lemma CommitDecidesForGood(
      cfg: Config, hashes: Hashes, h: Host, key: Key, file: FileRecord, upload: Upload, events: seq<Event>)
    requires Inv(cfg, h) && KnownFile(h, key) && file == h.fences[key.allocation].files[key.operation] && file.Open()
    requires CommitFile(hashes, h, key, file, upload).1.Ok?
    ensures var h' := Run(cfg, hashes, CommitFile(hashes, h, key, file, upload).0, events);
            var asked := file.(commitRequested := true);
            && KnownFile(h', key) && key in h.staged
            && var after := h'.fences[key.allocation].files[key.operation];
               if |h.staged[key]| == upload.size && hashes.content(h.staged[key]) == upload.sha256
               then after == asked.(state := 3)
               else after == asked || after == asked.(abortRequested := true, state := 5)
  {
    hide Inv, Run;
    var h1 := CommitFile(hashes, h, key, file, upload).0;
    CommitKeepsInv(cfg, hashes, h, key, file, upload);
    CommitRecords(hashes, h, key, file, upload);
    hide CommitFile;
    RunKeepsFile(cfg, hashes, h1, events, key);
  }

  lemma CommitRecords(hashes: Hashes, h: Host, key: Key, file: FileRecord, upload: Upload)
    requires KnownFile(h, key) && CommitFile(hashes, h, key, file, upload).1.Ok?
    ensures var h' := CommitFile(hashes, h, key, file, upload).0;
            && KnownFile(h', key) && key in h.staged
            && h'.fences[key.allocation].files[key.operation] ==
               if |h.staged[key]| == upload.size && hashes.content(h.staged[key]) == upload.sha256
               then file.(commitRequested := true, state := 3)
               else file.(commitRequested := true)
  {}

  lemma RunKeepsFile(cfg: Config, hashes: Hashes, h: Host, events: seq<Event>, key: Key)
    requires Inv(cfg, h) && KnownFile(h, key)
    ensures var h' := Run(cfg, hashes, h, events);
            KnownFile(h', key)
            && FileGrows(h.fences[key.allocation].files[key.operation], h'.fences[key.allocation].files[key.operation])
  {
    hide Inv, Run, FileGrows;
    RunGrowsFence(cfg, hashes, h, events, key.allocation);
  }

  // A released allocation stays released under the request that started it, and no deadline
  // ever moves back.
  lemma ReleasedNeverReturns(cfg: Config, hashes: Hashes, h: Host, events: seq<Event>, id: Id)
    requires Inv(cfg, h) && id in h.allocations
    ensures var h' := Run(cfg, hashes, h, events);
            && id in h'.allocations && h'.allocations[id].create == h.allocations[id].create
            && h.allocations[id].leaseUntil <= h'.allocations[id].leaseUntil
            && (!Running(h, id) ==> !Running(h', id))
  {
    hide Inv, Run, FenceGrows, StagedGrows;
    RunKeeps(cfg, hashes, h, events);
    assert RecordGrows(h.allocations[id], Run(cfg, hashes, h, events).allocations[id]);
    if id in h.fences {
      RecordedEvidenceIsFinal(cfg, hashes, h, events, id, id);
    }
  }

  // What a fence has recorded about an operation is final: accepted revisions never decrease,
  // a command keeps its digest, and once settled, also as unknown, it never changes.
  lemma RecordedEvidenceIsFinal(cfg: Config, hashes: Hashes, h: Host, events: seq<Event>, id: Id, op: Id)
    requires Inv(cfg, h) && id in h.fences
    ensures var h' := Run(cfg, hashes, h, events);
            id in h'.fences
            && var f, f' := h.fences[id], h'.fences[id];
               && (f.stopped ==> f'.stopped)
               && (op in f.revisions ==> op in f'.revisions && f.revisions[op] <= f'.revisions[op])
               && (op in f.commands ==>
                     && op in f'.commands && f'.commands[op].digest == f.commands[op].digest
                     && (f.commands[op].Settled() ==> f'.commands[op] == f.commands[op]))
               && (op in f.archives ==>
                     && op in f'.archives && f'.archives[op].ticket == f.archives[op].ticket
                     && f.archives[op].revision <= f'.archives[op].revision
                     && (f.archives[op].plans.Some? ==> f'.archives[op].plans == f.archives[op].plans))
  {
    hide Inv, Run;
    RunGrowsFence(cfg, hashes, h, events, id);
  }

  // --- all reachable states ---

  // What one fence's journals guarantee.
  lemma JournalBounds(cfg: Config, h: Host, id: Id, a: Id, b: Id)
    requires Inv(cfg, h) && id in h.fences
    ensures var f := h.fences[id];
            && |f.commands| <= 32 && Total(Reserved(f.commands)) <= 64 * 1024 * 1024
            && |f.files| <= 16 && Total(Sizes(f.files)) <= 64 * 1024 * 1024
            && f.commands.Keys !! f.files.Keys
            && (a in f.commands && b in f.commands && !f.commands[a].Finished() && !f.commands[b].Finished() ==> a == b)
  {
    FenceFitsAt(cfg, h, id);
    hide Inv, Total, Reserved, Sizes, FileFits, CommandFits;
    assert Unfinished(h.fences[id].commands, a) && Unfinished(h.fences[id].commands, b) ==> a == b;
  }

  lemma ReachableStatesAreSafe(cfg: Config, hashes: Hashes, events: seq<Event>)
    ensures var h := Run(cfg, hashes, Fresh(), events);
            && (forall a, b :: BothRunning(h, a, b) ==> a == b)
            && h.totalStarts == |h.allocations| == |h.started|
            && Total(ReadyUse(h.allocations, Vcpu)) <= cfg.capacity.vcpu
            && Total(ReadyUse(h.allocations, Memory)) <= cfg.capacity.memory
            && Total(ReadyUse(h.allocations, Disk)) <= cfg.capacity.disk
            && Total(Lengths(h.staged)) + Total(Lengths(h.published)) <= 64 * 1024 * 1024
            && (forall k: Key :: k in h.staged <==> Staging(h, k) && Running(h, k.allocation))
  {
    hide Run;
    var h := Run(cfg, hashes, Fresh(), events);
    FreshInv(cfg);
    RunKeeps(cfg, hashes, Fresh(), events);
    forall a, b
      ensures BothRunning(h, a, b) ==> a == b
    {
      if BothRunning(h, a, b) {
        OneRunningPerSandbox(cfg, h, a, b);
      }
    }
    hide Total, Lengths, ReadyUse, AllocationInv, FenceInv, Grows, Staging, Running;
  }
}
