/** Invariants of every reachable supervisor state: one running allocation per sandbox, starts
    counted and in generation order, capacity, one unfinished command, file bytes and buffers. */
module HostSafety {
  import opened Wrappers
  import opened Totals
  import opened Bytes
  import opened HostModel

  // --- allocations, sandboxes and starts ---

  ghost predicate RecordFits(h: Host, id: Id)
    requires id in h.allocations
  {
    var r := h.allocations[id];
    var o := r.create.owner;
    && o.allocation == id && r.create.resources.Some?
    && id in h.fences && SameOwner(h.fences[id], o.project, o.sandbox, o.generation)
    && (h.fences[id].stopped ==> r.phase.Released?)
    && o.sandbox in h.sandboxes
    && o.project == h.sandboxes[o.sandbox].project && o.generation <= h.sandboxes[o.sandbox].generation
    && (r.phase.Ready? ==> h.sandboxes[o.sandbox].allocation == id)
  }

  // The log of starts names every allocation once, generations rising within a sandbox.
  ghost predicate LogNames(started: seq<Id>, allocations: set<Id>) {
    && (forall i :: 0 <= i < |started| ==> started[i] in allocations)
    && (forall id :: id in allocations ==> id in started)
    && (forall i, j :: 0 <= i < j < |started| ==> started[i] != started[j])
  }

  ghost function Profile(h: Host): (p: seq<(Option<Id>, int)>)
    ensures |p| == |h.started|
    ensures forall i :: 0 <= i < |p| ==> p[i] == (SandboxOf(h, h.started[i]), GenerationOf(h, h.started[i]))
  {
    seq(|h.started|, i requires 0 <= i < |h.started| => (SandboxOf(h, h.started[i]), GenerationOf(h, h.started[i])))
  }

  predicate Rising(profile: seq<(Option<Id>, int)>) {
    forall i, j :: 0 <= i < j < |profile| && profile[i].0 == profile[j].0 ==> profile[i].1 < profile[j].1
  }

  ghost predicate LogFits(h: Host) {
    |h.started| == h.totalStarts == |h.allocations| && LogNames(h.started, h.allocations.Keys) && Rising(Profile(h))
  }

  ghost function SandboxOf(h: Host, id: Id): Option<Id> {
    if id in h.allocations then Some(h.allocations[id].create.owner.sandbox) else None
  }

  ghost function GenerationOf(h: Host, id: Id): int {
    if id in h.allocations then h.allocations[id].create.owner.generation else 0
  }

  ghost predicate WithinCapacity(cfg: Config, allocations: map<Id, Record>) {
    && Total(ReadyUse(allocations, Vcpu)) <= cfg.capacity.vcpu
    && Total(ReadyUse(allocations, Memory)) <= cfg.capacity.memory
    && Total(ReadyUse(allocations, Disk)) <= cfg.capacity.disk
  }

  ghost predicate AllocationInv(h: Host) {
    forall id :: id in h.allocations ==> RecordFits(h, id)
  }

  // --- one fence ---

  ghost predicate CommandFits(c: Command) {
    && (c.notStarted ==> c.receipt.None?)
    && (!c.notStarted ==> c.receipt.Some?)
    && (c.receipt.Some? ==> (c.receipt.value.cleanupConfirmed
      <==> c.receipt.value.state in {Exited, TimedOut, Cancelled}))
  }

  predicate Unfinished(commands: map<Id, Command>, op: Id) {
    op in commands && !commands[op].Finished()
  }

  ghost predicate CommandsFit(commands: map<Id, Command>) {
    && |commands| <= MAX_COMMANDS
    && Total(Reserved(commands)) <= MAX_RESERVED
    && (forall op :: op in commands ==> CommandFits(commands[op]))
    && (forall a, b :: Unfinished(commands, a) && Unfinished(commands, b) ==> a == b)
  }

  ghost predicate FileFits(r: FileRecord) {
    && r.size <= MAX_FILE_BYTES
    && (r.notStarted ==> r.size == 0 && r.state == 0 && !r.commitRequested && !r.abortRequested)
    && (!r.notStarted ==> r.state in {1, 3, 5})
    && (r.state == 3 ==> r.commitRequested) && (r.state == 5 <==> r.abortRequested)
  }

  ghost predicate FilesFit(files: map<Id, FileRecord>) {
    && |files| <= MAX_FILES
    && Total(Sizes(files)) <= MAX_RESERVED
    && (forall op :: op in files ==> FileFits(files[op]))
  }

  ghost predicate LeaseFits(f: Fence) {
    f.leaseRequest.Some? ==> f.leaseRequest.value.0 <= f.leaseRevision
  }

  ghost predicate FenceFits(f: Fence) {
    && CommandsFit(f.commands) && FilesFit(f.files) && LeaseFits(f) && |f.revisions| <= MAX_REVISIONS
    && f.commands.Keys !! f.files.Keys
  }

  ghost predicate FenceInv(fences: map<Id, Fence>) {
    && |fences| <= MAX_RECORDS
    && Total(FileCounts(fences)) <= MAX_HOST_FILES
    && (forall id :: id in fences ==> FenceFits(fences[id]))
  }

  // --- staged and published bytes ---

  predicate Running(h: Host, id: Id) {
    Live(h, id) && !Stopped(h, id)
  }

  predicate Staging(h: Host, k: Key) {
    && k.allocation in h.fences && k.operation in h.fences[k.allocation].files
    && !h.fences[k.allocation].files[k.operation].notStarted
    && h.fences[k.allocation].files[k.operation].state == 1
  }

  // Exactly the transfers still staging under a running allocation have a buffer.
  ghost predicate Buffered(h: Host) {
    && (forall k: Key :: k in h.staged <==> Staging(h, k) && Running(h, k.allocation))
    && (forall k: Key :: Staging(h, k) ==> k.allocation in h.allocations)
    && (forall p :: p in h.published ==> Running(h, p.0))
  }

  ghost predicate BufferInv(h: Host) {
    Buffered(h) && RetainedBytes(h) <= MAX_RESERVED
  }

  ghost predicate Inv(cfg: Config, h: Host) {
    && AllocationInv(h) && LogFits(h) && WithinCapacity(cfg, h.allocations) && FenceInv(h.fences) && BufferInv(h)
  }

  // --- expiry ---

  lemma LapseUses(allocations: map<Id, Record>, later: map<Id, Record>, use: Resources -> nat)
    requires later.Keys == allocations.Keys
    requires forall id :: id in allocations ==>
      later[id].create == allocations[id].create && (later[id].phase.Ready? ==> allocations[id].phase.Ready?)
    ensures Total(ReadyUse(later, use)) <= Total(ReadyUse(allocations, use))
  {
    TotalMonotone(ReadyUse(later, use), ReadyUse(allocations, use));
    hide Total;
  }

  lemma LapseKeepsCapacity(cfg: Config, allocations: map<Id, Record>, later: map<Id, Record>)
    requires WithinCapacity(cfg, allocations) && later.Keys == allocations.Keys
    requires forall id :: id in allocations ==>
      later[id].create == allocations[id].create && (later[id].phase.Ready? ==> allocations[id].phase.Ready?)
    ensures WithinCapacity(cfg, later)
  {
    LapseUses(allocations, later, Vcpu);
    LapseUses(allocations, later, Memory);
    LapseUses(allocations, later, Disk);
    hide Total, ReadyUse;
  }

  // Dropping buffers never adds bytes.
  lemma FewerBytes<K>(m: map<K, seq<byte>>, n: map<K, seq<byte>>)
    requires m.Keys <= n.Keys && forall k :: k in m ==> m[k] == n[k]
    ensures Total(Lengths(m)) <= Total(Lengths(n))
  {
    TotalMonotone(Lengths(m), Lengths(n));
    hide Total;
  }

  lemma FewerRetained(h: Host, h': Host)
    requires h'.staged.Keys <= h.staged.Keys && forall k :: k in h'.staged ==> h'.staged[k] == h.staged[k]
    requires h'.published.Keys <= h.published.Keys && forall p :: p in h'.published ==>
      h'.published[p] == h.published[p]
    ensures RetainedBytes(h') <= RetainedBytes(h)
  {
    FewerBytes(h'.staged, h.staged);
    FewerBytes(h'.published, h.published);
    hide Total, Lengths;
  }

  // Allocations only end; the log and the identities stay.
  ghost predicate OnlyEnds(h: Host, h': Host) {
    && h'.started == h.started && h'.totalStarts == h.totalStarts
    && h'.allocations.Keys == h.allocations.Keys
    && forall id :: id in h.allocations ==>
         h'.allocations[id].create == h.allocations[id].create
         && (h'.allocations[id].phase.Ready? ==> h.allocations[id].phase.Ready?)
  }

  lemma EndsKeepLog(h: Host, h': Host)
    requires LogFits(h) && OnlyEnds(h, h')
    ensures LogFits(h')
  {
    forall id
      ensures SandboxOf(h', id) == SandboxOf(h, id) && GenerationOf(h', id) == GenerationOf(h, id)
    {}
    hide SandboxOf, GenerationOf, LogNames;
    assert Profile(h') == Profile(h);
    hide Profile, Rising;
    SizeMonotone(h'.allocations, h.allocations);
    SizeMonotone(h.allocations, h'.allocations);
  }

  lemma ExpireKeepsAllocations(h: Host, mono: int)
    requires AllocationInv(h)
    ensures AllocationInv(Expire(h, mono)) && OnlyEnds(h, Expire(h, mono))
  {
    forall id | id in h.allocations
      ensures RecordFits(Expire(h, mono), id)
    {
      assert RecordFits(h, id);
    }
  }

  lemma ExpireSees(h: Host, mono: int)
    ensures var h' := Expire(h, mono);
            && h'.fences == h.fences && h'.allocations.Keys == h.allocations.Keys
            && (forall id :: Running(h', id) ==> Running(h, id))
            && (forall k :: k in h'.staged <==>
              k in h.staged && (k.allocation in h.allocations ==> Live(h', k.allocation)))
            && (forall k :: k in h'.staged ==> h'.staged[k] == h.staged[k])
            && (forall p :: p in h'.published <==> p in h.published && Live(h', p.0))
            && (forall p :: p in h'.published ==> h'.published[p] == h.published[p])
  {}

  lemma ExpireKeepsBuffers(h: Host, mono: int)
    requires BufferInv(h)
    ensures BufferInv(Expire(h, mono))
  {
    var h' := Expire(h, mono);
    ExpireSees(h, mono);
    hide Expire;
    FewerRetained(h, h');
    hide RetainedBytes;
    forall k: Key
      ensures Staging(h', k) == Staging(h, k)
    {}
    hide Staging;
  }

  lemma ExpireKeepsInv(cfg: Config, h: Host, mono: int)
    requires Inv(cfg, h)
    ensures Inv(cfg, Expire(h, mono))
  {
    var h' := Expire(h, mono);
    ExpireKeepsAllocations(h, mono);
    EndsKeepLog(h, h');
    LapseKeepsCapacity(cfg, h.allocations, h'.allocations);
    ExpireKeepsBuffers(h, mono);
    hide AllocationInv, LogFits, WithinCapacity, FenceInv, BufferInv;
  }

  // --- one fence rewritten without touching its files ---

  ghost predicate Refences(h: Host, h': Host, id: Id) {
    && h'.sandboxes == h.sandboxes && h'.started == h.started && h'.totalStarts == h.totalStarts
    && h'.staged == h.staged && h'.published == h.published
    && h'.allocations.Keys == h.allocations.Keys
    && (forall a :: a in h.allocations ==>
          h'.allocations[a].create == h.allocations[a].create && h'.allocations[a].phase == h.allocations[a].phase)
    && id in h'.fences && h'.fences == h.fences[id := h'.fences[id]]
    && FenceFits(h'.fences[id])
    && if id in h.fences
       then var f, f' := h.fences[id], h'.fences[id];
            SameOwner(f', f.project, f.sandbox, f.generation) && f'.stopped == f.stopped && f'.files == f.files
       else |h.fences| < MAX_RECORDS && !h'.fences[id].stopped && h'.fences[id].files == map[]
  }

  lemma RefenceKeepsAllocations(h: Host, h': Host, id: Id)
    requires AllocationInv(h) && Refences(h, h', id)
    ensures AllocationInv(h') && OnlyEnds(h, h')
  {
    hide FenceFits;
    forall a | a in h'.allocations
      ensures RecordFits(h', a)
    {
      assert RecordFits(h, a);
    }
  }

  lemma CountsAfter(fences: map<Id, Fence>, id: Id, f: Fence)
    ensures Total(FileCounts(fences[id := f])) ==
            Total(FileCounts(fences)) - (if id in fences then |fences[id].files| else 0) + |f.files|
  {
    hide Total;
    assert FileCounts(fences[id := f]) == FileCounts(fences)[id := |f.files|];
    TotalPuts(FileCounts(fences), id, |f.files|);
  }

  lemma PutKeepsFences(fences: map<Id, Fence>, id: Id, f: Fence)
    requires FenceInv(fences) && FenceFits(f) && (id in fences || |fences| < MAX_RECORDS)
    requires Total(FileCounts(fences)) - (if id in fences then |fences[id].files| else 0) + |f.files| <= MAX_HOST_FILES
    ensures FenceInv(fences[id := f])
  {
    hide Total, FileCounts, FenceFits;
    CountsAfter(fences, id, f);
    SizePuts(fences, id, f);
  }

  lemma RefenceKeepsFences(h: Host, h': Host, id: Id)
    requires FenceInv(h.fences) && Refences(h, h', id)
    ensures FenceInv(h'.fences)
  {
    PutKeepsFences(h.fences, id, h'.fences[id]);
    hide FenceFits, FenceInv;
  }

  lemma RefenceKeepsBuffers(h: Host, h': Host, id: Id)
    requires AllocationInv(h) && BufferInv(h) && Refences(h, h', id)
    ensures BufferInv(h')
  {
    assert RetainedBytes(h') == RetainedBytes(h);
    RefenceKeepsStaging(h, h', id);
    RefenceKeepsRunning(h, h', id);
    hide FenceFits, RetainedBytes, Staging, Running, AllocationInv;
  }

  lemma RefenceKeepsStaging(h: Host, h': Host, id: Id)
    requires Refences(h, h', id)
    ensures forall k: Key :: Staging(h', k) == Staging(h, k)
  {}

  lemma RefenceKeepsRunning(h: Host, h': Host, id: Id)
    requires AllocationInv(h) && Refences(h, h', id)
    ensures forall a :: Running(h', a) == Running(h, a)
  {
    forall a
      ensures Running(h', a) == Running(h, a)
    {
      assert a in h.allocations ==> RecordFits(h, a);
    }
  }

  lemma RefenceKeepsInv(cfg: Config, h: Host, h': Host, id: Id)
    requires Inv(cfg, h) && Refences(h, h', id)
    ensures Inv(cfg, h')
  {
    RefenceKeepsAllocations(h, h', id);
    EndsKeepLog(h, h');
    LapseKeepsCapacity(cfg, h.allocations, h'.allocations);
    RefenceKeepsFences(h, h', id);
    RefenceKeepsBuffers(h, h', id);
    hide AllocationInv, LogFits, WithinCapacity, FenceInv, BufferInv;
  }

  // --- claims ---

  lemma FenceFitsAt(cfg: Config, h: Host, id: Id)
    requires Inv(cfg, h) && id in h.fences
    ensures FenceFits(h.fences[id])
  {
    hide AllocationInv, LogFits, WithinCapacity, BufferInv, FenceFits;
  }

  lemma NewFenceFits(o: Ownership)
    ensures FenceFits(NewFence(o))
  {
    assert Reserved(map[]) == map[] && Sizes(map[]) == map[];
  }

  lemma ClaimedFits(f: Fence, op: Id, revision: int)
    requires FenceFits(f) && (op in f.revisions || |f.revisions| < MAX_REVISIONS)
    ensures FenceFits(f.(revisions := f.revisions[op := revision]))
  {
    SizePuts(f.revisions, op, revision);
    hide CommandsFit, FilesFit;
  }

  lemma ClaimRefences(h: Host, o: Ownership)
    requires Claim(h, o).1.None?
    requires o.allocation in h.fences ==> FenceFits(h.fences[o.allocation])
    ensures Refences(h, Claim(h, o).0, o.allocation)
  {
    var f := if o.allocation in h.fences then h.fences[o.allocation] else NewFence(o);
    NewFenceFits(o);
    ClaimedFits(f, o.operation, o.claimRevision);
    hide FenceFits;
  }

  lemma ClaimKeepsInv(cfg: Config, h: Host, o: Ownership)
    requires Inv(cfg, h)
    ensures Inv(cfg, Claim(h, o).0)
  {
    if Claim(h, o).1.None? {
      if o.allocation in h.fences {
        FenceFitsAt(cfg, h, o.allocation);
      }
      ClaimRefences(h, o);
      RefenceKeepsInv(cfg, h, Claim(h, o).0, o.allocation);
    }
    hide Inv, Refences;
  }

  lemma EnterKeepsInv(cfg: Config, h: Host, o: Ownership, clock: Clock)
    requires Inv(cfg, h)
    ensures Inv(cfg, Enter(cfg, h, o, clock).0)
  {
    ExpireKeepsInv(cfg, h, clock.mono);
    ClaimKeepsInv(cfg, Expire(h, clock.mono), o);
    hide Inv, Expire, Claim;
  }
}
