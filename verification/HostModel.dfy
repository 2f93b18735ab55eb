/** The simulated supervisor of crates/sandbox-fake-host as a state machine: allocations, fences,
    leases, commands, file staging and output archives. Identifiers are only compared, so they
    are numbers here; `parsed` says whether all those of a request are well formed. */
module HostModel {
  import opened Wrappers
  import opened Totals
  import opened Bytes

  type Id = nat

  // Allocation and operation.
  datatype Key = Key(allocation: Id, operation: Id)

  const MAX_RECORDS := 10_000
  const MAX_LEASE_MS := 300_000
  const MAX_REVISIONS := 64
  const MAX_COMMANDS := 32
  const MAX_OUTPUT := 10 * 1024 * 1024
  const MAX_DURATION_MS := 6 * 60 * 60 * 1000
  const MAX_RESERVED := 64 * 1024 * 1024
  const MAX_FILES := 16
  const MAX_HOST_FILES := 1024
  const MAX_FILE_BYTES := 8 * 1024 * 1024
  const MAX_CHUNK := 32 * 1024

  datatype Code =
    InvalidArgument | FailedPrecondition | ResourceExhausted | AlreadyExists | PermissionDenied | NotFound | Unavailable

  datatype Resources = Resources(vcpu: nat, memory: nat, disk: nat) {
    predicate Supported() {
      1 <= vcpu <= 4 && 128 <= memory <= 8192 && 64 <= disk <= 65536
    }
  }

  datatype Config = Config(host: Id, epoch: int, images: set<Id>, capacity: Resources)

  // Wall clock and monotonic clock, in milliseconds.
  datatype Clock = Clock(now: int, mono: int)

  datatype Ownership = Ownership(
    parsed: bool, host: Id, project: Id, sandbox: Id, allocation: Id, operation: Id,
    generation: int, epoch: int, claimRevision: int, claimExpires: int)

  datatype LeaseOwnership = LeaseOwnership(
    parsed: bool, host: Id, project: Id, sandbox: Id, allocation: Id,
    generation: int, epoch: int, revision: int, claimExpires: int)

  datatype CreateRequest = CreateRequest(owner: Ownership, image: Id, resources: Option<Resources>, expires: int)

  // --- records ---

  datatype Phase = Ready | Released

  datatype Record = Record(create: CreateRequest, phase: Phase, expires: int, leaseUntil: int)

  // The newest allocation started for a sandbox, or fenced before any start.
  datatype Slot = Slot(project: Id, allocation: Id, generation: int)

  datatype Status = LaunchIntent | Exited | TimedOut | Cancelled | Unknown

  datatype Receipt = Receipt(
    generation: int, operation: Id, digest: Digest, state: Status, deadline: int, outputLimit: nat,
    cancelRequested: bool, cleanupConfirmed: bool, exitCode: Option<int>)

  datatype Command = Command(digest: Digest, deadline: int, outputLimit: nat, notStarted: bool,
      receipt: Option<Receipt>) {
    predicate Finished() {
      notStarted || (receipt.Some? && receipt.value.cleanupConfirmed
                     && receipt.value.state in {Exited, TimedOut, Cancelled})
    }

    predicate Settled() {
      notStarted || (receipt.Some? && receipt.value.state != LaunchIntent)
    }
  }

  // 0 is no observation; 1 to 5 are staging, commit intent, committed, unknown and aborted.
  datatype FileRecord = FileRecord(
    digest: Digest, size: nat, notStarted: bool, commitRequested: bool, abortRequested: bool, state: nat)
  {
    predicate Finished() {
      notStarted || 3 <= state <= 5
    }

    predicate Open() {
      !notStarted && state == 1 && !commitRequested && !abortRequested
    }
  }

  datatype Archive = Archive(ticket: Ticket, plans: Option<Plans>, revision: int)

  // A publication ticket and its two plans, compared as wholes.
  datatype Ticket = Ticket(
    project: Id, sandbox: Id, operation: Id, allocation: Id, generation: int, host: Id, epoch: int,
    attempt: Id, outputLimit: nat)

  datatype Plans = Plans(attempt: Id, stdout: Digest, stderr: Digest)

  datatype Fence = Fence(
    project: Id, sandbox: Id, generation: int, revisions: map<Id, int>, stopped: bool,
    leaseRevision: int, leaseRequest: Option<(int, int)>,
    commands: map<Id, Command>, archives: map<Id, Archive>, files: map<Id, FileRecord>)

  // `staged` holds the unpublished bytes of the fences' files, `started` every allocation
  // started, in order.
  datatype Host = Host(
    allocations: map<Id, Record>, sandboxes: map<Id, Slot>, fences: map<Id, Fence>,
    staged: map<Key, seq<byte>>, published: map<(Id, Id), seq<byte>>,
    started: seq<Id>, totalStarts: nat, holdNext: bool, totalCommands: nat, fileCommits: nat)

  function Fresh(): Host {
    Host(map[], map[], map[], map[], map[], [], 0, false, 0, 0)
  }

  // --- shared steps ---

  predicate Live(h: Host, allocation: Id) {
    allocation in h.allocations && h.allocations[allocation].phase.Ready?
  }

  predicate Stopped(h: Host, allocation: Id) {
    allocation in h.fences && h.fences[allocation].stopped
  }

  predicate Gone(allocations: map<Id, Record>, allocation: Id) {
    allocation in allocations && allocations[allocation].phase.Released?
  }

  function Lapse(r: Record, mono: int): Record {
    if r.phase.Ready? && r.expires <= mono then r.(phase := Released) else r
  }

  function Lapsed(allocations: map<Id, Record>, mono: int): map<Id, Record> {
    map id | id in allocations :: Lapse(allocations[id], mono)
  }

  // Release the allocations whose lease has run out, and drop the files of released ones.
  function Expire(h: Host, mono: int): Host {
    var allocations := Lapsed(h.allocations, mono);
    h.(allocations := allocations,
       published := map p | p in h.published && p.0 in allocations && allocations[p.0].phase.Ready? :: h.published[p],
       staged := map k | k in h.staged && !Gone(allocations, k.allocation) :: h.staged[k])
  }

  predicate Bounded(deadline: int, now: int) {
    0 < deadline - now <= MAX_LEASE_MS
  }

  function CheckOwner(cfg: Config, o: Ownership, now: int): Option<Code> {
    if !o.parsed then Some(InvalidArgument)
    else if o.host != cfg.host || o.epoch != cfg.epoch then Some(FailedPrecondition)
    else if o.generation <= 0 || o.claimRevision <= 0 then Some(InvalidArgument)
    else if !Bounded(o.claimExpires, now) then Some(FailedPrecondition)
    else None
  }

  function NewFence(o: Ownership): Fence {
    Fence(o.project, o.sandbox, o.generation, map[], false, 0, None, map[], map[], map[])
  }

  predicate SameOwner(f: Fence, project: Id, sandbox: Id, generation: int) {
    f.project == project && f.sandbox == sandbox && f.generation == generation
  }

  // Record the claim of one operation on an allocation, refusing stale claims.
  function Claim(h: Host, o: Ownership): (Host, Option<Code>) {
    if o.allocation !in h.fences && |h.fences| >= MAX_RECORDS then (h, Some(ResourceExhausted))
    else
      var fence := if o.allocation in h.fences then h.fences[o.allocation] else NewFence(o);
      if !SameOwner(fence, o.project, o.sandbox, o.generation) then (h, Some(FailedPrecondition))
      else if o.operation !in fence.revisions && |fence.revisions| >= MAX_REVISIONS then (h, Some(ResourceExhausted))
      else if o.operation in fence.revisions && o.claimRevision < fence.revisions[o.operation]
      then (h, Some(FailedPrecondition))
      else
        var claimed := fence.(revisions := fence.revisions[o.operation := o.claimRevision]);
        (h.(fences := h.fences[o.allocation := claimed]), None)
  }

  // Expiry, ownership and claim: how every operation on an allocation starts.
  function Enter(cfg: Config, h: Host, o: Ownership, clock: Clock): (Host, Option<Code>) {
    var h1 := Expire(h, clock.mono);
    var refused := CheckOwner(cfg, o, clock.now);
    if refused.Some? then (h1, refused) else Claim(h1, o)
  }

  // --- allocations ---

  datatype Observed = Absent | FencedAbsent | Present(phase: Phase)

  function ReadyUse(allocations: map<Id, Record>, use: Resources -> nat): map<Id, nat> {
    map id | id in allocations && allocations[id].phase.Ready? && allocations[id].create.resources.Some? ::
      use(allocations[id].create.resources.value)
  }

  function Vcpu(r: Resources): nat { r.vcpu }
  function Memory(r: Resources): nat { r.memory }
  function Disk(r: Resources): nat { r.disk }

  ghost predicate FitsOne(allocations: map<Id, Record>, use: Resources -> nat, wanted: nat, capacity: nat) {
    wanted <= capacity - Total(ReadyUse(allocations, use))
  }

  ghost predicate Fits(cfg: Config, h: Host, wanted: Resources) {
    && FitsOne(h.allocations, Vcpu, wanted.vcpu, cfg.capacity.vcpu)
    && FitsOne(h.allocations, Memory, wanted.memory, cfg.capacity.memory)
    && FitsOne(h.allocations, Disk, wanted.disk, cfg.capacity.disk)
  }

  predicate SameRequest(stored: CreateRequest, r: CreateRequest) {
    && stored.owner.operation == r.owner.operation && stored.image == r.image
    && stored.resources == r.resources && stored.expires == r.expires
  }

  // The previous allocation of the sandbox must have ended.
  predicate Succeeds(h: Host, o: Ownership) {
    o.sandbox in h.sandboxes ==>
      var slot := h.sandboxes[o.sandbox];
      && o.project == slot.project && o.generation > slot.generation
      && (if slot.allocation in h.allocations then h.allocations[slot.allocation].phase.Released?
          else Stopped(h, slot.allocation))
  }

  ghost function CreateRefusal(cfg: Config, h: Host, r: CreateRequest, clock: Clock): Option<Code> {
    if Stopped(h, r.owner.allocation) then Some(FailedPrecondition)
    else if !Bounded(r.expires, clock.now) then Some(FailedPrecondition)
    else if r.image !in cfg.images then Some(PermissionDenied)
    else if r.resources.None? then Some(InvalidArgument)
    else if !r.resources.value.Supported() then Some(InvalidArgument)
    else if !Succeeds(h, r.owner) then Some(FailedPrecondition)
    else if |h.allocations| >= MAX_RECORDS then Some(ResourceExhausted)
    else if !Fits(cfg, h, r.resources.value) then Some(ResourceExhausted)
    else None
  }

  function Started(h: Host, r: CreateRequest, clock: Clock): Host {
    var o := r.owner;
    h.(sandboxes := h.sandboxes[o.sandbox := Slot(o.project, o.allocation, o.generation)],
       allocations := h.allocations[o.allocation := Record(r, Ready, clock.mono + (r.expires - clock.now), r.expires)],
       started := h.started + [o.allocation],
       totalStarts := h.totalStarts + 1)
  }

  ghost function CreateStep(cfg: Config, h: Host, r: CreateRequest, clock: Clock): (Host, Result<Observed, Code>) {
    var (h1, refused) := Enter(cfg, h, r.owner, clock);
    if refused.Some? then (h1, Err(refused.value))
    else if r.owner.allocation in h1.allocations then
      var record := h1.allocations[r.owner.allocation];
      (h1, if SameRequest(record.create, r) then Ok(Present(record.phase)) else Err(AlreadyExists))
    else
      var refusal := CreateRefusal(cfg, h1, r, clock);
      if refusal.Some? then (h1, Err(refusal.value))
      else (Started(h1, r, clock), Ok(Present(Ready)))
  }

  function StopRecord(allocations: map<Id, Record>, id: Id): map<Id, Record> {
    if id in allocations then allocations[id := allocations[id].(phase := Released)] else allocations
  }

  // Fence an allocation against any later start, and release it if it is running.
  function Halt(h: Host, o: Ownership): Host {
    var id := o.allocation;
    h.(fences := if id in h.fences then h.fences[id := h.fences[id].(stopped := true)] else h.fences,
       staged := map k | k in h.staged && k.allocation != id :: h.staged[k],
       published := map p | p in h.published && p.0 != id :: h.published[p],
       sandboxes := if o.sandbox in h.sandboxes then h.sandboxes
                    else h.sandboxes[o.sandbox := Slot(o.project, id, o.generation)],
       allocations := StopRecord(h.allocations, id))
  }

  function Sight(h: Host, id: Id): Observed {
    if id in h.allocations then Present(h.allocations[id].phase)
    else if Stopped(h, id) then FencedAbsent
    else Absent
  }

  function ObserveStep(cfg: Config, h: Host, o: Ownership, stop: bool, clock: Clock): (Host, Result<Observed, Code>) {
    var (h1, refused) := Enter(cfg, h, o, clock);
    if refused.Some? then (h1, Err(refused.value))
    else
      var h2 := if stop then Halt(h1, o) else h1;
      (h2, Ok(Sight(h2, o.allocation)))
  }

  // --- leases ---

  datatype LeaseSight = LeaseSight(observed: Observed, until: int)

  function CheckLease(cfg: Config, o: LeaseOwnership, until: Option<int>, now: int): Option<Code> {
    if !o.parsed || o.revision <= 0 || o.generation <= 0 then Some(InvalidArgument)
    else if o.host != cfg.host || o.epoch != cfg.epoch then Some(FailedPrecondition)
    else if !Bounded(o.claimExpires, now) then Some(FailedPrecondition)
    else if until.Some? && !Bounded(until.value, now) then Some(FailedPrecondition)
    else None
  }

  function LeaseRefusal(h: Host, f: Fence, o: LeaseOwnership, until: Option<int>): Option<Code> {
    if !SameOwner(f, o.project, o.sandbox, o.generation) || o.revision < f.leaseRevision then Some(FailedPrecondition)
    else if until.Some? && f.leaseRequest.Some? && f.leaseRequest.value.0 == o.revision
            && f.leaseRequest.value.1 != until.value then Some(AlreadyExists)
    else if until.Some? && Live(h, o.allocation) && until.value < h.allocations[o.allocation].leaseUntil
    then Some(FailedPrecondition)
    else None
  }

  function Extend(h: Host, id: Id, until: Option<int>, stopped: bool, clock: Clock): map<Id, Record> {
    if until.Some? && !stopped && Live(h, id) && until.value > h.allocations[id].leaseUntil
    then h.allocations[id := h.allocations[id].(expires := clock.mono + (until.value - clock.now),
      leaseUntil := until.value)]
    else h.allocations
  }

  function Leased(h: Host, o: LeaseOwnership, until: Option<int>, clock: Clock): Host
    requires o.allocation in h.fences
  {
    var f := h.fences[o.allocation];
    var f' := f.(leaseRevision := o.revision,
                 leaseRequest := if until.Some? then Some((o.revision, until.value)) else f.leaseRequest);
    h.(fences := h.fences[o.allocation := f'],
       allocations := Extend(h, o.allocation, until, f.stopped, clock))
  }

  // Renew a lease, or only inspect it when no deadline is given.
  function LeaseStep(cfg: Config, h: Host, o: LeaseOwnership, until: Option<int>, clock: Clock)
    : (Host, Result<LeaseSight, Code>)
  {
    var h1 := Expire(h, clock.mono);
    var refused := CheckLease(cfg, o, until, clock.now);
    if refused.Some? then (h1, Err(refused.value))
    else if o.allocation !in h1.fences then (h1, Ok(LeaseSight(Absent, 0)))
    else
      var f := h1.fences[o.allocation];
      var refusal := LeaseRefusal(h1, f, o, until);
      if refusal.Some? then (h1, Err(refusal.value))
      else
        var h2 := Leased(h1, o, until, clock);
        (h2, Ok(LeaseSight(Sight(h2, o.allocation),
                           if o.allocation in h2.allocations then h2.allocations[o.allocation].leaseUntil else 0)))
  }

  // --- commands ---

  datatype Execute = Execute(operation: Id, deadline: int, outputLimit: nat)

  function Reserved(commands: map<Id, Command>): map<Id, nat> {
    map op | op in commands :: commands[op].outputLimit
  }

  function FencedCommand(digest: Digest): Command {
    Command(digest, 0, 0, true, None)
  }

  function Launched(p: Execute, generation: int, digest: Digest, held: bool): Command {
    Command(digest, p.deadline, p.outputLimit, false,
            Some(Receipt(generation, p.operation, digest, if held then LaunchIntent else Exited, p.deadline,
                         p.outputLimit, false, !held, if held then None else Some(0))))
  }

  // A retry first loses a command whose allocation ended, then times it out, then cancels it.
  function Lost(c: Command, running: bool): Command {
    if !c.Finished() && !running && c.receipt.Some?
    then c.(receipt := Some(c.receipt.value.(state := Unknown))) else c
  }

  function TimedOutAt(c: Command, running: bool, now: int): Command {
    if running && c.receipt.Some? && c.receipt.value.state == LaunchIntent && c.receipt.value.deadline <= now
    then c.(receipt := Some(c.receipt.value.(state := TimedOut, cleanupConfirmed := true))) else c
  }

  function CancelledBy(c: Command, running: bool, cancel: bool): Command {
    if cancel && running && c.receipt.Some? && c.receipt.value.state == LaunchIntent
    then c.(receipt := Some(c.receipt.value.(cancelRequested := true, state := Cancelled, cleanupConfirmed := true)))
    else c
  }

  function Revisited(c: Command, running: bool, cancel: bool, now: int): Command {
    CancelledBy(TimedOutAt(Lost(c, running), running, now), running, cancel)
  }

  ghost predicate Eligible(f: Fence, ready: bool, payload: Option<Execute>, now: int) {
    && !f.stopped && ready
    && (forall op :: op in f.commands ==> f.commands[op].Finished())
    && payload.Some?
    && 1 <= payload.value.deadline - now <= MAX_DURATION_MS
    && Total(Reserved(f.commands)) + payload.value.outputLimit <= MAX_RESERVED
  }

  ghost function CommandEntry(cfg: Config, h: Host, o: Ownership, payload: Option<Execute>, clock: Clock)
    : (Host, Option<Code>)
  {
    var h1 := Expire(h, clock.mono);
    var refused := CheckOwner(cfg, o, clock.now);
    if refused.Some? then (h1, refused)
    else if payload.Some? && (payload.value.operation != o.operation || payload.value.outputLimit > MAX_OUTPUT)
    then (h1, Some(InvalidArgument))
    else if o.allocation in h1.fences && o.operation in h1.fences[o.allocation].files then (h1, Some(AlreadyExists))
    else if o.allocation in h1.fences && o.operation !in h1.fences[o.allocation].commands
            && |h1.fences[o.allocation].commands| >= MAX_COMMANDS then (h1, Some(ResourceExhausted))
    else Claim(h1, o)
  }

  // Execute when a payload is given, otherwise inspect or cancel.
  ghost function CommandStep(
      cfg: Config, h: Host, o: Ownership, payload: Option<Execute>, digest: Digest, cancel: bool, clock: Clock)
    : (Host, Result<Command, Code>)
  {
    var (h1, refused) := CommandEntry(cfg, h, o, payload, clock);
    if refused.Some? || o.allocation !in h1.fences then (h1, Err(if refused.Some? then refused.value else Unavailable))
    else
      var f := h1.fences[o.allocation];
      var ready := Live(h1, o.allocation);
      if o.operation in f.commands then
        var c := f.commands[o.operation];
        if c.digest != digest then (h1, Err(AlreadyExists))
        else
          var c' := Revisited(c, ready && !f.stopped, cancel, clock.now);
          (h1.(fences := h1.fences[o.allocation := f.(commands := f.commands[o.operation := c'])]), Ok(c'))
      else
        var eligible := Eligible(f, ready, payload, clock.now);
        var c := if eligible then Launched(payload.value, o.generation, digest, h1.holdNext) else FencedCommand(digest);
        var h2 := h1.(fences := h1.fences[o.allocation := f.(commands := f.commands[o.operation := c])]);
        (if eligible then h2.(holdNext := false, totalCommands := h2.totalCommands + 1) else h2, Ok(c))
  }

  // The simulated end of a held command, found under some allocation.
  function FinishCommandStep(h: Host, allocation: Id, op: Id, exit: int): (Host, Option<Code>) {
    if !(0 <= exit <= 255) then (h, Some(InvalidArgument))
    else if allocation !in h.fences || op !in h.fences[allocation].commands then (h, Some(NotFound))
    else
      var f := h.fences[allocation];
      var c := f.commands[op];
      if c.receipt.None? then (h, Some(FailedPrecondition))
      else if c.receipt.value.state != LaunchIntent then (h, Some(FailedPrecondition))
      else
        var c' := c.(receipt := Some(c.receipt.value.(state := Exited, exitCode := Some(exit),
          cleanupConfirmed := true)));
        (h.(fences := h.fences[allocation := f.(commands := f.commands[op := c'])]), None)
  }

  // --- files ---

  datatype Upload = Upload(operation: Id, path: Id, size: nat, sha256: Digest)

  // SHA-256 of contents and of an encoded upload, left uninterpreted.
  datatype Hashes = Hashes(content: seq<byte> -> Digest, upload: Upload -> Digest)

  datatype Action = Begin | InspectFile | Commit | Abort | Write(offset: nat, data: seq<byte>)

  function Sizes(files: map<Id, FileRecord>): map<Id, nat> {
    map op | op in files :: files[op].size
  }

  function FileCounts(fences: map<Id, Fence>): map<Id, nat> {
    map id | id in fences :: |fences[id].files|
  }

  function Lengths<K>(m: map<K, seq<byte>>): map<K, nat> {
    map k | k in m :: |m[k]|
  }

  ghost function RetainedBytes(h: Host): nat {
    Total(Lengths(h.staged)) + Total(Lengths(h.published))
  }

  predicate Beginning(a: Action, ready: bool, f: Fence) {
    a.Begin? && ready && !f.stopped
  }

  // Checked before anything else about a chunk.
  predicate ChunkBounded(a: Action) {
    a.Write? ==> a.data != [] && |a.data| <= MAX_CHUNK && a.offset + |a.data| <= MAX_FILE_BYTES
  }

  predicate ChunkFits(a: Action, upload: Upload) {
    a.Write? ==> a.offset + |a.data| <= upload.size
  }

  // What a new transfer must find: room in every journal and an unused operation.
  ghost function NewFileRefusal(h: Host, o: Ownership, upload: Upload, a: Action): Option<Code> {
    if Total(FileCounts(h.fences)) >= MAX_HOST_FILES then Some(ResourceExhausted)
    else if o.allocation !in h.fences then None
    else
      var f := h.fences[o.allocation];
      if o.operation in f.revisions || o.operation in f.commands then Some(AlreadyExists)
      else if |f.files| >= MAX_FILES
              || Total(Sizes(f.files)) + (if Beginning(a, Live(h, o.allocation), f) then upload.size else 0)
                 > MAX_RESERVED
      then Some(ResourceExhausted)
      else None
  }

  ghost function FileEntry(cfg: Config, hashes: Hashes, h: Host, o: Ownership, upload: Upload, a: Action, clock: Clock)
    : (Host, Option<Code>)
  {
    var h1 := Expire(h, clock.mono);
    var refused := CheckOwner(cfg, o, clock.now);
    var known := o.allocation in h1.fences && o.operation in h1.fences[o.allocation].files;
    if !ChunkBounded(a) then (h, Some(InvalidArgument))
    else if refused.Some? then (h1, refused)
    else if upload.operation != o.operation || upload.size > MAX_FILE_BYTES || !ChunkFits(a, upload)
    then (h1, Some(InvalidArgument))
    else if o.allocation in h1.fences && !SameOwner(h1.fences[o.allocation], o.project, o.sandbox, o.generation)
    then (h1, Some(FailedPrecondition))
    else if known && h1.fences[o.allocation].files[o.operation].digest != hashes.upload(upload)
    then (h1, Some(AlreadyExists))
    else if !known && NewFileRefusal(h1, o, upload, a).Some? then (h1, NewFileRefusal(h1, o, upload, a))
    else Claim(h1, o)
  }

  function FencedFile(digest: Digest): FileRecord {
    FileRecord(digest, 0, true, false, false, 0)
  }

  function StagingFile(digest: Digest, size: nat): FileRecord {
    FileRecord(digest, size, false, false, false, 1)
  }

  datatype FileSight = FileSight(file: FileRecord, stored: Option<nat>, uncertain: bool)

  ghost function FileStep(cfg: Config, hashes: Hashes, h: Host, o: Ownership, upload: Upload, a: Action, clock: Clock)
    : (Host, Result<FileSight, Code>)
  {
    var (h1, refused) := FileEntry(cfg, hashes, h, o, upload, a, clock);
    if refused.Some? || o.allocation !in h1.fences then (h1, Err(if refused.Some? then refused.value else Unavailable))
    else
      var f := h1.fences[o.allocation];
      var ready := Live(h1, o.allocation);
      var key := Key(o.allocation, o.operation);
      var digest := hashes.upload(upload);
      if o.operation !in f.files then
        if Beginning(a, ready, f)
        then (KeepFile(h1.(staged := h1.staged[key := []]), key, StagingFile(digest, upload.size)),
              Ok(FileSight(StagingFile(digest, upload.size), None, false)))
        else (KeepFile(h1, key, FencedFile(digest)), Ok(FileSight(FencedFile(digest), None, false)))
      else Transfer(hashes, h1, key, f.files[o.operation], upload, a, ready && !f.stopped)
  }

  function KeepFile(h: Host, key: Key, file: FileRecord): Host {
    if key.allocation !in h.fences then h
    else
      var f := h.fences[key.allocation];
      h.(fences := h.fences[key.allocation := f.(files := f.files[key.operation := file])])
  }

  // One action on a known transfer.
  ghost function Transfer(hashes: Hashes, h: Host, key: Key, file: FileRecord, upload: Upload, a: Action, running: bool)
    : (Host, Result<FileSight, Code>)
  {
    if file.Finished() then (KeepFile(h, key, file), Ok(FileSight(file, None, false)))
    else if !running then (KeepFile(h, key, file), Ok(FileSight(file, None, true)))
    else if a.Write? && file.Open() then WriteChunk(h, key, file, a.offset, a.data)
    else if a.Commit? && file.Open() then CommitFile(hashes, h, key, file, upload)
    else if a.Abort? && !file.abortRequested then
      var aborted := file.(abortRequested := true, state := 5);
      (KeepFile(h.(staged := h.staged - {key}), key, aborted), Ok(FileSight(aborted, None, false)))
    else (KeepFile(h, key, file), Ok(FileSight(file, None, false)))
  }

  // Retried and overlapping chunks are accepted when they repeat the stored bytes.
  ghost function WriteChunk(h: Host, key: Key, file: FileRecord, offset: nat, data: seq<byte>)
    : (Host, Result<FileSight, Code>)
  {
    if key !in h.staged then (h, Err(Unavailable))
    else
      var bytes := h.staged[key];
      if offset > |bytes| then (h, Err(FailedPrecondition))
      else
        var overlap := if |bytes| - offset < |data| then |bytes| - offset else |data|;
        if bytes[offset..offset + overlap] != data[..overlap] then (h, Err(AlreadyExists))
        else if RetainedBytes(h) + |data| - overlap > MAX_RESERVED then (h, Err(ResourceExhausted))
        else
          var more := bytes + data[overlap..];
          (KeepFile(h.(staged := h.staged[key := more]), key, file), Ok(FileSight(file, Some(|more|), false)))
  }

  function CommitFile(hashes: Hashes, h: Host, key: Key, file: FileRecord, upload: Upload)
    : (Host, Result<FileSight, Code>)
  {
    var asked := file.(commitRequested := true);
    if key !in h.staged then (h, Err(Unavailable))
    else
      var bytes := h.staged[key];
      if |bytes| == upload.size && hashes.content(bytes) == upload.sha256 then
        var done := asked.(state := 3);
        (KeepFile(h.(staged := h.staged - {key}, published := h.published[(key.allocation, upload.path) := bytes],
                     fileCommits := h.fileCommits + 1), key, done),
         Ok(FileSight(done, None, false)))
      else (KeepFile(h, key, asked), Ok(FileSight(asked, None, true)))
  }

  // --- archives ---

  // `refused` is what decoding answers about the bounds and dates of the request.
  datatype Publication = Publication(ticket: Ticket, plans: Option<Plans>, revision: int, refused: Option<Code>)

  predicate FinalReceipt(c: Command, t: Ticket) {
    && c.receipt.Some? && !c.notStarted
    && c.receipt.value.operation == t.operation && c.receipt.value.generation == t.generation
    && c.receipt.value.outputLimit == t.outputLimit && c.receipt.value.digest == c.digest
    && c.receipt.value.deadline == c.deadline && c.receipt.value.outputLimit == c.outputLimit
    && c.receipt.value.cleanupConfirmed && c.receipt.value.state in {Exited, TimedOut, Cancelled}
  }

  // The first locked section: record the publisher's revision under its ticket.
  function PrepareArchive(cfg: Config, h: Host, p: Publication, mono: int): (Host, Result<Archive, Code>) {
    var t := p.ticket;
    if p.refused.Some? then (h, Err(p.refused.value))
    else if p.revision <= 0 || (p.plans.Some? && p.plans.value.attempt != t.attempt) then (h, Err(InvalidArgument))
    else if t.host != cfg.host || t.epoch != cfg.epoch then (h, Err(FailedPrecondition))
    else
      var h1 := Expire(h, mono);
      if t.allocation !in h1.fences then (h1, Err(NotFound))
      else
        var f := h1.fences[t.allocation];
        if !SameOwner(f, t.project, t.sandbox, t.generation) then (h1, Err(FailedPrecondition))
        else if t.operation !in f.commands then (h1, Err(NotFound))
        else if !FinalReceipt(f.commands[t.operation], t) then (h1, Err(FailedPrecondition))
        else
          var before := if t.operation in f.archives then Some(f.archives[t.operation]) else None;
          if before.Some? && (before.value.ticket != t || p.revision < before.value.revision
                              || (p.plans.Some? && before.value.plans != p.plans))
          then (h1, Err(FailedPrecondition))
          else if before.None? && p.plans.Some? then (h1, Err(FailedPrecondition))
          else
            var saved := Archive(t, if before.Some? then before.value.plans else None, p.revision);
            (h1.(fences := h1.fences[t.allocation := f.(archives := f.archives[t.operation := saved])]), Ok(saved))
  }

  // The second locked section, after unlocked collection and upload gave `plans`.
  function RecordArchive(h: Host, p: Publication, plans: Plans): (Host, Result<Plans, Code>) {
    var t := p.ticket;
    if t.allocation !in h.fences || t.operation !in h.fences[t.allocation].archives then (h, Err(Unavailable))
    else
      var f := h.fences[t.allocation];
      var saved := f.archives[t.operation];
      if p.refused.Some? then (h, Err(p.refused.value))
      else if saved.revision != p.revision || saved.ticket != t || (saved.plans.Some? && saved.plans.value != plans)
      then (h, Err(FailedPrecondition))
      else
        (h.(fences := h.fences[t.allocation :=
          f.(archives := f.archives[t.operation := saved.(plans := Some(plans))])]),
         Ok(plans))
  }

  // --- events ---

  datatype Event =
    | Tick(mono: int)
    | Create(request: CreateRequest, clock: Clock)
    | Observe(owner: Ownership, stop: bool, clock: Clock)
    | Lease(lessee: LeaseOwnership, until: Option<int>, clock: Clock)
    | HoldNext
    | RunCommand(owner: Ownership, payload: Option<Execute>, digest: Digest, cancel: bool, clock: Clock)
    | FinishCommand(allocation: Id, operation: Id, exit: int)
    | TransferFile(owner: Ownership, upload: Upload, action: Action, clock: Clock)
    | Prepare(publication: Publication, mono: int)
    | RecordPlans(publication: Publication, plans: Plans)

  ghost function Step(cfg: Config, hashes: Hashes, h: Host, e: Event): Host {
    match e
    case Tick(mono) => Expire(h, mono)
    case Create(request, clock) => CreateStep(cfg, h, request, clock).0
    case Observe(owner, stop, clock) => ObserveStep(cfg, h, owner, stop, clock).0
    case Lease(lessee, until, clock) => LeaseStep(cfg, h, lessee, until, clock).0
    case HoldNext => h.(holdNext := true)
    case RunCommand(owner, payload, digest, cancel, clock) =>
      CommandStep(cfg, h, owner, payload, digest, cancel, clock).0
    case FinishCommand(allocation, operation, exit) => FinishCommandStep(h, allocation, operation, exit).0
    case TransferFile(owner, upload, action, clock) => FileStep(cfg, hashes, h, owner, upload, action, clock).0
    case Prepare(publication, mono) => PrepareArchive(cfg, h, publication, mono).0
    case RecordPlans(publication, plans) => RecordArchive(h, publication, plans).0
  }

  ghost function Run(cfg: Config, hashes: Hashes, h: Host, events: seq<Event>): Host
    decreases |events|
  {
    if events == [] then h else Run(cfg, hashes, Step(cfg, hashes, h, events[0]), events[1..])
  }
}
