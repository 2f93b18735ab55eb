/** The simulated supervisor with the control flow of crates/sandbox-fake-host over mutable maps.
    Every method does exactly one step of HostModel, so what HostRuns proves of runs holds of it.
    Clock readings are passed in; a reply that is lost on the way changes nothing here. */
module FakeHost {
  import opened Wrappers
  import opened Totals
  import opened Bytes
  import opened HostModel

  class FakeHost {
    const cfg: Config
    const hashes: Hashes
    var allocations: map<Id, Record>
    var sandboxes: map<Id, Slot>
    var fences: map<Id, Fence>
    var staged: map<Key, seq<byte>>
    var published: map<(Id, Id), seq<byte>>
    ghost var started: seq<Id>
    var totalStarts: nat
    var holdNext: bool
    var totalCommands: nat
    var fileCommits: nat

    constructor (cfg: Config, hashes: Hashes)
      ensures this.cfg == cfg && this.hashes == hashes && View() == Fresh()
    {
      this.cfg, this.hashes := cfg, hashes;
      allocations, sandboxes, fences, staged, published := map[], map[], map[], map[], map[];
      started, totalStarts, holdNext, totalCommands, fileCommits := [], 0, false, 0, 0;
    }

    ghost function View(): Host
      reads this
    {
      Host(allocations, sandboxes, fences, staged, published, started, totalStarts, holdNext, totalCommands,
        fileCommits)
    }

    method ExpireLeases(mono: int)
      modifies this
      ensures View() == Expire(old(View()), mono)
    {
      ghost var before := allocations;
      var rest := allocations.Keys;
      while rest != {}
        invariant rest <= allocations.Keys == before.Keys
        invariant forall id :: id in before ==>
          allocations[id] == if id in rest then before[id] else Lapse(before[id], mono)
        invariant View() == old(View()).(allocations := allocations)
        decreases |rest|
      {
        var id :| id in rest;
        var record := allocations[id];
        if record.phase.Ready? && record.expires <= mono {
          allocations := allocations[id := record.(phase := Released)];
        }
        rest := rest - {id};
      }
      assert allocations == Lapsed(before, mono);
      published := map p | p in published && p.0 in allocations && allocations[p.0].phase.Ready? :: published[p];
      ClearReleased();
    }

    method ClearReleased()
      modifies `staged
      ensures staged == map k | k in old(staged) && !Gone(allocations, k.allocation) :: old(staged)[k]
    {
      ghost var before := staged;
      var rest := allocations.Keys;
      while rest != {}
        invariant rest <= allocations.Keys
        invariant forall k :: k in staged ==> k in before && staged[k] == before[k]
        invariant forall k :: k in before ==>
          (k in staged <==> !(Gone(allocations, k.allocation) && k.allocation !in rest))
        decreases |rest|
      {
        var id :| id in rest;
        if allocations[id].phase.Released? {
          staged := map k | k in staged && k.allocation != id :: staged[k];
        }
        rest := rest - {id};
      }
    }

    method Own(o: Ownership, now: int) returns (refused: Option<Code>)
      ensures refused == CheckOwner(cfg, o, now)
    {
      if !o.parsed {
        return Some(InvalidArgument);
      }
      if o.host != cfg.host || o.epoch != cfg.epoch {
        return Some(FailedPrecondition);
      }
      if o.generation <= 0 || o.claimRevision <= 0 {
        return Some(InvalidArgument);
      }
      if !Bounded(o.claimExpires, now) {
        return Some(FailedPrecondition);
      }
      return None;
    }

    method ClaimFence(o: Ownership) returns (refused: Option<Code>)
      modifies this
      ensures (View(), refused) == Claim(old(View()), o)
    {
      if o.allocation !in fences && |fences| >= MAX_RECORDS {
        return Some(ResourceExhausted);
      }
      var fence := NewFence(o);
      if o.allocation in fences {
        fence := fences[o.allocation];
        if fence.project != o.project || fence.sandbox != o.sandbox || fence.generation != o.generation {
          return Some(FailedPrecondition);
        }
      }
      if o.operation !in fence.revisions && |fence.revisions| >= MAX_REVISIONS {
        return Some(ResourceExhausted);
      }
      if o.operation in fence.revisions && o.claimRevision < fence.revisions[o.operation] {
        return Some(FailedPrecondition);
      }
      fence := fence.(revisions := fence.revisions[o.operation := o.claimRevision]);
      fences := fences[o.allocation := fence];
      return None;
    }

    method EnterAllocation(o: Ownership, clock: Clock) returns (refused: Option<Code>)
      modifies this
      ensures (View(), refused) == Enter(cfg, old(View()), o, clock)
    {
      ExpireLeases(clock.mono);
      hide Expire, Claim, CheckOwner;
      refused := Own(o, clock.now);
      if refused.None? {
        refused := ClaimFence(o);
      }
    }

    // Resources of the running allocations, dimension by dimension.
    method Used() returns (vcpu: nat, memory: nat, disk: nat)
      ensures vcpu == Total(ReadyUse(allocations, Vcpu))
      ensures memory == Total(ReadyUse(allocations, Memory))
      ensures disk == Total(ReadyUse(allocations, Disk))
    {
      vcpu, memory, disk := 0, 0, 0;
      var rest := allocations;
      while rest != map[]
        invariant forall id :: id in rest ==> id in allocations && rest[id] == allocations[id]
        invariant vcpu + Total(ReadyUse(rest, Vcpu)) == Total(ReadyUse(allocations, Vcpu))
        invariant memory + Total(ReadyUse(rest, Memory)) == Total(ReadyUse(allocations, Memory))
        invariant disk + Total(ReadyUse(rest, Disk)) == Total(ReadyUse(allocations, Disk))
        decreases |rest|
      {
        hide Total, ReadyUse;
        var id :| id in rest;
        var record := rest[id];
        TakeUse(rest, id, Vcpu);
        TakeUse(rest, id, Memory);
        TakeUse(rest, id, Disk);
        if record.phase.Ready? && record.create.resources.Some? {
          var r := record.create.resources.value;
          vcpu, memory, disk := vcpu + r.vcpu, memory + r.memory, disk + r.disk;
        }
        Shrinks(rest, id);
        rest := rest - {id};
      }
      NoUse(rest, Vcpu);
      NoUse(rest, Memory);
      NoUse(rest, Disk);
    }

    method Create(r: CreateRequest, clock: Clock) returns (reply: Result<Observed, Code>)
      modifies this
      ensures (View(), reply) == CreateStep(cfg, old(View()), r, clock)
    {
      hide Enter, CreateRefusal;
      var o := r.owner;
      var refused := EnterAllocation(o, clock);
      if refused.Some? {
        return Err(refused.value);
      }
      if o.allocation in allocations {
        var record := allocations[o.allocation];
        if record.create.owner.operation != o.operation || record.create.image != r.image
           || record.create.resources != r.resources || record.create.expires != r.expires {
          return Err(AlreadyExists);
        }
        return Ok(Present(record.phase));
      }
      refused := RefuseCreate(r, clock);
      if refused.Some? {
        return Err(refused.value);
      }
      sandboxes := sandboxes[o.sandbox := Slot(o.project, o.allocation, o.generation)];
      totalStarts := totalStarts + 1;
      started := started + [o.allocation];
      allocations := allocations[o.allocation := Record(r, Ready, clock.mono + (r.expires - clock.now), r.expires)];
      return Ok(Present(Ready));
    }

    method RefuseCreate(r: CreateRequest, clock: Clock) returns (refusal: Option<Code>)
      ensures refusal == CreateRefusal(cfg, View(), r, clock)
    {
      hide FitsOne;
      var o := r.owner;
      if o.allocation in fences && fences[o.allocation].stopped {
        return Some(FailedPrecondition);
      }
      if !Bounded(r.expires, clock.now) {
        return Some(FailedPrecondition);
      }
      if r.image !in cfg.images {
        return Some(PermissionDenied);
      }
      if r.resources.None? {
        return Some(InvalidArgument);
      }
      var wanted := r.resources.value;
      if !wanted.Supported() {
        return Some(InvalidArgument);
      }
      if o.sandbox in sandboxes {
        var slot := sandboxes[o.sandbox];
        var ended := if slot.allocation in allocations then allocations[slot.allocation].phase.Released?
                     else slot.allocation in fences && fences[slot.allocation].stopped;
        if o.project != slot.project || o.generation <= slot.generation || !ended {
          return Some(FailedPrecondition);
        }
      }
      if |allocations| >= MAX_RECORDS {
        return Some(ResourceExhausted);
      }
      var full := CapacityFull(wanted);
      return if full then Some(ResourceExhausted) else None;
    }

    method CapacityFull(wanted: Resources) returns (full: bool)
      ensures full == !Fits(cfg, View(), wanted)
    {
      var vcpu, memory, disk := Used();
      hide Total, ReadyUse;
      return wanted.vcpu > cfg.capacity.vcpu - vcpu || wanted.memory > cfg.capacity.memory - memory
             || wanted.disk > cfg.capacity.disk - disk;
    }

    method StopAllocation(o: Ownership)
      modifies this
      ensures View() == Halt(old(View()), o)
    {
      var id := o.allocation;
      if id in fences {
        fences := fences[id := fences[id].(stopped := true)];
      }
      staged := map k | k in staged && k.allocation != id :: staged[k];
      published := map p | p in published && p.0 != id :: published[p];
      if o.sandbox !in sandboxes {
        sandboxes := sandboxes[o.sandbox := Slot(o.project, id, o.generation)];
      }
      if id in allocations {
        allocations := allocations[id := allocations[id].(phase := Released)];
      }
    }

    // Inspection, and with `stop` the fence against any later start.
    method ObserveAllocation(o: Ownership, stop: bool, clock: Clock) returns (reply: Result<Observed, Code>)
      modifies this
      ensures (View(), reply) == ObserveStep(cfg, old(View()), o, stop, clock)
    {
      hide Enter;
      var refused := EnterAllocation(o, clock);
      if refused.Some? {
        return Err(refused.value);
      }
      if stop {
        StopAllocation(o);
      }
      hide Halt;
      if o.allocation in allocations {
        return Ok(Present(allocations[o.allocation].phase));
      }
      if o.allocation in fences && fences[o.allocation].stopped {
        return Ok(FencedAbsent);
      }
      return Ok(Absent);
    }

    method ObserveLease(o: LeaseOwnership, until: Option<int>, clock: Clock) returns (reply: Result<LeaseSight, Code>)
      modifies this
      ensures (View(), reply) == LeaseStep(cfg, old(View()), o, until, clock)
    {
      ExpireLeases(clock.mono);
      hide Expire;
      if !o.parsed || o.revision <= 0 || o.generation <= 0 {
        return Err(InvalidArgument);
      }
      if o.host != cfg.host || o.epoch != cfg.epoch {
        return Err(FailedPrecondition);
      }
      if !Bounded(o.claimExpires, clock.now) || (until.Some? && !Bounded(until.value, clock.now)) {
        return Err(FailedPrecondition);
      }
      var id := o.allocation;
      var live := id in allocations && allocations[id].phase.Ready?;
      var liveUntil := if live then Some(allocations[id].leaseUntil) else None;
      if id !in fences {
        return Ok(LeaseSight(Absent, 0));
      }
      var fence := fences[id];
      if fence.project != o.project || fence.sandbox != o.sandbox || fence.generation != o.generation
         || o.revision < fence.leaseRevision {
        return Err(FailedPrecondition);
      }
      if until.Some? {
        if fence.leaseRequest.Some? && fence.leaseRequest.value.0 == o.revision
           && fence.leaseRequest.value.1 != until.value {
          return Err(AlreadyExists);
        }
        if liveUntil.Some? && until.value < liveUntil.value {
          return Err(FailedPrecondition);
        }
        fence := fence.(leaseRequest := Some((o.revision, until.value)));
      }
      fence := fence.(leaseRevision := o.revision);
      fences := fences[id := fence];
      if id in allocations {
        var record := allocations[id];
        if until.Some? && !fence.stopped && record.phase.Ready? && until.value > record.leaseUntil {
          record := record.(expires := clock.mono + (until.value - clock.now), leaseUntil := until.value);
          allocations := allocations[id := record];
        }
        return Ok(LeaseSight(Present(record.phase), record.leaseUntil));
      }
      return Ok(LeaseSight(if fence.stopped then FencedAbsent else Absent, 0));
    }

    // --- commands ---

    method AllFinished(commands: map<Id, Command>) returns (all: bool)
      ensures all == forall op :: op in commands ==> commands[op].Finished()
    {
      all := true;
      var rest := commands.Keys;
      while rest != {}
        invariant rest <= commands.Keys
        invariant all == forall op :: op in commands && op !in rest ==> commands[op].Finished()
        decreases |rest|
      {
        var op :| op in rest;
        rest := rest - {op};
        all := all && commands[op].Finished();
      }
    }

    // Sum of natural numbers over a map.
    method Sum<K(==)>(m: map<K, nat>) returns (sum: nat)
      ensures sum == Total(m)
    {
      sum := 0;
      var rest := m;
      while rest != map[]
        invariant forall k :: k in rest ==> k in m && rest[k] == m[k]
        invariant sum + Total(rest) == Total(m)
        decreases |rest|
      {
        var k :| k in rest;
        TotalSplits(rest, k);
        Shrinks(rest, k);
        hide Total;
        sum := sum + rest[k];
        rest := rest - {k};
      }
    }

    method EnterCommand(o: Ownership, payload: Option<Execute>, clock: Clock) returns (refused: Option<Code>)
      modifies this
      ensures (View(), refused) == CommandEntry(cfg, old(View()), o, payload, clock)
    {
      ExpireLeases(clock.mono);
      hide Expire, Claim, CheckOwner;
      refused := Own(o, clock.now);
      if refused.Some? {
        return;
      }
      if payload.Some? && (payload.value.operation != o.operation || payload.value.outputLimit > MAX_OUTPUT) {
        return Some(InvalidArgument);
      }
      if o.allocation in fences {
        var fence := fences[o.allocation];
        if o.operation in fence.files {
          return Some(AlreadyExists);
        }
        if o.operation !in fence.commands && |fence.commands| >= MAX_COMMANDS {
          return Some(ResourceExhausted);
        }
      }
      refused := ClaimFence(o);
    }

    method IsEligible(fence: Fence, ready: bool, payload: Option<Execute>, now: int) returns (eligible: bool)
      ensures eligible == Eligible(fence, ready, payload, now)
    {
      var finished := AllFinished(fence.commands);
      var reserved := Sum(Reserved(fence.commands));
      hide Total;
      return !fence.stopped && ready && finished && payload.Some?
             && 1 <= payload.value.deadline - now <= MAX_DURATION_MS
             && reserved + payload.value.outputLimit <= MAX_RESERVED;
    }

    // A retry sees the stored command, brought up to date.
    method Revisit(c: Command, ready: bool, stopped: bool, cancel: bool, now: int) returns (c': Command)
      ensures c' == Revisited(c, ready && !stopped, cancel, now)
    {
      c' := c;
      if !c'.Finished() && (stopped || !ready) && c'.receipt.Some? {
        c' := c'.(receipt := Some(c'.receipt.value.(state := Unknown)));
      }
      if ready && !stopped && c'.receipt.Some? && c'.receipt.value.state == LaunchIntent
        && c'.receipt.value.deadline <= now {
        c' := c'.(receipt := Some(c'.receipt.value.(state := TimedOut, cleanupConfirmed := true)));
      }
      if cancel && ready && !stopped && c'.receipt.Some? && c'.receipt.value.state == LaunchIntent {
        c' := c'.(receipt := Some(c'.receipt.value.(cancelRequested := true, state := Cancelled,
          cleanupConfirmed := true)));
      }
    }

    // The simulated receipt of an eligible command: held, or already exited.
    method LaunchCommand(p: Execute, generation: int, digest: Digest, held: bool) returns (c: Command)
      ensures c == Launched(p, generation, digest, held)
    {
      var receipt := Receipt(generation, p.operation, digest, if held then LaunchIntent else Exited, p.deadline,
                             p.outputLimit, false, !held, if held then None else Some(0));
      c := Command(digest, p.deadline, p.outputLimit, false, Some(receipt));
    }

    method RunCommand(o: Ownership, payload: Option<Execute>, digest: Digest, cancel: bool, clock: Clock)
      returns (reply: Result<Command, Code>)
      modifies this
      ensures (View(), reply) == CommandStep(cfg, old(View()), o, payload, digest, cancel, clock)
    {
      var refused := EnterCommand(o, payload, clock);
      hide CommandEntry, Revisited, Eligible, Launched, FencedCommand;
      if refused.Some? {
        return Err(refused.value);
      }
      var ready := o.allocation in allocations && allocations[o.allocation].phase.Ready?;
      var held := holdNext;
      if o.allocation !in fences {
        return Err(Unavailable);
      }
      var fence := fences[o.allocation];
      if o.operation in fence.commands {
        var record := fence.commands[o.operation];
        if record.digest != digest {
          return Err(AlreadyExists);
        }
        record := Revisit(record, ready, fence.stopped, cancel, clock.now);
        fences := fences[o.allocation := fence.(commands := fence.commands[o.operation := record])];
        return Ok(record);
      }
      var eligible := IsEligible(fence, ready, payload, clock.now);
      var record := FencedCommand(digest);
      if eligible {
        EligibleHasPayload(fence, ready, payload, clock.now);
        record := LaunchCommand(payload.value, o.generation, digest, held);
      }
      fences := fences[o.allocation := fence.(commands := fence.commands[o.operation := record])];
      if eligible {
        holdNext := false;
        totalCommands := totalCommands + 1;
      }
      return Ok(record);
    }

    // The fence that holds a command; any one of them if several do.
    method FindCommand(op: Id) returns (found: Option<Id>)
      ensures found.Some? ==> found.value in fences && op in fences[found.value].commands
      ensures found.None? ==> forall id :: id in fences ==> op !in fences[id].commands
    {
      found := None;
      var rest := fences.Keys;
      while rest != {}
        invariant rest <= fences.Keys
        invariant forall id :: id in fences && id !in rest ==> op !in fences[id].commands
        decreases |rest|
      {
        var id :| id in rest;
        if op in fences[id].commands {
          return Some(id);
        }
        rest := rest - {id};
      }
    }

    method EndCommand(op: Id, exit: int) returns (refused: Option<Code>, ghost allocation: Id)
      modifies this
      ensures (View(), refused) == FinishCommandStep(old(View()), allocation, op, exit)
      ensures (exists id :: id in old(fences) && op in old(fences)[id].commands) ==>
        0 <= exit <= 255 ==> allocation in old(fences) && op in old(fences)[allocation].commands
    {
      allocation := 0;
      if !(0 <= exit <= 255) {
        refused := Some(InvalidArgument);
        return;
      }
      var found := FindCommand(op);
      if found.None? {
        refused := Some(NotFound);
        return;
      }
      allocation := found.value;
      var fence := fences[found.value];
      var command := fence.commands[op];
      if command.receipt.None? || command.receipt.value.state != LaunchIntent {
        refused := Some(FailedPrecondition);
        return;
      }
      var receipt := command.receipt.value.(state := Exited, exitCode := Some(exit), cleanupConfirmed := true);
      fences := fences[found.value := fence.(commands := fence.commands[op := command.(receipt := Some(receipt))])];
      refused := None;
    }

    // --- files ---

    method RefuseNewFile(o: Ownership, upload: Upload, a: Action) returns (refused: Option<Code>)
      ensures refused == NewFileRefusal(View(), o, upload, a)
    {
      var count := Sum(FileCounts(fences));
      hide Total, FileCounts;
      if count >= MAX_HOST_FILES {
        return Some(ResourceExhausted);
      }
      if o.allocation !in fences {
        return None;
      }
      var fence := fences[o.allocation];
      if o.operation in fence.revisions || o.operation in fence.commands {
        return Some(AlreadyExists);
      }
      var ready := o.allocation in allocations && allocations[o.allocation].phase.Ready?;
      var reserved := Sum(Sizes(fence.files));
      hide Sizes;
      if |fence.files| >= MAX_FILES
         || reserved + (if a.Begin? && ready && !fence.stopped then upload.size else 0) > MAX_RESERVED {
        return Some(ResourceExhausted);
      }
      return None;
    }

    method EnterFile(o: Ownership, upload: Upload, a: Action, clock: Clock) returns (refused: Option<Code>)
      modifies this
      ensures (View(), refused) == FileEntry(cfg, hashes, old(View()), o, upload, a, clock)
    {
      if a.Write? && (a.data == [] || |a.data| > MAX_CHUNK || a.offset + |a.data| > MAX_FILE_BYTES) {
        return Some(InvalidArgument);
      }
      ExpireLeases(clock.mono);
      hide Expire, Claim, CheckOwner, NewFileRefusal;
      refused := Own(o, clock.now);
      if refused.Some? {
        return;
      }
      if upload.operation != o.operation || upload.size > MAX_FILE_BYTES {
        return Some(InvalidArgument);
      }
      if a.Write? && a.offset + |a.data| > upload.size {
        return Some(InvalidArgument);
      }
      if o.allocation in fences {
        var fence := fences[o.allocation];
        if fence.project != o.project || fence.sandbox != o.sandbox || fence.generation != o.generation {
          return Some(FailedPrecondition);
        }
      }
      if o.allocation in fences && o.operation in fences[o.allocation].files {
        if fences[o.allocation].files[o.operation].digest != hashes.upload(upload) {
          return Some(AlreadyExists);
        }
      } else {
        refused := RefuseNewFile(o, upload, a);
        if refused.Some? {
          return;
        }
      }
      refused := ClaimFence(o);
    }

    method Keep(key: Key, file: FileRecord)
      modifies `fences
      ensures View() == KeepFile(old(View()), key, file)
    {
      if key.allocation in fences {
        var fence := fences[key.allocation];
        fences := fences[key.allocation := fence.(files := fence.files[key.operation := file])];
      }
    }

    method StageChunk(key: Key, file: FileRecord, offset: nat, data: seq<byte>) returns (reply: Result<FileSight, Code>)
      modifies this
      ensures (View(), reply) == WriteChunk(old(View()), key, file, offset, data)
    {
      if key !in staged {
        return Err(Unavailable);
      }
      var stagedBytes := Sum(Lengths(staged));
      var publishedBytes := Sum(Lengths(published));
      hide Total, Lengths, KeepFile;
      var bytes := staged[key];
      if offset > |bytes| {
        return Err(FailedPrecondition);
      }
      var overlap := if |bytes| - offset < |data| then |bytes| - offset else |data|;
      if bytes[offset..offset + overlap] != data[..overlap] {
        return Err(AlreadyExists);
      }
      if stagedBytes + publishedBytes + |data| - overlap > MAX_RESERVED {
        return Err(ResourceExhausted);
      }
      bytes := bytes + data[overlap..];
      staged := staged[key := bytes];
      Keep(key, file);
      return Ok(FileSight(file, Some(|bytes|), false));
    }

    method PublishFile(key: Key, file: FileRecord, upload: Upload) returns (reply: Result<FileSight, Code>)
      modifies this
      ensures (View(), reply) == CommitFile(hashes, old(View()), key, file, upload)
    {
      hide KeepFile;
      var asked := file.(commitRequested := true);
      if key !in staged {
        return Err(Unavailable);
      }
      var bytes := staged[key];
      if |bytes| == upload.size && hashes.content(bytes) == upload.sha256 {
        asked := asked.(state := 3);
        staged := staged - {key};
        published := published[(key.allocation, upload.path) := bytes];
        fileCommits := fileCommits + 1;
        Keep(key, asked);
        return Ok(FileSight(asked, None, false));
      }
      Keep(key, asked);
      return Ok(FileSight(asked, None, true));
    }

    method TransferFile(o: Ownership, upload: Upload, a: Action, clock: Clock) returns (reply: Result<FileSight, Code>)
      modifies this
      ensures (View(), reply) == FileStep(cfg, hashes, old(View()), o, upload, a, clock)
    {
      var refused := EnterFile(o, upload, a, clock);
      hide FileEntry, KeepFile, WriteChunk, CommitFile;
      if refused.Some? {
        return Err(refused.value);
      }
      if o.allocation !in fences {
        return Err(Unavailable);
      }
      var fence := fences[o.allocation];
      var key := Key(o.allocation, o.operation);
      var ready := o.allocation in allocations && allocations[o.allocation].phase.Ready?;
      if o.operation !in fence.files {
        var file := FencedFile(hashes.upload(upload));
        if a.Begin? && ready && !fence.stopped {
          file := StagingFile(hashes.upload(upload), upload.size);
          staged := staged[key := []];
        }
        Keep(key, file);
        return Ok(FileSight(file, None, false));
      }
      var file := fence.files[o.operation];
      var uncertain := false;
      if !file.Finished() && ready && !fence.stopped {
        if a.Write? && file.state == 1 && !file.commitRequested && !file.abortRequested {
          reply := StageChunk(key, file, a.offset, a.data);
          return;
        }
        if a.Commit? && file.state == 1 && !file.commitRequested && !file.abortRequested {
          reply := PublishFile(key, file, upload);
          return;
        }
        if a.Abort? && !file.abortRequested {
          file := file.(abortRequested := true, state := 5);
          staged := staged - {key};
        }
      } else if !file.Finished() {
        uncertain := true;
      }
      Keep(key, file);
      return Ok(FileSight(file, None, uncertain));
    }

    // --- archives ---

    // The first locked section of archival.
    method PrepareOutput(p: Publication, mono: int) returns (reply: Result<Archive, Code>)
      modifies this
      ensures (View(), reply) == PrepareArchive(cfg, old(View()), p, mono)
    {
      hide FinalReceipt;
      var t := p.ticket;
      if p.refused.Some? {
        return Err(p.refused.value);
      }
      if p.revision <= 0 || (p.plans.Some? && p.plans.value.attempt != t.attempt) {
        return Err(InvalidArgument);
      }
      if t.host != cfg.host || t.epoch != cfg.epoch {
        return Err(FailedPrecondition);
      }
      ExpireLeases(mono);
      hide Expire;
      if t.allocation !in fences {
        return Err(NotFound);
      }
      var fence := fences[t.allocation];
      if fence.project != t.project || fence.sandbox != t.sandbox || fence.generation != t.generation {
        return Err(FailedPrecondition);
      }
      if t.operation !in fence.commands {
        return Err(NotFound);
      }
      if !FinalReceipt(fence.commands[t.operation], t) {
        return Err(FailedPrecondition);
      }
      var saved := Archive(t, None, p.revision);
      if t.operation in fence.archives {
        var before := fence.archives[t.operation];
        if before.ticket != t || p.revision < before.revision || (p.plans.Some? && before.plans != p.plans) {
          return Err(FailedPrecondition);
        }
        saved := Archive(t, before.plans, p.revision);
      } else if p.plans.Some? {
        return Err(FailedPrecondition);
      }
      fences := fences[t.allocation := fence.(archives := fence.archives[t.operation := saved])];
      return Ok(saved);
    }

    // The second locked section: by now another publisher may have taken over.
    method RecordOutput(p: Publication, plans: Plans) returns (reply: Result<Plans, Code>)
      modifies this
      ensures (View(), reply) == RecordArchive(old(View()), p, plans)
    {
      var t := p.ticket;
      if t.allocation !in fences || t.operation !in fences[t.allocation].archives {
        return Err(Unavailable);
      }
      var fence := fences[t.allocation];
      var saved := fence.archives[t.operation];
      if p.refused.Some? {
        return Err(p.refused.value);
      }
      if saved.revision != p.revision || saved.ticket != t || (saved.plans.Some? && saved.plans.value != plans) {
        return Err(FailedPrecondition);
      }
      saved := saved.(plans := Some(plans));
      fences := fences[t.allocation := fence.(archives := fence.archives[t.operation := saved])];
      return Ok(plans);
    }
  }

  lemma EligibleHasPayload(f: Fence, ready: bool, payload: Option<Execute>, now: int)
    requires Eligible(f, ready, payload, now)
    ensures payload.Some?
  {}

  lemma TakeUse(allocations: map<Id, Record>, id: Id, use: Resources -> nat)
    requires id in allocations
    ensures var r := allocations[id];
            Total(ReadyUse(allocations, use)) ==
            Total(ReadyUse(allocations - {id}, use))
            + (if r.phase.Ready? && r.create.resources.Some? then use(r.create.resources.value) else 0)
  {
    hide Total;
    var r := allocations[id];
    if r.phase.Ready? && r.create.resources.Some? {
      assert ReadyUse(allocations, use) - {id} == ReadyUse(allocations - {id}, use);
      TotalSplits(ReadyUse(allocations, use), id);
    } else {
      assert ReadyUse(allocations, use) == ReadyUse(allocations - {id}, use);
    }
  }

  lemma NoUse(allocations: map<Id, Record>, use: Resources -> nat)
    requires allocations == map[]
    ensures Total(ReadyUse(allocations, use)) == 0
  {
    assert ReadyUse(allocations, use) == map[];
  }

  lemma Shrinks<K, V>(m: map<K, V>, k: K)
    requires k in m
    ensures |m - {k}| < |m|
  {
    SizeGrows(m - {k}, k, m[k]);
    assert (m - {k})[k := m[k]] == m;
  }
}
