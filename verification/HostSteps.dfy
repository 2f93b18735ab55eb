/** Every step of the simulated supervisor keeps the invariant of HostSafety. */
module HostSteps {
  import opened Wrappers
  import opened Totals
  import opened Bytes
  import opened HostModel
  import opened HostSafety

  // --- leases ---

  lemma LeaseRefences(h: Host, o: LeaseOwnership, until: Option<int>, clock: Clock)
    requires o.allocation in h.fences && FenceFits(h.fences[o.allocation])
    requires LeaseRefusal(h, h.fences[o.allocation], o, until).None?
    ensures Refences(h, Leased(h, o, until, clock), o.allocation)
  {
    hide CommandsFit, FilesFit;
  }

  lemma LeaseKeepsInv(cfg: Config, h: Host, o: LeaseOwnership, until: Option<int>, clock: Clock)
    requires Inv(cfg, h)
    ensures Inv(cfg, LeaseStep(cfg, h, o, until, clock).0)
  {
    hide Inv, Expire, Refences, Leased, LeaseRefusal, CheckLease, FenceFits, Sight;
    var h1 := Expire(h, clock.mono);
    ExpireKeepsInv(cfg, h, clock.mono);
    if o.allocation in h1.fences && LeaseRefusal(h1, h1.fences[o.allocation], o, until).None? {
      FenceFitsAt(cfg, h1, o.allocation);
      LeaseRefences(h1, o, until, clock);
      RefenceKeepsInv(cfg, h1, Leased(h1, o, until, clock), o.allocation);
    }
  }

  // --- commands ---

  // One command replaced or added.
  lemma CommandRefences(h: Host, id: Id, op: Id, c: Command)
    requires id in h.fences && FenceFits(h.fences[id]) && op !in h.fences[id].files
    requires CommandsFit(h.fences[id].commands[op := c])
    ensures Refences(h, h.(fences := h.fences[id := h.fences[id].(commands := h.fences[id].commands[op := c])]), id)
  {
    hide CommandsFit, FilesFit;
  }

  lemma RevisitedFits(c: Command, running: bool, cancel: bool, now: int)
    requires CommandFits(c)
    ensures var c' := Revisited(c, running, cancel, now);
            && CommandFits(c') && c'.outputLimit == c.outputLimit && c'.digest == c.digest
            && (c.Finished() ==> c'.Finished())
  {}

  // A command rewritten in place keeps the reservations and adds nothing unfinished.
  lemma RewrittenFits(commands: map<Id, Command>, op: Id, c: Command)
    requires CommandsFit(commands) && op in commands
    requires CommandFits(c) && c.outputLimit == commands[op].outputLimit
    requires commands[op].Finished() ==> c.Finished()
    ensures CommandsFit(commands[op := c])
  {
    SizePuts(commands, op, c);
    hide Total;
    assert Reserved(commands[op := c]) == Reserved(commands);
    hide Reserved, CommandFits;
    var next := commands[op := c];
    forall a, b
      ensures Unfinished(next, a) && Unfinished(next, b) ==> a == b
    {
      assert Unfinished(next, a) ==> Unfinished(commands, a);
      assert Unfinished(next, b) ==> Unfinished(commands, b);
    }
  }

  lemma AddedFits(commands: map<Id, Command>, op: Id, c: Command)
    requires CommandsFit(commands) && op !in commands && |commands| < MAX_COMMANDS
    requires CommandFits(c) && Total(Reserved(commands)) + c.outputLimit <= MAX_RESERVED
    requires c.Finished() || forall a :: a in commands ==> commands[a].Finished()
    ensures CommandsFit(commands[op := c])
  {
    SizePuts(commands, op, c);
    hide Total;
    assert Reserved(commands[op := c]) == Reserved(commands)[op := c.outputLimit];
    TotalPuts(Reserved(commands), op, c.outputLimit);
    hide Reserved, CommandFits;
    var next := commands[op := c];
    forall a, b
      ensures Unfinished(next, a) && Unfinished(next, b) ==> a == b
    {
      assert a != op && Unfinished(next, a) ==> Unfinished(commands, a);
      assert b != op && Unfinished(next, b) ==> Unfinished(commands, b);
    }
  }

  lemma CommandEntryShape(cfg: Config, h: Host, o: Ownership, payload: Option<Execute>, clock: Clock)
    ensures var (h1, refused) := CommandEntry(cfg, h, o, payload, clock);
            var expired := Expire(h, clock.mono);
            && (h1 == expired || h1 == Claim(expired, o).0)
            && (refused.None? ==>
                  && h1 == Claim(expired, o).0 && Claim(expired, o).1.None?
                  && (o.allocation in expired.fences ==>
                        && o.operation !in expired.fences[o.allocation].files
                        && (o.operation in expired.fences[o.allocation].commands
                            || |expired.fences[o.allocation].commands| < MAX_COMMANDS)))
  {
    hide Expire, Claim, CheckOwner;
  }

  lemma ClaimShape(h: Host, o: Ownership)
    requires Claim(h, o).1.None?
    ensures var h' := Claim(h, o).0;
            && o.allocation in h'.fences
            && SameOwner(h'.fences[o.allocation], o.project, o.sandbox, o.generation)
            && (if o.allocation in h.fences
                then h'.fences[o.allocation].files == h.fences[o.allocation].files
                     && h'.fences[o.allocation].commands == h.fences[o.allocation].commands
                else h'.fences[o.allocation].files == map[] && h'.fences[o.allocation].commands == map[])
  {}

  lemma CommandEntryKeepsInv(cfg: Config, h: Host, o: Ownership, payload: Option<Execute>, clock: Clock)
    requires Inv(cfg, h)
    ensures Inv(cfg, CommandEntry(cfg, h, o, payload, clock).0)
    ensures CommandEntry(cfg, h, o, payload, clock).1.None? ==>
      var f := CommandEntry(cfg, h, o, payload, clock).0.fences;
      && o.allocation in f && o.operation !in f[o.allocation].files
      && (o.operation in f[o.allocation].commands || |f[o.allocation].commands| < MAX_COMMANDS)
  {
    hide Inv, Expire, Claim, CommandEntry;
    ExpireKeepsInv(cfg, h, clock.mono);
    ClaimKeepsInv(cfg, Expire(h, clock.mono), o);
    CommandEntryShape(cfg, h, o, payload, clock);
    if Claim(Expire(h, clock.mono), o).1.None? {
      ClaimShape(Expire(h, clock.mono), o);
    }
  }

  function WithCommand(h: Host, id: Id, op: Id, c: Command): Host
    requires id in h.fences
  {
    h.(fences := h.fences[id := h.fences[id].(commands := h.fences[id].commands[op := c])])
  }

  ghost function CommandAfter(h: Host, o: Ownership, payload: Option<Execute>, digest: Digest, cancel: bool,
      now: int): Command
    requires o.allocation in h.fences
  {
    var f := h.fences[o.allocation];
    if o.operation in f.commands
    then Revisited(f.commands[o.operation], Live(h, o.allocation) && !f.stopped, cancel, now)
    else if Eligible(f, Live(h, o.allocation), payload, now)
    then Launched(payload.value, o.generation, digest, h.holdNext)
    else FencedCommand(digest)
  }

  // A step either only enters or also keeps one command.
  lemma CommandShape(cfg: Config, h: Host, o: Ownership, payload: Option<Execute>, digest: Digest, cancel: bool,
      clock: Clock)
    ensures var (h1, refused) := CommandEntry(cfg, h, o, payload, clock);
            var (h2, reply) := CommandStep(cfg, h, o, payload, digest, cancel, clock);
            if reply.Ok?
            then && refused.None? && o.allocation in h1.fences
                 && reply.value == CommandAfter(h1, o, payload, digest, cancel, clock.now)
                 && h2 == WithCommand(h1, o.allocation, o.operation, reply.value)
                          .(holdNext := h2.holdNext, totalCommands := h2.totalCommands)
                 && (o.operation in h1.fences[o.allocation].commands ==>
                       h1.fences[o.allocation].commands[o.operation].digest == digest)
            else h2 == h1
  {
    hide CommandEntry, Revisited, Eligible, Live, FencedCommand, Launched;
    var (h1, refused) := CommandEntry(cfg, h, o, payload, clock);
    var (h2, reply) := CommandStep(cfg, h, o, payload, digest, cancel, clock);
    if reply.Ok? {
      assert refused.None? && o.allocation in h1.fences;
      assert reply.value == CommandAfter(h1, o, payload, digest, cancel, clock.now);
      assert h2.fences == WithCommand(h1, o.allocation, o.operation, reply.value).fences;
    }
  }

  lemma CommandAfterFits(f: Fence, h: Host, o: Ownership, payload: Option<Execute>, digest: Digest, cancel: bool,
      now: int)
    requires o.allocation in h.fences && h.fences[o.allocation] == f && CommandsFit(f.commands)
    requires o.operation in f.commands || |f.commands| < MAX_COMMANDS
    ensures CommandsFit(f.commands[o.operation := CommandAfter(h, o, payload, digest, cancel, now)])
  {
    hide Live;
    var c := CommandAfter(h, o, payload, digest, cancel, now);
    if o.operation in f.commands {
      RevisitedFits(f.commands[o.operation], Live(h, o.allocation) && !f.stopped, cancel, now);
      hide Revisited;
      RewrittenFits(f.commands, o.operation, c);
    } else {
      AddedFits(f.commands, o.operation, c);
    }
    hide CommandsFit, CommandAfter;
  }

  lemma CommandKeepsInv(cfg: Config, h: Host, o: Ownership, payload: Option<Execute>, digest: Digest, cancel: bool,
      clock: Clock)
    requires Inv(cfg, h)
    ensures Inv(cfg, CommandStep(cfg, h, o, payload, digest, cancel, clock).0)
  {
    hide Inv, CommandEntry, CommandStep, CommandAfter, CommandsFit, FilesFit, LeaseFits;
    var h1 := CommandEntry(cfg, h, o, payload, clock).0;
    var (h2, reply) := CommandStep(cfg, h, o, payload, digest, cancel, clock);
    CommandEntryKeepsInv(cfg, h, o, payload, clock);
    CommandShape(cfg, h, o, payload, digest, cancel, clock);
    if reply.Ok? {
      FenceFitsAt(cfg, h1, o.allocation);
      CommandAfterFits(h1.fences[o.allocation], h1, o, payload, digest, cancel, clock.now);
      CommandRefences(h1, o.allocation, o.operation, reply.value);
      hide FenceFits;
      CountersKeepRefences(h1, WithCommand(h1, o.allocation, o.operation, reply.value), h2, o.allocation);
      hide Refences;
      RefenceKeepsInv(cfg, h1, h2, o.allocation);
    }
  }

  lemma CountersKeepRefences(h: Host, h': Host, h'': Host, id: Id)
    requires Refences(h, h', id)
    requires h'' == h'.(holdNext := h''.holdNext, totalCommands := h''.totalCommands)
    ensures Refences(h, h'', id)
  {
    hide FenceFits;
  }

  lemma FinishCommandKeepsInv(cfg: Config, h: Host, id: Id, op: Id, exit: int)
    requires Inv(cfg, h)
    ensures Inv(cfg, FinishCommandStep(h, id, op, exit).0)
  {
    if FinishCommandStep(h, id, op, exit).1.None? {
      FenceFitsAt(cfg, h, id);
      var commands := h.fences[id].commands;
      var c := commands[op];
      var c' := c.(receipt := Some(c.receipt.value.(state := Exited, exitCode := Some(exit),
        cleanupConfirmed := true)));
      assert op !in h.fences[id].files;
      RewrittenFits(commands, op, c');
      hide Inv, CommandsFit, FilesFit;
      CommandRefences(h, id, op, c');
      RefenceKeepsInv(cfg, h, FinishCommandStep(h, id, op, exit).0, id);
    }
    hide Inv, Refences;
  }

  // --- archives ---

  lemma ArchiveRefences(h: Host, id: Id, archives: map<Id, Archive>)
    requires id in h.fences && FenceFits(h.fences[id])
    ensures Refences(h, h.(fences := h.fences[id := h.fences[id].(archives := archives)]), id)
  {
    hide CommandsFit, FilesFit;
  }

  function WithArchive(h: Host, id: Id, op: Id, a: Archive): Host
    requires id in h.fences
  {
    h.(fences := h.fences[id := h.fences[id].(archives := h.fences[id].archives[op := a])])
  }

  lemma WithArchiveKeepsInv(cfg: Config, h: Host, id: Id, op: Id, a: Archive)
    requires Inv(cfg, h) && id in h.fences
    ensures Inv(cfg, WithArchive(h, id, op, a))
  {
    hide Inv, FenceFits;
    FenceFitsAt(cfg, h, id);
    ArchiveRefences(h, id, h.fences[id].archives[op := a]);
    RefenceKeepsInv(cfg, h, WithArchive(h, id, op, a), id);
    hide Refences;
  }

  lemma PrepareShape(cfg: Config, h: Host, p: Publication, mono: int)
    ensures var (h2, reply) := PrepareArchive(cfg, h, p, mono);
            var h1 := Expire(h, mono);
            var t := p.ticket;
            if reply.Ok?
            then && t.allocation in h1.fences && reply.value.ticket == t && reply.value.revision == p.revision
                 && h2 == WithArchive(h1, t.allocation, t.operation, reply.value)
                 && (t.operation in h1.fences[t.allocation].archives ==>
                       var before := h1.fences[t.allocation].archives[t.operation];
                       before.ticket == t && before.revision <= p.revision && reply.value.plans == before.plans)
            else h2 == h || h2 == h1
  {
    hide Expire, FinalReceipt;
  }

  lemma PrepareKeepsInv(cfg: Config, h: Host, p: Publication, mono: int)
    requires Inv(cfg, h)
    ensures Inv(cfg, PrepareArchive(cfg, h, p, mono).0)
  {
    hide Inv, Expire, PrepareArchive;
    ExpireKeepsInv(cfg, h, mono);
    PrepareShape(cfg, h, p, mono);
    var reply := PrepareArchive(cfg, h, p, mono).1;
    if reply.Ok? {
      WithArchiveKeepsInv(cfg, Expire(h, mono), p.ticket.allocation, p.ticket.operation, reply.value);
    }
  }

  lemma RecordKeepsInv(cfg: Config, h: Host, p: Publication, plans: Plans)
    requires Inv(cfg, h)
    ensures Inv(cfg, RecordArchive(h, p, plans).0)
  {
    hide Inv;
    var t := p.ticket;
    if RecordArchive(h, p, plans).1.Ok? {
      WithArchiveKeepsInv(cfg, h, t.allocation, t.operation,
                          h.fences[t.allocation].archives[t.operation].(plans := Some(plans)));
    }
  }

  // --- starting an allocation ---

  // What CreateStep has checked when it starts an allocation.
  ghost predicate Startable(cfg: Config, h: Host, r: CreateRequest) {
    && r.owner.allocation !in h.allocations
    && r.owner.allocation in h.fences && !Stopped(h, r.owner.allocation)
    && SameOwner(h.fences[r.owner.allocation], r.owner.project, r.owner.sandbox, r.owner.generation)
    && r.resources.Some? && Succeeds(h, r.owner) && Fits(cfg, h, r.resources.value)
  }

  // No allocation of that sandbox is running, and all have lower generations.
  lemma SandboxIsFree(h: Host, o: Ownership, id: Id)
    requires AllocationInv(h) && Succeeds(h, o)
    requires id in h.allocations && h.allocations[id].create.owner.sandbox == o.sandbox
    ensures h.allocations[id].phase.Released? && h.allocations[id].create.owner.generation < o.generation
    ensures h.allocations[id].create.owner.project == o.project
  {
    assert RecordFits(h, id);
  }

  lemma StartKeepsAllocations(cfg: Config, h: Host, r: CreateRequest, clock: Clock)
    requires AllocationInv(h) && Startable(cfg, h, r)
    ensures AllocationInv(Started(h, r, clock))
  {
    hide FitsOne;
    var h' := Started(h, r, clock);
    forall id | id in h'.allocations
      ensures RecordFits(h', id)
    {
      if id in h.allocations {
        assert RecordFits(h, id);
        if h.allocations[id].create.owner.sandbox == r.owner.sandbox {
          SandboxIsFree(h, r.owner, id);
        }
      }
    }
  }

  lemma StartKeepsLog(cfg: Config, h: Host, r: CreateRequest, clock: Clock)
    requires AllocationInv(h) && LogFits(h) && Startable(cfg, h, r)
    ensures LogFits(Started(h, r, clock))
  {
    var h' := Started(h, r, clock);
    var id := r.owner.allocation;
    SizeGrows(h.allocations, id, h'.allocations[id]);
    forall i | 0 <= i < |h.started| && SandboxOf(h, h.started[i]) == Some(r.owner.sandbox)
      ensures GenerationOf(h, h.started[i]) < r.owner.generation
    {
      SandboxIsFree(h, r.owner, h.started[i]);
    }
    hide AllocationInv, Succeeds, FitsOne, Stopped;
    forall k | k in h.allocations
      ensures SandboxOf(h', k) == SandboxOf(h, k) && GenerationOf(h', k) == GenerationOf(h, k)
    {}
    LogAppends(h, h', id);
  }

  lemma NamesAppend(started: seq<Id>, allocations: set<Id>, id: Id)
    requires LogNames(started, allocations) && id !in allocations
    ensures LogNames(started + [id], allocations + {id})
  {
    var later := started + [id];
    forall i, j | 0 <= i < j < |later|
      ensures later[i] != later[j]
    {
      assert later[i] == started[i] && started[i] in allocations;
    }
    forall k | k in allocations + {id}
      ensures k in later
    {
      assert k != id ==> k in started;
    }
  }

  lemma RisingAppends(profile: seq<(Option<Id>, int)>, entry: (Option<Id>, int))
    requires Rising(profile)
    requires forall i :: 0 <= i < |profile| && profile[i].0 == entry.0 ==> profile[i].1 < entry.1
    ensures Rising(profile + [entry])
  {}

  lemma ProfileAppends(h: Host, h': Host, id: Id)
    requires h'.started == h.started + [id] && LogNames(h.started, h.allocations.Keys)
    requires forall k :: k in h.allocations ==>
      SandboxOf(h', k) == SandboxOf(h, k) && GenerationOf(h', k) == GenerationOf(h, k)
    ensures Profile(h') == Profile(h) + [(SandboxOf(h', id), GenerationOf(h', id))]
  {
    hide SandboxOf, GenerationOf, Profile;
    forall i | 0 <= i < |h.started|
      ensures Profile(h')[i] == Profile(h)[i]
    {
      assert h'.started[i] == h.started[i];
    }
    hide LogNames;
  }

  lemma LogAppends(h: Host, h': Host, id: Id)
    requires LogFits(h) && id !in h.allocations
    requires h'.allocations.Keys == h.allocations.Keys + {id} && |h'.allocations| == |h.allocations| + 1
    requires h'.started == h.started + [id] && h'.totalStarts == h.totalStarts + 1
    requires forall k :: k in h.allocations ==>
      SandboxOf(h', k) == SandboxOf(h, k) && GenerationOf(h', k) == GenerationOf(h, k)
    requires forall i :: 0 <= i < |h.started| && SandboxOf(h, h.started[i]) == SandboxOf(h', id) ==>
               GenerationOf(h, h.started[i]) < GenerationOf(h', id)
    ensures LogFits(h')
  {
    hide SandboxOf, GenerationOf, Rising, Profile, LogNames;
    NamesAppend(h.started, h.allocations.Keys, id);
    ProfileAppends(h, h', id);
    RisingAppends(Profile(h), (SandboxOf(h', id), GenerationOf(h', id)));
  }

  lemma StartUses(allocations: map<Id, Record>, id: Id, r: Record, use: Resources -> nat)
    requires id !in allocations && r.phase.Ready? && r.create.resources.Some?
    ensures Total(ReadyUse(allocations[id := r], use)) == Total(ReadyUse(allocations, use))
      + use(r.create.resources.value)
  {
    hide Total;
    assert ReadyUse(allocations[id := r], use) == ReadyUse(allocations, use)[id := use(r.create.resources.value)];
    TotalPuts(ReadyUse(allocations, use), id, use(r.create.resources.value));
  }

  lemma StartKeepsCapacity(cfg: Config, h: Host, r: CreateRequest, clock: Clock)
    requires WithinCapacity(cfg, h.allocations) && Startable(cfg, h, r)
    ensures WithinCapacity(cfg, Started(h, r, clock).allocations)
  {
    var id := r.owner.allocation;
    var record := Started(h, r, clock).allocations[id];
    StartUses(h.allocations, id, record, Vcpu);
    StartUses(h.allocations, id, record, Memory);
    StartUses(h.allocations, id, record, Disk);
    hide Total, ReadyUse, Succeeds, Stopped;
  }

  lemma StartKeepsBuffers(cfg: Config, h: Host, r: CreateRequest, clock: Clock)
    requires BufferInv(h) && Startable(cfg, h, r)
    ensures BufferInv(Started(h, r, clock))
  {
    assert RetainedBytes(Started(h, r, clock)) == RetainedBytes(h);
    hide RetainedBytes, FitsOne, Succeeds;
    var h' := Started(h, r, clock);
    forall k: Key
      ensures Staging(h', k) == Staging(h, k)
    {}
    forall id
      ensures id != r.owner.allocation ==> Running(h', id) == Running(h, id)
    {}
    hide Staging;
  }

  lemma StartKeepsInv(cfg: Config, h: Host, r: CreateRequest, clock: Clock)
    requires Inv(cfg, h) && Startable(cfg, h, r)
    ensures Inv(cfg, Started(h, r, clock))
  {
    hide AllocationInv, LogFits, WithinCapacity, FenceInv, BufferInv, Startable;
    StartKeepsAllocations(cfg, h, r, clock);
    StartKeepsLog(cfg, h, r, clock);
    StartKeepsCapacity(cfg, h, r, clock);
    StartKeepsBuffers(cfg, h, r, clock);
  }

  lemma CreateShape(cfg: Config, h: Host, r: CreateRequest, clock: Clock)
    ensures var h1 := Enter(cfg, h, r.owner, clock).0;
            var h2 := CreateStep(cfg, h, r, clock).0;
            h2 == h1 || (Startable(cfg, h1, r) && h2 == Started(h1, r, clock))
  {
    EnterShape(cfg, h, r.owner, clock);
    hide Enter, Fits, Succeeds, Bounded, Resources.Supported;
  }

  lemma EnterShape(cfg: Config, h: Host, o: Ownership, clock: Clock)
    ensures var (h1, refused) := Enter(cfg, h, o, clock);
            refused.None? ==>
              o.allocation in h1.fences && SameOwner(h1.fences[o.allocation], o.project, o.sandbox, o.generation)
  {
    hide Expire, CheckOwner;
    if Claim(Expire(h, clock.mono), o).1.None? {
      ClaimShape(Expire(h, clock.mono), o);
    }
  }

  lemma CreateKeepsInv(cfg: Config, h: Host, r: CreateRequest, clock: Clock)
    requires Inv(cfg, h)
    ensures Inv(cfg, CreateStep(cfg, h, r, clock).0)
  {
    hide Inv, Enter, CreateStep, Startable, Started;
    EnterKeepsInv(cfg, h, r.owner, clock);
    CreateShape(cfg, h, r, clock);
    var h1 := Enter(cfg, h, r.owner, clock).0;
    if Startable(cfg, h1, r) {
      StartKeepsInv(cfg, h1, r, clock);
    }
  }

  // --- stopping an allocation ---

  ghost predicate Haltable(h: Host, o: Ownership) {
    o.allocation in h.fences && SameOwner(h.fences[o.allocation], o.project, o.sandbox, o.generation)
  }

  lemma HaltKeepsAllocations(h: Host, o: Ownership)
    requires AllocationInv(h) && Haltable(h, o)
    ensures AllocationInv(Halt(h, o)) && OnlyEnds(h, Halt(h, o))
  {
    forall id | id in h.allocations
      ensures RecordFits(Halt(h, o), id)
    {
      assert RecordFits(h, id);
    }
  }

  lemma HaltKeepsFences(h: Host, o: Ownership)
    requires FenceInv(h.fences) && Haltable(h, o)
    ensures FenceInv(Halt(h, o).fences)
  {
    var f := h.fences[o.allocation].(stopped := true);
    assert FenceFits(f) by {
      assert FenceFits(h.fences[o.allocation]);
      hide CommandsFit, FilesFit;
    }
    hide FenceInv, FenceFits;
    PutKeepsFences(h.fences, o.allocation, f);
  }

  lemma HaltKeepsBuffers(h: Host, o: Ownership)
    requires BufferInv(h) && Haltable(h, o)
    ensures BufferInv(Halt(h, o))
  {
    var h' := Halt(h, o);
    FewerRetained(h, h');
    hide RetainedBytes;
    forall k: Key
      ensures Staging(h', k) == Staging(h, k)
    {}
    forall id
      ensures Running(h', id) == (id != o.allocation && Running(h, id))
    {}
    hide Staging, Running;
  }

  lemma HaltKeepsInv(cfg: Config, h: Host, o: Ownership)
    requires Inv(cfg, h) && Haltable(h, o)
    ensures Inv(cfg, Halt(h, o))
  {
    hide AllocationInv, LogFits, WithinCapacity, FenceInv, BufferInv, Haltable, Halt;
    HaltKeepsAllocations(h, o);
    EndsKeepLog(h, Halt(h, o));
    LapseKeepsCapacity(cfg, h.allocations, Halt(h, o).allocations);
    HaltKeepsFences(h, o);
    HaltKeepsBuffers(h, o);
  }

  lemma ObserveKeepsInv(cfg: Config, h: Host, o: Ownership, stop: bool, clock: Clock)
    requires Inv(cfg, h)
    ensures Inv(cfg, ObserveStep(cfg, h, o, stop, clock).0)
  {
    hide Inv, Enter, Halt;
    EnterKeepsInv(cfg, h, o, clock);
    EnterShape(cfg, h, o, clock);
    var (h1, refused) := Enter(cfg, h, o, clock);
    if refused.None? {
      HaltKeepsInv(cfg, h1, o);
    }
  }
}
