/** How each command of the simulated supervisor came to its receipt: which request settled it, at
    what time, and exactly what each request is answered. */
module HostCommands {
  import opened Wrappers
  import opened Totals
  import opened Bytes
  import opened HostModel
  import opened HostSafety
  import opened HostSteps
  import opened HostFiles
  import opened HostRuns

  // --- the commands of a host ---

  function CommandsOf(h: Host, id: Id): map<Id, Command> {
    if id in h.fences then h.fences[id].commands else map[]
  }

  ghost predicate SameCommands(h: Host, h': Host) {
    forall id :: CommandsOf(h', id) == CommandsOf(h, id)
  }

  // The allocation is running and not fenced once overdue leases have ended.
  predicate RunsAt(h: Host, id: Id, mono: int) {
    Live(Expire(h, mono), id) && !Stopped(h, id)
  }

  lemma ClaimKeepsCommands(h: Host, o: Ownership)
    ensures SameCommands(h, Claim(h, o).0)
  {
    hide SameOwner;
  }

  lemma EntryKeepsCommands(cfg: Config, h: Host, o: Ownership, payload: Option<Execute>, clock: Clock)
    ensures SameCommands(h, CommandEntry(cfg, h, o, payload, clock).0)
  {
    CommandEntryShape(cfg, h, o, payload, clock);
    ClaimKeepsCommands(Expire(h, clock.mono), o);
    ExpireSees(h, clock.mono);
    hide CommandEntry, Claim, Expire;
  }

  lemma EnterKeepsCommands(cfg: Config, h: Host, o: Ownership, clock: Clock)
    ensures SameCommands(h, Enter(cfg, h, o, clock).0)
  {
    ClaimKeepsCommands(Expire(h, clock.mono), o);
    ExpireSees(h, clock.mono);
    hide Claim, Expire, CheckOwner;
  }

  lemma FileKeepsCommands(
      cfg: Config, hashes: Hashes, h: Host, o: Ownership, upload: Upload, a: Action, clock: Clock)
    ensures SameCommands(h, FileStep(cfg, hashes, h, o, upload, a, clock).0)
  {
    hide FileEntry, Transfer, Beginning, Live, SameCommands, KeepFile;
    var h1 := FileEntry(cfg, hashes, h, o, upload, a, clock).0;
    var h2 := FileStep(cfg, hashes, h, o, upload, a, clock).0;
    FileEntryKeepsCommands(cfg, hashes, h, o, upload, a, clock);
    if o.allocation in h1.fences {
      var f := h1.fences[o.allocation];
      var key := Key(o.allocation, o.operation);
      if o.operation in f.files {
        TransferKeepsCommands(
          hashes, h1, key, f.files[o.operation], upload, a, Live(h1, o.allocation) && !f.stopped);
      } else {
        KeepFileKeepsCommands(h1, h1, key, FencedFile(hashes.upload(upload)));
        KeepFileKeepsCommands(h1, h1.(staged := h1.staged[key := []]), key,
                              StagingFile(hashes.upload(upload), upload.size));
      }
    }
    SameIsTransitive(h, h1, h2);
  }

  lemma FileEntryKeepsCommands(
      cfg: Config, hashes: Hashes, h: Host, o: Ownership, upload: Upload, a: Action, clock: Clock)
    ensures SameCommands(h, FileEntry(cfg, hashes, h, o, upload, a, clock).0)
  {
    FileEntryShape(cfg, hashes, h, o, upload, a, clock);
    ClaimKeepsCommands(Expire(h, clock.mono), o);
    ExpireSees(h, clock.mono);
    hide FileEntry, Claim, Expire;
  }

  lemma SameIsTransitive(a: Host, b: Host, c: Host)
    ensures SameCommands(a, b) && SameCommands(b, c) ==> SameCommands(a, c)
    ensures SameCommands(a, a)
  {}

  lemma KeepFileKeepsCommands(h: Host, h': Host, key: Key, file: FileRecord)
    requires h'.fences == h.fences
    ensures SameCommands(h, KeepFile(h', key, file))
  {}

  lemma TransferKeepsCommands(
      hashes: Hashes, h: Host, key: Key, file: FileRecord, upload: Upload, a: Action, running: bool)
    ensures SameCommands(h, Transfer(hashes, h, key, file, upload, a, running).0)
  {
    var h' := Transfer(hashes, h, key, file, upload, a, running).0;
    SameIsTransitive(h, h, h');
    forall x: Host, r: FileRecord | x.fences == h.fences
      ensures SameCommands(h, KeepFile(x, key, r))
    {
      KeepFileKeepsCommands(h, x, key, r);
    }
    hide SameCommands, KeepFile, RetainedBytes;
  }

  lemma LeaseKeepsCommands(cfg: Config, h: Host, o: LeaseOwnership, until: Option<int>, clock: Clock)
    ensures SameCommands(h, LeaseStep(cfg, h, o, until, clock).0)
  {
    var h1 := Expire(h, clock.mono);
    ExpireSees(h, clock.mono);
    SameFences(h, h1);
    if o.allocation in h1.fences {
      LeasedKeepsCommands(h1, o, until, clock);
    }
    hide Expire, CheckLease, LeaseRefusal, Leased, Sight, SameCommands;
    SameIsTransitive(h, h1, LeaseStep(cfg, h, o, until, clock).0);
  }

  lemma LeasedKeepsCommands(h: Host, o: LeaseOwnership, until: Option<int>, clock: Clock)
    requires o.allocation in h.fences
    ensures SameCommands(h, Leased(h, o, until, clock))
  {
    hide Extend;
  }

  lemma PrepareKeepsCommands(cfg: Config, h: Host, p: Publication, mono: int)
    ensures SameCommands(h, PrepareArchive(cfg, h, p, mono).0)
  {
    PrepareShape(cfg, h, p, mono);
    ExpireSees(h, mono);
    hide Expire, PrepareArchive;
  }

  lemma ObserveKeepsCommands(cfg: Config, h: Host, o: Ownership, stop: bool, clock: Clock)
    ensures SameCommands(h, ObserveStep(cfg, h, o, stop, clock).0)
  {
    EnterKeepsCommands(cfg, h, o, clock);
    hide Enter, Sight;
  }

  lemma CreateKeepsCommands(cfg: Config, h: Host, r: CreateRequest, clock: Clock)
    ensures SameCommands(h, CreateStep(cfg, h, r, clock).0)
  {
    EnterKeepsCommands(cfg, h, r.owner, clock);
    CreateShape(cfg, h, r, clock);
    hide Enter, CreateStep;
  }

  // Only running and finishing commands touch them.
  lemma OtherStepsKeepCommands(cfg: Config, hashes: Hashes, h: Host, e: Event)
    requires !e.RunCommand? && !e.FinishCommand?
    ensures SameCommands(h, Step(cfg, hashes, h, e))
  {
    hide SameCommands, CreateStep, ObserveStep, LeaseStep, FileStep, PrepareArchive;
    match e
    case Tick(mono) =>
      ExpireSees(h, mono);
      SameFences(h, Expire(h, mono));
    case Create(request, clock) => CreateKeepsCommands(cfg, h, request, clock);
    case Observe(owner, stop, clock) => ObserveKeepsCommands(cfg, h, owner, stop, clock);
    case Lease(lessee, until, clock) => LeaseKeepsCommands(cfg, h, lessee, until, clock);
    case HoldNext => SameFences(h, h.(holdNext := true));
    case TransferFile(owner, upload, action, clock) =>
      FileKeepsCommands(cfg, hashes, h, owner, upload, action, clock);
    case Prepare(publication, mono) => PrepareKeepsCommands(cfg, h, publication, mono);
    case RecordPlans(publication, plans) => RecordKeepsCommands(h, publication, plans);
  }

  lemma SameFences(h: Host, h': Host)
    requires h'.fences == h.fences
    ensures SameCommands(h, h')
  {}

  lemma RecordKeepsCommands(h: Host, p: Publication, plans: Plans)
    ensures SameCommands(h, RecordArchive(h, p, plans).0)
  {}

  // --- what a request about a command is answered ---

  /** A known command under its digest is answered, and recorded, as follows, and nothing else about
      it changes: a settled one as it is; an unsettled one is cancelled exactly if the request asks
      for it while the allocation runs and the deadline is ahead, timed out exactly if the
      allocation runs and the deadline has passed, unknown exactly if the allocation does not run,
      and otherwise still unsettled. */
  lemma KnownCommandAnswer(
      cfg: Config, h: Host, o: Ownership, payload: Option<Execute>, digest: Digest, cancel: bool, clock: Clock)
    requires Inv(cfg, h) && o.operation in CommandsOf(h, o.allocation)
    requires CommandStep(cfg, h, o, payload, digest, cancel, clock).1.Ok?
    ensures var c := CommandsOf(h, o.allocation)[o.operation];
            var (h', reply) := CommandStep(cfg, h, o, payload, digest, cancel, clock);
            var running := RunsAt(h, o.allocation, clock.mono);
            && c.digest == digest
            && o.operation in CommandsOf(h', o.allocation)
            && CommandsOf(h', o.allocation)[o.operation] == reply.value
            && (c.Settled() ==> reply.value == c)
            && (!c.Settled() ==>
                  && c.receipt.Some? && reply.value.receipt.Some?
                  && var r, r' := c.receipt.value, reply.value.receipt.value;
                  && reply.value == c.(receipt := Some(r'))
                  && (r'.state == Cancelled <==> cancel && running && clock.now < r.deadline)
                  && (r'.state == TimedOut <==> running && r.deadline <= clock.now)
                  && (r'.state == Unknown <==> !running)
                  && (r'.state == LaunchIntent <==> !cancel && running && clock.now < r.deadline)
                  && r' == r.(state := r'.state, cancelRequested := r.cancelRequested || r'.state == Cancelled,
                              cleanupConfirmed := r'.state in {Cancelled, TimedOut}))
  {
    hide *;
    CommandFitsIn(cfg, h, o.allocation, o.operation);
    KnownReply(cfg, h, o, payload, digest, cancel, clock);
    RevisitedAnswer(CommandsOf(h, o.allocation)[o.operation], RunsAt(h, o.allocation, clock.mono), cancel, clock.now);
  }

  lemma KnownReply(
      cfg: Config, h: Host, o: Ownership, payload: Option<Execute>, digest: Digest, cancel: bool, clock: Clock)
    requires o.operation in CommandsOf(h, o.allocation)
    requires CommandStep(cfg, h, o, payload, digest, cancel, clock).1.Ok?
    ensures var c := CommandsOf(h, o.allocation)[o.operation];
            var (h', reply) := CommandStep(cfg, h, o, payload, digest, cancel, clock);
            && c.digest == digest
            && reply.value == Revisited(c, RunsAt(h, o.allocation, clock.mono), cancel, clock.now)
            && o.operation in CommandsOf(h', o.allocation)
            && CommandsOf(h', o.allocation)[o.operation] == reply.value
  {
    EntryKeepsCommands(cfg, h, o, payload, clock);
    EntryRuns(cfg, h, o, payload, clock);
    CommandShape(cfg, h, o, payload, digest, cancel, clock);
    hide CommandEntry, CommandStep, Expire, Live, Revisited, RunsAt;
  }

  lemma RevisitedAnswer(c: Command, running: bool, cancel: bool, now: int)
    requires CommandFits(c)
    ensures var c' := Revisited(c, running, cancel, now);
            && (c.Settled() ==> c' == c)
            && (!c.Settled() ==>
                  && c.receipt.Some? && c'.receipt.Some?
                  && var r, r' := c.receipt.value, c'.receipt.value;
                  && c' == c.(receipt := Some(r'))
                  && (r'.state == Cancelled <==> cancel && running && now < r.deadline)
                  && (r'.state == TimedOut <==> running && r.deadline <= now)
                  && (r'.state == Unknown <==> !running)
                  && (r'.state == LaunchIntent <==> !cancel && running && now < r.deadline)
                  && r' == r.(state := r'.state, cancelRequested := r.cancelRequested || r'.state == Cancelled,
                              cleanupConfirmed := r'.state in {Cancelled, TimedOut}))
  {}

  // Entering does not change whether the allocation runs.
  lemma EntryRuns(cfg: Config, h: Host, o: Ownership, payload: Option<Execute>, clock: Clock)
    ensures var (h1, refused) := CommandEntry(cfg, h, o, payload, clock);
            refused.None? ==>
              && o.allocation in h1.fences
              && (Live(h1, o.allocation) && !h1.fences[o.allocation].stopped
                  <==> RunsAt(h, o.allocation, clock.mono))
  {
    var expired := Expire(h, clock.mono);
    CommandEntryShape(cfg, h, o, payload, clock);
    ExpireSees(h, clock.mono);
    ClaimKeepsLive(expired, o);
    if Claim(expired, o).1.None? {
      ClaimShape(expired, o);
      ClaimStops(expired, o);
    }
    hide CommandEntry, Expire, Claim;
  }

  lemma ClaimStops(h: Host, o: Ownership)
    requires Claim(h, o).1.None?
    ensures o.allocation in Claim(h, o).0.fences
    ensures Claim(h, o).0.fences[o.allocation].stopped == Stopped(h, o.allocation)
  {}

  // May be launched now: spelled out without any order of checking.
  ghost predicate Launchable(h: Host, id: Id, payload: Option<Execute>, clock: Clock) {
    && payload.Some?
    && RunsAt(h, id, clock.mono)
    && (forall op :: op in CommandsOf(h, id) ==> CommandsOf(h, id)[op].Finished())
    && clock.now < payload.value.deadline && payload.value.deadline - clock.now <= 6 * 60 * 60 * 1000
    && Total(Reserved(CommandsOf(h, id))) + payload.value.outputLimit <= 64 * 1024 * 1024
  }

  /** An unknown command is launched exactly if it may be: then its receipt binds the request, it is
      held if the next one is to be held and has exited with 0 otherwise. If it may not, it is
      recorded as never started. */
  lemma NewCommandAnswer(
      cfg: Config, h: Host, o: Ownership, payload: Option<Execute>, digest: Digest, cancel: bool, clock: Clock)
    requires o.operation !in CommandsOf(h, o.allocation)
    requires CommandStep(cfg, h, o, payload, digest, cancel, clock).1.Ok?
    ensures var (h', reply) := CommandStep(cfg, h, o, payload, digest, cancel, clock);
            && o.operation in CommandsOf(h', o.allocation)
            && CommandsOf(h', o.allocation)[o.operation] == reply.value && reply.value.digest == digest
            && (if Launchable(h, o.allocation, payload, clock)
                then && !reply.value.notStarted && reply.value.receipt.Some?
                     && reply.value.deadline == payload.value.deadline
                     && reply.value.outputLimit == payload.value.outputLimit
                     && reply.value.receipt.value ==
                        Receipt(o.generation, payload.value.operation, digest,
                                if h.holdNext then LaunchIntent else Exited, payload.value.deadline,
                                payload.value.outputLimit, false, !h.holdNext, if h.holdNext then None else Some(0))
                     && h'.totalCommands == h.totalCommands + 1 && !h'.holdNext
                else && reply.value == Command(digest, 0, 0, true, None)
                     && h'.totalCommands == h.totalCommands && h'.holdNext == h.holdNext)
  {
    var (h1, refused) := CommandEntry(cfg, h, o, payload, clock);
    EntryKeepsCommands(cfg, h, o, payload, clock);
    EntryRuns(cfg, h, o, payload, clock);
    CommandShape(cfg, h, o, payload, digest, cancel, clock);
    EntryKeepsCounters(cfg, h, o, payload, clock);
    var f := h1.fences[o.allocation];
    assert f.commands == CommandsOf(h, o.allocation);
    hide CommandEntry, Expire, Live, Total, Reserved, SameCommands;
    assert Eligible(f, Live(h1, o.allocation), payload, clock.now) <==> Launchable(h, o.allocation, payload, clock);
    hide Eligible, Launchable;
  }

  lemma EntryKeepsCounters(cfg: Config, h: Host, o: Ownership, payload: Option<Execute>, clock: Clock)
    ensures var h1 := CommandEntry(cfg, h, o, payload, clock).0;
            h1.holdNext == h.holdNext && h1.totalCommands == h.totalCommands
  {
    CommandEntryShape(cfg, h, o, payload, clock);
    hide CommandEntry, CheckOwner;
  }

  /** The same operation under another digest is refused, and the command stays as it is. */
  lemma ChangedCommandIsRefused(
      cfg: Config, h: Host, o: Ownership, payload: Option<Execute>, digest: Digest, cancel: bool, clock: Clock)
    requires o.operation in CommandsOf(h, o.allocation)
    requires CommandsOf(h, o.allocation)[o.operation].digest != digest
    requires CommandEntry(cfg, h, o, payload, clock).1.None?
    ensures CommandStep(cfg, h, o, payload, digest, cancel, clock).1 == Err(AlreadyExists)
    ensures SameCommands(h, CommandStep(cfg, h, o, payload, digest, cancel, clock).0)
  {
    EntryKeepsCommands(cfg, h, o, payload, clock);
    hide CommandEntry;
  }

  // --- receipts bind their request ---

  predicate Binds(c: Command, op: Id) {
    c.receipt.Some? ==>
      var r := c.receipt.value;
      r.operation == op && r.digest == c.digest && r.deadline == c.deadline && r.outputLimit == c.outputLimit
  }

  ghost predicate AllBind(h: Host) {
    forall id, op :: op in CommandsOf(h, id) ==> Binds(CommandsOf(h, id)[op], op)
  }

  // --- who settled a command ---

  // How a command got the receipt it has: what event `e` found in `h` and left.
  ghost predicate Explains(h: Host, e: Event, id: Id, op: Id, c: Command) {
    c.receipt.Some? ==>
      var r := c.receipt.value;
      match r.state
      case LaunchIntent => Launches(h, e, id, op, c) && h.holdNext
      case Exited =>
        || (Launches(h, e, id, op, c) && !h.holdNext && r.exitCode == Some(0))
        || (e.FinishCommand? && e.allocation == id && e.operation == op && WasUnsettled(h, id, op)
            && r.exitCode == Some(e.exit) && 0 <= e.exit <= 255)
      case TimedOut =>
        Revisits(h, e, id, op, c) && RunsAt(h, id, e.clock.mono) && r.deadline <= e.clock.now
      case Cancelled =>
        && Revisits(h, e, id, op, c) && RunsAt(h, id, e.clock.mono) && e.clock.now < r.deadline
        && e.cancel && r.cancelRequested
      case Unknown => Revisits(h, e, id, op, c) && !RunsAt(h, id, e.clock.mono)
  }

  predicate WasUnsettled(h: Host, id: Id, op: Id) {
    op in CommandsOf(h, id) && !CommandsOf(h, id)[op].Settled()
  }

  // A request about this very command, which it found unsettled.
  predicate Revisits(h: Host, e: Event, id: Id, op: Id, c: Command) {
    && e.RunCommand? && e.owner.allocation == id && e.owner.operation == op && e.digest == c.digest
    && WasUnsettled(h, id, op)
  }

  ghost predicate Launches(h: Host, e: Event, id: Id, op: Id, c: Command) {
    && e.RunCommand? && e.owner.allocation == id && e.owner.operation == op && e.digest == c.digest
    && op !in CommandsOf(h, id) && Launchable(h, id, e.payload, e.clock)
    && c.deadline == e.payload.value.deadline
  }

  // Left alone, or explained.
  ghost predicate Accounted(h: Host, h': Host, e: Event, id: Id, op: Id)
    requires op in CommandsOf(h', id)
  {
    var c := CommandsOf(h', id)[op];
    Binds(c, op) && ((op in CommandsOf(h, id) && CommandsOf(h, id)[op] == c) || Explains(h, e, id, op, c))
  }

  lemma RunCommandExplains(cfg: Config, hashes: Hashes, h: Host, e: Event, id: Id, op: Id)
    requires Inv(cfg, h) && AllBind(h) && e.RunCommand?
    requires op in CommandsOf(Step(cfg, hashes, h, e), id)
    ensures Accounted(h, Step(cfg, hashes, h, e), e, id, op)
  {
    var o := e.owner;
    var reply := CommandStep(cfg, h, o, e.payload, e.digest, e.cancel, e.clock).1;
    hide Inv, CommandStep, RunsAt, Launchable, Accounted;
    if reply.Err? || id != o.allocation || op != o.operation {
      OthersStay(cfg, h, e, id, op);
      LeftAlone(h, Step(cfg, hashes, h, e), e, id, op);
    } else if op in CommandsOf(h, id) {
      RevisitExplains(cfg, h, e);
    } else {
      LaunchExplains(cfg, hashes, h, e);
    }
  }

  lemma LeftAlone(h: Host, h': Host, e: Event, id: Id, op: Id)
    requires AllBind(h) && op in CommandsOf(h, id)
    requires op in CommandsOf(h', id) && CommandsOf(h', id)[op] == CommandsOf(h, id)[op]
    ensures Accounted(h, h', e, id, op)
  {
    hide Explains;
  }

  lemma RevisitExplains(cfg: Config, h: Host, e: Event)
    requires Inv(cfg, h) && AllBind(h) && e.RunCommand? && e.owner.operation in CommandsOf(h, e.owner.allocation)
    requires CommandStep(cfg, h, e.owner, e.payload, e.digest, e.cancel, e.clock).1.Ok?
    ensures var h' := CommandStep(cfg, h, e.owner, e.payload, e.digest, e.cancel, e.clock).0;
            e.owner.operation in CommandsOf(h', e.owner.allocation)
            && Accounted(h, h', e, e.owner.allocation, e.owner.operation)
  {
    var o := e.owner;
    hide *;
    var h' := CommandStep(cfg, h, o, e.payload, e.digest, e.cancel, e.clock).0;
    KnownCommandAnswer(cfg, h, o, e.payload, e.digest, e.cancel, e.clock);
    var c, c' := CommandsOf(h, o.allocation)[o.operation], CommandsOf(h', o.allocation)[o.operation];
    if c.Settled() {
      LeftAlone(h, h', e, o.allocation, o.operation);
    } else {
      RevisitedIsExplained(h, e, c');
      BindingStays(h, o.allocation, o.operation, c');
      Explained(h, h', e, o.allocation, o.operation);
    }
  }

  lemma BindingStays(h: Host, id: Id, op: Id, c': Command)
    requires AllBind(h) && op in CommandsOf(h, id)
    requires var c := CommandsOf(h, id)[op];
             && c.receipt.Some? && c'.receipt.Some? && c' == c.(receipt := c'.receipt)
             && var r, r' := c.receipt.value, c'.receipt.value;
                r'.operation == r.operation && r'.digest == r.digest && r'.deadline == r.deadline
                && r'.outputLimit == r.outputLimit
    ensures Binds(c', op)
  {
    assert Binds(CommandsOf(h, id)[op], op);
    hide AllBind, CommandsOf;
  }

  lemma Explained(h: Host, h': Host, e: Event, id: Id, op: Id)
    requires op in CommandsOf(h', id) && Binds(CommandsOf(h', id)[op], op)
    requires (op in CommandsOf(h, id) && CommandsOf(h, id)[op] == CommandsOf(h', id)[op])
             || Explains(h, e, id, op, CommandsOf(h', id)[op])
    ensures Accounted(h, h', e, id, op)
  {
    hide Explains, Binds, CommandsOf;
  }

  lemma RevisitedIsExplained(h: Host, e: Event, c': Command)
    requires e.RunCommand? && e.owner.operation in CommandsOf(h, e.owner.allocation)
    requires var c, running := CommandsOf(h, e.owner.allocation)[e.owner.operation],
               RunsAt(h, e.owner.allocation, e.clock.mono);
             && !c.Settled() && c.digest == e.digest && c'.digest == c.digest
             && c.receipt.Some? && c'.receipt.Some? && c'.receipt.value.deadline == c.receipt.value.deadline
             && var r, r' := c.receipt.value, c'.receipt.value;
             && (r'.state == Cancelled <==> e.cancel && running && e.clock.now < r.deadline)
             && (r'.state == TimedOut <==> running && r.deadline <= e.clock.now)
             && (r'.state == Unknown <==> !running)
             && (r'.state == LaunchIntent ==> c' == c)
             && (r'.state == Cancelled ==> r'.cancelRequested)
             && r'.state != Exited
    ensures var c := CommandsOf(h, e.owner.allocation)[e.owner.operation];
            c' == c || Explains(h, e, e.owner.allocation, e.owner.operation, c')
  {
    hide RunsAt, Launches;
  }

  lemma LaunchExplains(cfg: Config, hashes: Hashes, h: Host, e: Event)
    requires e.RunCommand? && e.owner.operation !in CommandsOf(h, e.owner.allocation)
    requires CommandStep(cfg, h, e.owner, e.payload, e.digest, e.cancel, e.clock).1.Ok?
    ensures var h' := Step(cfg, hashes, h, e);
            e.owner.operation in CommandsOf(h', e.owner.allocation)
            && Accounted(h, h', e, e.owner.allocation, e.owner.operation)
  {
    var o := e.owner;
    NewCommandAnswer(cfg, h, o, e.payload, e.digest, e.cancel, e.clock);
    if e.payload.Some? {
      NamesItsOperation(cfg, h, o, e.payload, e.digest, e.cancel, e.clock);
    }
    LaunchableHasPayload(h, o.allocation, e.payload, e.clock);
    hide CommandStep, RunsAt, Launchable, Revisits, CommandsOf;
  }

  lemma LaunchableHasPayload(h: Host, id: Id, payload: Option<Execute>, clock: Clock)
    ensures Launchable(h, id, payload, clock) ==> payload.Some?
  {
    hide RunsAt;
  }

  lemma NamesItsOperation(
      cfg: Config, h: Host, o: Ownership, payload: Option<Execute>, digest: Digest, cancel: bool, clock: Clock)
    requires CommandStep(cfg, h, o, payload, digest, cancel, clock).1.Ok? && payload.Some?
    ensures payload.value.operation == o.operation && payload.value.outputLimit <= 10 * 1024 * 1024
  {
    hide Expire, Claim, CheckOwner, Revisited, Eligible;
  }

  lemma OthersStay(cfg: Config, h: Host, e: Event, id: Id, op: Id)
    requires e.RunCommand?
    requires var o := e.owner;
             CommandStep(cfg, h, o, e.payload, e.digest, e.cancel, e.clock).1.Err?
             || id != o.allocation || op != o.operation
    ensures var h' := CommandStep(cfg, h, e.owner, e.payload, e.digest, e.cancel, e.clock).0;
            && (op in CommandsOf(h', id) <==> op in CommandsOf(h, id))
            && (op in CommandsOf(h, id) ==> CommandsOf(h', id)[op] == CommandsOf(h, id)[op])
  {
    EntryKeepsCommands(cfg, h, e.owner, e.payload, e.clock);
    CommandShape(cfg, h, e.owner, e.payload, e.digest, e.cancel, e.clock);
    hide CommandEntry, CommandStep, CommandAfter;
  }

  lemma FinishExplains(cfg: Config, hashes: Hashes, h: Host, e: Event, id: Id, op: Id)
    requires Inv(cfg, h) && AllBind(h) && e.FinishCommand? && op in CommandsOf(Step(cfg, hashes, h, e), id)
    ensures Accounted(h, Step(cfg, hashes, h, e), e, id, op)
  {
    var h' := Step(cfg, hashes, h, e);
    assert h' == FinishCommandStep(h, e.allocation, e.operation, e.exit).0;
    hide *;
    FinishShape(h, e.allocation, e.operation, e.exit);
    if h' == h || id != e.allocation || op != e.operation {
      LeftAlone(h, h', e, id, op);
    } else {
      CommandFitsIn(cfg, h, id, op);
      FinishedIsExplained(h, e, CommandsOf(h', id)[op]);
      BindingStays(h, id, op, CommandsOf(h', id)[op]);
      Explained(h, h', e, id, op);
    }
  }

  lemma CommandFitsIn(cfg: Config, h: Host, id: Id, op: Id)
    requires Inv(cfg, h) && op in CommandsOf(h, id)
    ensures CommandFits(CommandsOf(h, id)[op])
  {
    CommandFitsAt(cfg, h, id, op);
    hide Inv, CommandFits;
  }

  lemma FinishedIsExplained(h: Host, e: Event, c': Command)
    requires e.FinishCommand? && e.operation in CommandsOf(h, e.allocation) && 0 <= e.exit <= 255
    requires var c := CommandsOf(h, e.allocation)[e.operation];
             && CommandFits(c) && c.receipt.Some? && c.receipt.value.state == LaunchIntent
             && c' == c.(receipt := Some(c.receipt.value.(state := Exited, exitCode := Some(e.exit),
                                                          cleanupConfirmed := true)))
    ensures Explains(h, e, e.allocation, e.operation, c')
  {
    hide RunsAt, Launches, Revisits;
  }

  lemma FinishShape(h: Host, allocation: Id, op: Id, exit: int)
    ensures var (h', refused) := FinishCommandStep(h, allocation, op, exit);
            if refused.Some? then h' == h
            else
              && 0 <= exit <= 255 && op in CommandsOf(h, allocation)
              && var c := CommandsOf(h, allocation)[op];
                 && c.receipt.Some? && c.receipt.value.state == LaunchIntent
                 && (forall id :: CommandsOf(h', id) ==
                       if id == allocation
                       then CommandsOf(h, id)[op := c.(receipt := Some(c.receipt.value.(
                              state := Exited, exitCode := Some(exit), cleanupConfirmed := true)))]
                       else CommandsOf(h, id))
  {}

  // Each step leaves a command alone or explains the receipt it gives it.
  lemma StepExplains(cfg: Config, hashes: Hashes, h: Host, e: Event, id: Id, op: Id)
    requires Inv(cfg, h) && AllBind(h) && op in CommandsOf(Step(cfg, hashes, h, e), id)
    ensures Accounted(h, Step(cfg, hashes, h, e), e, id, op)
  {
    if e.RunCommand? {
      RunCommandExplains(cfg, hashes, h, e, id, op);
    } else if e.FinishCommand? {
      FinishExplains(cfg, hashes, h, e, id, op);
    } else {
      OtherStepsKeepCommands(cfg, hashes, h, e);
      hide Inv, Step, Accounted;
      LeftAlone(h, Step(cfg, hashes, h, e), e, id, op);
    }
  }

  lemma StepKeepsBound(cfg: Config, hashes: Hashes, h: Host, e: Event)
    requires Inv(cfg, h) && AllBind(h)
    ensures AllBind(Step(cfg, hashes, h, e))
  {
    var h' := Step(cfg, hashes, h, e);
    hide Inv, Step, Binds;
    forall id, op | op in CommandsOf(h', id)
      ensures Binds(CommandsOf(h', id)[op], op)
    {
      StepExplains(cfg, hashes, h, e, id, op);
      hide Explains;
    }
  }

  lemma {:induction false} RunSnoc(cfg: Config, hashes: Hashes, h: Host, events: seq<Event>, e: Event)
    ensures Run(cfg, hashes, h, events + [e]) == Step(cfg, hashes, Run(cfg, hashes, h, events), e)
    decreases |events|
  {
    hide Step;
    if events == [] {
      assert [] + [e] == [e] && [e][1..] == [];
    } else {
      assert (events + [e])[0] == events[0] && (events + [e])[1..] == events[1..] + [e];
      RunSnoc(cfg, hashes, Step(cfg, hashes, h, events[0]), events[1..], e);
    }
  }

  // The host after the first n events of a run from a new host.
  ghost function After(cfg: Config, hashes: Hashes, events: seq<Event>, n: nat): Host
    requires n <= |events|
  {
    Run(cfg, hashes, Fresh(), events[..n])
  }

  lemma AfterNext(cfg: Config, hashes: Hashes, events: seq<Event>, n: nat)
    requires n < |events|
    ensures After(cfg, hashes, events, n + 1) == Step(cfg, hashes, After(cfg, hashes, events, n), events[n])
  {
    hide Run, Step;
    assert events[..n + 1] == events[..n] + [events[n]];
    RunSnoc(cfg, hashes, Fresh(), events[..n], events[n]);
  }

  lemma {:induction false} AfterKeeps(cfg: Config, hashes: Hashes, events: seq<Event>, n: nat)
    requires n <= |events|
    ensures Inv(cfg, After(cfg, hashes, events, n)) && AllBind(After(cfg, hashes, events, n))
    decreases n
  {
    hide Inv, AllBind, Step;
    if n == 0 {
      FreshInv(cfg);
      assert events[..0] == [];
      FreshBinds();
    } else {
      AfterKeeps(cfg, hashes, events, n - 1);
      AfterNext(cfg, hashes, events, n - 1);
      StepKeeps(cfg, hashes, After(cfg, hashes, events, n - 1), events[n - 1]);
      StepKeepsBound(cfg, hashes, After(cfg, hashes, events, n - 1), events[n - 1]);
    }
  }

  lemma FreshBinds()
    ensures AllBind(Fresh())
  {}

  /** Over every run from a new host: whatever state a command is in, one event of the run put it
      there, and it has not changed since. A timed-out command was settled by a request about it
      whose clock had reached its deadline; a cancelled one by a cancel request before its deadline;
      both on a running allocation; an unknown one by a request that found the allocation gone; and
      one that exited either exited at once or was ended with that exit code. */
  lemma {:induction false} EveryReceiptIsExplained(
      cfg: Config, hashes: Hashes, events: seq<Event>, n: nat, id: Id, op: Id) returns (k: nat)
    requires n <= |events| && op in CommandsOf(After(cfg, hashes, events, n), id)
    ensures k < n
    ensures var c := CommandsOf(After(cfg, hashes, events, n), id)[op];
            && Binds(c, op)
            && Explains(After(cfg, hashes, events, k), events[k], id, op, c)
            && op in CommandsOf(After(cfg, hashes, events, k + 1), id)
            && CommandsOf(After(cfg, hashes, events, k + 1), id)[op] == c
    decreases n
  {
    hide Inv, AllBind, Step, Run, Explains, Binds;
    if n == 0 {
      NothingAtFirst(cfg, hashes, events, id);
      assert false;
    } else {
      var before := After(cfg, hashes, events, n - 1);
      AfterKeeps(cfg, hashes, events, n - 1);
      AfterNext(cfg, hashes, events, n - 1);
      StepExplains(cfg, hashes, before, events[n - 1], id, op);
      var c := CommandsOf(After(cfg, hashes, events, n), id)[op];
      if op in CommandsOf(before, id) && CommandsOf(before, id)[op] == c {
        k := EveryReceiptIsExplained(cfg, hashes, events, n - 1, id, op);
      } else {
        k := n - 1;
      }
    }
  }

  lemma NothingAtFirst(cfg: Config, hashes: Hashes, events: seq<Event>, id: Id)
    ensures CommandsOf(After(cfg, hashes, events, 0), id) == map[]
  {
    assert events[..0] == [];
  }
}
