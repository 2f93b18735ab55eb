/** When an allocation of the simulated supervisor ends, who may be started and whose output may be
    archived: each told without the order in which the supervisor checks. */
module HostTimes {
  import opened Wrappers
  import opened Totals
  import opened Bytes
  import opened HostModel
  import opened HostSafety
  import opened HostSteps
  import opened HostFiles
  import opened HostRuns

  // --- the end of an allocation ---

  // The monotonic clock reading by which an event ends overdue leases, if it gets that far.
  function Reading(cfg: Config, e: Event): Option<int> {
    match e
    case Tick(mono) => Some(mono)
    case Create(_, clock) => Some(clock.mono)
    case Observe(_, _, clock) => Some(clock.mono)
    case Lease(_, _, clock) => Some(clock.mono)
    case RunCommand(_, _, _, _, clock) => Some(clock.mono)
    case TransferFile(_, _, action, clock) => if ChunkBounded(action) then Some(clock.mono) else None
    case Prepare(p, mono) =>
      if p.refused.Some? || p.revision <= 0 || (p.plans.Some? && p.plans.value.attempt != p.ticket.attempt)
         || p.ticket.host != cfg.host || p.ticket.epoch != cfg.epoch then None
      else Some(mono)
    case _ => None
  }

  predicate Overdue(cfg: Config, e: Event, r: Record) {
    Reading(cfg, e).Some? && r.expires <= Reading(cfg, e).value
  }

  // A stop of this very allocation, accepted.
  predicate Halts(cfg: Config, h: Host, e: Event, id: Id) {
    e.Observe? && e.stop && e.owner.allocation == id && ObserveStep(cfg, h, e.owner, true, e.clock).1.Ok?
  }

  lemma EntryLapses(cfg: Config, h: Host, o: Ownership, clock: Clock)
    ensures Enter(cfg, h, o, clock).0.allocations == Lapsed(h.allocations, clock.mono)
  {
    ClaimKeepsLive(Expire(h, clock.mono), o);
    hide Claim, CheckOwner;
  }

  lemma CommandLapses(
      cfg: Config, h: Host, o: Ownership, payload: Option<Execute>, digest: Digest, cancel: bool, clock: Clock)
    ensures CommandStep(cfg, h, o, payload, digest, cancel, clock).0.allocations == Lapsed(h.allocations, clock.mono)
  {
    CommandEntryShape(cfg, h, o, payload, clock);
    CommandShape(cfg, h, o, payload, digest, cancel, clock);
    ClaimKeepsLive(Expire(h, clock.mono), o);
    hide CommandEntry, CommandStep, Claim, CommandAfter, Lapsed;
  }

  lemma FileLapses(cfg: Config, hashes: Hashes, h: Host, o: Ownership, upload: Upload, a: Action, clock: Clock)
    ensures FileStep(cfg, hashes, h, o, upload, a, clock).0.allocations ==
            if ChunkBounded(a) then Lapsed(h.allocations, clock.mono) else h.allocations
  {
    var (h1, refused) := FileEntry(cfg, hashes, h, o, upload, a, clock);
    ClaimKeepsLive(Expire(h, clock.mono), o);
    assert h1.allocations == (if ChunkBounded(a) then Lapsed(h.allocations, clock.mono) else h.allocations) by {
      hide Claim, CheckOwner, NewFileRefusal, ChunkFits;
    }
    hide FileEntry, Claim, Beginning, Transfer, Live, Lapsed, ChunkBounded;
    if o.allocation in h1.fences && o.operation in h1.fences[o.allocation].files {
      var f := h1.fences[o.allocation];
      TransferStartsNothing(hashes, h1, Key(o.allocation, o.operation), f.files[o.operation], upload, a,
                            Live(h1, o.allocation) && !f.stopped);
    }
  }

  lemma LeaseLapses(cfg: Config, h: Host, o: LeaseOwnership, until: Option<int>, clock: Clock, id: Id)
    requires id in h.allocations
    ensures var h' := LeaseStep(cfg, h, o, until, clock).0;
            && id in h'.allocations
            && h'.allocations[id].phase == Lapse(h.allocations[id], clock.mono).phase
            && (id != o.allocation ==> h'.allocations[id] == Lapse(h.allocations[id], clock.mono))
  {
    hide CheckLease, LeaseRefusal, Sight;
  }

  lemma PrepareLapses(cfg: Config, h: Host, p: Publication, mono: int)
    ensures PrepareArchive(cfg, h, p, mono).0.allocations ==
            if Reading(cfg, Prepare(p, mono)).Some? then Lapsed(h.allocations, mono) else h.allocations
  {
    hide FinalReceipt, Lapsed;
  }

  /** One event ends a running allocation if and only if its clock has reached the end of the lease,
      or it is an accepted stop of it. */
  lemma EndsExactly(cfg: Config, hashes: Hashes, h: Host, e: Event, id: Id)
    requires Inv(cfg, h) && id in h.allocations && h.allocations[id].phase.Ready?
    ensures var h' := Step(cfg, hashes, h, e);
            && id in h'.allocations
            && (h'.allocations[id].phase.Released? <==> Overdue(cfg, e, h.allocations[id]) || Halts(cfg, h, e, id))
            && (h'.allocations[id].phase.Ready? && !(e.Lease? && e.lessee.allocation == id) ==>
                  h'.allocations[id] == h.allocations[id])
  {
    hide Inv, CommandStep, FileStep, LeaseStep, PrepareArchive, Enter, CreateRefusal, FinishCommandStep, RecordArchive;
    match e
    case RunCommand(owner, payload, digest, cancel, clock) =>
      CommandLapses(cfg, h, owner, payload, digest, cancel, clock);
    case TransferFile(owner, upload, action, clock) => FileLapses(cfg, hashes, h, owner, upload, action, clock);
    case Lease(lessee, until, clock) => LeaseLapses(cfg, h, lessee, until, clock, id);
    case Observe(owner, stop, clock) => EntryLapses(cfg, h, owner, clock);
    case Create(request, clock) => EntryLapses(cfg, h, request.owner, clock);
    case Prepare(publication, mono) => PrepareLapses(cfg, h, publication, mono);
    case FinishCommand(allocation, operation, exit) =>
      FinishKeepsAllocations(h, allocation, operation, exit);
    case RecordPlans(publication, plans) => RecordKeepsAllocations(h, publication, plans);
    case _ =>
  }

  lemma FinishKeepsAllocations(h: Host, id: Id, op: Id, exit: int)
    ensures FinishCommandStep(h, id, op, exit).0.allocations == h.allocations
  {}

  lemma RecordKeepsAllocations(h: Host, p: Publication, plans: Plans)
    ensures RecordArchive(h, p, plans).0.allocations == h.allocations
  {}

  // An event that leaves the allocation alone: too early to end it, no stop of it, no renewal.
  predicate Spares(cfg: Config, e: Event, id: Id, end: int) {
    && (Reading(cfg, e).Some? ==> Reading(cfg, e).value < end)
    && !(e.Observe? && e.stop && e.owner.allocation == id)
    && !(e.Lease? && e.lessee.allocation == id)
  }

  lemma SparedStays(cfg: Config, hashes: Hashes, h: Host, e: Event, id: Id)
    requires Inv(cfg, h) && id in h.allocations && h.allocations[id].phase.Ready?
    requires Spares(cfg, e, id, h.allocations[id].expires)
    ensures var h' := Step(cfg, hashes, h, e); id in h'.allocations && h'.allocations[id] == h.allocations[id]
  {
    EndsExactly(cfg, hashes, h, e, id);
    hide Inv, Step, Reading, ObserveStep;
  }

  lemma OverdueEnds(cfg: Config, hashes: Hashes, h: Host, e: Event, id: Id)
    requires Inv(cfg, h) && id in h.allocations && h.allocations[id].phase.Ready?
    ensures Overdue(cfg, e, h.allocations[id]) ==>
      id in Step(cfg, hashes, h, e).allocations && Step(cfg, hashes, h, e).allocations[id].phase.Released?
  {
    EndsExactly(cfg, hashes, h, e, id);
    hide Inv, Step, Overdue;
  }

  /** Over every run: an allocation runs on as long as nothing stops or renews it and no clock has
      reached the end of its lease, and the first event whose clock has ends it. */
  lemma {:induction false} RunsExactlyUntilItsEnd(
      cfg: Config, hashes: Hashes, h: Host, events: seq<Event>, id: Id, last: Event)
    requires Inv(cfg, h) && id in h.allocations && h.allocations[id].phase.Ready?
    requires forall i :: 0 <= i < |events| ==> Spares(cfg, events[i], id, h.allocations[id].expires)
    ensures var h' := Run(cfg, hashes, h, events);
            && id in h'.allocations && h'.allocations[id] == h.allocations[id]
            && (Overdue(cfg, last, h.allocations[id]) ==>
                  id in Step(cfg, hashes, h', last).allocations
                  && Step(cfg, hashes, h', last).allocations[id].phase.Released?)
    decreases |events|
  {
    hide Inv, Step, Spares, Grows, Overdue;
    if events == [] {
      OverdueEnds(cfg, hashes, h, last, id);
    } else {
      assert Spares(cfg, events[0], id, h.allocations[id].expires);
      SparedStays(cfg, hashes, h, events[0], id);
      StepKeeps(cfg, hashes, h, events[0]);
      RunsExactlyUntilItsEnd(cfg, hashes, Step(cfg, hashes, h, events[0]), events[1..], id, last);
    }
  }

  /** A started allocation ends when the time from the request to the asked deadline has passed on
      the monotonic clock. */
  lemma StartSetsTheEnd(cfg: Config, h: Host, r: CreateRequest, clock: Clock)
    requires CreateStep(cfg, h, r, clock).1.Ok? && r.owner.allocation !in h.allocations
    ensures var h' := CreateStep(cfg, h, r, clock).0;
            && r.owner.allocation in h'.allocations
            && h'.allocations[r.owner.allocation] ==
               Record(r, Ready, clock.mono + (r.expires - clock.now), r.expires)
            && 0 < r.expires - clock.now <= 300_000
  {
    EntryLapses(cfg, h, r.owner, clock);
    hide Enter, Fits, Succeeds;
  }

  /** An accepted renewal to a later deadline moves the end of a running, unfenced allocation to the
      time left until that deadline; any other request about its lease leaves the end where it is. */
  lemma RenewalMovesTheEnd(cfg: Config, h: Host, o: LeaseOwnership, until: Option<int>, clock: Clock)
    requires Live(Expire(h, clock.mono), o.allocation)
    ensures var before := Expire(h, clock.mono).allocations[o.allocation];
            var (h', reply) := LeaseStep(cfg, h, o, until, clock);
            && o.allocation in h'.allocations
            && h'.allocations[o.allocation] ==
               (if reply.Ok? && until.Some? && !Stopped(h, o.allocation) && o.allocation in h.fences
                   && until.value > before.leaseUntil
                then before.(expires := clock.mono + (until.value - clock.now), leaseUntil := until.value)
                else before)
            && (reply.Ok? && until.Some? && o.allocation in h.fences ==> 0 < until.value - clock.now <= 300_000)
  {
    hide Lapsed;
  }

  // --- starting ---

  // Spelled out without any order of checking.
  ghost predicate MayStart(cfg: Config, h: Host, r: CreateRequest, clock: Clock) {
    var now := Expire(h, clock.mono);
    && !Stopped(h, r.owner.allocation)
    && clock.now < r.expires <= clock.now + 300_000
    && r.image in cfg.images && r.resources.Some? && r.resources.value.Supported()
    && (r.owner.sandbox in h.sandboxes ==>
          var slot := h.sandboxes[r.owner.sandbox];
          && slot.project == r.owner.project && slot.generation < r.owner.generation
          && (if slot.allocation in now.allocations then now.allocations[slot.allocation].phase.Released?
              else Stopped(h, slot.allocation)))
    && |now.allocations| < 10_000
    && Total(ReadyUse(now.allocations, Vcpu)) + r.resources.value.vcpu <= cfg.capacity.vcpu
    && Total(ReadyUse(now.allocations, Memory)) + r.resources.value.memory <= cfg.capacity.memory
    && Total(ReadyUse(now.allocations, Disk)) + r.resources.value.disk <= cfg.capacity.disk
  }

  /** An accepted creation answers a known allocation with its phase, if the request is the stored
      one, and refuses any other request for it; an unknown allocation is started, and answered
      Ready, exactly if it may be. */
  lemma CreateAnswer(cfg: Config, h: Host, r: CreateRequest, clock: Clock)
    requires Enter(cfg, h, r.owner, clock).1.None?
    ensures var (h', reply) := CreateStep(cfg, h, r, clock);
            var id := r.owner.allocation;
            if id in h.allocations then
              var record := Expire(h, clock.mono).allocations[id];
              && h'.allocations == Lapsed(h.allocations, clock.mono)
              && (if SameRequest(record.create, r) then reply == Ok(Present(record.phase))
                  else reply == Err(AlreadyExists))
            else
              && (reply.Ok? <==> MayStart(cfg, h, r, clock))
              && (reply.Ok? ==> reply == Ok(Present(Ready)) && id in h'.allocations)
              && (reply.Err? ==> h'.allocations == Lapsed(h.allocations, clock.mono))
  {
    EntryLapses(cfg, h, r.owner, clock);
    EntryKeepsSandboxes(cfg, h, r.owner, clock);
    assert Lapsed(h.allocations, clock.mono).Keys == h.allocations.Keys;
    hide Enter, Total, ReadyUse, Resources.Supported, Lapsed;
  }

  lemma EntryKeepsSandboxes(cfg: Config, h: Host, o: Ownership, clock: Clock)
    ensures var h1 := Enter(cfg, h, o, clock).0;
            && h1.sandboxes == h.sandboxes
            && (forall id :: Stopped(h1, id) == Stopped(h, id))
  {
    hide CheckOwner, Expire, Claim;
    ExpiryKeepsSandboxes(h, clock.mono);
    ClaimKeepsSandboxes(Expire(h, clock.mono), o);
  }

  lemma ExpiryKeepsSandboxes(h: Host, mono: int)
    ensures Expire(h, mono).sandboxes == h.sandboxes
    ensures forall id :: Stopped(Expire(h, mono), id) == Stopped(h, id)
  {}

  lemma ClaimKeepsSandboxes(h: Host, o: Ownership)
    ensures Claim(h, o).0.sandboxes == h.sandboxes
    ensures forall id :: Stopped(Claim(h, o).0, id) == Stopped(h, id)
  {
    hide SameOwner;
  }

  // --- archiving ---

  // Spelled out without any order of checking.
  predicate MayPrepare(cfg: Config, h: Host, p: Publication) {
    var t := p.ticket;
    && p.refused.None? && p.revision > 0 && t.host == cfg.host && t.epoch == cfg.epoch
    && (p.plans.Some? ==> p.plans.value.attempt == t.attempt)
    && t.allocation in h.fences
    && var f := h.fences[t.allocation];
    && f.project == t.project && f.sandbox == t.sandbox && f.generation == t.generation
    && t.operation in f.commands
    && f.commands[t.operation].receipt.Some?
    && var r := f.commands[t.operation].receipt.value;
    && r.state in {Exited, TimedOut, Cancelled} && r.cleanupConfirmed && !f.commands[t.operation].notStarted
    && r.operation == t.operation && r.generation == t.generation && r.outputLimit == t.outputLimit
    && r.digest == f.commands[t.operation].digest && r.deadline == f.commands[t.operation].deadline
    && r.outputLimit == f.commands[t.operation].outputLimit
    && (if t.operation in f.archives
        then && f.archives[t.operation].ticket == t && f.archives[t.operation].revision <= p.revision
             && (p.plans.Some? ==> f.archives[t.operation].plans == p.plans)
        else p.plans.None?)
  }

  /** Publishing may begin exactly for the final receipt of a command that ended with a known outcome
      and confirmed cleanup, under the one ticket and by no older revision; it then records the
      revision and answers with the plans recorded so far. */
  lemma PrepareAnswer(cfg: Config, h: Host, p: Publication, mono: int)
    ensures var (h', reply) := PrepareArchive(cfg, h, p, mono);
            var t := p.ticket;
            && (reply.Ok? <==> MayPrepare(cfg, h, p))
            && (reply.Ok? ==>
                  && t.allocation in h.fences && t.allocation in h'.fences
                  && t.operation in h'.fences[t.allocation].archives
                  && h'.fences[t.allocation].archives[t.operation] == reply.value
                  && reply.value.revision == p.revision && reply.value.ticket == t
                  && reply.value.plans ==
                     (if t.operation in h.fences[t.allocation].archives
                      then h.fences[t.allocation].archives[t.operation].plans else None))
            && (reply.Err? ==> h'.fences == h.fences)
  {
    ExpireSees(h, mono);
    hide Expire;
  }

  /** Plans are recorded exactly while the publisher's revision is the one that prepared last, under
      the same ticket, and no other plans were recorded; they are answered as recorded. */
  lemma RecordAnswer(h: Host, p: Publication, plans: Plans)
    ensures var (h', reply) := RecordArchive(h, p, plans);
            var t := p.ticket;
            && (reply.Ok? <==>
                && p.refused.None? && t.allocation in h.fences && t.operation in h.fences[t.allocation].archives
                && var saved := h.fences[t.allocation].archives[t.operation];
                   saved.revision == p.revision && saved.ticket == t
                   && (saved.plans.None? || saved.plans == Some(plans)))
            && (reply.Ok? ==>
                  && reply.value == plans && t.allocation in h'.fences
                  && t.operation in h'.fences[t.allocation].archives
                  && h'.fences[t.allocation].archives[t.operation].plans == Some(plans))
            && (reply.Err? ==> h' == h)
  {}
}
