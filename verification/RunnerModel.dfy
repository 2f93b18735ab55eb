/** The guest command runner of crates/sandbox-guest/src/runner.rs as a state machine. The
    state directory and the workload cgroups outlive a crash; the registry does not. */
module RunnerModel {
  import opened Wrappers
  import opened OperationIds
  import opened Totals
  import Bytes
  import Capture

  const MAX_RECORDS := 128
  const MAX_RESERVED := 64 * 1024 * 1024
  const MAX_ENTRIES := MAX_RECORDS * 5 + 2
  const LONGEST_MS := 6 * 60 * 60 * 1000

  // --- records (crates/sandbox-protocol/src/guest_model.rs and history.rs) ---

  datatype Context = Context(allocation: Uuid, generation: int, bootId: Bytes.Text) {
    predicate Validated() {
      generation > 0 && 0 < |bootId| <= 64
    }
  }

  datatype Domain = Commands | Files

  datatype Barrier = Barrier(version: nat, context: Context, domain: Domain, through: Uuid) {
    predicate Validated(expected: Context) {
      version == 1 && domain == Commands && context == expected && expected.Validated() && Valid(through)
    }
  }

  // The content of context.json: the bare context, or the barrier that replaced it.
  datatype Binding = Legacy(context: Context) | Retired(barrier: Barrier) {
    predicate Validated(expected: Context) {
      match this
      case Legacy(context) => context == expected
      case Retired(barrier) => barrier.Validated(expected)
    }
  }

  datatype Status = LaunchIntent | Exited | TimedOut | Cancelled | Unknown {
    predicate Terminal() {
      this != LaunchIntent
    }
  }

  datatype Receipt = Receipt(
    context: Context, operation: Uuid, digest: Bytes.Digest, state: Status, deadline: int, outputLimit: nat,
    cancelRequested: bool, cleanupConfirmed: bool, exitCode: Option<int>, signal: Option<int>,
    stdout: Capture.Output, stderr: Capture.Output)
  {
    predicate Validated() {
      && context.Validated()
      && 1 <= outputLimit <= Capture.MAX_OUTPUT
      && stdout.Consistent() && stderr.Consistent()
      && stdout.stored + stderr.stored <= outputLimit
      && (if state == Exited then ExitInRange(exitCode, signal) else exitCode.None? && signal.None?)
      && (state == LaunchIntent ==> !cleanupConfirmed)
      && (state == Exited || state == TimedOut || state == Cancelled ==> cleanupConfirmed)
      && (state == Cancelled ==> cancelRequested)
    }

    // Known outcome and confirmed cleanup: what retirement demands.
    predicate Resolved() {
      state.Terminal() && state != Unknown && cleanupConfirmed
    }

    // Never touched again by recovery.
    predicate Settled() {
      state.Terminal() && cleanupConfirmed
    }

    function Recovered(): Receipt {
      this.(state := Unknown, cleanupConfirmed := true, exitCode := None, signal := None)
    }
  }

  predicate ExitInRange(exitCode: Option<int>, signal: Option<int>) {
    && exitCode.Some? != signal.Some?
    && (exitCode.Some? ==> 0 <= exitCode.value <= 255)
    && (signal.Some? ==> 1 <= signal.value <= 64)
  }

  // --- state ---

  datatype Disk = Disk(binding: Option<Binding>, receipts: map<Uuid, Receipt>)

  // The other files of the state directory: what an execution writes, and temporary files
  // that a write left behind. The lock file is always there and is not listed.
  datatype OutputKind = Stdout | Stderr | Exit

  datatype SideFile = OutputFile(operation: Uuid, kind: OutputKind) | TempFile(name: Uuid) {
    function Id(): Uuid {
      if OutputFile? then operation else name
    }
  }

  datatype Entry = ReceiptEntry(operation: Uuid) | SideEntry(file: SideFile) {
    function Id(): Uuid {
      if ReceiptEntry? then operation else file.Id()
    }
  }

  // How far the worker of the running command is. It looks at the cancel signal and the
  // deadline once, and only later, without holding any lock, enters a cgroup and spawns.
  datatype Phase = Pending | Checked | Refused(verdict: Status) | Entered(launched: bool)

  // `captures` is what the two capture tasks of the process have done so far.
  datatype Active = Active(operation: Uuid, phase: Phase, signalled: bool, captures: seq<Capture.Event>)

  datatype Registry = Registry(
    barrier: Option<Barrier>, receipts: map<Uuid, Receipt>, active: Option<Active>, failed: bool, closed: bool)

  datatype Launch = Launch(operation: Uuid, digest: Bytes.Digest)

  // `context` is that of the caller last let past the check of its context; nobody's at first.
  datatype Machine = Machine(
    context: Context, disk: Disk, side: set<SideFile>, groups: set<Uuid>, memory: Option<Registry>,
    launches: seq<Launch>)

  const NOBODY := Context(Uuid(0, 0, 0, 0, 0), 0, [])

  function Fresh(): Machine {
    Machine(NOBODY, Disk(None, map[]), {}, {}, None, [])
  }

  // Everything in the state directory, with the lock file.
  function EntryCount(disk: Disk, side: set<SideFile>): nat {
    1 + (if disk.binding.Some? then 1 else 0) + |disk.receipts| + |side|
  }

  predicate Crowded(disk: Disk, side: set<SideFile>) {
    EntryCount(disk, side) > MAX_ENTRIES
  }

  predicate CoveredBy(barrier: Option<Barrier>, id: Uuid) {
    barrier.Some? && Covers(barrier.value.through, id)
  }

  function DiskBarrier(disk: Disk): Option<Barrier> {
    if disk.binding.Some? && disk.binding.value.Retired? then Some(disk.binding.value.barrier) else None
  }

  function Limits(receipts: map<Uuid, Receipt>): map<Uuid, nat> {
    map id | id in receipts :: receipts[id].outputLimit
  }

  // --- storage ---

  // A failed write has left the old file, and perhaps its temporary file, or, without a
  // confirmed sync, the new one.
  datatype Write = Synced | FailedOld(temp: Option<Uuid>) | FailedNew

  function PutReceipt(disk: Disk, r: Receipt, w: Write): Disk {
    if w.FailedOld? then disk else disk.(receipts := disk.receipts[r.operation := r])
  }

  function PutBinding(disk: Disk, b: Binding, w: Write): Disk {
    if w.FailedOld? then disk else disk.(binding := Some(b))
  }

  // Nothing removes the temporary file of a failed write before the next opening.
  function Littered(side: set<SideFile>, w: Write): set<SideFile> {
    if w.FailedOld? && w.temp.Some? then side + {TempFile(w.temp.value)} else side
  }

  // Deletion stops at the first failure, after any part of the covered files.
  datatype Prune = PruneAll | PruneFailed(removed: set<Entry>)

  function Pruned(disk: Disk, barrier: Barrier, p: Prune): Disk {
    disk.(receipts := map id | id in disk.receipts && !PrunedEntry(barrier, p, ReceiptEntry(id)) :: disk.receipts[id])
  }

  function PrunedSide(side: set<SideFile>, barrier: Barrier, p: Prune): set<SideFile> {
    set f | f in side && !PrunedEntry(barrier, p, SideEntry(f))
  }

  predicate PrunedEntry(barrier: Barrier, p: Prune, e: Entry) {
    Covers(barrier.through, e.Id()) && (p.PruneFailed? ==> e in p.removed)
  }

  // No covered file may belong to an operation that still owns a cgroup.
  predicate Prunable(disk: Disk, side: set<SideFile>, groups: set<Uuid>, barrier: Barrier) {
    && (forall id :: id in disk.receipts && Covers(barrier.through, id) ==> id !in groups)
    && (forall f :: f in side && Covers(barrier.through, f.Id()) ==> f.Id() !in groups)
  }

  // --- requests and outcomes ---

  // `wellFormed` stands for the checks on argv, environment and working directory.
  datatype Request = Request(
    operation: Uuid, digest: Bytes.Digest, deadline: int, outputLimit: nat, wellFormed: bool)

  function Intent(context: Context, r: Request): Receipt {
    Receipt(context, r.operation, r.digest, LaunchIntent, r.deadline, r.outputLimit, false, false, None, None,
            Capture.EMPTY, Capture.EMPTY)
  }

  // `captures` is what the two capture tasks still did up to their end.
  datatype Outcome =
    | Reported(state: Status, exitCode: Option<int>, signal: Option<int>, captures: seq<Capture.Event>)
    | Uncertain

  function Captured(r: Receipt, captures: seq<Capture.Event>): Capture.State {
    Capture.Run(Capture.Start(r.outputLimit), captures)
  }

  // What execution can report: what its worker found at its check, or, once there is a process,
  // an end with both captures complete.
  predicate Plausible(a: Active, r: Receipt, o: Outcome) {
    match a.phase
    case Pending => false
    case Checked => false
    case Refused(verdict) => o == Reported(verdict, None, None, [])
    case Entered(launched) =>
      o.Reported? ==>
        && launched
        && o.state.Terminal()
        && (if o.state == Exited then ExitInRange(o.exitCode, o.signal) else o.exitCode.None? && o.signal.None?)
        && (o.state == Cancelled ==> a.signalled)
        && Captured(r, a.captures + o.captures).Ended()
  }

  // The receipt computed when a command ends.
  function Final(a: Active, r: Receipt, o: Outcome, cleaned: bool): Receipt {
    if o.Reported? && cleaned
    then
      var end := Captured(r, a.captures + o.captures);
      r.(cleanupConfirmed := true, state := o.state, exitCode := o.exitCode, signal := o.signal,
         stdout := end.out.result, stderr := end.err.result)
    else r.(cleanupConfirmed := cleaned, state := Unknown)
  }

  // --- recovery ---

  // How one unsettled receipt is repaired: its process tree cleaned, then the receipt saved.
  datatype Repair = Repair(cleaned: bool, write: Write)

  datatype Recovery = Recovery(
    disk: Disk, side: set<SideFile>, groups: set<Uuid>, loaded: map<Uuid, Receipt>, ok: bool)

  // Visit the entries in directory order, stopping at the first failure. `stuck` names the
  // temporary files that cannot be removed.
  ghost function Recover(
      context: Context, r: Recovery, order: seq<Entry>, repairs: map<Uuid, Repair>, stuck: set<Uuid>): Recovery
    decreases |order|
  {
    if order == [] || !r.ok then r
    else Recover(context, Visit(context, r, order[0], repairs, stuck), order[1..], repairs, stuck)
  }

  ghost function Visit(
      context: Context, r: Recovery, e: Entry, repairs: map<Uuid, Repair>, stuck: set<Uuid>): Recovery
  {
    match e
    case ReceiptEntry(id) => LoadOne(context, r, id, repairs)
    case SideEntry(TempFile(name)) =>
      if name in stuck then r.(ok := false) else r.(side := r.side - {TempFile(name)})
    case SideEntry(OutputFile(_, _)) => r
  }

  ghost function LoadOne(context: Context, r: Recovery, id: Uuid, repairs: map<Uuid, Repair>): Recovery {
    if id !in r.disk.receipts then r.(ok := false)
    else
      var receipt := r.disk.receipts[id];
      if receipt.context != context || receipt.operation != id || !receipt.Validated() then r.(ok := false)
      else if Total(Limits(r.loaded)) + receipt.outputLimit > MAX_RESERVED || |r.loaded| >= MAX_RECORDS
      then r.(ok := false)
      else if receipt.Settled() then r.(loaded := r.loaded[id := receipt])
      else if id !in repairs || !repairs[id].cleaned then r.(ok := false)
      else
        var fixed := receipt.Recovered();
        var disk := PutReceipt(r.disk, fixed, repairs[id].write);
        var side := Littered(r.side, repairs[id].write);
        if repairs[id].write.Synced?
        then Recovery(disk, side, r.groups - {id}, r.loaded[id := fixed], true)
        else Recovery(disk, side, r.groups - {id}, r.loaded, false)
  }

  // A complete listing of the directory, in whatever order it comes, without the lock file
  // and the context.
  ghost predicate Listing(order: seq<Entry>, disk: Disk, side: set<SideFile>) {
    && (forall e :: e in order <==> Present(disk, side, e))
    && (forall i, j :: 0 <= i < j < |order| ==> order[i] != order[j])
  }

  predicate Present(disk: Disk, side: set<SideFile>, e: Entry) {
    match e
    case ReceiptEntry(id) => id in disk.receipts
    case SideEntry(f) => f in side
  }

  // --- steps ---

  // Who opens: the context of the caller's configuration, and the boot id the kernel reports.
  datatype Caller = Caller(context: Context, bootId: Bytes.Text)

  // The context names this boot, and no other context is bound to the directory.
  predicate Welcome(disk: Disk, caller: Caller) {
    && caller.context.Validated() && caller.context.bootId == caller.bootId
    && (disk.binding.Some? ==> disk.binding.value.Validated(caller.context))
  }

  datatype Event =
    | Open(caller: Caller, contextWrite: Write, prune: Prune, order: seq<Entry>, repairs: map<Uuid, Repair>,
           stuck: set<Uuid>)
    | Start(request: Request, now: int, write: Write)
    | Check(now: int)
    | Spawn(reach: Reach)
    | CancelCommand(id: Uuid, write: Write)
    | PublishOutput(captures: seq<Capture.Event>)
    | WriteReport(id: Uuid)
    | Finish(outcome: Outcome, cleaned: bool, write: Write)
    | Retire(requested: Barrier, write: Write, prune: Prune)
    | Close
    | Crash

  ghost function Step(m: Machine, e: Event): Machine {
    match e
    case Open(caller, contextWrite, prune, order, repairs, stuck) =>
      OpenStep(m, caller, contextWrite, prune, order, repairs, stuck)
    case Start(request, now, write) => StartStep(m, request, now, write).0
    case Check(now) => CheckStep(m, now)
    case Spawn(reach) => SpawnStep(m, reach)
    case CancelCommand(id, write) => CancelStep(m, id, write).0
    case PublishOutput(captures) => PublishStep(m, captures)
    case WriteReport(id) => ReportStep(m, id)
    case Finish(outcome, cleaned, write) => FinishStep(m, outcome, cleaned, write)
    case Retire(requested, write, prune) => RetireStep(m, requested, write, prune).0
    case Close => if m.memory.None? then m else m.(memory := Some(m.memory.value.(closed := true)))
    case Crash => m.(memory := None)
  }

  ghost function Run(m: Machine, events: seq<Event>): Machine
    decreases |events|
  {
    if events == [] then m else Run(Step(m, events[0]), events[1..])
  }

  ghost function OpenStep(
      m: Machine, caller: Caller, contextWrite: Write, prune: Prune, order: seq<Entry>, repairs: map<Uuid, Repair>,
      stuck: set<Uuid>)
    : Machine
  {
    // The state lock admits one runner at a time.
    if m.memory.Some? || !Welcome(m.disk, caller) then m
    else OpenAs(m.(context := caller.context), contextWrite, prune, order, repairs, stuck)
  }

  // An opening whose context is accepted.
  ghost function OpenAs(
      m: Machine, contextWrite: Write, prune: Prune, order: seq<Entry>, repairs: map<Uuid, Repair>, stuck: set<Uuid>)
    : Machine
  {
    if m.disk.binding.None? then
      // Without a context only the lock file may be there.
      if EntryCount(m.disk, m.side) != 1 then m
      else
        var m' := m.(disk := PutBinding(m.disk, Legacy(m.context), contextWrite),
                     side := Littered(m.side, contextWrite));
        if !contextWrite.Synced? then m' else LoadStep(m', None, order, repairs, stuck)
    else
      match DiskBarrier(m.disk)
      case None => LoadStep(m, None, order, repairs, stuck)
      case Some(barrier) =>
        if Crowded(m.disk, m.side) || !Prunable(m.disk, m.side, m.groups, barrier) then m
        else
          var m' := m.(disk := Pruned(m.disk, barrier, prune), side := PrunedSide(m.side, barrier, prune));
          if prune.PruneFailed? then m' else LoadStep(m', Some(barrier), order, repairs, stuck)
  }

  ghost function LoadStep(
      m: Machine, barrier: Option<Barrier>, order: seq<Entry>, repairs: map<Uuid, Repair>, stuck: set<Uuid>): Machine
  {
    if !Listing(order, m.disk, m.side) || Crowded(m.disk, m.side) then m
    else
      var r := Recover(m.context, Recovery(m.disk, m.side, m.groups, map[], true), order, repairs, stuck);
      var m' := m.(disk := r.disk, side := r.side, groups := r.groups);
      if !r.ok || r.groups != {} then m'
      else m'.(memory := Some(Registry(barrier, r.loaded, None, false, false)))
  }

  ghost predicate Admissible(reg: Registry, r: Request, now: int) {
    && !reg.closed && !reg.failed && reg.active.None?
    && 0 < r.deadline - now <= LONGEST_MS
    && |reg.receipts| < MAX_RECORDS
    && Total(Limits(reg.receipts)) + r.outputLimit <= MAX_RESERVED
  }

  ghost function StartStep(m: Machine, r: Request, now: int, w: Write): (Machine, Option<Receipt>) {
    if m.memory.None? || !r.wellFormed || !(1 <= r.outputLimit <= Capture.MAX_OUTPUT) then (m, None)
    else
      var reg := m.memory.value;
      if CoveredBy(reg.barrier, r.operation) then (m, None)
      else if r.operation in reg.receipts then
        (m, if reg.receipts[r.operation].digest == r.digest then Some(reg.receipts[r.operation]) else None)
      else if !Admissible(reg, r, now) then (m, None)
      else
        var receipt := Intent(m.context, r);
        var m' := m.(disk := PutReceipt(m.disk, receipt, w), side := Littered(m.side, w));
        if !w.Synced? then (m', None)
        else
          (m'.(memory := Some(reg.(receipts := reg.receipts[r.operation := receipt],
                                   active := Some(Active(r.operation, Pending, false, []))))), Some(receipt))
  }

  // The worker of the active command looks at the cancel signal and at the clock.
  ghost function CheckStep(m: Machine, now: int): Machine {
    if m.memory.None? || m.memory.value.active.None? then m
    else
      var reg := m.memory.value;
      var a := reg.active.value;
      if a.operation !in reg.receipts || !a.phase.Pending? then m
      else
        var phase := if a.signalled then Refused(Cancelled)
                     else if now >= reg.receipts[a.operation].deadline then Refused(TimedOut)
                     else Checked;
        m.(memory := Some(reg.(active := Some(a.(phase := phase)))))
  }

  // How far the worker gets after its check if nothing it creates is in its way: to nothing,
  // the cgroup, the first or both output files, or the process.
  datatype Reach = NoGroup | GroupOnly | OneFile | BothFiles | Process

  ghost function SpawnStep(m: Machine, reach: Reach): Machine {
    if m.memory.None? || m.memory.value.active.None? then m
    else
      var reg := m.memory.value;
      var a := reg.active.value;
      if a.operation !in reg.receipts || !a.phase.Checked? then m
      else
        if reach.NoGroup? || a.operation in m.groups
        then m.(memory := Some(reg.(active := Some(a.(phase := Entered(false))))))
        else
          var out, err := OutputFile(a.operation, Stdout), OutputFile(a.operation, Stderr);
          var first := !reach.GroupOnly? && out !in m.side;
          var second := first && !reach.OneFile? && err !in m.side;
          var third := second && reach.Process?;
          m.(memory := Some(reg.(active := Some(a.(phase := Entered(third))))),
             groups := m.groups + {a.operation},
             side := m.side + (if first then {out} else {}) + (if second then {err} else {}),
             launches := if third then m.launches + [Launch(a.operation, reg.receipts[a.operation].digest)]
                         else m.launches)
  }

  // The launcher of a process that still has its cgroup creates the exit report.
  ghost function ReportStep(m: Machine, id: Uuid): Machine {
    if id in m.groups && exists i :: 0 <= i < |m.launches| && m.launches[i].operation == id
    then m.(side := m.side + {OutputFile(id, Exit)})
    else m
  }

  ghost function CancelStep(m: Machine, id: Uuid, w: Write): (Machine, Option<Receipt>) {
    if m.memory.None? || id !in m.memory.value.receipts then (m, None)
    else
      var reg := m.memory.value;
      if reg.receipts[id].state.Terminal() then (m, Some(reg.receipts[id]))
      else
        var receipt := reg.receipts[id].(cancelRequested := true);
        var m' := m.(disk := PutReceipt(m.disk, receipt, w), side := Littered(m.side, w));
        if !w.Synced? then (m', None)
        else
          var reg' := reg.(receipts := reg.receipts[id := receipt]);
          if reg.active.Some? && reg.active.value.operation != id then (m'.(memory := Some(reg')), None)
          else if reg.active.None? then (m'.(memory := Some(reg')), Some(receipt))
          else (m'.(memory := Some(reg'.(active := Some(reg.active.value.(signalled := true))))), Some(receipt))
  }

  // The capture tasks of the process go on. Their live counters reach only the registry.
  ghost function PublishStep(m: Machine, captures: seq<Capture.Event>): Machine {
    if m.memory.None? || m.memory.value.active.None? then m
    else
      var reg := m.memory.value;
      var a := reg.active.value;
      if a.operation !in reg.receipts || a.phase != Entered(true) then m
      else
        var r := reg.receipts[a.operation];
        var now := Captured(r, a.captures + captures);
        m.(memory := Some(reg.(
             receipts := reg.receipts[a.operation := r.(stdout := now.published, stderr := now.publishedErr)],
             active := Some(a.(captures := a.captures + captures)))))
  }

  ghost function FinishStep(m: Machine, o: Outcome, cleaned: bool, w: Write): Machine {
    if m.memory.None? || m.memory.value.active.None? then m
    else
      var reg := m.memory.value;
      var a := reg.active.value;
      if a.operation !in reg.receipts || !Plausible(a, reg.receipts[a.operation], o) then m
      else
        var final := Final(a, reg.receipts[a.operation], o, cleaned);
        var kept := if w.Synced? then final else final.(state := Unknown, exitCode := None, signal := None);
        m.(disk := PutReceipt(m.disk, final, w),
           side := Littered(m.side, w),
           groups := if cleaned then m.groups - {a.operation} else m.groups,
           memory := Some(reg.(receipts := reg.receipts[a.operation := kept],
                               active := None,
                               failed := reg.failed || !cleaned || !w.Synced?)))
  }

  ghost function RetireStep(m: Machine, requested: Barrier, w: Write, p: Prune): (Machine, Option<Barrier>) {
    if m.memory.None? || !requested.Validated(m.context) then (m, None)
    else
      var reg := m.memory.value;
      if reg.failed || reg.closed then (m, None)
      else if reg.barrier.Some? && !Less(reg.barrier.value.through, requested.through) then (m, reg.barrier)
      else if reg.active.Some? && Covers(requested.through, reg.active.value.operation) then (m, None)
      else if exists id :: id in reg.receipts && Covers(requested.through, id) && !reg.receipts[id].Resolved()
      then (m, None)
      else if Crowded(m.disk, m.side) || !Prunable(m.disk, m.side, m.groups, requested) then (m, None)
      else
        var m' := m.(disk := PutBinding(m.disk, Retired(requested), w), side := Littered(m.side, w));
        if !w.Synced? then (m'.(memory := Some(reg.(failed := true))), None)
        else
          var disk, side := Pruned(m'.disk, requested, p), PrunedSide(m.side, requested, p);
          var reg' := reg.(barrier := Some(requested));
          if p.PruneFailed? then (m'.(disk := disk, side := side, memory := Some(reg'.(failed := true))), None)
          else
            (m'.(disk := disk, side := side,
                 memory := Some(reg'.(receipts := Uncovered(reg.receipts, requested)))), Some(requested))
  }

  function Uncovered(receipts: map<Uuid, Receipt>, b: Barrier): map<Uuid, Receipt> {
    map id | id in receipts && !Covers(b.through, id) :: receipts[id]
  }
}
