/** The guest runner itself, with the control flow of crates/sandbox-guest/src/runner.rs over
    mutable state. Every method does exactly one step of RunnerModel, so the theorems about runs
    hold of it. What the operating system answers (whether a write, a cleanup or a deletion
    fails, and how far it got) is passed in. */
module Runner {
  import opened Wrappers
  import opened OperationIds
  import opened Totals
  import opened RunnerModel
  import opened RunnerSafety
  import opened RunnerRecovery
  import Bytes
  import Capture

  // What survives the agent: the state directory and the workload cgroups.
  class Guest {
    var context: Context
    var binding: Option<Binding>
    var files: map<Uuid, Receipt>
    var side: set<SideFile>
    var groups: set<Uuid>
    ghost var launches: seq<Launch>

    constructor ()
      ensures Closed() == Fresh()
    {
      context := NOBODY;
      binding, files, side, groups, launches := None, map[], {}, {}, [];
    }

    // The machine while no runner is open.
    ghost function Closed(): Machine
      reads this
    {
      Machine(context, Disk(binding, files), side, groups, None, launches)
    }

    // A recovery that has loaded these receipts so far.
    ghost function Reading(loaded: map<Uuid, Receipt>): Recovery
      reads this
    {
      Recovery(Disk(binding, files), side, groups, loaded, true)
    }

    ghost function Unread(): Recovery
      reads this
    {
      Reading(map[])
    }

    method WriteReceipt(r: Receipt, w: Write) returns (ok: bool)
      modifies `files, `side
      ensures ok == w.Synced?
      ensures Disk(binding, files) == PutReceipt(old(Disk(binding, files)), r, w)
      ensures side == Littered(old(side), w)
    {
      if !w.FailedOld? {
        files := files[r.operation := r];
      } else if w.temp.Some? {
        side := side + {TempFile(w.temp.value)};
      }
      ok := w.Synced?;
    }

    method WriteBinding(b: Binding, w: Write) returns (ok: bool)
      modifies `binding, `side
      ensures ok == w.Synced?
      ensures Disk(binding, files) == PutBinding(old(Disk(binding, files)), b, w)
      ensures side == Littered(old(side), w)
    {
      if !w.FailedOld? {
        binding := Some(b);
      } else if w.temp.Some? {
        side := side + {TempFile(w.temp.value)};
      }
      ok := w.Synced?;
    }

    // A directory listing, in any order, without the lock file and the context.
    method Entries() returns (order: seq<Entry>)
      ensures Listing(order, Disk(binding, files), side)
      ensures |order| == |files| + |side|
    {
      order := [];
      var rest := files.Keys;
      while rest != {}
        invariant rest <= files.Keys
        invariant forall e :: e in order <==> e.ReceiptEntry? && e.operation in files && e.operation !in rest
        invariant forall i, j :: 0 <= i < j < |order| ==> order[i] != order[j]
        invariant |order| + |rest| == |files.Keys|
        decreases |rest|
      {
        var id :| id in rest;
        order := order + [ReceiptEntry(id)];
        rest := rest - {id};
      }
      var others := side;
      while others != {}
        invariant others <= side
        invariant forall e :: e in order <==>
          if e.ReceiptEntry? then e.operation in files else e.file in side && e.file !in others
        invariant forall i, j :: 0 <= i < j < |order| ==> order[i] != order[j]
        invariant |order| + |others| == |files| + |side|
        decreases |others|
      {
        var f :| f in others;
        order := order + [SideEntry(f)];
        others := others - {f};
      }
    }

    // The listing retirement starts from; None if there are too many entries.
    method HistoryEntries() returns (order: Option<seq<Entry>>)
      ensures order.None? <==> Crowded(Disk(binding, files), side)
      ensures order.Some? ==> Listing(order.value, Disk(binding, files), side)
    {
      var entries := Entries();
      var full := TooMany(entries);
      order := if full then None else Some(entries);
    }

    // With the lock file and the context, a listing can be longer than the source reads.
    method TooMany(entries: seq<Entry>) returns (full: bool)
      requires |entries| == |files| + |side|
      ensures full == Crowded(Disk(binding, files), side)
    {
      full := 1 + (if binding.Some? then 1 else 0) + |entries| > MAX_ENTRIES;
    }

    method ValidateEntries(entries: seq<Entry>, barrier: Barrier) returns (ok: bool)
      requires Listing(entries, Disk(binding, files), side)
      ensures ok == Prunable(Disk(binding, files), side, groups, barrier)
    {
      ok := true;
      for i := 0 to |entries|
        invariant ok == forall k :: 0 <= k < i && Covers(barrier.through, entries[k].Id()) ==>
          entries[k].Id() !in groups
      {
        if Covers(barrier.through, entries[i].Id()) && entries[i].Id() in groups {
          ok := false;
        }
      }
      ListedGroups(entries, Disk(binding, files), side, groups, barrier);
    }

    static lemma ListedGroups(
        entries: seq<Entry>, disk: Disk, side: set<SideFile>, groups: set<Uuid>, barrier: Barrier)
      requires Listing(entries, disk, side)
      ensures Prunable(disk, side, groups, barrier) <==>
        forall k :: 0 <= k < |entries| && Covers(barrier.through, entries[k].Id()) ==> entries[k].Id() !in groups
    {
      hide Covers;
      if forall k :: 0 <= k < |entries| && Covers(barrier.through, entries[k].Id()) ==> entries[k].Id() !in groups {
        forall id | id in disk.receipts && Covers(barrier.through, id)
          ensures id !in groups
        {
          assert Present(disk, side, ReceiptEntry(id));
        }
        forall f | f in side && Covers(barrier.through, f.Id())
          ensures f.Id() !in groups
        {
          assert Present(disk, side, SideEntry(f));
        }
      } else {
        var k :| 0 <= k < |entries| && Covers(barrier.through, entries[k].Id()) && entries[k].Id() in groups;
        assert entries[k] in entries && Present(disk, side, entries[k]);
      }
    }

    // `failing` is the entry at which deletion fails, or the number of entries if the final
    // sync does.
    method PruneHistory(entries: seq<Entry>, barrier: Barrier, failing: Option<nat>) returns (ok: bool, ghost p: Prune)
      requires Listing(entries, Disk(binding, files), side)
      modifies `files, `side
      ensures ok == p.PruneAll?
      ensures Disk(binding, files) == Pruned(old(Disk(binding, files)), barrier, p)
      ensures side == PrunedSide(old(side), barrier, p)
    {
      ghost var visited: set<Entry> := {};
      hide Covers;
      var i := 0;
      while i < |entries|
        invariant 0 <= i <= |entries|
        invariant forall k :: 0 <= k < |entries| ==> (k < i <==> entries[k] in visited)
        invariant binding == old(binding)
        invariant Disk(binding, files) == Pruned(old(Disk(binding, files)), barrier, PruneFailed(visited))
        invariant side == PrunedSide(old(side), barrier, PruneFailed(visited))
      {
        if failing == Some(i) {
          return false, PruneFailed(visited);
        }
        ghost var before := visited;
        visited := visited + {entries[i]};
        if Covers(barrier.through, entries[i].Id()) {
          match entries[i] {
            case ReceiptEntry(id) => files := files - {id};
            case SideEntry(f) => side := side - {f};
          }
        }
        i := i + 1;
      }
      if failing.Some? {
        return false, PruneFailed(visited);
      }
      VisitedAll(entries, old(Disk(binding, files)), old(side), barrier, visited);
      return true, PruneAll;
    }

    static lemma VisitedAll(
        entries: seq<Entry>, disk: Disk, side: set<SideFile>, barrier: Barrier, visited: set<Entry>)
      requires Listing(entries, disk, side) && forall k :: 0 <= k < |entries| ==> entries[k] in visited
      ensures Pruned(disk, barrier, PruneFailed(visited)) == Pruned(disk, barrier, PruneAll)
      ensures PrunedSide(side, barrier, PruneFailed(visited)) == PrunedSide(side, barrier, PruneAll)
    {
      hide Covers;
      forall id | id in disk.receipts
        ensures ReceiptEntry(id) in visited
      {
        assert Present(disk, side, ReceiptEntry(id));
      }
      forall f | f in side
        ensures SideEntry(f) in visited
      {
        assert Present(disk, side, SideEntry(f));
      }
    }
  }

  lemma TakeOne(receipts: map<Uuid, Receipt>, id: Uuid)
    requires id in receipts
    ensures Total(Limits(receipts)) == receipts[id].outputLimit + Total(Limits(receipts - {id}))
    ensures |receipts - {id}| < |receipts|
  {
    LimitsGrow(receipts - {id}, id, receipts[id]);
    SizeGrows(receipts - {id}, id, receipts[id]);
    assert (receipts - {id})[id := receipts[id]] == receipts;
    hide Total, Limits;
  }

  lemma RecoverAt(
      context: Context, r: Recovery, entries: seq<Entry>, i: nat, repairs: map<Uuid, Repair>, stuck: set<Uuid>)
    requires i < |entries| && r.ok
    ensures var next := Visit(context, r, entries[i], repairs, stuck);
            && Recover(context, r, entries[i..], repairs, stuck)
              == Recover(context, next, entries[i + 1..], repairs, stuck)
            && (!next.ok ==> Recover(context, r, entries[i..], repairs, stuck) == next)
  {
    assert entries[i..][1..] == entries[i + 1..];
    hide Visit;
  }

  lemma RecoverEnd(context: Context, r: Recovery, entries: seq<Entry>, repairs: map<Uuid, Repair>, stuck: set<Uuid>)
    ensures Recover(context, r, entries[|entries|..], repairs, stuck) == r
  {}

  class Runner {
    const guest: Guest
    var barrier: Option<Barrier>
    var receipts: map<Uuid, Receipt>
    var active: Option<Active>
    var failed: bool
    var closed: bool

    constructor (guest: Guest, barrier: Option<Barrier>, receipts: map<Uuid, Receipt>)
      ensures this.guest == guest
      ensures Registry() == RunnerModel.Registry(barrier, receipts, None, false, false)
    {
      this.guest, this.barrier, this.receipts := guest, barrier, receipts;
      active, failed, closed := None, false, false;
    }

    ghost function Registry(): RunnerModel.Registry
      reads this
    {
      RunnerModel.Registry(barrier, receipts, active, failed, closed)
    }

    ghost function View(): Machine
      reads this, guest
    {
      guest.Closed().(memory := Some(Registry()))
    }

    static method Open(
        guest: Guest, context: Context, bootId: Bytes.Text, contextWrite: Write, failing: Option<nat>,
        repairs: map<Uuid, Repair>, stuck: set<Uuid>)
      returns (r: Runner?, ghost e: Event)
      modifies guest
      ensures e.Open? && e.caller == Caller(context, bootId)
      ensures e.contextWrite == contextWrite && e.repairs == repairs && e.stuck == stuck
      ensures r == null ==> guest.Closed() == Step(old(guest.Closed()), e)
      ensures r != null ==> fresh(r) && r.guest == guest && r.View() == Step(old(guest.Closed()), e)
    {
      ghost var caller := Caller(context, bootId);
      e := RunnerModel.Open(caller, contextWrite, PruneAll, [], repairs, stuck);
      r := null;
      if !context.Validated() || context.bootId != bootId {
        return;
      }
      var barrier := None;
      if guest.binding.Some? {
        if !guest.binding.value.Validated(context) {
          return;
        }
        guest.context := context;
        if guest.binding.value.Retired? {
          barrier := Some(guest.binding.value.barrier);
        }
      } else {
        guest.context := context;
        var present := guest.Entries();
        if present != [] {
          return;
        }
        var ok := guest.WriteBinding(Legacy(context), contextWrite);
        if !ok {
          return;
        }
      }
      ghost var prune := PruneAll;
      if barrier.Some? {
        var entries := guest.HistoryEntries();
        if entries.None? {
          return;
        }
        var valid := guest.ValidateEntries(entries.value, barrier.value);
        if !valid {
          return;
        }
        var ok, p := guest.PruneHistory(entries.value, barrier.value, failing);
        prune := p;
        e := RunnerModel.Open(caller, contextWrite, prune, [], repairs, stuck);
        if !ok {
          return;
        }
      }
      ghost var order;
      r, order := Load(guest, barrier, repairs, stuck);
      e := RunnerModel.Open(caller, contextWrite, prune, order, repairs, stuck);
    }

    // Load one receipt, repairing it first if a previous agent left it unsettled.
    static method LoadEntry(guest: Guest, loaded: map<Uuid, Receipt>, reserved: nat, id: Uuid, repairs: map<Uuid,
        Repair>)
      returns (result: Option<Receipt>, reservedNow: nat)
      requires reserved == Total(Limits(loaded)) && id !in loaded
      modifies guest`files, guest`side, guest`groups
      ensures guest.binding == old(guest.binding) && guest.launches == old(guest.launches)
      ensures var before := Recovery(old(Disk(guest.binding, guest.files)), old(guest.side), old(guest.groups),
        loaded, true);
              LoadOne(guest.context, before, id, repairs)
              == Recovery(Disk(guest.binding, guest.files), guest.side, guest.groups,
                          if result.Some? then loaded[id := result.value] else loaded, result.Some?)
      ensures result.Some? ==> reservedNow == Total(Limits(loaded[id := result.value]))
    {
      result, reservedNow := None, reserved;
      if id !in guest.files {
        return;
      }
      var receipt := guest.files[id];
      if receipt.context != guest.context || receipt.operation != id || !receipt.Validated() {
        return;
      }
      reservedNow := reserved + receipt.outputLimit;
      if reservedNow > MAX_RESERVED || |loaded| >= MAX_RECORDS {
        return;
      }
      LimitsGrow(loaded, id, receipt);
      LimitsGrow(loaded, id, receipt.Recovered());
      hide Total, Limits, Receipt.Validated;
      if !receipt.state.Terminal() || !receipt.cleanupConfirmed {
        if id !in repairs || !repairs[id].cleaned {
          return;
        }
        guest.groups := guest.groups - {id};
        receipt := receipt.(state := Unknown, cleanupConfirmed := true, exitCode := None, signal := None);
        var ok := guest.WriteReceipt(receipt, repairs[id].write);
        if !ok {
          return;
        }
      }
      result := Some(receipt);
    }

    // Go through the directory: temporary files are removed, receipts loaded, and the output
    // of commands is left alone.
    static method LoadEntries(guest: Guest, entries: seq<Entry>, repairs: map<Uuid, Repair>, stuck: set<Uuid>)
      returns (ok: bool, loaded: map<Uuid, Receipt>)
      requires forall j, k :: 0 <= j < k < |entries| ==> entries[j] != entries[k]
      modifies guest`files, guest`side, guest`groups
      ensures guest.binding == old(guest.binding) && guest.launches == old(guest.launches)
      ensures Recover(guest.context, old(guest.Unread()), entries, repairs, stuck)
              == Recovery(Disk(guest.binding, guest.files), guest.side, guest.groups, loaded, ok)
    {
      ok, loaded := true, map[];
      var reserved: nat := 0;
      var i := 0;
      assert Limits(loaded) == map[] && Total(Limits(loaded)) == 0;
      hide Total, Limits, LoadOne, Recover, Receipt.Validated, Littered, PutReceipt;
      ghost var end := Recover(guest.context, guest.Unread(), entries, repairs, stuck);
      assert entries[0..] == entries;
      while i < |entries|
        invariant 0 <= i <= |entries|
        invariant reserved == Total(Limits(loaded))
        invariant forall k :: i <= k < |entries| && entries[k].ReceiptEntry? ==> entries[k].operation !in loaded
        invariant Recover(guest.context, guest.Reading(loaded), entries[i..], repairs, stuck) == end
      {
        RecoverAt(guest.context, guest.Reading(loaded), entries, i, repairs, stuck);
        match entries[i] {
          case ReceiptEntry(id) =>
            var receipt, now := LoadEntry(guest, loaded, reserved, id, repairs);
            if receipt.None? {
              ok := false;
              return;
            }
            loaded, reserved := loaded[id := receipt.value], now;
          case SideEntry(TempFile(name)) =>
            if name in stuck {
              ok := false;
              return;
            }
            guest.side := guest.side - {TempFile(name)};
          case SideEntry(OutputFile(_, _)) =>
        }
        i := i + 1;
      }
      RecoverEnd(guest.context, guest.Reading(loaded), entries, repairs, stuck);
    }

    static method Load(guest: Guest, barrier: Option<Barrier>, repairs: map<Uuid, Repair>, stuck: set<Uuid>)
      returns (r: Runner?, ghost order: seq<Entry>)
      modifies guest`files, guest`side, guest`groups
      ensures guest.binding == old(guest.binding) && guest.launches == old(guest.launches)
      ensures r == null ==> guest.Closed() == LoadStep(old(guest.Closed()), barrier, order, repairs, stuck)
      ensures r != null ==>
        fresh(r) && r.guest == guest && r.View() == LoadStep(old(guest.Closed()), barrier, order, repairs, stuck)
    {
      var entries := guest.Entries();
      order := entries;
      r := null;
      var full := guest.TooMany(entries);
      if full {
        return;
      }
      var ok, loaded := LoadEntries(guest, entries, repairs, stuck);
      hide Recover;
      if !ok || guest.groups != {} {
        return;
      }
      r := new Runner(guest, barrier, loaded);
    }

    // The output reserved by every retained receipt.
    method Reserved() returns (sum: nat)
      ensures sum == Total(Limits(receipts))
    {
      sum := 0;
      var rest := receipts;
      while rest != map[]
        invariant forall id :: id in rest ==> id in receipts && rest[id] == receipts[id]
        invariant sum + Total(Limits(rest)) == Total(Limits(receipts))
        decreases |rest|
      {
        var id :| id in rest;
        hide Total, Limits;
        TakeOne(rest, id);
        sum := sum + rest[id].outputLimit;
        rest := rest - {id};
      }
      assert Limits(rest) == map[];
    }

    method Start(request: Request, now: int, w: Write) returns (reply: Option<Receipt>)
      modifies this, guest
      ensures (View(), reply) == StartStep(old(View()), request, now, w)
    {
      hide Total, Limits, Covers;
      reply := None;
      if !request.wellFormed || !(1 <= request.outputLimit <= Capture.MAX_OUTPUT) {
        return;
      }
      if barrier.Some? && Covers(barrier.value.through, request.operation) {
        return;
      }
      if request.operation in receipts {
        var existing := receipts[request.operation];
        if existing.digest == request.digest {
          reply := Some(existing);
        }
        return;
      }
      if closed || failed || active.Some? {
        return;
      }
      var remaining := request.deadline - now;
      if !(remaining > 0 && remaining <= LONGEST_MS) {
        return;
      }
      if |receipts| >= MAX_RECORDS {
        return;
      }
      var reserved := Reserved();
      if reserved + request.outputLimit > MAX_RESERVED {
        return;
      }
      var receipt := Intent(guest.context, request);
      var ok := guest.WriteReceipt(receipt, w);
      if !ok {
        return;
      }
      receipts := receipts[request.operation := receipt];
      active := Some(Active(request.operation, Pending, false, []));
      reply := Some(receipt);
    }

    // The worker of the active command looks once at the cancel signal and the clock.
    method CheckSignal(now: int)
      modifies this
      ensures View() == CheckStep(old(View()), now)
    {
      if active.None? || active.value.operation !in receipts || !active.value.phase.Pending? {
        return;
      }
      var a := active.value;
      if a.signalled {
        active := Some(a.(phase := Refused(Cancelled)));
      } else if now >= receipts[a.operation].deadline {
        active := Some(a.(phase := Refused(TimedOut)));
      } else {
        active := Some(a.(phase := Checked));
      }
    }

    // Later, without looking again, it creates its cgroup and output files, which must not
    // exist yet, and spawns the process. `reach` says how far the system lets it get.
    method Launch(reach: Reach)
      modifies this, guest
      ensures View() == SpawnStep(old(View()), reach)
    {
      if active.None? || active.value.operation !in receipts || !active.value.phase.Checked? {
        return;
      }
      var id := active.value.operation;
      active := Some(active.value.(phase := Entered(false)));
      if reach.NoGroup? || id in guest.groups {
        return;
      }
      guest.groups := guest.groups + {id};
      if reach.GroupOnly? || OutputFile(id, Stdout) in guest.side {
        return;
      }
      guest.side := guest.side + {OutputFile(id, Stdout)};
      if reach.OneFile? || OutputFile(id, Stderr) in guest.side {
        return;
      }
      guest.side := guest.side + {OutputFile(id, Stderr)};
      if reach.Process? {
        guest.launches := guest.launches + [RunnerModel.Launch(id, receipts[id].digest)];
        active := Some(active.value.(phase := Entered(true)));
      }
    }

    method Cancel(id: Uuid, w: Write) returns (reply: Option<Receipt>)
      modifies this, guest
      ensures (View(), reply) == CancelStep(old(View()), id, w)
    {
      reply := None;
      if id !in receipts {
        return;
      }
      var receipt := receipts[id];
      if receipt.state.Terminal() {
        return Some(receipt);
      }
      receipt := receipt.(cancelRequested := true);
      var ok := guest.WriteReceipt(receipt, w);
      if !ok {
        return;
      }
      receipts := receipts[id := receipt];
      if active.Some? {
        if active.value.operation != id {
          return;
        }
        active := Some(active.value.(signalled := true));
      }
      reply := Some(receipt);
    }

    // The capture tasks go on and publish their counters.
    method Publish(captures: seq<Capture.Event>)
      modifies this
      ensures View() == PublishStep(old(View()), captures)
    {
      if active.None? || active.value.operation !in receipts || active.value.phase != Entered(true) {
        return;
      }
      var id := active.value.operation;
      var now := Captured(receipts[id], active.value.captures + captures);
      active := Some(active.value.(captures := active.value.captures + captures));
      receipts := receipts[id := receipts[id].(stdout := now.published, stderr := now.publishedErr)];
    }

    // The end of a command: its tree cleaned or not, and its receipt saved or not.
    method Finish(result: Outcome, cleaned: bool, w: Write)
      modifies this, guest
      ensures View() == FinishStep(old(View()), result, cleaned, w)
    {
      if active.None? || active.value.operation !in receipts {
        return;
      }
      var id := active.value.operation;
      if !Plausible(active.value, receipts[id], result) {
        return;
      }
      hide Plausible, Captured;
      if cleaned {
        guest.groups := guest.groups - {id};
      }
      var receipt := receipts[id].(cleanupConfirmed := cleaned);
      if result.Reported? && cleaned {
        var end := Captured(receipts[id], active.value.captures + result.captures);
        receipt := receipt.(state := result.state, exitCode := result.exitCode, signal := result.signal,
                            stdout := end.out.result, stderr := end.err.result);
      } else {
        receipt := receipt.(state := Unknown);
      }
      var ok := guest.WriteReceipt(receipt, w);
      if !ok {
        receipt := receipt.(state := Unknown, exitCode := None, signal := None);
        failed := true;
      }
      receipts := receipts[id := receipt];
      if !cleaned {
        failed := true;
      }
      active := None;
    }

    method AllResolved(requested: Barrier) returns (ok: bool)
      ensures ok == !exists id :: id in receipts && Covers(requested.through, id) && !receipts[id].Resolved()
    {
      ok := true;
      hide Covers, Receipt.Resolved;
      var rest := receipts.Keys;
      while rest != {}
        invariant rest <= receipts.Keys
        invariant ok == forall id :: id in receipts && id !in rest && Covers(requested.through, id) ==>
          receipts[id].Resolved()
        decreases |rest|
      {
        var id :| id in rest;
        rest := rest - {id};
        ok := ok && (Covers(requested.through, id) ==> receipts[id].Resolved());
      }
    }

    method RetireHistory(requested: Barrier, w: Write, failing: Option<nat>) returns (reply: Option<Barrier>,
        ghost p: Prune)
      modifies this, guest
      ensures (View(), reply) == RetireStep(old(View()), requested, w, p)
    {
      hide Covers, Less, Receipt.Resolved, Crowded, Prunable, Pruned, PrunedSide;
      reply, p := None, PruneAll;
      if !requested.Validated(guest.context) {
        return;
      }
      hide Barrier.Validated;
      if failed || closed {
        return;
      }
      if barrier.Some? && !Less(barrier.value.through, requested.through) {
        reply := barrier;
        return;
      }
      if active.Some? && Covers(requested.through, active.value.operation) {
        return;
      }
      var resolved := AllResolved(requested);
      if !resolved {
        return;
      }
      var listed := guest.HistoryEntries();
      if listed.None? {
        return;
      }
      var entries := listed.value;
      var valid := guest.ValidateEntries(entries, requested);
      if !valid {
        return;
      }
      reply, p := CommitRetirement(entries, requested, w, failing);
    }

    // Once nothing stands in the way: the durable barrier first, then the files behind it.
    method CommitRetirement(entries: seq<Entry>, requested: Barrier, w: Write, failing: Option<nat>)
      returns (reply: Option<Barrier>, ghost p: Prune)
      requires Listing(entries, Disk(guest.binding, guest.files), guest.side)
      modifies this, guest
      ensures View() == if w.Synced? then Shortened(old(View()), requested, p) else Rebound(old(View()), requested, w)
      ensures reply == if w.Synced? && p.PruneAll? then Some(requested) else None
    {
      hide Covers, Pruned, PrunedSide;
      reply, p := None, PruneAll;
      var bound := guest.WriteBinding(Retired(requested), w);
      if !bound {
        failed := true;
        return;
      }
      barrier := Some(requested);
      var ok, pruned := guest.PruneHistory(entries, requested, failing);
      p := pruned;
      if !ok {
        failed := true;
        return;
      }
      receipts := Uncovered(receipts, requested);
      reply := Some(requested);
    }

    // Orderly shutdown fences admission before it cancels the active command.
    method Shutdown(w: Write) returns (reply: Option<Receipt>)
      modifies this, guest
      ensures var fenced := Step(old(View()), Close);
              View() == if old(active).None? then fenced else CancelStep(fenced, old(active).value.operation, w).0
    {
      reply := None;
      closed := true;
      if active.Some? {
        reply := Cancel(active.value.operation, w);
      }
    }
  }
}
