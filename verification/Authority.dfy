/** The launch authority as the object of crates/sandbox-protocol/src/allocation_authority.rs:
    a frontier and a vector of entries changed in place, searched by bisection, and a
    decoder that scans with growing sets. Each method is proved against AuthorityLedger. */
module LaunchAuthority {
  import opened Wrappers
  import opened OperationIds
  import opened AuthorityRecords
  import opened AuthorityLedger
  import AuthorityRuns
  import AuthorityText

  class Authority {
    const host: Uuid
    const sha: Hash
    var through: nat
    var entries: seq<Entry>

    function View(): Saved
      reads this
    {
      Saved(1, host, through, entries)
    }

    ghost predicate IsValid()
      reads this
    {
      WellFormed(View())
    }

    constructor (host: Uuid, sha: Hash)
      requires Valid(host)
      ensures IsValid()
      ensures View() == AuthorityRuns.New(host) && this.sha == sha
    {
      this.host := host;
      this.sha := sha;
      through := 0;
      entries := [];
    }

    /** The saved text always fits, so the byte cap never blocks a fence or completion. */
    method Encode() returns (r: Result<string, Error>)
      requires IsValid()
      ensures r == Ok(AuthorityText.Render(View()))
    {
      AuthorityText.WellFormedFits(View());
      var text := AuthorityText.Render(View());
      if |text| > MAX_BYTES { return Err(Capacity); }
      return Ok(text);
    }

    // Reads a parsed document of the given length; the parser itself is not modelled.
    static method Decode(length: nat, saved: Saved, host: Uuid, minimum: nat) returns (r: Outcome)
      ensures r == DecodeVerdict(length, saved, host, minimum)
    {
      if length > MAX_BYTES { return Err(Capacity); }
      if !Valid(host) || saved.version != 1 || saved.through > MAX_SERIAL || saved.through < minimum
         || |saved.entries| > MAX_ENTRIES {
        return Err(Invalid);
      }
      if saved.host != host { return Err(Ownership); }
      var previous := 0;
      var allocations: set<Uuid> := {};
      var operations: set<Uuid> := {};
      var generations: set<(Uuid, int)> := {};
      for i := 0 to |saved.entries|
        invariant EntriesVerdict(saved, host, 0) == EntriesVerdict(saved, host, i)
        invariant previous == if i == 0 then 0 else saved.entries[i - 1].permit.serial
        invariant allocations == set j | 0 <= j < i :: saved.entries[j].permit.allocation
        invariant operations == set j | 0 <= j < i :: saved.entries[j].permit.createOperation
        invariant generations ==
                  set j | 0 <= j < i :: (saved.entries[j].permit.sandbox, saved.entries[j].permit.generation)
      {
        var e := saved.entries[i];
        var p := e.permit;
        if !p.Validated() { return Err(Invalid); }
        if p.host != host { return Err(Ownership); }
        ClashMeaning(saved.entries, i, allocations, operations, generations);
        if p.serial <= previous || p.serial > saved.through || p.allocation in allocations
           || p.createOperation in operations || (p.sandbox, p.generation) in generations {
          return Err(Invalid);
        }
        allocations := allocations + {p.allocation};
        operations := operations + {p.createOperation};
        generations := generations + {(p.sandbox, p.generation)};
        previous := p.serial;
        if !e.state.Active? && !Valid(e.state.retirement) { return Err(Invalid); }
      }
      return Ok(());
    }

    static lemma ClashMeaning(all: seq<Entry>, i: nat, allocations: set<Uuid>, operations: set<Uuid>,
                              generations: set<(Uuid, int)>)
      requires i < |all|
      requires allocations == set j | 0 <= j < i :: all[j].permit.allocation
      requires operations == set j | 0 <= j < i :: all[j].permit.createOperation
      requires generations == set j | 0 <= j < i :: (all[j].permit.sandbox, all[j].permit.generation)
      ensures var p := all[i].permit;
              (p.allocation in allocations || p.createOperation in operations
               || (p.sandbox, p.generation) in generations)
              <==> exists j :: 0 <= j < i && Clash(all[j].permit, p)
    {
      var p := all[i].permit;
      if p.allocation in allocations {
        var j :| 0 <= j < i && all[j].permit.allocation == p.allocation;
        assert Clash(all[j].permit, p);
      } else if p.createOperation in operations {
        var j :| 0 <= j < i && all[j].permit.createOperation == p.createOperation;
        assert Clash(all[j].permit, p);
      } else if (p.sandbox, p.generation) in generations {
        var j :| 0 <= j < i && (all[j].permit.sandbox, all[j].permit.generation) == (p.sandbox, p.generation);
        assert Clash(all[j].permit, p);
      }
    }

    method Index(permit: Permit) returns (r: Result<nat, Error>)
      requires IsValid()
      ensures r == Locate(View(), permit)
    {
      if !permit.Validated() { return Err(Invalid); }
      if permit.host != host { return Err(Ownership); }
      var low, high := 0, |entries|;
      while low < high
        invariant low <= high <= |entries|
        invariant forall i :: 0 <= i < low ==> entries[i].permit.serial < permit.serial
        invariant forall i :: high <= i < |entries| ==> permit.serial < entries[i].permit.serial
      {
        var middle := low + (high - low) / 2;
        var serial := entries[middle].permit.serial;
        if serial == permit.serial {
          FindIsUnique(entries, middle);
          return if entries[middle].permit == permit then Ok(middle) else Err(Ownership);
        } else if serial < permit.serial {
          low := middle + 1;
        } else {
          high := middle;
        }
      }
      return if permit.serial <= through then Err(Closed) else Err(Unregistered);
    }

    method CheckBatch(permits: seq<Permit>) returns (r: Outcome)
      ensures r == BatchVerdict(host, permits, |permits|)
    {
      var previous: Option<nat> := None;
      for i := 0 to |permits|
        invariant previous == if i == 0 then None else Some(permits[i - 1].serial)
        invariant BatchVerdict(host, permits, i) == Ok(())
      {
        var p := permits[i];
        if BatchVerdict(host, permits, i + 1).Err? {
          BatchStops(permits, i + 1);
        }
        if !p.Validated() { return Err(Invalid); }
        if p.host != host { return Err(Ownership); }
        if previous.Some? && previous.value + 1 != p.serial { return Err(RegistrationOrder); }
        previous := Some(p.serial);
      }
      return Ok(());
    }

    method CheckRetained(permits: seq<Permit>) returns (r: Outcome)
      requires IsValid()
      ensures r == RetainedVerdict(View(), permits, |permits|)
    {
      for i := 0 to |permits|
        invariant RetainedVerdict(View(), permits, i) == Ok(())
      {
        var found := Index(permits[i]);
        if found.Err? {
          RetainedStops(View(), permits, i + 1);
          return Err(found.error);
        }
      }
      return Ok(());
    }

    method Propose(permits: seq<Permit>) returns (next: Saved)
      requires permits != []
      ensures next == Extended(View(), permits)
    {
      next := View();
      for i := 0 to |permits|
        invariant next.version == 1 && next.host == host
        invariant next.entries == entries + seq(i, k requires 0 <= k < i => Entry(permits[k], Active))
        invariant next.through == if i == 0 then through else permits[i - 1].serial
      {
        next := next.(entries := next.entries + [Entry(permits[i], Active)], through := permits[i].serial);
      }
    }

    static lemma ExtendedFits(s: Saved, permits: seq<Permit>)
      requires WellFormed(s) && permits != [] && AuthorityRuns.Contiguous(s.host, permits)
      requires |s.entries| + |permits| <= MAX_ENTRIES
      ensures |AuthorityText.Render(Extended(s, permits))| <= MAX_BYTES
    {
      var next := Extended(s, permits);
      assert permits[|permits| - 1].Validated();
      forall e | e in next.entries
        ensures e.permit.Validated()
      {
        var k :| 0 <= k < |next.entries| && next.entries[k] == e;
        AuthorityRuns.ExtendedEntry(s, permits, k);
        if k < |s.entries| {
          assert EntryFits(s, s.entries[k]);
        }
      }
      AuthorityText.RenderFits(next);
    }

    method Register(permits: seq<Permit>) returns (r: Outcome)
      requires IsValid()
      modifies this
      ensures (View(), r) == AuthorityLedger.Register(old(View()), permits)
      ensures IsValid()
    {
      AuthorityRuns.ApplyKeepsWellFormed(sha, View(), AuthorityRuns.Registering(permits));
      if permits == [] || |permits| > MAX_BATCH { return Err(Invalid); }
      r := CheckBatch(permits);
      if r.Err? { return; }
      AuthorityRuns.BatchVerdictMeaning(host, permits, |permits|);
      assert permits[..|permits|] == permits;
      if permits[0].serial <= through {
        r := CheckRetained(permits);
        return;
      }
      if through + 1 != permits[0].serial { return Err(RegistrationOrder); }
      if |entries| + |permits| > MAX_ENTRIES { return Err(Capacity); }
      r := AppendBatch(permits);
    }

    method AppendBatch(permits: seq<Permit>) returns (r: Outcome)
      requires IsValid() && permits != [] && AuthorityRuns.Contiguous(host, permits)
      requires |entries| + |permits| <= MAX_ENTRIES
      modifies this
      ensures r == StateVerdict(Extended(old(View()), permits), host, old(through))
      ensures View() == if r.Ok? then Extended(old(View()), permits) else old(View())
    {
      var next := Propose(permits);
      ExtendedFits(View(), permits);
      var text := AuthorityText.Render(next);
      if |text| > MAX_BYTES { return Err(Capacity); }
      r := Decode(|text|, next, host, through);
      if r.Err? { return; }
      through, entries := next.through, next.entries;
    }

    lemma BatchStops(permits: seq<Permit>, n: nat)
      requires n <= |permits| && BatchVerdict(host, permits, n).Err?
      ensures BatchVerdict(host, permits, |permits|) == BatchVerdict(host, permits, n)
      decreases |permits| - n
    {
      if n < |permits| {
        BatchStops(permits, n + 1);
      }
    }

    static lemma RetainedStops(s: Saved, permits: seq<Permit>, n: nat)
      requires n <= |permits| && RetainedVerdict(s, permits, n).Err?
      ensures RetainedVerdict(s, permits, |permits|) == RetainedVerdict(s, permits, n)
      decreases |permits| - n
    {
      if n < |permits| {
        RetainedStops(s, permits, n + 1);
      }
    }

    method CheckAuthorized(permit: Permit) returns (r: Outcome)
      requires IsValid()
      ensures r == Authorize(View(), permit)
    {
      var found := Index(permit);
      if found.Err? { return Err(found.error); }
      return if entries[found.value].state.Active? then Ok(()) else Err(Conflict);
    }

    /** The retained active owner of an allocation; the entry found is the only one. */
    method ActiveAllocation(allocation: Uuid) returns (r: Result<Permit, Error>)
      requires IsValid()
      ensures r.Ok? <==>
              Valid(allocation) && exists e :: e in entries && e.permit.allocation == allocation && e.state.Active?
      ensures r.Ok? ==> r.value.allocation == allocation && Authorize(View(), r.value).Ok?
      ensures r == Err(Conflict) <==>
              Valid(allocation) && exists e :: e in entries && e.permit.allocation == allocation && !e.state.Active?
    {
      if !Valid(allocation) { return Err(Invalid); }
      for i := 0 to |entries|
        invariant forall k :: 0 <= k < i ==> entries[k].permit.allocation != allocation
      {
        if entries[i].permit.allocation == allocation {
          OnlyOwner(View(), i);
          assert entries[i] in entries;
          if !entries[i].state.Active? { return Err(Conflict); }
          FindIsUnique(entries, i);
          assert EntryFits(View(), entries[i]);
          return Ok(entries[i].permit);
        }
      }
      return Err(Ownership);
    }

    static lemma OnlyOwner(s: Saved, i: nat)
      requires WellFormed(s) && i < |s.entries|
      ensures forall e :: e in s.entries && e.permit.allocation == s.entries[i].permit.allocation ==> e == s.entries[i]
    {
      forall e | e in s.entries && e.permit.allocation == s.entries[i].permit.allocation
        ensures e == s.entries[i]
      {
        var j :| 0 <= j < |s.entries| && s.entries[j] == e;
        assert Clash(s.entries[i].permit, s.entries[j].permit);
        assert Clash(s.entries[j].permit, s.entries[i].permit);
      }
    }

    method Fence(permit: Permit, retirement: Uuid) returns (r: Outcome)
      requires IsValid()
      modifies this`entries
      ensures (View(), r) == AuthorityLedger.Fence(old(View()), permit, retirement)
      ensures IsValid()
    {
      AuthorityRuns.ApplyKeepsWellFormed(sha, View(), AuthorityRuns.Fencing(permit, retirement));
      if !Valid(retirement) { return Err(Invalid); }
      var found := Index(permit);
      if found.Err? { return Err(found.error); }
      var i := found.value;
      match entries[i].state {
        case Active =>
          entries := entries[i := entries[i].(state := Fenced(retirement))];
          return Ok(());
        case Fenced(kept) => return if kept == retirement then Ok(()) else Err(Conflict);
        case Complete(kept, _) => return if kept == retirement then Ok(()) else Err(Conflict);
      }
    }

    method Complete(intent: Intent) returns (r: Outcome)
      requires IsValid()
      modifies this`entries
      ensures (View(), r) == CompleteOwner(sha, old(View()), intent)
      ensures IsValid()
    {
      AuthorityRuns.ApplyKeepsWellFormed(sha, View(), AuthorityRuns.Completing(intent));
      var complete := CompletionState(sha, intent);
      if complete.Err? { return Err(complete.error); }
      var found := Index(intent.permit);
      if found.Err? { return Err(found.error); }
      var i := found.value;
      if entries[i].state == Fenced(intent.retirement) {
        entries := entries[i := entries[i].(state := complete.value)];
        return Ok(());
      }
      return if entries[i].state == complete.value then Ok(()) else Err(Conflict);
    }

    method CheckCompleted(intent: Intent) returns (r: Outcome)
      requires IsValid()
      ensures r == Completed(sha, View(), intent)
    {
      var expected := CompletionState(sha, intent);
      if expected.Err? { return Err(expected.error); }
      var found := Index(intent.permit);
      if found.Err? { return Err(found.error); }
      return if entries[found.value].state == expected.value then Ok(()) else Err(Conflict);
    }

    method Forget(intent: Intent) returns (r: Outcome)
      requires IsValid()
      modifies this`entries
      ensures (View(), r) == AuthorityLedger.Forget(sha, old(View()), intent)
      ensures IsValid()
    {
      AuthorityRuns.ApplyKeepsWellFormed(sha, View(), AuthorityRuns.Forgetting(intent));
      r := CheckCompleted(intent);
      if r.Err? { return; }
      var found := Index(intent.permit);
      if found.Err? { return Err(found.error); }
      entries := entries[..found.value] + entries[found.value + 1..];
    }
  }
}
