/** The launch-authority ledger as a value: what each operation of
    crates/sandbox-protocol/src/allocation_authority.rs answers and how it changes the
    saved state. The class in Authority.dfy updates the same state in place. */
module AuthorityLedger {
  import opened Wrappers
  import opened OperationIds
  import opened AuthorityRecords

  // --- lookups ---

  function Find(entries: seq<Entry>, serial: nat): (r: Option<nat>)
    ensures r.Some? ==> r.value < |entries| && entries[r.value].permit.serial == serial
    ensures r.None? ==> forall i :: 0 <= i < |entries| ==> entries[i].permit.serial != serial
  {
    if entries == [] then None
    else
      var last := |entries| - 1;
      if entries[last].permit.serial == serial then Some(last) else Find(entries[..last], serial)
  }

  lemma FindIsUnique(entries: seq<Entry>, i: nat)
    requires Sorted(entries) && i < |entries|
    ensures Find(entries, entries[i].permit.serial) == Some(i)
  {
    var r := Find(entries, entries[i].permit.serial);
    assert r.Some?;
  }

  function Locate(s: Saved, permit: Permit): (r: Result<nat, Error>)
    ensures r.Ok? ==> r.value < |s.entries| && s.entries[r.value].permit == permit
  {
    if !permit.Validated() then Err(Invalid)
    else if permit.host != s.host then Err(Ownership)
    else
      match Find(s.entries, permit.serial)
      case Some(i) => if s.entries[i].permit == permit then Ok(i) else Err(Ownership)
      case None => if permit.serial <= s.through then Err(Closed) else Err(Unregistered)
  }

  function StateOf(s: Saved, permit: Permit): Result<State, Error> {
    match Locate(s, permit)
    case Ok(i) => Ok(s.entries[i].state)
    case Err(e) => Err(e)
  }

  function Authorize(s: Saved, permit: Permit): Outcome {
    match StateOf(s, permit)
    case Ok(state) => if state.Active? then Ok(()) else Err(Conflict)
    case Err(e) => Err(e)
  }

  function Completed(sha: Hash, s: Saved, intent: Intent): Outcome {
    match CompletionState(sha, intent)
    case Err(e) => Err(e)
    case Ok(expected) =>
      match StateOf(s, intent.permit)
      case Err(e) => Err(e)
      case Ok(state) => if state == expected then Ok(()) else Err(Conflict)
  }

  // --- transitions: each answers the state to keep and the outcome reported ---

  // The first complaint about the shape of permits[..n].
  function BatchVerdict(host: Uuid, permits: seq<Permit>, n: nat): Outcome
    requires n <= |permits|
  {
    if n == 0 then Ok(())
    else if BatchVerdict(host, permits, n - 1).Err? then BatchVerdict(host, permits, n - 1)
    else
      var p := permits[n - 1];
      if !p.Validated() then Err(Invalid)
      else if p.host != host then Err(Ownership)
      else if n > 1 && permits[n - 2].serial + 1 != p.serial then Err(RegistrationOrder)
      else Ok(())
  }

  // The first lookup failure among permits[..n].
  function RetainedVerdict(s: Saved, permits: seq<Permit>, n: nat): Outcome
    requires n <= |permits|
  {
    if n == 0 then Ok(())
    else if RetainedVerdict(s, permits, n - 1).Err? then RetainedVerdict(s, permits, n - 1)
    else match Locate(s, permits[n - 1])
      case Ok(_) => Ok(())
      case Err(e) => Err(e)
  }

  function Extended(s: Saved, permits: seq<Permit>): Saved
    requires permits != []
  {
    s.(entries := s.entries + seq(|permits|, i requires 0 <= i < |permits| => Entry(permits[i], Active)),
       through := permits[|permits| - 1].serial)
  }

  // The proposed state is validated in full before it is published. Its text never reaches
  // the storage cap (AuthorityText.RenderFits), so the cap has no case of its own here.
  ghost function Register(s: Saved, permits: seq<Permit>): (Saved, Outcome) {
    if permits == [] || |permits| > MAX_BATCH then (s, Err(Invalid))
    else if BatchVerdict(s.host, permits, |permits|).Err? then (s, BatchVerdict(s.host, permits, |permits|))
    else if permits[0].serial <= s.through then (s, RetainedVerdict(s, permits, |permits|))
    else if s.through + 1 != permits[0].serial then (s, Err(RegistrationOrder))
    else if |s.entries| + |permits| > MAX_ENTRIES then (s, Err(Capacity))
    else
      var next := Extended(s, permits);
      var verdict := StateVerdict(next, s.host, s.through);
      (if verdict.Err? then s else next, verdict)
  }

  function WithState(s: Saved, i: nat, state: State): Saved
    requires i < |s.entries|
  {
    s.(entries := s.entries[i := s.entries[i].(state := state)])
  }

  function Fence(s: Saved, permit: Permit, retirement: Uuid): (Saved, Outcome) {
    if !Valid(retirement) then (s, Err(Invalid))
    else match Locate(s, permit)
      case Err(e) => (s, Err(e))
      case Ok(i) =>
        match s.entries[i].state
        case Active => (WithState(s, i, Fenced(retirement)), Ok(()))
        case Fenced(r) => (s, if r == retirement then Ok(()) else Err(Conflict))
        case Complete(r, _) => (s, if r == retirement then Ok(()) else Err(Conflict))
  }

  function CompleteOwner(sha: Hash, s: Saved, intent: Intent): (Saved, Outcome) {
    match CompletionState(sha, intent)
    case Err(e) => (s, Err(e))
    case Ok(complete) =>
      match Locate(s, intent.permit)
      case Err(e) => (s, Err(e))
      case Ok(i) =>
        var state := s.entries[i].state;
        if state == Fenced(intent.retirement) then (WithState(s, i, complete), Ok(()))
        else (s, if state == complete then Ok(()) else Err(Conflict))
  }

  function Forget(sha: Hash, s: Saved, intent: Intent): (Saved, Outcome) {
    match Completed(sha, s, intent)
    case Err(e) => (s, Err(e))
    case Ok(_) =>
      match Locate(s, intent.permit)
      case Err(e) => (s, Err(e))
      case Ok(i) => (s.(entries := s.entries[..i] + s.entries[i + 1..]), Ok(()))
  }

  // Reading the saved text back keeps the state; a rollback is refused.
  ghost function Reload(s: Saved, host: Uuid, minimum: nat): (Saved, Outcome) {
    (s, StateVerdict(s, host, minimum))
  }
}
