/** The saved launch authority of crates/sandbox-protocol/src/allocation_authority.rs: its
    records, the decoder's verdict entry by entry, and what a ledger means. */
module AuthorityRecords {
  import opened Wrappers
  import opened Bytes
  import opened OperationIds

  const MAX_ENTRIES := 1024
  const MAX_BATCH := 32
  const MAX_BYTES := 1024 * 1024
  const MAX_SERIAL := 0x7fff_ffff_ffff_ffff

  datatype Error = Invalid | Ownership | Capacity | RegistrationOrder | Closed | Unregistered | Conflict

  type Outcome = Result<(), Error>

  datatype Permit = Permit(
    host: Uuid, project: Uuid, sandbox: Uuid, allocation: Uuid, createOperation: Uuid,
    generation: int, originalEpoch: int, serial: nat)
  {
    predicate Validated() {
      && Valid(host) && Valid(project) && Valid(sandbox) && Valid(allocation) && Valid(createOperation)
      && 0 < generation <= MAX_SERIAL && 0 < originalEpoch <= MAX_SERIAL && 0 < serial <= MAX_SERIAL
    }
  }

  datatype State = Active | Fenced(retirement: Uuid) | Complete(retirement: Uuid, intentSha256: Digest)

  datatype Entry = Entry(permit: Permit, state: State)

  datatype Saved = Saved(version: nat, host: Uuid, through: nat, entries: seq<Entry>)

  // --- frozen retirement scope (crates/sandbox-protocol/src/allocation_retirement.rs) ---

  datatype DomainClosure = Empty | Retired(through: Uuid)

  datatype Intent = Intent(
    version: nat, retirement: Uuid, permit: Permit, commands: DomainClosure, files: DomainClosure,
    releaseEvidence: Text, simulated: bool)
  {
    predicate Validated() {
      && version == 1
      && Valid(retirement)
      && retirement != permit.createOperation
      && permit.Validated()
      && |releaseEvidence| == 64
      && (forall b :: b in releaseEvidence ==> 48 <= b <= 57 || 97 <= b <= 102)
      && ClosureValidated(commands)
      && ClosureValidated(files)
    }

    predicate ClosureValidated(domain: DomainClosure) {
      domain.Retired? ==>
        Valid(domain.through) && domain.through != retirement && domain.through != permit.createOperation
    }
  }

  // SHA-256 of the encoded intent, left uninterpreted.
  type Hash = Intent -> Digest

  function CompletionState(sha: Hash, intent: Intent): Result<State, Error> {
    if !intent.Validated() || intent.simulated then Err(Invalid)
    else Ok(Complete(intent.retirement, sha(intent)))
  }

  // --- storage validation ---

  function HeaderVerdict(s: Saved, host: Uuid, minimum: nat): Outcome {
    if !Valid(host) || s.version != 1 || s.through > MAX_SERIAL || s.through < minimum
       || |s.entries| > MAX_ENTRIES then Err(Invalid)
    else if s.host != host then Err(Ownership)
    else Ok(())
  }

  // The verdict on entry k alone, against the entries before it.
  ghost function EntryVerdict(s: Saved, host: Uuid, k: nat): Outcome
    requires k < |s.entries|
  {
    var p := s.entries[k].permit;
    if !p.Validated() then Err(Invalid)
    else if p.host != host then Err(Ownership)
    else if k > 0 && p.serial <= s.entries[k - 1].permit.serial then Err(Invalid)
    else if p.serial > s.through then Err(Invalid)
    else if exists j :: 0 <= j < k && Clash(s.entries[j].permit, p) then Err(Invalid)
    else if !s.entries[k].state.Active? && !Valid(s.entries[k].state.retirement) then Err(Invalid)
    else Ok(())
  }

  predicate Clash(p: Permit, q: Permit) {
    || p.allocation == q.allocation
    || p.createOperation == q.createOperation
    || (p.sandbox == q.sandbox && p.generation == q.generation)
  }

  // The first complaint among entries k, k+1, ...
  ghost function EntriesVerdict(s: Saved, host: Uuid, k: nat): Outcome
    requires k <= |s.entries|
    decreases |s.entries| - k
  {
    if k == |s.entries| then Ok(())
    else if EntryVerdict(s, host, k).Err? then EntryVerdict(s, host, k)
    else EntriesVerdict(s, host, k + 1)
  }

  ghost function StateVerdict(s: Saved, host: Uuid, minimum: nat): Outcome {
    if HeaderVerdict(s, host, minimum).Err? then HeaderVerdict(s, host, minimum)
    else EntriesVerdict(s, host, 0)
  }

  ghost function DecodeVerdict(length: nat, s: Saved, host: Uuid, minimum: nat): Outcome {
    if length > MAX_BYTES then Err(Capacity) else StateVerdict(s, host, minimum)
  }

  /** What a ledger means, without any order of checking. */
  ghost predicate WellFormed(s: Saved) {
    && s.version == 1
    && Valid(s.host)
    && s.through <= MAX_SERIAL
    && |s.entries| <= MAX_ENTRIES
    && Sorted(s.entries)
    && (forall i :: 0 <= i < |s.entries| ==> EntryFits(s, s.entries[i]))
    && (forall i, j :: 0 <= i < j < |s.entries| ==> !Clash(s.entries[i].permit, s.entries[j].permit))
  }

  ghost predicate Sorted(entries: seq<Entry>) {
    forall i, j :: 0 <= i < j < |entries| ==> entries[i].permit.serial < entries[j].permit.serial
  }

  predicate EntryFits(s: Saved, e: Entry) {
    && e.permit.Validated()
    && e.permit.host == s.host
    && e.permit.serial <= s.through
    && (!e.state.Active? ==> Valid(e.state.retirement))
  }

  lemma {:induction false} EntriesVerdictMeaning(s: Saved, host: Uuid, k: nat)
    requires k <= |s.entries|
    ensures EntriesVerdict(s, host, k).Ok? <==> forall i :: k <= i < |s.entries| ==> EntryVerdict(s, host, i).Ok?
    decreases |s.entries| - k
  {
    if k < |s.entries| {
      EntriesVerdictMeaning(s, host, k + 1);
    }
  }

  lemma {:induction false} AdjacentMeansSorted(entries: seq<Entry>, i: nat, j: nat)
    requires forall k :: 0 < k < |entries| ==> entries[k - 1].permit.serial < entries[k].permit.serial
    requires i < j < |entries|
    ensures entries[i].permit.serial < entries[j].permit.serial
  {
    if i + 1 < j {
      AdjacentMeansSorted(entries, i, j - 1);
    }
  }

  lemma AcceptedIsWellFormed(s: Saved, host: Uuid, minimum: nat)
    requires HeaderVerdict(s, host, minimum).Ok?
    requires forall i :: 0 <= i < |s.entries| ==> EntryVerdict(s, host, i).Ok?
    ensures WellFormed(s)
  {
    forall k | 0 < k < |s.entries|
      ensures s.entries[k - 1].permit.serial < s.entries[k].permit.serial
    {
      assert EntryVerdict(s, host, k).Ok?;
    }
    forall i, j | 0 <= i < j < |s.entries|
      ensures s.entries[i].permit.serial < s.entries[j].permit.serial
      ensures !Clash(s.entries[i].permit, s.entries[j].permit)
    {
      assert EntryVerdict(s, host, j).Ok?;
      AdjacentMeansSorted(s.entries, i, j);
    }
    forall i | 0 <= i < |s.entries|
      ensures EntryFits(s, s.entries[i])
    {
      assert EntryVerdict(s, host, i).Ok?;
    }
  }

  lemma WellFormedIsAccepted(s: Saved, i: nat)
    requires WellFormed(s) && i < |s.entries|
    ensures EntryVerdict(s, s.host, i).Ok?
  {
    assert EntryFits(s, s.entries[i]);
  }

  /** The entry-by-entry decoder accepts exactly the well-formed ledgers of this host
      whose frontier has not rolled back and whose text is short enough. */
  lemma DecodeAcceptsExactlyWellFormed(length: nat, s: Saved, host: Uuid, minimum: nat)
    ensures DecodeVerdict(length, s, host, minimum).Ok? <==>
            length <= MAX_BYTES && WellFormed(s) && s.host == host && minimum <= s.through
  {
    EntriesVerdictMeaning(s, host, 0);
    if DecodeVerdict(length, s, host, minimum).Ok? {
      AcceptedIsWellFormed(s, host, minimum);
    } else if WellFormed(s) && s.host == host {
      forall i | 0 <= i < |s.entries|
        ensures EntryVerdict(s, host, i).Ok?
      {
        WellFormedIsAccepted(s, i);
      }
    }
  }
}
