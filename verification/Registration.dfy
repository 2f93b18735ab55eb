/** The registration handshake between the database that issues permits
    (crates/sandbox-store/src/allocation_permits.rs), any number of racing controllers
    (crates/sandbox-controller/src/allocation_authority.rs) and the host that keeps the
    launch authority, over a channel that may lose replies. */
module Registration {
  import opened Wrappers
  import opened OperationIds
  import opened AuthorityRecords
  import opened AuthorityLedger
  import opened AuthorityRuns

  // --- the issuing database ---

  // A permit row with the verdict of its join against the allocation and operation rows.
  datatype Row = Row(permit: Permit, consistent: bool)

  datatype Database = Database(
    host: Uuid, epoch: int, issued: nat, rows: seq<Row>, registered: nat, required: bool, unissued: bool)

  datatype Batch = Batch(issuedThrough: nat, permits: seq<Permit>, hasUnissued: bool)

  function Min(a: nat, b: nat): nat {
    if a < b then a else b
  }

  // Rows with serial in after+1 .. after+MAX_BATCH, as far as the table reaches.
  function Selected(db: Database, after: nat): seq<Row> {
    if after > |db.rows| then [] else db.rows[after..Min(|db.rows|, after + MAX_BATCH)]
  }

  // The guarded UPDATE of the host's checkpoint.
  function Recorded(db: Database, epoch: int, required: bool, through: nat): (Database, bool) {
    if epoch <= 0 || through > MAX_SERIAL || (!required && through != 0) then (db, false)
    else if db.epoch == epoch && (required || !db.required) && db.registered <= through <= db.issued
    then (db.(required := required, registered := through), true)
    else (db, false)
  }

  function Stamped(rows: seq<Row>, host: Uuid): (permits: seq<Permit>)
    ensures |permits| == |rows|
    ensures forall i :: 0 <= i < |rows| ==> permits[i] == rows[i].permit.(host := host)
  {
    if rows == [] then []
    else Stamped(rows[..|rows| - 1], host) + [rows[|rows| - 1].permit.(host := host)]
  }

  /** A checkpoint is recorded exactly for the present epoch of the host, if it is not behind the
      last one nor beyond what was issued, and registration, once required, stays so; without the
      requirement only serial zero counts. A refusal changes nothing. */
  lemma RecordingAnswers(db: Database, epoch: int, required: bool, through: nat)
    ensures var (db', ok) := Recorded(db, epoch, required, through);
            && (ok <==>
                  && epoch > 0 && epoch == db.epoch && db.registered <= through <= db.issued && through <= MAX_SERIAL
                  && (required || (!db.required && through == 0)))
            && (!ok ==> db' == db)
            && (ok ==> db'.registered == through && db'.required == required
                       && db'.(required := db.required, registered := db.registered) == db)
  {}

  function BatchAfter(db: Database, after: nat): Option<Batch> {
    if after > MAX_SERIAL || after > db.issued then None
    else if |Selected(db, after)| != Min(db.issued - after, MAX_BATCH) then None
    else if forall i :: 0 <= i < |Selected(db, after)| ==>
              Selected(db, after)[i].consistent && Selected(db, after)[i].permit.serial == after + i + 1
    then
      Some(Batch(db.issued, Stamped(Selected(db, after), db.host), db.unissued))
    else None
  }

  /** On a table without gaps the read always succeeds and is exactly the issued permits
      following `after`, as many as min(32, gap). */
  lemma ValidTableServesNextPermits(db: Database, after: nat)
    requires TableValid(db) && after <= db.issued
    ensures var r := BatchAfter(db, after);
            && r.Some?
            && r.value.issuedThrough == db.issued && r.value.hasUnissued == db.unissued
            && |r.value.permits| == Min(db.issued - after, MAX_BATCH)
            && forall i :: 0 <= i < |r.value.permits| ==> r.value.permits[i] == db.rows[after + i].permit
  {
    forall i | 0 <= i < |Selected(db, after)|
      ensures Selected(db, after)[i].consistent && Selected(db, after)[i].permit.serial == after + i + 1
      ensures Selected(db, after)[i].permit.host == db.host
    {
      assert RowValid(db, after + i);
    }
  }

  // --- the whole deployment ---

  // How far one controller has got in its current exchange.
  datatype Session =
    | Idle
    | Started
    | Observed(seen: nat)
    | Checkpointed(seen: nat)
    | Fetched(seen: nat, batch: Batch)
    | Acknowledged(seen: nat, batch: Batch, ack: nat)
    | Synced(seen: nat, through: nat)

  datatype World = World(db: Database, ledger: Saved, hostEpoch: int, sessions: map<nat, Session>)

  datatype Fate = Delivered | ReplyLost | NotSaved

  datatype Event =
    | IssuePermit(permit: Permit)
    | Begin(c: nat)
    | RecordOpen(c: nat, epoch: int)
    | Inspect(c: nat, epoch: int, lost: bool)
    | RecordObserved(c: nat, epoch: int)
    | FetchBatch(c: nat)
    | RegisterBatch(c: nat, epoch: int, fate: Fate)
    | RecordAck(c: nat, epoch: int)
    | HostRetires(op: Op, saved: bool)
    | AdvanceHostEpoch(epoch: int)
    | AdvanceDatabaseEpoch(epoch: int)

  function SessionOf(w: World, c: nat): Session {
    if c in w.sessions then w.sessions[c] else Idle
  }

  function With(w: World, c: nat, session: Session): World {
    w.(sessions := w.sessions[c := session])
  }

  // What placement inserts in the transaction that reserves an allocation.
  ghost predicate Issuable(db: Database, permit: Permit) {
    && permit.Validated() && permit.host == db.host && permit.serial == db.issued + 1
    && forall r :: r in db.rows ==> !Clash(r.permit, permit)
  }

  // The host's durable ledger after a registration request and the frontier it acknowledges;
  // no acknowledgement means an error or a lost reply.
  ghost function HostAnswer(ledger: Saved, hostEpoch: int, epoch: int, permits: seq<Permit>, fate: Fate)
    : (Saved, Option<nat>)
  {
    if epoch != hostEpoch || fate.NotSaved? || (exists p :: p in permits && p.originalEpoch > epoch)
    then (ledger, None)
    else
      var (next, outcome) := Register(ledger, permits);
      (next, if outcome.Err? || fate.ReplyLost? then None else Some(next.through))
  }

  /** The host acknowledges a batch exactly if it comes under the host's epoch, no permit is of a
      later one, the ledger accepts and saves it, and the reply arrives; the acknowledgement is the
      new frontier. A request that was not saved has changed nothing. */
  lemma HostAnswers(ledger: Saved, hostEpoch: int, epoch: int, permits: seq<Permit>, fate: Fate)
    ensures var (next, ack) := HostAnswer(ledger, hostEpoch, epoch, permits, fate);
            var heard := epoch == hostEpoch && forall p :: p in permits ==> p.originalEpoch <= epoch;
            && (ack.Some? <==> heard && fate.Delivered? && Register(ledger, permits).1.Ok?)
            && (ack.Some? ==> ack.value == next.through)
            && (next != ledger ==> heard && !fate.NotSaved? && Register(ledger, permits).1.Ok?)
            && (heard && !fate.NotSaved? ==> next == Register(ledger, permits).0)
  {
    RefusedRegistrationChangesNothing(ledger, permits);
    hide Register;
  }

  lemma RefusedRegistrationChangesNothing(s: Saved, permits: seq<Permit>)
    ensures Register(s, permits).1.Err? ==> Register(s, permits).0 == s
  {}

  ghost function Step(sha: Hash, w: World, e: Event): World {
    match e
    case IssuePermit(permit) =>
      if Issuable(w.db, permit)
      then w.(db := w.db.(issued := permit.serial, rows := w.db.rows + [Row(permit, true)]))
      else w
    case Begin(c) => With(w, c, Started)
    case RecordOpen(c, epoch) =>
      if SessionOf(w, c).Started?
      then With(w.(db := Recorded(w.db, epoch, false, 0).0), c,
                if Recorded(w.db, epoch, false, 0).1 then Synced(0, 0) else Idle)
      else w
    case Inspect(c, epoch, lost) =>
      if !SessionOf(w, c).Started? then w
      else With(w, c, if lost || epoch != w.hostEpoch then Idle else Observed(w.ledger.through))
    case RecordObserved(c, epoch) =>
      (match SessionOf(w, c)
       case Observed(seen) =>
         var (db, ok) := Recorded(w.db, epoch, true, seen);
         With(w.(db := db), c, if ok then Checkpointed(seen) else Idle)
       case _ => w)
    case FetchBatch(c) =>
      (match SessionOf(w, c)
       case Checkpointed(seen) =>
         With(w, c,
              match BatchAfter(w.db, seen)
              case None => Idle
              case Some(batch) =>
                if batch.hasUnissued then Idle
                else if batch.permits == [] then Synced(seen, seen)
                else Fetched(seen, batch))
       case _ => w)
    case RegisterBatch(c, epoch, fate) =>
      (match SessionOf(w, c)
       case Fetched(seen, batch) =>
         var (next, ack) := HostAnswer(w.ledger, w.hostEpoch, epoch, batch.permits, fate);
         With(w.(ledger := next), c, if ack.None? then Idle else Acknowledged(seen, batch, ack.value))
       case _ => w)
    case RecordAck(c, epoch) =>
      (match SessionOf(w, c)
       case Acknowledged(seen, batch, ack) =>
         if batch.permits == [] || ack < batch.permits[|batch.permits| - 1].serial || ack > batch.issuedThrough
         then With(w, c, Idle)
         else
           var (db, ok) := Recorded(w.db, epoch, true, ack);
           With(w.(db := db), c, if ok then Synced(seen, ack) else Idle)
       case _ => w)
    case HostRetires(op, saved) =>
      if op.Registering? || !saved then w else w.(ledger := Apply(sha, w.ledger, op).0)
    case AdvanceHostEpoch(epoch) => if epoch > w.hostEpoch then w.(hostEpoch := epoch) else w
    case AdvanceDatabaseEpoch(epoch) =>
      if epoch > w.db.epoch then w.(db := w.db.(epoch := epoch)) else w
  }

  ghost function RunWorld(sha: Hash, w: World, events: seq<Event>): World
    decreases |events|
  {
    if events == [] then w else RunWorld(sha, Step(sha, w, events[0]), events[1..])
  }

  // --- what every reachable deployment satisfies ---

  ghost predicate TableValid(db: Database) {
    && |db.rows| == db.issued <= MAX_SERIAL
    && (forall i :: 0 <= i < |db.rows| ==> RowValid(db, i))
    && (forall i, j :: 0 <= i < j < |db.rows| ==> !Clash(db.rows[i].permit, db.rows[j].permit))
  }

  predicate RowValid(db: Database, i: nat)
    requires i < |db.rows|
  {
    && db.rows[i].consistent
    && db.rows[i].permit.Validated()
    && db.rows[i].permit.host == db.host
    && db.rows[i].permit.serial == i + 1
  }

  predicate IsSlice(db: Database, after: nat, permits: seq<Permit>) {
    && after + |permits| <= |db.rows|
    && forall i :: 0 <= i < |permits| ==> permits[i] == db.rows[after + i].permit
  }

  predicate SessionFits(w: World, s: Session) {
    match s
    case Idle => true
    case Started => true
    case Observed(seen) => seen <= w.ledger.through
    case Checkpointed(seen) => seen <= w.ledger.through
    case Fetched(seen, batch) => BatchFits(w, seen, batch)
    case Acknowledged(seen, batch, ack) => BatchFits(w, seen, batch) && ack <= w.ledger.through
    case Synced(seen, through) => seen <= through <= w.ledger.through
  }

  predicate BatchFits(w: World, seen: nat, batch: Batch) {
    && seen <= w.ledger.through
    && seen <= batch.issuedThrough <= w.db.issued
    && 0 < |batch.permits| == Min(batch.issuedThrough - seen, MAX_BATCH)
    && IsSlice(w.db, seen, batch.permits)
  }

  ghost predicate Owned(w: World, e: Entry) {
    && 0 < e.permit.serial <= |w.db.rows|
    && e.permit == w.db.rows[e.permit.serial - 1].permit
  }

  /** Recorded checkpoint, host frontier and issued frontier are ordered, and the host
      retains nothing but issued permits at their own serials. */
  ghost predicate Inv(w: World) {
    && TableValid(w.db)
    && WellFormed(w.ledger)
    && w.ledger.host == w.db.host
    && w.db.registered <= w.ledger.through <= w.db.issued
    && (forall e :: e in w.ledger.entries ==> Owned(w, e))
    && (forall c :: c in w.sessions ==> SessionFits(w, w.sessions[c]))
  }

  // The part of a step that other sessions can see.
  ghost predicate Advances(w: World, w': World) {
    && w.ledger.through <= w'.ledger.through
    && w.db.registered <= w'.db.registered
    && w.db.issued <= w'.db.issued
    && w.db.rows <= w'.db.rows
    && (w.db.required ==> w'.db.required)
  }

  lemma SessionStillFits(w: World, w': World, s: Session)
    requires TableValid(w.db) && TableValid(w'.db) && Advances(w, w') && SessionFits(w, s)
    ensures SessionFits(w', s)
  {
    if s.Fetched? || s.Acknowledged? {
      forall i | 0 <= i < |s.batch.permits|
        ensures s.batch.permits[i] == w'.db.rows[s.seen + i].permit
      {
        assert w'.db.rows[s.seen + i] == w.db.rows[s.seen + i];
      }
    }
  }

  lemma SessionsStillFit(w: World, w': World)
    requires Inv(w) && TableValid(w'.db) && Advances(w, w')
    ensures forall c :: c in w.sessions ==> SessionFits(w', w.sessions[c])
  {
    forall c | c in w.sessions
      ensures SessionFits(w', w.sessions[c])
    {
      SessionStillFits(w, w', w.sessions[c]);
    }
  }

  lemma IssueKeeps(w: World, permit: Permit)
    requires Inv(w) && Issuable(w.db, permit)
    ensures var w' := w.(db := w.db.(issued := permit.serial, rows := w.db.rows + [Row(permit, true)]));
            Inv(w') && Advances(w, w')
  {
    var w' := w.(db := w.db.(issued := permit.serial, rows := w.db.rows + [Row(permit, true)]));
    var n := |w.db.rows|;
    forall i | 0 <= i <= n
      ensures RowValid(w'.db, i)
    {
      if i < n {
        assert RowValid(w.db, i) && w'.db.rows[i] == w.db.rows[i];
      }
    }
    forall i, j | 0 <= i < j <= n
      ensures !Clash(w'.db.rows[i].permit, w'.db.rows[j].permit)
    {
      assert w'.db.rows[i] == w.db.rows[i];
      if j == n {
        assert w.db.rows[i] in w.db.rows;
      }
    }
    forall e | e in w'.ledger.entries
      ensures Owned(w', e)
    {
      assert Owned(w, e);
      assert w'.db.rows[e.permit.serial - 1] == w.db.rows[e.permit.serial - 1];
    }
    SessionsStillFit(w, w');
  }

  lemma SliceIsContiguous(db: Database, after: nat, permits: seq<Permit>)
    requires TableValid(db) && IsSlice(db, after, permits)
    ensures Contiguous(db.host, permits)
    ensures forall i :: 0 <= i < |permits| ==> permits[i].serial == after + i + 1
  {
    forall i | 0 <= i < |permits|
      ensures permits[i].Validated() && permits[i].host == db.host && permits[i].serial == after + i + 1
    {
      assert RowValid(db, after + i);
    }
  }

  lemma FetchFits(w: World, seen: nat)
    requires Inv(w) && seen <= w.ledger.through && BatchAfter(w.db, seen).Some?
    ensures var batch := BatchAfter(w.db, seen).value;
            batch.permits != [] ==> BatchFits(w, seen, batch)
  {
    var batch := BatchAfter(w.db, seen).value;
    forall i | 0 <= i < |batch.permits|
      ensures batch.permits[i] == w.db.rows[seen + i].permit
    {
      assert RowValid(w.db, seen + i);
    }
  }

  lemma ExtendedOwned(w: World, seen: nat, permits: seq<Permit>)
    requires Inv(w) && permits != [] && IsSlice(w.db, seen, permits)
    ensures forall e :: e in Extended(w.ledger, permits).entries ==> Owned(w, e)
  {
    var next := Extended(w.ledger, permits);
    forall e | e in next.entries
      ensures Owned(w, e)
    {
      var k :| 0 <= k < |next.entries| && next.entries[k] == e;
      ExtendedEntry(w.ledger, permits, k);
      if k >= |w.ledger.entries| {
        assert RowValid(w.db, seen + (k - |w.ledger.entries|));
      } else {
        assert w.ledger.entries[k] in w.ledger.entries;
      }
    }
  }

  lemma RetriedBatchIsBelowFrontier(s: Saved, permits: seq<Permit>)
    requires WellFormed(s) && permits != [] && Retry(s, permits)
    ensures permits[|permits| - 1].serial <= s.through
  {
    var last := permits[|permits| - 1];
    assert last in permits;
    var k :| 0 <= k < |s.entries| && s.entries[k].permit == last;
    assert EntryFits(s, s.entries[k]);
  }

  lemma RegisteredOwned(w: World, seen: nat, permits: seq<Permit>)
    requires Inv(w) && permits != [] && IsSlice(w.db, seen, permits)
    requires Register(w.ledger, permits).1.Ok?
    ensures var next := Register(w.ledger, permits).0;
            && WellFormed(next) && next.host == w.db.host
            && w.ledger.through <= next.through <= w.db.issued
            && seen + |permits| <= next.through
            && (forall e :: e in next.entries ==> Owned(w, e))
  {
    SliceIsContiguous(w.db, seen, permits);
    RegisterMeaning(w.ledger, permits);
    if Retry(w.ledger, permits) {
      RetriedBatchIsBelowFrontier(w.ledger, permits);
    } else {
      ExtendedWellFormed(w.ledger, permits);
      ExtendedOwned(w, seen, permits);
    }
  }

  lemma RetiringPermits(sha: Hash, s: Saved, op: Op, k: nat)
    requires !op.Registering? && k < |Apply(sha, s, op).0.entries|
    ensures exists j :: 0 <= j < |s.entries| && Apply(sha, s, op).0.entries[k].permit == s.entries[j].permit
    ensures Apply(sha, s, op).0.through == s.through
  {
    var next := Apply(sha, s, op).0;
    if op.Forgetting? && next != s {
      var i := Locate(s, op.intent.permit).value;
      var j := if k < i then k else k + 1;
      assert next.entries[k].permit == s.entries[j].permit;
    } else {
      assert next.entries[k].permit == s.entries[k].permit;
    }
  }

  lemma RetiringOwned(sha: Hash, w: World, op: Op, next: Saved)
    requires Inv(w) && !op.Registering? && next == Apply(sha, w.ledger, op).0
    ensures next.through == w.ledger.through
    ensures forall e :: e in next.entries ==> Owned(w, e)
  {
    forall e | e in next.entries
      ensures Owned(w, e)
    {
      var k :| 0 <= k < |next.entries| && next.entries[k] == e;
      RetiringPermits(sha, w.ledger, op, k);
      var j :| 0 <= j < |w.ledger.entries| && e.permit == w.ledger.entries[j].permit;
      assert w.ledger.entries[j] in w.ledger.entries;
    }
  }

  lemma OnlySessionChanges(w: World, c: nat, session: Session)
    requires Inv(w) && SessionFits(w, session)
    ensures Inv(With(w, c, session)) && Advances(w, With(w, c, session))
  {
    var w' := With(w, c, session);
    assert forall e :: e in w'.ledger.entries ==> Owned(w, e) && Owned(w', e);
    forall k | k in w'.sessions
      ensures SessionFits(w', w'.sessions[k])
    {
      SessionStillFits(w, w', w'.sessions[k]);
    }
  }

  lemma CheckpointKeeps(w: World, epoch: int, required: bool, through: nat)
    requires Inv(w) && through <= w.ledger.through
    ensures var w' := w.(db := Recorded(w.db, epoch, required, through).0);
            Inv(w') && Advances(w, w')
  {
    var w' := w.(db := Recorded(w.db, epoch, required, through).0);
    assert w'.db.rows == w.db.rows;
    forall i | 0 <= i < |w'.db.rows|
      ensures RowValid(w'.db, i)
    {
      assert RowValid(w.db, i);
    }
    assert forall e :: e in w'.ledger.entries ==> Owned(w, e) && Owned(w', e);
    SessionsStillFit(w, w');
  }

  lemma LedgerKeeps(w: World, next: Saved)
    requires Inv(w) && WellFormed(next) && next.host == w.db.host
    requires w.ledger.through <= next.through <= w.db.issued
    requires forall e :: e in next.entries ==> Owned(w, e)
    ensures Inv(w.(ledger := next)) && Advances(w, w.(ledger := next))
  {
    var w' := w.(ledger := next);
    assert forall e :: e in next.entries ==> Owned(w, e) && Owned(w', e);
    SessionsStillFit(w, w');
  }

  lemma RetiringKeeps(sha: Hash, w: World, op: Op)
    requires Inv(w) && !op.Registering?
    ensures var w' := w.(ledger := Apply(sha, w.ledger, op).0); Inv(w') && Advances(w, w')
  {
    var next := Apply(sha, w.ledger, op).0;
    ApplyKeepsWellFormed(sha, w.ledger, op);
    RetiringOwned(sha, w, op, next);
    LedgerKeeps(w, next);
  }

  lemma AnswerFits(w: World, seen: nat, epoch: int, permits: seq<Permit>, fate: Fate)
    requires Inv(w) && permits != [] && IsSlice(w.db, seen, permits)
    ensures var (next, ack) := HostAnswer(w.ledger, w.hostEpoch, epoch, permits, fate);
            && WellFormed(next) && next.host == w.db.host
            && w.ledger.through <= next.through <= w.db.issued
            && (forall e :: e in next.entries ==> Owned(w, e))
            && (ack.Some? ==> ack.value == next.through)
  {
    RefusedRegistrationChangesNothing(w.ledger, permits);
    if Register(w.ledger, permits).1.Ok? {
      RegisteredOwned(w, seen, permits);
    }
  }

  lemma AnswerKeeps(w: World, c: nat, next: Saved, session: Session)
    requires Inv(w) && WellFormed(next) && next.host == w.db.host
    requires w.ledger.through <= next.through <= w.db.issued
    requires forall e :: e in next.entries ==> Owned(w, e)
    requires session.Idle? || (session.Acknowledged? && session.ack == next.through
                               && SessionOf(w, c) == Fetched(session.seen, session.batch))
    ensures var w' := With(w.(ledger := next), c, session); Inv(w') && Advances(w, w')
  {
    LedgerKeeps(w, next);
    SessionStillFits(w, w.(ledger := next), SessionOf(w, c));
    OnlySessionChanges(w.(ledger := next), c, session);
  }

  lemma RegisterKeeps(w: World, c: nat, epoch: int, fate: Fate, sha: Hash)
    requires Inv(w) && SessionOf(w, c).Fetched?
    ensures var w' := Step(sha, w, RegisterBatch(c, epoch, fate)); Inv(w') && Advances(w, w')
  {
    hide HostAnswer;
    var Fetched(seen, batch) := SessionOf(w, c);
    AnswerFits(w, seen, epoch, batch.permits, fate);
    var (next, ack) := HostAnswer(w.ledger, w.hostEpoch, epoch, batch.permits, fate);
    AnswerKeeps(w, c, next, if ack.None? then Idle else Acknowledged(seen, batch, ack.value));
  }

  lemma RecordAckKeeps(w: World, c: nat, epoch: int, sha: Hash)
    requires Inv(w) && SessionOf(w, c).Acknowledged?
    ensures var w' := Step(sha, w, RecordAck(c, epoch)); Inv(w') && Advances(w, w')
  {
    var Acknowledged(seen, batch, ack) := SessionOf(w, c);
    SliceIsContiguous(w.db, seen, batch.permits);
    CheckpointKeeps(w, epoch, true, ack);
    var middle := w.(db := Recorded(w.db, epoch, true, ack).0);
    var w' := Step(sha, w, RecordAck(c, epoch));
    if ack < batch.permits[|batch.permits| - 1].serial || ack > batch.issuedThrough {
      OnlySessionChanges(w, c, Idle);
    } else {
      OnlySessionChanges(middle, c, SessionOf(w', c));
    }
  }

  lemma InspectionKeeps(sha: Hash, w: World, e: Event)
    requires Inv(w) && (e.Begin? || e.RecordOpen? || e.Inspect? || e.RecordObserved? || e.FetchBatch?)
    ensures Inv(Step(sha, w, e)) && Advances(w, Step(sha, w, e))
  {
    match e {
      case Begin(c) => OnlySessionChanges(w, c, Started);
      case RecordOpen(c, epoch) =>
        CheckpointKeeps(w, epoch, false, 0);
        var middle := w.(db := Recorded(w.db, epoch, false, 0).0);
        OnlySessionChanges(middle, c, Synced(0, 0));
        OnlySessionChanges(middle, c, Idle);
      case Inspect(c, _, _) =>
        OnlySessionChanges(w, c, Idle);
        OnlySessionChanges(w, c, Observed(w.ledger.through));
      case RecordObserved(c, epoch) =>
        if SessionOf(w, c).Observed? {
          var seen := SessionOf(w, c).seen;
          CheckpointKeeps(w, epoch, true, seen);
          var middle := w.(db := Recorded(w.db, epoch, true, seen).0);
          OnlySessionChanges(middle, c, Checkpointed(seen));
          OnlySessionChanges(middle, c, Idle);
        }
      case FetchBatch(c) =>
        if SessionOf(w, c).Checkpointed? {
          if BatchAfter(w.db, SessionOf(w, c).seen).Some? {
            FetchFits(w, SessionOf(w, c).seen);
          }
          OnlySessionChanges(w, c, SessionOf(Step(sha, w, e), c));
        }
    }
  }

  lemma EpochKeeps(w: World, hostEpoch: int, epoch: int)
    requires Inv(w)
    ensures var w' := w.(hostEpoch := hostEpoch, db := w.db.(epoch := epoch)); Inv(w') && Advances(w, w')
  {
    var w' := w.(hostEpoch := hostEpoch, db := w.db.(epoch := epoch));
    assert forall i :: 0 <= i < |w'.db.rows| ==> RowValid(w.db, i) && RowValid(w'.db, i);
    assert forall x :: x in w'.ledger.entries ==> Owned(w, x) && Owned(w', x);
    SessionsStillFit(w, w');
  }

  /** Every step, lost or delivered, keeps the invariant and only moves forward; the
      required flag in particular is never taken back. */
  lemma StepKeeps(sha: Hash, w: World, e: Event)
    requires Inv(w)
    ensures Inv(Step(sha, w, e)) && Advances(w, Step(sha, w, e))
  {
    match e {
      case IssuePermit(permit) =>
        if Issuable(w.db, permit) {
          IssueKeeps(w, permit);
        }
      case RegisterBatch(c, epoch, fate) =>
        if SessionOf(w, c).Fetched? {
          RegisterKeeps(w, c, epoch, fate, sha);
        }
      case RecordAck(c, epoch) =>
        if SessionOf(w, c).Acknowledged? {
          RecordAckKeeps(w, c, epoch, sha);
        }
      case HostRetires(op, saved) =>
        if !op.Registering? && saved {
          RetiringKeeps(sha, w, op);
        }
      case AdvanceHostEpoch(epoch) => EpochKeeps(w, epoch, w.db.epoch);
      case AdvanceDatabaseEpoch(epoch) => EpochKeeps(w, w.hostEpoch, epoch);
      case _ => InspectionKeeps(sha, w, e);
    }
  }

  /** In every run, whatever is lost and however controllers race: recorded checkpoint <=
      host frontier <= issued frontier, and none of them nor the required flag goes back. */
  lemma {:induction false} FrontiersStayOrdered(sha: Hash, w: World, events: seq<Event>)
    requires Inv(w)
    ensures var w' := RunWorld(sha, w, events);
            && Inv(w') && Advances(w, w')
            && w'.db.registered <= w'.ledger.through <= w'.db.issued
    decreases |events|
  {
    if events != [] {
      StepKeeps(sha, w, events[0]);
      FrontiersStayOrdered(sha, Step(sha, w, events[0]), events[1..]);
    }
  }

  // Nothing issued, nothing registered, no controller at work.
  function Beginning(host: Uuid, epoch: int, hostEpoch: int, unissued: bool): World {
    World(Database(host, epoch, 0, [], 0, false, unissued), New(host), hostEpoch, map[])
  }

  lemma ReachableFrontiersAreOrdered(
      sha: Hash, host: Uuid, epoch: int, hostEpoch: int, unissued: bool, events: seq<Event>)
    requires Valid(host)
    ensures var w := RunWorld(sha, Beginning(host, epoch, hostEpoch, unissued), events);
            w.db.registered <= w.ledger.through <= w.db.issued
            && forall e :: e in w.ledger.entries ==> Owned(w, e)
  {
    FrontiersStayOrdered(sha, Beginning(host, epoch, hostEpoch, unissued), events);
  }

  /** A round whose acknowledgement is recorded moved the host by at least min(32, gap)
      past what it had inspected, and the database now records exactly that frontier. */
  lemma AcknowledgedRoundAdvances(sha: Hash, w: World, c: nat, epoch: int)
    requires Inv(w) && SessionOf(w, c).Acknowledged?
    ensures var Acknowledged(seen, batch, ack) := SessionOf(w, c);
            var w' := Step(sha, w, RecordAck(c, epoch));
            SessionOf(w', c).Synced? ==>
              && seen + Min(batch.issuedThrough - seen, MAX_BATCH) <= ack <= batch.issuedThrough
              && w'.db.registered == ack && w'.db.required
              && SessionOf(w', c).through == ack
  {
    var Acknowledged(seen, batch, ack) := SessionOf(w, c);
    SliceIsContiguous(w.db, seen, batch.permits);
  }

  /** The exact next batch of issued permits is refused only for want of room. */
  lemma NextBatchIsRefusedOnlyForCapacity(w: World, permits: seq<Permit>)
    requires Inv(w) && 0 < |permits| <= MAX_BATCH && IsSlice(w.db, w.ledger.through, permits)
    ensures Register(w.ledger, permits).1.Ok? <==> |w.ledger.entries| + |permits| <= MAX_ENTRIES
  {
    var after := w.ledger.through;
    SliceIsContiguous(w.db, after, permits);
    RegisterMeaning(w.ledger, permits);
    forall i, j | 0 <= i < j < |permits|
      ensures !Clash(permits[i], permits[j])
    {
      assert permits[i] == w.db.rows[after + i].permit && permits[j] == w.db.rows[after + j].permit;
    }
    forall i, j | 0 <= i < |w.ledger.entries| && 0 <= j < |permits|
      ensures !Clash(w.ledger.entries[i].permit, permits[j])
    {
      assert w.ledger.entries[i] in w.ledger.entries;
      assert EntryFits(w.ledger, w.ledger.entries[i]);
      assert permits[j] == w.db.rows[after + j].permit;
    }
  }

  // The permit handed to Create: the row of the exact owner, if its serial is covered.
  function LaunchPermit(w: World, c: nat, serial: nat): Option<Permit> {
    match SessionOf(w, c)
    case Synced(_, through) =>
      if 0 < serial <= |w.db.rows| && w.db.rows[serial - 1].consistent && serial <= through
      then Some(w.db.rows[serial - 1].permit) else None
    case _ => None
  }

  /** Whatever else happens between the synchronization and the launch, a permit handed to
      Create has been registered on the host: its serial is retained for this exact owner
      or already closed, never unregistered and never somebody else's. */
  lemma LaunchPermitIsRegistered(sha: Hash, w: World, c: nat, serial: nat, events: seq<Event>)
    requires Inv(w) && LaunchPermit(w, c, serial).Some?
    ensures var p := LaunchPermit(w, c, serial).value;
            var stage := StageAt(RunWorld(sha, w, events).ledger, p.serial);
            && p.serial == serial
            && !stage.Unregistered?
            && (stage.ClosedStage? || stage.permit == p)
  {
    var p := LaunchPermit(w, c, serial).value;
    assert RowValid(w.db, serial - 1);
    FrontiersStayOrdered(sha, w, events);
    var w' := RunWorld(sha, w, events);
    assert w'.db.rows[serial - 1] == w.db.rows[serial - 1];
    match Find(w'.ledger.entries, serial) {
      case None =>
      case Some(i) => assert Owned(w', w'.ledger.entries[i]);
    }
  }
}
