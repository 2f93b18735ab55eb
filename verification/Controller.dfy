/** The database transactions and the controller's exchange as objects changed step by
    step (crates/sandbox-store/src/allocation_permits.rs and
    crates/sandbox-controller/src/allocation_authority.rs), proved against Registration. */
module RegistrationController {
  import opened Wrappers
  import opened OperationIds
  import opened AuthorityRecords
  import opened AuthorityLedger
  import opened Registration
  import LaunchAuthority

  class PermitStore {
    var db: Database

    constructor (db: Database)
      ensures this.db == db
    {
      this.db := db;
    }

    method PermitsAfter(after: nat) returns (r: Option<Batch>)
      ensures r == BatchAfter(db, after)
    {
      if after > MAX_SERIAL { return None; }
      var through := db.issued;
      if after > through { return None; }
      var rows := Selected(db, after);
      var expected := Min(through - after, MAX_BATCH);
      if |rows| != expected { return None; }
      var permits: seq<Permit> := [];
      for i := 0 to |rows|
        invariant forall k :: 0 <= k < i ==> rows[k].consistent && rows[k].permit.serial == after + k + 1
        invariant permits == Stamped(rows[..i], db.host)
      {
        if !rows[i].consistent || rows[i].permit.serial != after + i + 1 { return None; }
        permits := permits + [rows[i].permit.(host := db.host)];
        assert rows[..i + 1][..i] == rows[..i];
      }
      assert rows[..|rows|] == rows;
      return Some(Batch(through, permits, db.unissued));
    }

    method RecordRegistration(epoch: int, required: bool, through: nat) returns (ok: bool)
      modifies this
      ensures (db, ok) == Recorded(old(db), epoch, required, through)
    {
      if epoch <= 0 || through > MAX_SERIAL || (!required && through != 0) { return false; }
      var matches := db.epoch == epoch && (!db.required || required)
                     && db.registered <= through && db.issued >= through;
      if matches {
        db := db.(required := required, registered := through);
      }
      return matches;
    }
  }

  class Controller {
    const store: PermitStore
    const host: LaunchAuthority.Authority
    const hostEpoch: int
    const epoch: int
    const required: bool

    constructor (store: PermitStore, host: LaunchAuthority.Authority, hostEpoch: int, epoch: int, required: bool)
      ensures this.store == store && this.host == host
      ensures this.hostEpoch == hostEpoch && this.epoch == epoch && this.required == required
    {
      this.store := store;
      this.host := host;
      this.hostEpoch := hostEpoch;
      this.epoch := epoch;
      this.required := required;
    }

    ghost function Here(session: Session): World
      reads store, host
    {
      World(store.db, host.View(), hostEpoch, map[0 := session])
    }

    function Exchange(lost: bool, fate: Fate): seq<Event> {
      if !required then [Begin(0), RecordOpen(0, epoch)]
      else [Begin(0), Inspect(0, epoch, lost), RecordObserved(0, epoch), FetchBatch(0),
            RegisterBatch(0, epoch, fate), RecordAck(0, epoch)]
    }

    // The host's answer to a registration request; None is an error or a lost reply.
    method RegisterOnHost(permits: seq<Permit>, fate: Fate) returns (ack: Option<nat>)
      requires host.IsValid()
      modifies host
      ensures host.IsValid()
      ensures (host.View(), ack) == HostAnswer(old(host.View()), hostEpoch, epoch, permits, fate)
    {
      if epoch != hostEpoch || (exists p :: p in permits && p.originalEpoch > epoch) || fate.NotSaved? {
        return None;
      }
      var outcome := host.Register(permits);
      return if outcome.Ok? && fate.Delivered? then Some(host.through) else None;
    }

    method InspectHost(lost: bool) returns (seen: Option<nat>)
      ensures Here(if seen.None? then Idle else Observed(seen.value)) ==
              Step(host.sha, Here(Started), Inspect(0, epoch, lost))
    {
      return if lost || epoch != hostEpoch then None else Some(host.through);
    }

    method RecordUnrequired() returns (ok: bool)
      modifies store
      ensures Here(if ok then Synced(0, 0) else Idle) == Step(host.sha, old(Here(Started)), RecordOpen(0, epoch))
    {
      ok := store.RecordRegistration(epoch, false, 0);
    }

    method AcceptInspection(seen: nat) returns (ok: bool)
      modifies store
      ensures Here(if ok then Checkpointed(seen) else Idle) ==
              Step(host.sha, old(Here(Observed(seen))), RecordObserved(0, epoch))
    {
      ok := store.RecordRegistration(epoch, true, seen);
    }

    method ReadBatch(seen: nat) returns (r: Option<Batch>)
      ensures Here(if r.None? || r.value.hasUnissued then Idle
                   else if r.value.permits == [] then Synced(seen, seen) else Fetched(seen, r.value)) ==
              Step(host.sha, Here(Checkpointed(seen)), FetchBatch(0))
    {
      r := store.PermitsAfter(seen);
    }

    method SendBatch(seen: nat, batch: Batch, fate: Fate) returns (ack: Option<nat>)
      requires host.IsValid()
      modifies host
      ensures host.IsValid()
      ensures Here(if ack.None? then Idle else Acknowledged(seen, batch, ack.value)) ==
              Step(host.sha, old(Here(Fetched(seen, batch))), RegisterBatch(0, epoch, fate))
    {
      ghost var before := Here(Fetched(seen, batch));
      ack := RegisterOnHost(batch.permits, fate);
      RegisterStep(host.sha, before, seen, batch, epoch, fate, host.View(), ack);
      assert Here(if ack.None? then Idle else Acknowledged(seen, batch, ack.value)) ==
             With(before.(ledger := host.View()), 0,
                  if ack.None? then Idle else Acknowledged(seen, batch, ack.value));
    }

    static lemma RegisterStep(sha: Hash, w: World, seen: nat, batch: Batch, epoch: int, fate: Fate,
                              next: Saved, ack: Option<nat>)
      requires SessionOf(w, 0) == Fetched(seen, batch)
      requires (next, ack) == HostAnswer(w.ledger, w.hostEpoch, epoch, batch.permits, fate)
      ensures Step(sha, w, RegisterBatch(0, epoch, fate)) ==
              With(w.(ledger := next), 0, if ack.None? then Idle else Acknowledged(seen, batch, ack.value))
    {
      hide HostAnswer;
    }

    method AcceptAcknowledgement(seen: nat, batch: Batch, ack: nat) returns (ok: bool)
      requires batch.permits != []
      modifies store
      ensures Here(if ok then Synced(seen, ack) else Idle) ==
              Step(host.sha, old(Here(Acknowledged(seen, batch, ack))), RecordAck(0, epoch))
    {
      var expected := batch.permits[|batch.permits| - 1].serial;
      if ack < expected || ack > batch.issuedThrough { return false; }
      ok := store.RecordRegistration(epoch, true, ack);
    }

    // From the recorded checkpoint to the recorded acknowledgement.
    method RegisterNext(seen: nat, fate: Fate) returns (r: Option<nat>, ghost session: Session)
      requires host.IsValid()
      modifies store, host
      ensures host.IsValid()
      ensures Here(session) ==
              RunWorld(host.sha, old(Here(Checkpointed(seen))),
                       [FetchBatch(0), RegisterBatch(0, epoch, fate), RecordAck(0, epoch)])
      ensures r == if session.Synced? then Some(session.through) else None
    {
      ghost var sha := host.sha;
      ghost var register, record := RegisterBatch(0, epoch, fate), RecordAck(0, epoch);
      Head(sha, Here(Checkpointed(seen)), FetchBatch(0), [register, record]);
      var fetched := ReadBatch(seen);
      Over(sha, Here(Idle), [register, record]);
      if fetched.None? || fetched.value.hasUnissued { return None, Idle; }
      var batch := fetched.value;
      Over(sha, Here(Synced(seen, seen)), [register, record]);
      if batch.permits == [] { return Some(seen), Synced(seen, seen); }
      Head(sha, Here(Fetched(seen, batch)), register, [record]);
      var ack := SendBatch(seen, batch, fate);
      Over(sha, Here(Idle), [record]);
      if ack.None? { return None, Idle; }
      Head(sha, Here(Acknowledged(seen, batch, ack.value)), record, []);
      var ok := AcceptAcknowledgement(seen, batch, ack.value);
      return if ok then ack else None, if ok then Synced(seen, ack.value) else Idle;
    }

    /** One attempt is exactly the run of its atomic steps; a lost reply ends it. */
    method SyncAllocationAuthority(lost: bool, fate: Fate) returns (r: Option<nat>, ghost session: Session)
      requires host.IsValid()
      modifies store, host
      ensures host.IsValid()
      ensures Here(session) == RunWorld(host.sha, old(Here(Idle)), Exchange(lost, fate))
      ensures r == if session.Synced? then Some(session.through) else None
    {
      ghost var sha := host.sha;
      ghost var tail := [FetchBatch(0), RegisterBatch(0, epoch, fate), RecordAck(0, epoch)];
      if !required {
        Head(sha, Here(Idle), Begin(0), [RecordOpen(0, epoch)]);
        Head(sha, Here(Started), RecordOpen(0, epoch), []);
        var open := RecordUnrequired();
        return if open then Some(0) else None, if open then Synced(0, 0) else Idle;
      }
      ghost var accept, inspect := RecordObserved(0, epoch), Inspect(0, epoch, lost);
      assert Exchange(lost, fate) == [Begin(0)] + ([inspect] + ([accept] + tail));
      Head(sha, Here(Idle), Begin(0), [inspect] + ([accept] + tail));
      assert Step(sha, Here(Idle), Begin(0)) == Here(Started);
      Head(sha, Here(Started), inspect, [accept] + tail);
      var observed := InspectHost(lost);
      Over(sha, Here(Idle), [accept] + tail);
      if observed.None? { return None, Idle; }
      Head(sha, Here(Observed(observed.value)), accept, tail);
      var ok := AcceptInspection(observed.value);
      Over(sha, Here(Idle), tail);
      if !ok { return None, Idle; }
      r, session := RegisterNext(observed.value, fate);
    }

    static lemma Head(sha: Hash, w: World, e: Event, rest: seq<Event>)
      ensures RunWorld(sha, w, [e] + rest) == RunWorld(sha, Step(sha, w, e), rest)
    {
      assert ([e] + rest)[1..] == rest;
    }

    // An exchange that has ended ignores its remaining steps.
    static lemma Over(sha: Hash, w: World, rest: seq<Event>)
      requires SessionOf(w, 0).Idle? || SessionOf(w, 0).Synced?
      requires forall e :: e in rest ==>
                 e.RecordObserved? || e.FetchBatch? || e.RegisterBatch? || e.RecordAck?
      requires forall e :: e in rest ==> e.c == 0
      ensures RunWorld(sha, w, rest) == w
      decreases |rest|
    {
      if rest != [] {
        assert rest[0] in rest;
        Over(sha, w, rest[1..]);
      }
    }
  }
}
