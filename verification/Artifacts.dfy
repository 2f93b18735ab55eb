/** The artifact store client of crates/sandbox-artifacts/src/lib.rs and retirement.rs. Between
    any two exchanges with the bucket all other clients may act and late requests may land. */
module Artifacts {
  import opened Wrappers
  import opened Bytes
  import opened ObjectStore

  const MAX_READ := 32 * 1024

  ghost predicate Reaches(w: World, w': World) {
    exists events :: w' == Run(w, events)
  }

  lemma ReachesItself(w: World)
    ensures Reaches(w, w)
  {
    assert w == Run(w, []);
  }

  lemma {:induction false} RunAppends(w: World, a: seq<Event>, b: seq<Event>)
    ensures Run(w, a + b) == Run(Run(w, a), b)
    decreases |a|
  {
    if a == [] {
      assert a + b == b;
    } else {
      assert (a + b)[1..] == a[1..] + b;
      RunAppends(Step(w, a[0]), a[1..], b);
    }
  }

  lemma ReachesTransitively(u: World, v: World, w: World)
    requires Reaches(u, v) && Reaches(v, w)
    ensures Reaches(u, w)
  {
    var a :| v == Run(u, a);
    var b :| w == Run(v, b);
    RunAppends(u, a, b);
  }

  lemma ReachesByStep(w: World, e: Event)
    ensures Reaches(w, Step(w, e))
  {
    assert Run(w, [e]) == Run(Step(w, e), []);
  }

  lemma ReachesKeeps(w: World, w': World)
    requires Inv(w) && Reaches(w, w')
    ensures Inv(w') && w.mode == w'.mode && w.uploaded <= w'.uploaded
    ensures Sealed(w) ==> Sealed(w') && Last(w') == Last(w)
  {
    var events :| w' == Run(w, events);
    SealedForever(w, events);
  }

  lemma ReachesKeepsAbsent(w: World, w': World, v: Version)
    requires Inv(w) && Reaches(w, w') && Sealed(w) && !Present(w, v)
    ensures !Present(w', v)
  {
    var events :| w' == Run(w, events);
    AbsentForever(w, events, v);
  }

  // The version holding the bytes a marker replaced is gone.
  predicate Cleared(w: World, receipt: Retirement) {
    receipt.previous.Some? && receipt.previous.value.version.Some? && receipt.previous.value.version.value.Numbered? ==>
      !Present(w, receipt.previous.value.version.value)
  }

  lemma ClearedIsFinal(w: World, codec: Codec, plan: Plan, selected: Option<Ref>, receipt: Retirement)
    requires Inv(w) && CurrentOf(w, codec, plan, selected) == Ok(Retired(receipt)) && Cleared(w, receipt)
    ensures Final(w, receipt)
  {
    assert forall o :: o in w.versions ==> ByThisKey(w, o);
  }

  /** Read a body of a known length and digest chunk by chunk, giving up as soon as it is too
      long. */
  method ReadVerified(chunks: seq<seq<byte>>, size: nat, sha256: Digest, sha: seq<byte> -> Digest)
    returns (r: Option<seq<byte>>)
    ensures r == if |Joined(chunks)| == size && sha(Joined(chunks)) == sha256 then Some(Joined(chunks)) else None
  {
    var bytes := [];
    for i := 0 to |chunks|
      invariant bytes == Joined(chunks[..i]) && |bytes| <= size
    {
      assert chunks[..i + 1][..i] == chunks[..i];
      if |chunks[i]| > size - |bytes| {
        JoinedPrefix(chunks, i + 1);
        return None;
      }
      bytes := bytes + chunks[i];
    }
    assert chunks[..|chunks|] == chunks;
    if |bytes| != size || sha(bytes) != sha256 {
      return None;
    }
    return Some(bytes);
  }

  function Joined(chunks: seq<seq<byte>>): seq<byte> {
    if chunks == [] then [] else Joined(chunks[..|chunks| - 1]) + chunks[|chunks| - 1]
  }

  lemma {:induction false} JoinedPrefix(chunks: seq<seq<byte>>, i: nat)
    requires i <= |chunks|
    ensures |Joined(chunks[..i])| <= |Joined(chunks)|
    decreases |chunks|
  {
    if i == |chunks| {
      assert chunks[..i] == chunks;
    } else {
      assert chunks[..|chunks| - 1][..i] == chunks[..i];
      JoinedPrefix(chunks[..|chunks| - 1], i);
    }
  }

  // What one wait for the bucket brings: the events that happen first, and whether the reply
  // arrives.
  datatype Turn = Turn(events: seq<Event>, delivered: bool)

  // For the next n waits nobody else acts and every reply arrives.
  predicate Quiet(turns: seq<Turn>, n: nat) {
    |turns| >= n && forall i :: 0 <= i < n ==> turns[i] == Turn([], true)
  }

  // --- when retirement can succeed ---

  predicate Removable(w: World, codec: Codec, plan: Plan, receipt: Retirement) {
    receipt.previous.Some? ==>
      var before, after := receipt.previous.value.version, receipt.markerVersion;
      || (before.None? && after.None?)
      || (before == Some(Null) && after == Some(Null))
      || (before.Some? && after.Some? && before != after
          && (Fetched(w, codec, plan, receipt.previous).Ok?
            || Fetched(w, codec, plan, receipt.previous) == Err(Missing)))
  }

  predicate Retirable(w: World, codec: Codec, plan: Plan, selected: Option<Ref>) {
    match CurrentOf(w, codec, plan, selected)
    case Err(_) => false
    case Ok(Retired(receipt)) => Removable(w, codec, plan, receipt)
    case Ok(Holding(ref)) => |codec.text(Marker(1, plan.metadata, Some(ref)))| <= MAX_MARKER
    case Ok(Vacant) =>
      && |codec.text(Marker(1, plan.metadata, selected))| <= MAX_MARKER
      && (selected.Some? ==>
            selected.value.plan == plan && Compatible(selected.value.version, VersionFor(w.mode, w.next)))
  }

  lemma SameCurrent(w: World, w': World, codec: Codec, plan: Plan, selected: Option<Ref>)
    requires Sealed(w) && Sealed(w') && Last(w) == Last(w')
    ensures CurrentOf(w, codec, plan, selected) == CurrentOf(w', codec, plan, selected)
  {}

  // What a retirer sends after its first read.
  function SealRequest(plan: Plan, selected: Option<Ref>, current: Current): Request
    requires !current.Retired?
  {
    match current
    case Vacant => CreateOnly(Seal(Marker(1, plan.metadata, selected)))
    case Holding(ref) => Replace(ref.etag, Marker(1, plan.metadata, Some(ref)))
  }

  function Exchanged(w: World, r: Request): World {
    Step(Step(w, Send(r)), Land(r))
  }

  lemma QuietSeal(w: World, codec: Codec, plan: Plan, selected: Option<Ref>, current: Current)
    requires Inv(w) && CurrentOf(w, codec, plan, selected) == Ok(current) && !current.Retired?
    requires |codec.text(if current.Vacant? then Marker(1, plan.metadata, selected)
                         else Marker(1, plan.metadata, Some(current.ref)))| <= MAX_MARKER
    ensures Allowed(w, SealRequest(plan, selected, current))
    ensures var w' := Exchanged(w, SealRequest(plan, selected, current));
            if Retirable(w, codec, plan, selected)
            then CurrentOf(w', codec, plan, selected).Ok? && CurrentOf(w', codec, plan, selected).value.Retired?
                 && Removable(w', codec, plan, CurrentOf(w', codec, plan, selected).value.receipt)
            else CurrentOf(w', codec, plan, selected).Err?
  {
    if current.Holding? {
      assert Last(w) in w.uploaded;
      QuietReplace(w, codec, plan, selected, current);
    } else {
      QuietCreate(w, codec, plan, selected);
    }
    hide *;
  }

  lemma QuietCreate(w: World, codec: Codec, plan: Plan, selected: Option<Ref>)
    requires Inv(w) && w.versions == []
    requires |codec.text(Marker(1, plan.metadata, selected))| <= MAX_MARKER
    ensures var w' := Exchanged(w, SealRequest(plan, selected, Vacant));
            if Retirable(w, codec, plan, selected)
            then CurrentOf(w', codec, plan, selected).Ok? && CurrentOf(w', codec, plan, selected).value.Retired?
                 && Removable(w', codec, plan, CurrentOf(w', codec, plan, selected).value.receipt)
            else CurrentOf(w', codec, plan, selected).Err?
  {
    var request := SealRequest(plan, selected, Vacant);
    var w' := Exchanged(w, request);
    assert w'.versions == [Object(w.next, VersionFor(w.mode, w.next), Seal(Marker(1, plan.metadata, selected)))];
  }

  lemma QuietReplace(w: World, codec: Codec, plan: Plan, selected: Option<Ref>, current: Current)
    requires Inv(w) && CurrentOf(w, codec, plan, selected) == Ok(current) && current.Holding?
    requires |codec.text(Marker(1, plan.metadata, Some(current.ref)))| <= MAX_MARKER
    requires Allowed(w, SealRequest(plan, selected, current))
    ensures var w' := Exchanged(w, SealRequest(plan, selected, current));
            && CurrentOf(w', codec, plan, selected).Ok? && CurrentOf(w', codec, plan, selected).value.Retired?
            && Removable(w', codec, plan, CurrentOf(w', codec, plan, selected).value.receipt)
  {
    var w' := Exchanged(w, SealRequest(plan, selected, current));
    var o := Last(w);
    assert ByThisKey(w, o) && |w.versions| == 1;
    var seal := Object(w.next, VersionFor(w.mode, w.next), Seal(Marker(1, plan.metadata, Some(current.ref))));
    assert w'.versions == if w.mode.Versioned? then [o, seal] else [seal];
    assert Last(w') == seal;
  }

  lemma QuietDelete(w: World, v: Version)
    requires Inv(w) && Allowed(w, DeleteVersion(v))
    ensures Lookup(Exchanged(w, DeleteVersion(v)), Some(v)).None?
  {
    WithoutAt(w.versions, v);
  }

  datatype PutReply = Done | Refused | NoReply

  class Store {
    const codec: Codec
    var world: World
    var turns: seq<Turn>
    // How long the next piece of a body is that the transport hands over, if that much is left.
    const piece: nat -> nat

    constructor (codec: Codec, mode: Mode, turns: seq<Turn>, piece: nat -> nat)
      ensures world == Empty(mode) && Inv(world)
    {
      this.codec, this.turns, this.piece, world := codec, turns, piece, Empty(mode);
    }

    // A body as the transport hands it over.
    method Stream(body: seq<byte>) returns (chunks: seq<seq<byte>>)
      ensures Joined(chunks) == body
    {
      chunks := [];
      var done := 0;
      while done < |body|
        invariant done <= |body| && Joined(chunks) == body[..done]
      {
        var n := piece(|chunks|);
        var next := if n == 0 then done + 1 else if n > |body| - done then |body| else done + n;
        assert (chunks + [body[done..next]])[..|chunks|] == chunks;
        chunks := chunks + [body[done..next]];
        done := next;
      }
      assert body[..done] == body;
    }

    // The headers of a response decide first, then its whole body.
    method VerifyResponse(plan: Plan, pinned: Option<Ref>, o: Object) returns (r: Result<Ref, Error>)
      ensures r == Verify(codec, plan, pinned, o)
    {
      if !o.content.Data? || |o.content.body| != plan.size || o.content.metadata != plan.metadata {
        return Err(Corrupt);
      }
      var ref := Ref(plan, o.etag, o.version);
      if pinned.Some? && pinned.value != ref {
        return Err(Corrupt);
      }
      var chunks := Stream(o.content.body);
      var read := ReadVerified(chunks, plan.size, plan.sha256, codec.sha);
      return if read.None? then Err(Corrupt) else Ok(ref);
    }

    method Await() returns (delivered: bool)
      requires Inv(world)
      modifies this
      ensures Inv(world) && Reaches(old(world), world)
      ensures old(turns) != [] ==> turns == old(turns)[1..]
      ensures Quiet(old(turns), 1) ==> delivered && world == old(world)
    {
      if turns == [] {
        ReachesItself(world);
        return false;
      }
      SealedForever(world, turns[0].events);
      delivered := turns[0].delivered;
      world, turns := Run(world, turns[0].events), turns[1..];
    }

    // A conditional PUT. Without a reply the request may still land.
    method PutRequest(request: Request) returns (reply: PutReply)
      requires Inv(world) && Allowed(world, request)
      modifies this
      ensures Inv(world) && Reaches(old(world), world)
      ensures old(turns) != [] ==> turns == old(turns)[1..]
      ensures Quiet(old(turns), 1) ==>
        reply == (if Holds(old(world), request) then Done else Refused)
        && world == Exchanged(old(world), request)
    {
      ghost var start := world;
      StepKeepsInv(world, Send(request));
      ReachesByStep(world, Send(request));
      world := Step(world, Send(request));
      ghost var sent := world;
      var delivered := Await();
      ReachesTransitively(start, sent, world);
      if !delivered {
        return NoReply;
      }
      ghost var before := world;
      SentStays(sent, before, request);
      StepKeepsInv(world, Land(request));
      ReachesByStep(world, Land(request));
      reply := if Holds(world, request) then Done else Refused;
      world := Step(world, Land(request));
      ReachesTransitively(start, before, world);
    }

    method Fetch(plan: Plan, pinned: Option<Ref>) returns (r: Result<Ref, Error>)
      requires Inv(world)
      modifies this
      ensures Inv(world) && Reaches(old(world), world)
      ensures r == Fetched(world, codec, plan, pinned) || r == Err(Unavailable)
      ensures old(turns) != [] ==> turns == old(turns)[1..]
      ensures Quiet(old(turns), 1) ==> world == old(world) && r == Fetched(world, codec, plan, pinned)
    {
      var delivered := Await();
      if !delivered {
        return Err(Unavailable);
      }
      var o := Lookup(world, if pinned.Some? then pinned.value.version else None);
      if o.None? {
        return Err(Missing);
      }
      if pinned.Some? && pinned.value.etag != o.value.etag {
        return Err(Corrupt);
      }
      r := VerifyResponse(plan, pinned, o.value);
    }

    // Create the object unless one is there, and read back what is there.
    method Confirm(plan: Plan, bytes: seq<byte>) returns (r: Result<Ref, Error>)
      requires Inv(world) && |bytes| == plan.size && codec.sha(bytes) == plan.sha256
      modifies this
      ensures Inv(world) && Reaches(old(world), world)
      ensures r.Ok? ==> Fetched(world, codec, plan, None) == r
      ensures Sealed(old(world)) ==> r.Err?
      ensures Quiet(old(turns), 2) ==>
        (r.Ok? <==> old(world).versions == [] || Fetched(old(world), codec, plan, None).Ok?)
      ensures r.Err? ==> r.error in {Conflict, Missing, Unavailable}
      ensures r == Err(Conflict) ==> Fetched(world, codec, plan, None) == Err(Corrupt)
      ensures r == Err(Missing) ==> Fetched(world, codec, plan, None) == Err(Missing)
      ensures Quiet(old(turns), 2) && r.Err? ==> r == Err(Conflict)
    {
      ghost var start := world;
      var put := PutRequest(CreateOnly(Data(plan.metadata, bytes)));
      var uncertain := put.NoReply?;
      ghost var sent := world;
      r := Fetch(plan, None);
      ReachesTransitively(start, sent, world);
      if r == Err(Unavailable) {
        ghost var again := world;
        r := Fetch(plan, None);
        ReachesTransitively(start, again, world);
      }
      ReachesKeeps(start, world);
      match r
      case Err(Corrupt) => r := Err(Conflict);
      case Err(Missing) =>
        if uncertain {
          r := Err(Unavailable);
        }
      case _ =>
    }

    /** Create-only upload. Whatever the PUT answered, only a verified read of the whole object
        counts. */
    method Upload(plan: Plan, owner: Text, now: int, bytes: seq<byte>) returns (r: Result<Ref, Error>)
      requires Inv(world)
      modifies this
      ensures Inv(world) && Reaches(old(world), world)
      ensures r.Ok? ==> Fetched(world, codec, plan, None) == r
      ensures r.Ok? ==> plan.Validated() && plan.owner == owner && plan.created <= now < plan.expires
      ensures Sealed(old(world)) ==> r.Err?
      ensures Quiet(old(turns), 2) ==>
        (r.Ok? <==>
         && plan.Validated() && plan.owner == owner && plan.created <= now < plan.expires
         && |bytes| == plan.size && codec.sha(bytes) == plan.sha256
         && (old(world).versions == [] || Fetched(old(world), codec, plan, None).Ok?))
      ensures r == Err(OwnerMismatch) <==> plan.Validated() && plan.owner != owner
      ensures r == Err(Expired) <==> plan.Validated() && plan.owner == owner && now >= plan.expires
      ensures r == Err(InvalidMetadata) <==>
        || !plan.Validated()
        || (plan.owner == owner && (now < plan.created || (now < plan.expires && |bytes| != plan.size)))
      ensures r == Err(Corrupt) <==>
        && plan.Validated() && plan.owner == owner && plan.created <= now < plan.expires
        && |bytes| == plan.size && codec.sha(bytes) != plan.sha256
      ensures r == Err(Conflict) ==> Fetched(world, codec, plan, None) == Err(Corrupt)
      ensures r == Err(Missing) ==> Fetched(world, codec, plan, None) == Err(Missing)
    {
      ReachesItself(world);
      var owned := CheckOwner(plan, owner, now);
      if owned.Err? {
        return Err(owned.error);
      }
      if |bytes| != plan.size {
        return Err(InvalidMetadata);
      }
      if codec.sha(bytes) != plan.sha256 {
        return Err(Corrupt);
      }
      r := Confirm(plan, bytes);
    }

    method CheckOwner(plan: Plan, expected: Text, now: int) returns (r: Result<bool, Error>)
      ensures r.Ok? <==> plan.Validated() && plan.owner == expected && plan.created <= now < plan.expires
      ensures r == Err(Expired) <==> plan.Validated() && plan.owner == expected && now >= plan.expires
      ensures r == Err(OwnerMismatch) <==> plan.Validated() && plan.owner != expected
      ensures r.Err? ==> r.error in {InvalidMetadata, OwnerMismatch, Expired}
    {
      if !plan.Validated() {
        return Err(InvalidMetadata);
      }
      if plan.owner != expected {
        return Err(OwnerMismatch);
      }
      if now < plan.created {
        return Err(InvalidMetadata);
      }
      if now >= plan.expires {
        return Err(Expired);
      }
      return Ok(true);
    }

    method GetCurrent(plan: Plan, selected: Option<Ref>) returns (r: Result<Current, Error>)
      requires Inv(world)
      modifies this
      ensures Inv(world) && Reaches(old(world), world)
      ensures r == CurrentOf(world, codec, plan, selected) || r == Err(Unavailable)
      ensures old(turns) != [] ==> turns == old(turns)[1..]
      ensures Quiet(old(turns), 1) ==> world == old(world) && r == CurrentOf(world, codec, plan, selected)
    {
      var delivered := Await();
      if !delivered {
        return Err(Unavailable);
      }
      if world.versions == [] {
        return Ok(Vacant);
      }
      var o := Last(world);
      match o.content {
        case Data(_, _) =>
          var verdict := VerifyResponse(plan, selected, o);
          return if verdict.Ok? then Ok(Holding(verdict.value)) else Err(verdict.error);
        case Seal(marker) =>
          // The digest stored beside a marker is that of its text.
          var text := codec.text(marker);
          if |text| > MAX_MARKER {
            return Err(Corrupt);
          }
          var chunks := Stream(text);
          var read := ReadVerified(chunks, |text|, codec.sha(text), codec.sha);
          if read != Some(text) {
            return Err(Corrupt);
          }
          var receipt := ReceiptOf(o);
          if !receipt.Validated(plan) {
            return Err(Corrupt);
          }
          if selected.Some? && receipt.previous != selected {
            return Err(Corrupt);
          }
          return Ok(Retired(receipt));
      }
    }

    /** Delete exactly the version a marker names, after verifying its bytes once more. */
    method RemovePrevious(plan: Plan, receipt: Retirement) returns (r: Result<bool, Error>)
      requires Inv(world) && Sealed(world) && ReceiptOf(Last(world)) == receipt
      modifies this
      ensures Inv(world) && Reaches(old(world), world)
      ensures r.Ok? ==> Cleared(world, receipt)
      ensures Quiet(old(turns), 3) ==> (r.Ok? <==> Removable(old(world), codec, plan, receipt))
      ensures Quiet(old(turns), 4) ==> Quiet(turns, 1)
    {
      hide Inv, Fetched, Exchanged, Allowed, Reaches;
      ghost var start := world;
      ReachesItself(start);
      if receipt.previous.None? {
        return Ok(true);
      }
      var previous := receipt.previous.value;
      if previous.version == None && receipt.markerVersion == None {
        return Ok(true);
      }
      if previous.version == Some(Null) && receipt.markerVersion == Some(Null) {
        return Ok(true);
      }
      if previous.version.None? || receipt.markerVersion.None? || previous.version == receipt.markerVersion {
        return Err(Conflict);
      }
      var version := previous.version.value;
      var fetched := Fetch(plan, Some(previous));
      ghost var read := world;
      ReachesKeeps(start, read);
      match fetched {
        case Err(Missing) =>
          MissingIsAbsent(read, codec, plan, previous);
          return Ok(true);
        case Err(e) =>
          return Err(e);
        case Ok(ref) =>
      }
      FetchedVersion(read, codec, plan, previous, receipt);
      QuietDelete(read, version);
      var reply := PutRequest(DeleteVersion(version));
      ghost var deleted := world;
      ReachesTransitively(start, read, deleted);
      if reply.NoReply? {
        return Err(Unavailable);
      }
      var delivered := Await();
      ReachesTransitively(start, deleted, world);
      ReachesKeeps(start, world);
      if !delivered {
        return Err(Unavailable);
      }
      if Lookup(world, Some(version)).Some? {
        return Err(Unavailable);
      }
      AbsentLookup(world, version);
      return Ok(true);
    }

    /** Put a marker under the key unless one is there already. */
    method SealKey(plan: Plan, selected: Option<Ref>) returns (r: Result<Retirement, Error>)
      requires Inv(world)
      modifies this
      ensures Inv(world) && Reaches(old(world), world)
      ensures r.Ok? ==> CurrentOf(world, codec, plan, selected) == Ok(Retired(r.value))
      ensures Quiet(old(turns), 7) ==> Quiet(turns, 4)
      ensures Quiet(old(turns), 7) ==>
        (r.Ok? && Removable(world, codec, plan, r.value) <==> Retirable(old(world), codec, plan, selected))
    {
      ghost var start := world;
      var first := GetCurrent(plan, selected);
      if first.Err? {
        return Err(first.error);
      }
      if first.value.Retired? {
        return Ok(first.value.receipt);
      }
      var previous := if first.value.Vacant? then selected else Some(first.value.ref);
      var marker := Marker(1, plan.metadata, previous);
      if |codec.text(marker)| > MAX_MARKER {
        return Err(InvalidMetadata);
      }
      ghost var read := world;
      var request := if first.value.Vacant? then CreateOnly(Seal(marker)) else Replace(first.value.ref.etag, marker);
      QuietSeal(world, codec, plan, selected, first.value);
      hide Retirable, Removable, Allowed, CurrentOf, Inv;
      var put := PutRequest(request);
      ReachesTransitively(start, read, world);
      if put.NoReply? {
        return Err(Unavailable);
      }
      ghost var landed := world;
      var second := GetCurrent(plan, selected);
      ReachesTransitively(start, landed, world);
      if second.Err? {
        return Err(second.error);
      }
      if !second.value.Retired? {
        return Err(Conflict);
      }
      return Ok(second.value.receipt);
    }

    /** Seal the key with a marker and remove the bytes behind it. On success the marker is all
        that is left under the key. */
    method RetireInner(plan: Plan, selected: Option<Ref>) returns (r: Result<Retirement, Error>)
      requires Inv(world)
      modifies this
      ensures Inv(world) && Reaches(old(world), world)
      ensures r.Ok? ==>
        Final(world, r.value) && r.value.Validated(plan) && (selected.Some? ==> r.value.previous == selected)
      ensures Quiet(old(turns), 7) ==> (r.Ok? <==> Retirable(old(world), codec, plan, selected))
    {
      ghost var start := world;
      r := SealKey(plan, selected);
      if r.Err? {
        return;
      }
      var receipt := r.value;
      ghost var sealed := world;
      var removed := RemovePrevious(plan, receipt);
      ghost var cleared := world;
      ReachesTransitively(start, sealed, cleared);
      if removed.Err? {
        return Err(removed.error);
      }
      hide Removable, Retirable, Inv;
      ReachesKeeps(sealed, cleared);
      SameCurrent(sealed, cleared, codec, plan, selected);
      var last := GetCurrent(plan, selected);
      ReachesTransitively(start, cleared, world);
      if last.Err? {
        return Err(last.error);
      }
      if last.value != Retired(receipt) {
        return Err(Conflict);
      }
      if receipt.previous.Some? && receipt.previous.value.version.Some?
        && !Present(cleared, receipt.previous.value.version.value) {
        ReachesKeepsAbsent(cleared, world, receipt.previous.value.version.value);
      }
      ClearedIsFinal(world, codec, plan, selected, receipt);
      return Ok(receipt);
    }

    method Retire(plan: Plan, owner: Text, selected: Option<Ref>, now: int) returns (r: Result<Retirement, Error>)
      requires Inv(world)
      modifies this
      ensures Inv(world) && Reaches(old(world), world)
      ensures r.Ok? ==>
        Final(world, r.value) && r.value.Validated(plan) && (selected.Some? ==> r.value.previous == selected)
      ensures r.Ok? ==> plan.owner == owner && now >= plan.deleteAfter
      ensures Quiet(old(turns), 7) ==>
        (r.Ok? <==>
         && plan.Validated() && plan.owner == owner && now >= plan.deleteAfter
         && (selected.Some? ==> selected.value.plan == plan)
         && Retirable(old(world), codec, plan, selected))
      ensures plan.Validated() && plan.owner != owner ==> r == Err(OwnerMismatch) && world == old(world)
      ensures !plan.Validated() || (plan.owner == owner && now < plan.deleteAfter) ==>
        r == Err(InvalidMetadata) && world == old(world)
    {
      ReachesItself(world);
      if !plan.Validated() {
        return Err(InvalidMetadata);
      }
      if plan.owner != owner {
        return Err(OwnerMismatch);
      }
      if now < plan.deleteAfter {
        return Err(InvalidMetadata);
      }
      if selected.Some? && selected.value.plan != plan {
        return Err(InvalidMetadata);
      }
      r := RetireInner(plan, selected);
    }
  }

  lemma {:induction false} SentStaysOverRun(w: World, events: seq<Event>, r: Request)
    requires r in w.sent
    ensures r in Run(w, events).sent
    decreases |events|
  {
    if events != [] {
      SentStaysOverRun(Step(w, events[0]), events[1..], r);
    }
  }

  lemma SentStays(w: World, w': World, r: Request)
    requires r in w.sent && Reaches(w, w')
    ensures r in w'.sent
  {
    var events :| w' == Run(w, events);
    SentStaysOverRun(w, events, r);
  }

  lemma MissingIsAbsent(w: World, codec: Codec, plan: Plan, previous: Ref)
    requires Inv(w) && Sealed(w) && previous.version.Some?
    requires Fetched(w, codec, plan, Some(previous)) == Err(Missing)
    ensures !Present(w, previous.version.value)
  {
    AbsentLookup(w, previous.version.value);
  }

  lemma AbsentLookup(w: World, v: Version)
    requires Inv(w) && Sealed(w) && Lookup(w, Some(v)).None?
    ensures !Present(w, v)
  {}

  // A previous version that verifies is an uploaded object, not the marker.
  lemma FetchedVersion(w: World, codec: Codec, plan: Plan, previous: Ref, receipt: Retirement)
    requires Inv(w) && Sealed(w) && ReceiptOf(Last(w)) == receipt
    requires previous.version.Some? && receipt.markerVersion.Some? && previous.version != receipt.markerVersion
    requires Fetched(w, codec, plan, Some(previous)).Ok?
    ensures Allowed(w, DeleteVersion(previous.version.value))
  {
    FetchedIsUploaded(w, codec, plan, Some(previous));
    assert ByThisKey(w, Last(w));
  }
}
