/** One artifact key of an S3-compatible bucket with conditional writes, shared by uploaders and
    retirers (crates/sandbox-artifacts). A request that was sent may land at any later time, any
    number of times, or never; replies may be lost. */
module ObjectStore {
  import opened Wrappers
  import opened Bytes

  // --- descriptors (crates/sandbox-protocol/src/output.rs) ---

  // `metadata` is the digest of all the plan's fields; `sha256` that of the captured bytes.
  datatype Plan = Plan(
    metadata: Digest, owner: Text, size: nat, sha256: Digest, created: int, expires: int, deleteAfter: int)
  {
    predicate Validated() {
      size <= 10 * 1024 * 1024 && 0 < created < expires <= deleteAfter
    }
  }

  datatype Version = Null | Numbered(id: nat)

  datatype Ref = Ref(plan: Plan, etag: nat, version: Option<Version>)

  datatype Marker = Marker(version: nat, plan: Digest, previous: Option<Ref>)

  datatype Retirement = Retirement(
    version: nat, plan: Digest, previous: Option<Ref>, markerEtag: nat, markerVersion: Option<Version>)
  {
    predicate Validated(expected: Plan) {
      && version == 1 && plan == expected.metadata
      && (previous.Some? ==>
            && previous.value.plan == expected
            && Compatible(previous.value.version, markerVersion))
    }
  }

  predicate Compatible(before: Option<Version>, after: Option<Version>) {
    || (before.None? && after.None?)
    || (before.Some? && after.Some? && (before.value != after.value || before.value.Null?))
  }

  // --- the stored key ---

  datatype Content = Data(metadata: Digest, body: seq<byte>) | Seal(marker: Marker)

  datatype Object = Object(etag: nat, version: Option<Version>, content: Content)

  // The versioning mode of the bucket, fixed over the life of the key.
  datatype Mode = Unversioned | Suspended | Versioned

  datatype Request =
    | CreateOnly(content: Content)
    | Replace(etag: nat, marker: Marker)
    | DeleteVersion(version: Version)

  // The versions under the key, the current one last; every request ever sent; the next
  // unused tag; and every data object there has been.
  datatype World = World(mode: Mode, versions: seq<Object>, sent: set<Request>, next: nat, uploaded: set<Object>)

  function Empty(mode: Mode): World {
    World(mode, [], {}, 0, {})
  }

  function VersionFor(mode: Mode, n: nat): Option<Version> {
    match mode
    case Unversioned => None
    case Suspended => Some(Null)
    case Versioned => Some(Numbered(n))
  }

  function Put(w: World, content: Content): World {
    var stored := Object(w.next, VersionFor(w.mode, w.next), content);
    w.(versions := if w.mode.Versioned? then w.versions + [stored] else [stored],
       next := w.next + 1,
       uploaded := if content.Data? then w.uploaded + {stored} else w.uploaded)
  }

  function Without(versions: seq<Object>, v: Version): seq<Object> {
    if versions == [] then []
    else (if versions[0].version == Some(v) then [] else [versions[0]]) + Without(versions[1..], v)
  }

  predicate Sealed(w: World) {
    w.versions != [] && w.versions[|w.versions| - 1].content.Seal?
  }

  predicate Holds(w: World, r: Request) {
    match r
    case CreateOnly(_) => w.versions == []
    case Replace(etag, _) => w.versions != [] && w.versions[|w.versions| - 1].etag == etag
    case DeleteVersion(_) => true
  }

  // A conditional request takes effect only if its condition holds when it lands.
  function Apply(w: World, r: Request): World {
    if !Holds(w, r) then w
    else
      match r
      case CreateOnly(content) => Put(w, content)
      case Replace(_, marker) => Put(w, Seal(marker))
      case DeleteVersion(v) => w.(versions := Without(w.versions, v))
  }

  // --- what the programs send ---

  // Uploaders and retirers create; retirers replace a data object they have read by a marker
  // naming it, and delete the version of a data object once the key is sealed.
  predicate Allowed(w: World, r: Request) {
    match r
    case CreateOnly(_) => true
    case Replace(etag, marker) =>
      && marker.previous.Some? && marker.previous.value.etag == etag
      && exists o :: o in w.uploaded && o.etag == etag && o.version == marker.previous.value.version
    case DeleteVersion(v) =>
      && w.mode.Versioned? && Sealed(w)
      && exists o :: o in w.uploaded && o.version == Some(v)
  }

  datatype Event = Send(request: Request) | Land(request: Request)

  function Step(w: World, e: Event): World {
    match e
    case Send(r) => if Allowed(w, r) then w.(sent := w.sent + {r}) else w
    case Land(r) => if r in w.sent then Apply(w, r) else w
  }

  function Run(w: World, events: seq<Event>): World
    decreases |events|
  {
    if events == [] then w else Run(Step(w, events[0]), events[1..])
  }

  // --- invariant ---

  predicate ByThisKey(w: World, o: Object) {
    o.etag < w.next && o.version == VersionFor(w.mode, o.etag)
  }

  // Nothing, one object, or the uploaded data under the marker that names it.
  predicate Shape(w: World) {
    || (w.versions == [] && w.uploaded == {})
    || (|w.versions| == 1 && (w.versions[0].content.Data? ==> w.versions[0] in w.uploaded))
    || (|w.versions| == 2 && w.mode.Versioned?
        && w.versions[0] in w.uploaded && w.versions[1].content.Seal?
        && Names(w.versions[1].content.marker, w.versions[0]))
  }

  predicate Names(marker: Marker, o: Object) {
    marker.previous.Some? && marker.previous.value.etag == o.etag && marker.previous.value.version == o.version
  }

  predicate RequestFits(w: World, r: Request) {
    match r
    case CreateOnly(_) => true
    case Replace(etag, marker) => exists o :: o in w.uploaded && o.etag == etag && Names(marker, o)
    case DeleteVersion(v) => w.mode.Versioned? && Sealed(w) && exists o :: o in w.uploaded && o.version == Some(v)
  }

  ghost predicate Inv(w: World) {
    && Shape(w)
    && (forall o :: o in w.versions || o in w.uploaded ==> ByThisKey(w, o))
    && (forall o :: o in w.uploaded ==> o.content.Data?)
    && (forall a, b :: a in w.uploaded && b in w.uploaded ==> a == b)
    && (forall a, b :: a in w.versions && a.content.Seal? && b in w.uploaded ==> a.etag != b.etag)
    && (forall r :: r in w.sent ==> RequestFits(w, r))
  }

  lemma WithoutAt(versions: seq<Object>, v: Version)
    ensures |versions| == 1 ==> Without(versions, v) == if versions[0].version == Some(v) then [] else versions
    ensures |versions| == 2 ==>
      Without(versions, v) == (if versions[0].version == Some(v) then [] else [versions[0]])
                              + (if versions[1].version == Some(v) then [] else [versions[1]])
  {
    if |versions| == 2 {
      assert versions[1..] == [versions[1]];
      assert Without(versions[1..], v) == if versions[1].version == Some(v) then [] else [versions[1]];
    }
  }

  lemma ApplyKeepsInv(w: World, r: Request)
    requires Inv(w) && RequestFits(w, r)
    ensures Inv(Apply(w, r))
    ensures Sealed(w) ==> Sealed(Apply(w, r)) && Last(Apply(w, r)) == Last(w)
  {
    var w' := Apply(w, r);
    if r.DeleteVersion? {
      WithoutAt(w.versions, r.version);
    }
    forall q | q in w'.sent
      ensures RequestFits(w', q)
    {
      assert RequestFits(w, q);
    }
  }

  function Last(w: World): Object
    requires w.versions != []
  {
    w.versions[|w.versions| - 1]
  }

  lemma StepKeepsInv(w: World, e: Event)
    requires Inv(w)
    ensures Inv(Step(w, e))
    ensures Sealed(w) ==> Sealed(Step(w, e)) && Last(Step(w, e)) == Last(w)
    ensures w.mode == Step(w, e).mode && w.uploaded <= Step(w, e).uploaded
  {
    match e
    case Send(r) =>
      forall q | q in Step(w, e).sent
        ensures RequestFits(Step(w, e), q)
      {
        assert q in w.sent ==> RequestFits(w, q);
      }
    case Land(r) =>
      if r in w.sent {
        ApplyKeepsInv(w, r);
      }
  }

  // --- runs ---

  // The marker under which a key was sealed stays the current object forever.
  lemma {:induction false} SealedForever(w: World, events: seq<Event>)
    requires Inv(w)
    ensures Inv(Run(w, events)) && w.mode == Run(w, events).mode && w.uploaded <= Run(w, events).uploaded
    ensures Sealed(w) ==> Sealed(Run(w, events)) && Last(Run(w, events)) == Last(w)
    decreases |events|
  {
    if events != [] {
      StepKeepsInv(w, events[0]);
      hide Inv, Step;
      SealedForever(Step(w, events[0]), events[1..]);
    }
  }

  predicate Present(w: World, v: Version) {
    exists o :: o in w.versions && o.version == Some(v)
  }

  lemma StepKeepsAbsent(w: World, e: Event, v: Version)
    requires Inv(w) && Sealed(w) && !Present(w, v)
    ensures !Present(Step(w, e), v)
  {
    if e.Land? && e.request in w.sent {
      assert RequestFits(w, e.request);
      if e.request.DeleteVersion? {
        WithoutAt(w.versions, e.request.version);
      }
    }
  }

  // Once the key is sealed a deleted version never comes back.
  lemma {:induction false} AbsentForever(w: World, events: seq<Event>, v: Version)
    requires Inv(w) && Sealed(w) && !Present(w, v)
    ensures !Present(Run(w, events), v)
    decreases |events|
  {
    if events != [] {
      StepKeepsInv(w, events[0]);
      StepKeepsAbsent(w, events[0], v);
      hide Inv, Step, Sealed, Present;
      AbsentForever(Step(w, events[0]), events[1..], v);
    }
  }

  lemma StepKeepsData(w: World, e: Event)
    requires Inv(w) && |w.versions| == 1 && w.versions[0].content.Data?
    ensures Sealed(Step(w, e)) || Step(w, e).versions == w.versions
  {
    if e.Land? && e.request in w.sent {
      assert RequestFits(w, e.request);
    }
  }

  // An uploaded object stays readable as it is until a marker seals the key.
  lemma {:induction false} DataStaysUntilSealed(w: World, events: seq<Event>)
    requires Inv(w) && |w.versions| == 1 && w.versions[0].content.Data?
    ensures Sealed(Run(w, events)) || Run(w, events).versions == w.versions
    decreases |events|
  {
    if events != [] {
      StepKeepsInv(w, events[0]);
      StepKeepsData(w, events[0]);
      var next := Step(w, events[0]);
      if Sealed(next) {
        SealedForever(next, events[1..]);
      } else {
        DataStaysUntilSealed(next, events[1..]);
      }
      hide Inv, Step, Sealed;
    }
  }

  // --- reads ---

  datatype Error = Missing | Corrupt | Conflict | Unavailable | InvalidMetadata | OwnerMismatch | Expired | Bounds

  // SHA-256 and the printed text of a marker, left uninterpreted.
  datatype Codec = Codec(sha: seq<byte> -> Digest, text: Marker -> seq<byte>)

  const MAX_MARKER := 8192

  function Lookup(w: World, version: Option<Version>): Option<Object> {
    if w.versions == [] then None
    else if version.None? || Last(w).version == version then Some(Last(w))
    else if w.versions[0].version == version then Some(w.versions[0])
    else None
  }

  function Verify(codec: Codec, plan: Plan, pinned: Option<Ref>, o: Object): Result<Ref, Error> {
    var ref := Ref(plan, o.etag, o.version);
    if o.content.Data? && |o.content.body| == plan.size && o.content.metadata == plan.metadata
       && (pinned.Some? ==> pinned.value == ref) && codec.sha(o.content.body) == plan.sha256
    then Ok(ref) else Err(Corrupt)
  }

  function Fetched(w: World, codec: Codec, plan: Plan, pinned: Option<Ref>): Result<Ref, Error> {
    var o := Lookup(w, if pinned.Some? then pinned.value.version else None);
    if o.None? then Err(Missing)
    else if pinned.Some? && pinned.value.etag != o.value.etag then Err(Corrupt)
    else Verify(codec, plan, pinned, o.value)
  }

  datatype Current = Vacant | Holding(ref: Ref) | Retired(receipt: Retirement)

  function ReceiptOf(o: Object): Retirement
    requires o.content.Seal?
  {
    Retirement(o.content.marker.version, o.content.marker.plan, o.content.marker.previous, o.etag, o.version)
  }

  function CurrentOf(w: World, codec: Codec, plan: Plan, selected: Option<Ref>): Result<Current, Error> {
    if w.versions == [] then Ok(Vacant)
    else if Last(w).content.Data? then
      match Verify(codec, plan, selected, Last(w))
      case Ok(ref) => Ok(Holding(ref))
      case Err(e) => Err(e)
    else
      var receipt := ReceiptOf(Last(w));
      if |codec.text(Last(w).content.marker)| > MAX_MARKER || !receipt.Validated(plan)
         || (selected.Some? && receipt.previous != selected)
      then Err(Corrupt)
      else Ok(Retired(receipt))
  }

  // --- retirement is final ---

  // Only the marker is left.
  predicate Final(w: World, receipt: Retirement) {
    |w.versions| == 1 && w.versions[0].content.Seal? && ReceiptOf(w.versions[0]) == receipt
  }

  lemma StepKeepsFinal(w: World, e: Event, receipt: Retirement)
    requires Inv(w) && Final(w, receipt)
    ensures Final(Step(w, e), receipt)
  {
    if e.Land? && e.request in w.sent {
      assert RequestFits(w, e.request);
      if e.request.DeleteVersion? {
        WithoutAt(w.versions, e.request.version);
      }
    }
  }

  lemma {:induction false} FinalForever(w: World, events: seq<Event>, receipt: Retirement)
    requires Inv(w) && Final(w, receipt)
    ensures Final(Run(w, events), receipt)
    decreases |events|
  {
    if events != [] {
      StepKeepsInv(w, events[0]);
      StepKeepsFinal(w, events[0], receipt);
      hide Inv, Step, Final;
      FinalForever(Step(w, events[0]), events[1..], receipt);
    }
  }

  // Every retirement of the key that ever succeeds returns the same receipt.
  lemma RetirementsAgree(w: World, events: seq<Event>, a: Retirement, b: Retirement)
    requires Inv(w) && Final(w, a) && Final(Run(w, events), b)
    ensures a == b
  {
    FinalForever(w, events, a);
    hide Run, Inv;
  }

  // After retirement no fetch verifies, whatever lands later, pinned or not, for any plan.
  lemma NothingIsFetchedAfterRetirement(
      w: World, events: seq<Event>, receipt: Retirement, codec: Codec, plan: Plan, pinned: Option<Ref>)
    requires Inv(w) && Final(w, receipt)
    ensures Fetched(Run(w, events), codec, plan, pinned).Err?
    ensures CurrentOf(Run(w, events), codec, plan, None) == CurrentOf(w, codec, plan, None)
  {
    FinalForever(w, events, receipt);
    hide Run, Inv;
  }

  // All fetches that ever verify saw one and the same object.
  lemma FetchesAgree(w: World, events: seq<Event>, codec: Codec, p: Plan, q: Plan, pin: Option<Ref>, qin: Option<Ref>)
    requires Inv(w) && Fetched(w, codec, p, pin).Ok? && Fetched(Run(w, events), codec, q, qin).Ok?
    ensures var a, b := Fetched(w, codec, p, pin).value, Fetched(Run(w, events), codec, q, qin).value;
            a.etag == b.etag && a.version == b.version
            && p.metadata == q.metadata && p.size == q.size && p.sha256 == q.sha256
  {
    SealedForever(w, events);
    FetchedIsUploaded(w, codec, p, pin);
    FetchedIsUploaded(Run(w, events), codec, q, qin);
    hide Run;
  }

  lemma FetchedIsUploaded(w: World, codec: Codec, p: Plan, pin: Option<Ref>)
    requires Inv(w) && Fetched(w, codec, p, pin).Ok?
    ensures var ref := Fetched(w, codec, p, pin).value;
            exists o :: o in w.uploaded && o.etag == ref.etag && o.version == ref.version
                        && Verify(codec, p, pin, o) == Ok(ref)
  {
    var o := Lookup(w, if pin.Some? then pin.value.version else None).value;
    assert o in w.uploaded;
  }
}
