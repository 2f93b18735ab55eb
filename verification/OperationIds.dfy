/** Operation identifiers: UUIDs of version 7 (section 5.7 of RFC 9562), the order in
    which barriers close prefixes of them, and the successor arithmetic that keeps
    admission above every durable floor (crates/sandbox-protocol/src/history.rs). */
module OperationIds {
  import opened Wrappers

  type Bits2 = n: int | 0 <= n < 4
  type Bits4 = n: int | 0 <= n < 16
  type Bits12 = n: int | 0 <= n < 0x1000
  type Bits48 = n: int | 0 <= n < 0x1_0000_0000_0000
  type Bits62 = n: int | 0 <= n < 0x4000_0000_0000_0000

  // The five fields of a UUID from the most to the least significant bit.
  datatype Uuid = Uuid(time: Bits48, version: Bits4, randA: Bits12, variant: Bits2, randB: Bits62)

  predicate Valid(u: Uuid) {
    u.version == 7 && u.variant == 2
  }

  // Identifiers are ordered field by field; AsU128PreservesOrder says this is the order
  // of the 128-bit numbers.
  predicate Less(u: Uuid, v: Uuid) {
    if u.time != v.time then u.time < v.time
    else if u.version != v.version then u.version < v.version
    else if u.randA != v.randA then u.randA < v.randA
    else if u.variant != v.variant then u.variant < v.variant
    else u.randB < v.randB
  }

  predicate Covers(through: Uuid, id: Uuid) {
    !Less(through, id)
  }

  const LARGEST := Uuid(0xffff_ffff_ffff, 7, 0xfff, 2, 0x3fff_ffff_ffff_ffff)

  // --- 128-bit numbers: shifts are divisions, masks remainders, and the fields that the
  // --- code joins are disjoint, so they add up ---

  function AsU128(u: Uuid): int {
    Join(u.time, u.version, u.randA, u.variant, u.randB)
  }

  function Join(time: int, version: int, randA: int, variant: int, randB: int): int {
    time * 0x1_0000_0000_0000_0000_0000 + version * 0x1000_0000_0000_0000_0000
    + randA * 0x1_0000_0000_0000_0000 + variant * 0x4000_0000_0000_0000 + randB
  }

  function FromU128(n: int): Uuid
    requires 0 <= n < 0x1_0000_0000_0000_0000_0000_0000_0000_0000
  {
    Uuid(n / 0x1_0000_0000_0000_0000_0000, n / 0x1000_0000_0000_0000_0000 % 16,
         n / 0x1_0000_0000_0000_0000 % 0x1000, n / 0x4000_0000_0000_0000 % 4, n % 0x4000_0000_0000_0000)
  }

  // The 122 bits left when version and variant are squeezed out.
  function Rank(n: int): int {
    Pack(n / 0x1_0000_0000_0000_0000_0000, n / 0x1_0000_0000_0000_0000 % 0x1000, n % 0x4000_0000_0000_0000)
  }

  function Pack(time: int, randA: int, randB: int): int {
    time * 0x400_0000_0000_0000_0000 + randA * 0x4000_0000_0000_0000 + randB
  }

  function Unrank(n: int): int {
    Join(n / 0x400_0000_0000_0000_0000, 7, n / 0x4000_0000_0000_0000 % 0x1000, 2, n % 0x4000_0000_0000_0000)
  }

  datatype IdError = InvalidIdentity | Exhausted

  function Advance(candidate: Uuid, floor: Option<Uuid>): Result<Uuid, IdError> {
    if !Valid(candidate) || (floor.Some? && !Valid(floor.value)) then Err(InvalidIdentity)
    else if floor.None? || !Covers(floor.value, candidate) then Ok(candidate)
    else
      var next := Rank(AsU128(floor.value)) + 1;
      NextRank(floor.value);
      if next < 0x400_0000_0000_0000_0000_0000_0000_0000 then Ok(FromU128(Unrank(next))) else Err(Exhausted)
  }

  // --- what the rank arithmetic amounts to: carries between the fields ---

  function Successor(u: Uuid): Option<Uuid> {
    if u.randB + 1 < 0x4000_0000_0000_0000 then Some(u.(randB := u.randB + 1))
    else if u.randA + 1 < 0x1000 then Some(u.(randA := u.randA + 1, randB := 0))
    else if u.time + 1 < 0x1_0000_0000_0000 then Some(u.(time := u.time + 1, randA := 0, randB := 0))
    else None
  }

  lemma SmallMultiple(k: int, d: int)
    requires -d < k * d < d
    ensures k == 0
  {}

  lemma QuotientUnique(n: int, d: int, q: int, r: int)
    requires 0 < d && n == q * d + r && 0 <= r < d
    ensures n / d == q && n % d == r
  {
    var k := n / d - q;
    assert n == n / d * d + n % d;
    assert k * d == n / d * d - q * d;
    SmallMultiple(k, d);
  }

  lemma JoinFields(time: int, version: Bits4, randA: Bits12, variant: Bits2, randB: Bits62, n: int)
    requires n == Join(time, version, randA, variant, randB)
    ensures n / 0x1_0000_0000_0000_0000_0000 == time
    ensures n / 0x1000_0000_0000_0000_0000 % 16 == version
    ensures n / 0x1_0000_0000_0000_0000 % 0x1000 == randA
    ensures n / 0x4000_0000_0000_0000 % 4 == variant
    ensures n % 0x4000_0000_0000_0000 == randB
  {
    var a := time * 16 + version;
    var b := a * 0x1000 + randA;
    var c := b * 4 + variant;
    QuotientUnique(n, 0x4000_0000_0000_0000, c, randB);
    QuotientUnique(n, 0x1_0000_0000_0000_0000, b, variant * 0x4000_0000_0000_0000 + randB);
    QuotientUnique(n, 0x1000_0000_0000_0000_0000, a,
                   randA * 0x1_0000_0000_0000_0000 + variant * 0x4000_0000_0000_0000 + randB);
    QuotientUnique(n, 0x1_0000_0000_0000_0000_0000, time,
                   version * 0x1000_0000_0000_0000_0000 + randA * 0x1_0000_0000_0000_0000
                   + variant * 0x4000_0000_0000_0000 + randB);
    QuotientUnique(c, 4, b, variant);
    QuotientUnique(b, 0x1000, a, randA);
    QuotientUnique(a, 16, time, version);
  }

  lemma PackFields(time: int, randA: Bits12, randB: Bits62, n: int)
    requires n == Pack(time, randA, randB)
    ensures n / 0x400_0000_0000_0000_0000 == time
    ensures n / 0x4000_0000_0000_0000 % 0x1000 == randA
    ensures n % 0x4000_0000_0000_0000 == randB
  {
    var a := time * 0x1000 + randA;
    QuotientUnique(n, 0x4000_0000_0000_0000, a, randB);
    QuotientUnique(n, 0x400_0000_0000_0000_0000, time, randA * 0x4000_0000_0000_0000 + randB);
    QuotientUnique(a, 0x1000, time, randA);
  }

  lemma PackOfSuccessor(u: Uuid)
    ensures match Successor(u)
            case Some(v) => Pack(u.time, u.randA, u.randB) + 1 == Pack(v.time, v.randA, v.randB)
            case None => Pack(u.time, u.randA, u.randB) + 1 == 0x400_0000_0000_0000_0000_0000_0000_0000
  {}

  lemma PackRange(u: Uuid)
    ensures 0 <= Pack(u.time, u.randA, u.randB) < 0x400_0000_0000_0000_0000_0000_0000_0000
  {}

  lemma JoinRange(u: Uuid)
    ensures 0 <= AsU128(u) < 0x1_0000_0000_0000_0000_0000_0000_0000_0000
  {}

  /** Reading a number back gives the same fields. */
  lemma U128RoundTrip(u: Uuid)
    ensures 0 <= AsU128(u) < 0x1_0000_0000_0000_0000_0000_0000_0000_0000
    ensures FromU128(AsU128(u)) == u
  {
    JoinRange(u);
    JoinFields(u.time, u.version, u.randA, u.variant, u.randB, AsU128(u));
  }

  lemma RankOf(u: Uuid)
    ensures Rank(AsU128(u)) == Pack(u.time, u.randA, u.randB)
  {
    JoinFields(u.time, u.version, u.randA, u.variant, u.randB, AsU128(u));
  }

  lemma UnrankOf(u: Uuid)
    requires Valid(u)
    ensures Unrank(Pack(u.time, u.randA, u.randB)) == AsU128(u)
  {
    PackFields(u.time, u.randA, u.randB, Pack(u.time, u.randA, u.randB));
  }

  // The shift-and-mask arithmetic computes the carries.
  lemma NextRank(u: Uuid)
    requires Valid(u)
    ensures match Successor(u)
            case Some(v) =>
              && Valid(v)
              && Rank(AsU128(u)) + 1 < 0x400_0000_0000_0000_0000_0000_0000_0000
              && Unrank(Rank(AsU128(u)) + 1) == AsU128(v)
              && 0 <= AsU128(v) < 0x1_0000_0000_0000_0000_0000_0000_0000_0000
              && FromU128(AsU128(v)) == v
            case None => Rank(AsU128(u)) + 1 >= 0x400_0000_0000_0000_0000_0000_0000_0000
  {
    RankOf(u);
    PackOfSuccessor(u);
    match Successor(u) {
      case None =>
      case Some(v) =>
        PackRange(v);
        UnrankOf(v);
        U128RoundTrip(v);
    }
  }

  lemma AdvanceIsCarry(candidate: Uuid, floor: Uuid)
    requires Valid(candidate) && Valid(floor) && Covers(floor, candidate)
    ensures Advance(candidate, Some(floor)) ==
            match Successor(floor) case Some(v) => Ok(v) case None => Err(Exhausted)
  {
    NextRank(floor);
  }

  lemma NumberOrderStep(high: int, high': int, low: int, low': int, d: int)
    requires high < high' && 0 <= low < d && 0 <= low' < d
    ensures high * d + low < high' * d + low'
  {
    assert high * d + d <= high' * d by {
      assert (high + 1) * d <= high' * d;
    }
  }

  lemma LessImpliesSmaller(u: Uuid, v: Uuid)
    requires Less(u, v)
    ensures AsU128(u) < AsU128(v)
  {
    if u.time == v.time && u.version == v.version && u.randA == v.randA {
      if u.variant != v.variant {
        NumberOrderStep(u.variant, v.variant, u.randB, v.randB, 0x4000_0000_0000_0000);
      }
    }
  }

  /** The field-by-field order is the order of the 128-bit numbers. */
  lemma AsU128PreservesOrder(u: Uuid, v: Uuid)
    ensures Less(u, v) <==> AsU128(u) < AsU128(v)
  {
    if Less(u, v) {
      LessImpliesSmaller(u, v);
    } else if u != v {
      LessImpliesSmaller(v, u);
    }
  }

  /** On valid identifiers the 122-bit rank is an order isomorphism with its inverse Unrank. */
  lemma RankIsOrderIsomorphism(u: Uuid, v: Uuid)
    requires Valid(u) && Valid(v)
    ensures 0 <= Rank(AsU128(u)) < 0x400_0000_0000_0000_0000_0000_0000_0000
    ensures Unrank(Rank(AsU128(u))) == AsU128(u)
    ensures Rank(AsU128(u)) < Rank(AsU128(v)) <==> Less(u, v)
  {
    RankOf(u);
    RankOf(v);
    PackRange(u);
    UnrankOf(u);
    PackOrder(u, v);
    PackOrder(v, u);
  }

  lemma PackOrder(u: Uuid, v: Uuid)
    requires Valid(u) && Valid(v)
    ensures Less(u, v) ==> Pack(u.time, u.randA, u.randB) < Pack(v.time, v.randA, v.randB)
  {
    if u.time < v.time {
      NumberOrderStep(u.time, v.time, u.randA * 0x4000_0000_0000_0000 + u.randB,
                      v.randA * 0x4000_0000_0000_0000 + v.randB, 0x400_0000_0000_0000_0000);
    }
  }

  /** Every rank below 2^122 belongs to a valid identifier. */
  lemma RankIsOnto(n: int) returns (u: Uuid)
    requires 0 <= n < 0x400_0000_0000_0000_0000_0000_0000_0000
    ensures Valid(u) && Rank(AsU128(u)) == n
  {
    u := Uuid(n / 0x400_0000_0000_0000_0000, 7, n / 0x4000_0000_0000_0000 % 0x1000, 2, n % 0x4000_0000_0000_0000);
    RankOf(u);
    assert n / 0x4000_0000_0000_0000 / 0x1000 == n / 0x400_0000_0000_0000_0000;
  }

  /** A valid candidate above the floor is kept; otherwise the result is the least valid
      identifier above the floor. Valid inputs fail exactly when the floor is the largest
      identifier. */
  lemma AdvanceIsLeastAboveFloor(candidate: Uuid, floor: Option<Uuid>, other: Uuid)
    requires Valid(other)
    ensures Advance(candidate, floor) == Err(InvalidIdentity) <==>
            !Valid(candidate) || (floor.Some? && !Valid(floor.value))
    ensures Advance(candidate, floor) == Err(Exhausted) <==>
            Valid(candidate) && floor == Some(LARGEST)
    ensures match Advance(candidate, floor)
            case Err(_) => true
            case Ok(id) =>
              && Valid(id)
              && (floor.None? ==> id == candidate)
              && (floor.Some? ==>
                && !Covers(floor.value, id)
                && (!Covers(floor.value, candidate) ==> id == candidate)
                && (Covers(floor.value, candidate) && Less(floor.value, other) ==> Covers(other, id)))
  {
    if Valid(candidate) && floor.Some? && Valid(floor.value) && Covers(floor.value, candidate) {
      AdvanceIsCarry(candidate, floor.value);
    }
  }

  // --- admission: one allocation row, its last admitted id and its reserved barriers ---

  datatype Issuer = Issuer(last: Option<Uuid>, reserved: seq<Uuid>)

  datatype IssuerEvent = Reserve(through: Uuid) | Issue(candidate: Uuid)

  function Floor(last: Option<Uuid>, reserved: seq<Uuid>): (floor: Option<Uuid>)
    ensures floor.None? <==> last.None? && reserved == []
    ensures last.Some? ==> floor.Some? && Covers(floor.value, last.value)
    ensures forall b :: b in reserved ==> floor.Some? && Covers(floor.value, b)
    ensures floor.Some? ==> floor == last || floor.value in reserved
    decreases |reserved|
  {
    if reserved == [] then last
    else
      var value := reserved[0];
      var floor := Floor(Some(if last.Some? && Less(value, last.value) then last.value else value), reserved[1..]);
      assert reserved == [value] + reserved[1..];
      floor
  }

  // An issued identifier becomes the row's last admitted one in the same transaction.
  function IssuerStep(i: Issuer, e: IssuerEvent): (Issuer, Option<Uuid>) {
    match e
    case Reserve(through) => (i.(reserved := i.reserved + [through]), None)
    case Issue(candidate) =>
      match Advance(candidate, Floor(i.last, i.reserved))
      case Err(_) => (i, None)
      case Ok(id) => (i.(last := Some(id)), Some(id))
  }

  function IssuerAfter(i: Issuer, events: seq<IssuerEvent>): Issuer
    decreases |events|
  {
    if events == [] then i else IssuerAfter(IssuerStep(i, events[0]).0, events[1..])
  }

  ghost predicate Below(i: Issuer, id: Uuid) {
    && (i.last.Some? ==> Less(i.last.value, id))
    && forall b :: b in i.reserved ==> !Covers(b, id)
  }

  lemma StepInheritsBelow(i: Issuer, e: IssuerEvent, id: Uuid)
    requires Below(IssuerStep(i, e).0, id)
    ensures Below(i, id)
  {
    match e {
      case Reserve(through) =>
        assert forall b :: b in i.reserved ==> b in (i.reserved + [through]);
      case Issue(candidate) =>
        AdvanceIsLeastAboveFloor(candidate, Floor(i.last, i.reserved), LARGEST);
    }
  }

  lemma {:induction false} BelowIsInherited(i: Issuer, events: seq<IssuerEvent>, id: Uuid)
    requires Below(IssuerAfter(i, events), id)
    ensures Below(i, id)
    decreases |events|
  {
    if events != [] {
      BelowIsInherited(IssuerStep(i, events[0]).0, events[1..], id);
      StepInheritsBelow(i, events[0], id);
    }
  }

  /** Whatever happens between two issues, the later identifier exceeds every identifier
      issued earlier and falls under no barrier reserved earlier, so a retired prefix
      never swallows new work. */
  lemma IssuanceNeverFallsUnderABarrier(start: Issuer, events: seq<IssuerEvent>, candidate: Uuid)
    ensures match IssuerStep(IssuerAfter(start, events), Issue(candidate)).1
            case None => true
            case Some(id) => Valid(id) && Below(start, id) && Below(IssuerAfter(start, events), id)
  {
    var i := IssuerAfter(start, events);
    AdvanceIsLeastAboveFloor(candidate, Floor(i.last, i.reserved), LARGEST);
    var issued := IssuerStep(i, Issue(candidate)).1;
    if issued.Some? {
      assert Below(i, issued.value);
      BelowIsInherited(start, events, issued.value);
    }
  }
}
