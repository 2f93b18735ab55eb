/** Writing the canonical text and hashing a request (crates/sandbox-protocol/src/idempotency.rs):
    two requests share a digest preimage exactly when method, target and payload agree. */
module RequestDigest {
  import opened Bytes
  import opened CanonicalJson

  // --- lists with commas ---

  function Commas(parts: seq<seq<byte>>): seq<byte> {
    if parts == [] then []
    else if |parts| == 1 then parts[0]
    else Commas(parts[..|parts| - 1]) + [44] + parts[|parts| - 1]
  }

  lemma {:induction false} CommasFromTheFront(parts: seq<seq<byte>>)
    requires |parts| > 1
    ensures Commas(parts) == parts[0] + [44] + Commas(parts[1..])
  {
    var last := |parts| - 1;
    if |parts| == 2 {
      assert parts[..1] == [parts[0]] && parts[1..] == [parts[1]];
    } else {
      CommasFromTheFront(parts[..last]);
      assert parts[..last][1..] == parts[1..][..last - 1];
      assert parts[1..][last - 1] == parts[last];
      Assoc(parts[0] + [44], Commas(parts[1..][..last - 1]), [44] + parts[last]);
      Assoc(Commas(parts[1..][..last - 1]), [44], parts[last]);
      Assoc(parts[0] + [44] + Commas(parts[1..][..last - 1]), [44], parts[last]);
    }
  }

  lemma CommasAppend(parts: seq<seq<byte>>, n: nat)
    requires n < |parts|
    ensures Commas(parts[..n + 1]) == if n == 0 then parts[0] else Commas(parts[..n]) + [44] + parts[n]
  {
    assert parts[..n + 1][..n] == parts[..n];
  }

  function ItemParts(items: seq<Value>): (r: seq<seq<byte>>)
    ensures |r| == |items| && forall i :: 0 <= i < |items| ==> r[i] == Print(items[i])
  {
    if items == [] then [] else [Print(items[0])] + ItemParts(items[1..])
  }

  function FieldParts(fields: seq<Field>): (r: seq<seq<byte>>)
    ensures |r| == |fields| && forall i :: 0 <= i < |fields| ==> r[i] == PrintField(fields[i])
  {
    if fields == [] then [] else [PrintField(fields[0])] + FieldParts(fields[1..])
  }

  lemma {:induction false} ItemsAreCommas(items: seq<Value>)
    ensures PrintItems(items) == Commas(ItemParts(items))
  {
    hide Print;
    if |items| > 1 {
      ItemsAreCommas(items[1..]);
      CommasFromTheFront(ItemParts(items));
      assert ItemParts(items)[1..] == ItemParts(items[1..]);
    }
  }

  lemma {:induction false} FieldsAreCommas(fields: seq<Field>)
    ensures PrintFields(fields) == Commas(FieldParts(fields))
  {
    hide PrintField;
    if |fields| > 1 {
      FieldsAreCommas(fields[1..]);
      CommasFromTheFront(FieldParts(fields));
      assert FieldParts(fields)[1..] == FieldParts(fields[1..]);
    }
  }

  // --- sorting does not look at the values ---

  lemma {:induction false} InsertNormal(f: Field, fields: seq<Field>)
    ensures NormalFields(Insert(f, fields)) == Insert(Field(f.key, Normal(f.value)), NormalFields(fields))
  {
    hide Normal;
    if fields == [] || Less(f.key, fields[0].key) {
      assert ([f] + fields)[1..] == fields;
    } else {
      InsertNormal(f, fields[1..]);
      var rest := Insert(f, fields[1..]);
      assert ([fields[0]] + rest)[1..] == rest;
    }
  }

  lemma {:induction false} SortedNormal(fields: seq<Field>)
    ensures NormalFields(Sorted(fields)) == Sorted(NormalFields(fields))
  {
    if fields != [] {
      SortedNormal(fields[1..]);
      InsertNormal(fields[0], Sorted(fields[1..]));
    }
    hide Normal;
  }

  // --- the writer ---

  class Buffer {
    var bytes: seq<byte>

    constructor ()
      ensures bytes == []
    {
      bytes := [];
    }

    method Push(b: byte)
      modifies this
      ensures bytes == old(bytes) + [b]
    {
      bytes := bytes + [b];
    }

    method Extend(more: seq<byte>)
      modifies this
      ensures bytes == old(bytes) + more
    {
      bytes := bytes + more;
    }
  }

  method WriteCanonical(value: Value, out: Buffer)
    modifies out
    ensures out.bytes == old(out.bytes) + Canonical(value)
    decreases value, 1
  {
    match value {
      case Object(fields) => WriteObject(fields, value, out);
      case Array(items) => WriteArray(items, value, out);
      case _ => out.Extend(Print(value));
    }
  }

  // One more part after a head, with its comma.
  lemma AppendPart(head: seq<byte>, parts: seq<seq<byte>>, i: nat)
    requires i < |parts|
    ensures head + Commas(parts[..i + 1])
            == head + Commas(parts[..i]) + (if i == 0 then [] else [44]) + parts[i]
  {
    CommasAppend(parts, i);
    if i == 0 {
      assert parts[..0] == [];
      assert head + [] + [] + parts[0] == head + parts[0];
    } else {
      Assoc(head, Commas(parts[..i]) + [44], parts[i]);
      Assoc(head, Commas(parts[..i]), [44]);
    }
  }

  lemma Bracketed(start: seq<byte>, open: byte, body: seq<byte>, close: byte)
    ensures start + [open] + body + [close] == start + ([open] + body + [close])
  {}

  // The canonical texts of an array's items.
  function ArrayParts(items: seq<Value>): seq<seq<byte>> {
    ItemParts(NormalItems(items))
  }

  lemma ArrayPartAt(items: seq<Value>, i: nat)
    requires i < |items|
    ensures |ArrayParts(items)| == |items| && ArrayParts(items)[i] == Canonical(items[i])
  {
    hide Print, Normal;
  }

  lemma ArrayText(items: seq<Value>)
    ensures |ArrayParts(items)| == |items|
    ensures Canonical(Array(items)) == [91] + Commas(ArrayParts(items)) + [93]
  {
    ItemsAreCommas(NormalItems(items));
    hide Commas, ItemParts, NormalItems;
  }

  lemma TakeAll(parts: seq<seq<byte>>)
    ensures parts[..|parts|] == parts && parts[..0] == []
  {}

  method WriteArray(items: seq<Value>, value: Value, out: Buffer)
    requires value == Array(items)
    modifies out
    ensures out.bytes == old(out.bytes) + Canonical(value)
    decreases value, 0
  {
    hide Canonical, ArrayParts;
    ghost var parts := ArrayParts(items);
    ArrayText(items);
    TakeAll(parts);
    Bracketed(out.bytes, 91, Commas(parts), 93);
    out.Push(91);
    ghost var head := out.bytes;
    assert head == head + Commas(parts[..0]);
    hide Commas;
    for i := 0 to |items|
      invariant out.bytes == head + Commas(parts[..i])
    {
      AppendPart(head, parts, i);
      ArrayPartAt(items, i);
      if i > 0 {
        out.Push(44);
      } else {
        assert out.bytes + [] == out.bytes;
      }
      WriteCanonical(items[i], out);
    }
    out.Push(93);
  }

  lemma SortedMember(fields: seq<Field>, i: nat) returns (j: nat)
    requires i < |Sorted(fields)|
    ensures j < |fields| && fields[j] == Sorted(fields)[i]
  {
    SortedKeeps(fields);
    assert Sorted(fields)[i] in fields;
    j :| j < |fields| && fields[j] == Sorted(fields)[i];
  }

  method WriteField(f: Field, out: Buffer)
    modifies out
    ensures out.bytes == old(out.bytes) + PrintField(Field(f.key, Normal(f.value)))
    decreases f.value, 2
  {
    hide Print, Normal, Quote;
    Assoc(out.bytes, Quote(f.key), [58]);
    Assoc(out.bytes, Quote(f.key) + [58], Canonical(f.value));
    out.Extend(Quote(f.key));
    out.Push(58);
    WriteCanonical(f.value, out);
  }

  method WriteObject(fields: seq<Field>, value: Value, out: Buffer)
    requires value == Object(fields)
    modifies out
    ensures out.bytes == old(out.bytes) + Canonical(value)
    decreases value, 0
  {
    var sorted := Sorted(fields);
    ghost var parts := FieldParts(NormalFields(sorted));
    FieldsAreCommas(NormalFields(sorted));
    SortedNormal(fields);
    Bracketed(out.bytes, 123, Commas(parts), 125);
    out.Push(123);
    ghost var head := out.bytes;
    assert head == head + Commas(parts[..0]);
    for i := 0 to |sorted|
      invariant out.bytes == head + Commas(parts[..i])
    {
      hide Print, Normal, NormalFields, FieldParts, Commas, Quote, Sorted, Less;
      AppendPart(head, parts, i);
      ghost var j := SortedMember(fields, i);
      if i > 0 {
        out.Push(44);
      } else {
        assert out.bytes + [] == out.bytes;
      }
      WriteField(sorted[i], out);
    }
    hide NormalFields, FieldParts, Commas, Sorted;
    assert parts[..|sorted|] == parts;
    out.Push(125);
  }

  // --- the digest ---

  // The low `count` bytes of n, most significant first.
  function BigEndian(n: nat, count: nat): (r: seq<byte>)
    ensures |r| == count
  {
    if count == 0 then [] else BigEndian(n / 256, count - 1) + [(n % 256) as byte]
  }

  function Power256(k: nat): nat {
    if k == 0 then 1 else 256 * Power256(k - 1)
  }

  lemma {:induction false} BigEndianInjective(m: nat, n: nat, count: nat)
    requires m < Power256(count) && n < Power256(count) && BigEndian(m, count) == BigEndian(n, count)
    ensures m == n
  {
    if count > 0 {
      var a, b := BigEndian(m, count), BigEndian(n, count);
      assert a[count - 1] == b[count - 1];
      assert a[..count - 1] == BigEndian(m / 256, count - 1) && b[..count - 1] == BigEndian(n / 256, count - 1);
      BigEndianInjective(m / 256, n / 256, count - 1);
    }
  }

  function Prefixed(part: seq<byte>): seq<byte> {
    BigEndian(|part|, 8) + part
  }

  function Preimage(verb: Text, target: Text, payload: Value): seq<byte> {
    Prefixed(verb) + Prefixed(target) + Prefixed(Canonical(payload))
  }

  // Lengths fit in 64 bits, as every slice length does.
  predicate Representable(part: seq<byte>) {
    |part| < 0x1_0000_0000_0000_0000
  }

  lemma PrefixedSplits(a: seq<byte>, b: seq<byte>, x: seq<byte>, y: seq<byte>)
    requires Representable(a) && Representable(b) && Prefixed(a) + x == Prefixed(b) + y
    ensures a == b && x == y
  {
    var all := Prefixed(a) + x;
    assert all[..8] == BigEndian(|a|, 8) && all[..8] == BigEndian(|b|, 8);
    assert Power256(8) == 0x1_0000_0000_0000_0000;
    BigEndianInjective(|a|, |b|, 8);
    assert all[8..8 + |a|] == a && all[8..8 + |b|] == b;
    Cancel(Prefixed(a), x, y);
  }

  lemma SamePreimageExactlyForSameRequest(v: Text, t: Text, p: Value, w: Text, u: Text, q: Value)
    requires WellFormed(p) && WellFormed(q)
    requires Representable(v) && Representable(t) && Representable(Canonical(p))
    requires Representable(w) && Representable(u) && Representable(Canonical(q))
    ensures Preimage(v, t, p) == Preimage(w, u, q) <==> v == w && t == u && Equivalent(p, q)
  {
    CanonicalExactlyWhenEquivalent(p, q);
    var a, b := Prefixed(Canonical(p)), Prefixed(Canonical(q));
    hide Canonical, Equivalent, Prefixed;
    if Preimage(v, t, p) == Preimage(w, u, q) {
      Assoc(Prefixed(v), Prefixed(t), a);
      Assoc(Prefixed(w), Prefixed(u), b);
      PrefixedSplits(v, w, Prefixed(t) + a, Prefixed(u) + b);
      PrefixedSplits(t, u, a, b);
      assert a + [] == a && b + [] == b;
      PrefixedSplits(Canonical(p), Canonical(q), [], []);
    }
  }

  class Hasher {
    const sha: seq<byte> -> Digest
    var absorbed: seq<byte>

    constructor (sha: seq<byte> -> Digest)
      ensures this.sha == sha && absorbed == []
    {
      this.sha, absorbed := sha, [];
    }

    method Update(bytes: seq<byte>)
      modifies this
      ensures absorbed == old(absorbed) + bytes
    {
      absorbed := absorbed + bytes;
    }
  }

  lemma PrefixedAppends(before: seq<byte>, part: seq<byte>)
    ensures before + BigEndian(|part|, 8) + part == before + Prefixed(part)
    ensures [] + Prefixed(part) == Prefixed(part)
  {
    hide BigEndian;
    Assoc(before, BigEndian(|part|, 8), part);
  }

  method Compute(sha: seq<byte> -> Digest, verb: Text, target: Text, payload: Value) returns (digest: Digest)
    ensures digest == sha(Preimage(verb, target, payload))
  {
    var canonical := new Buffer();
    WriteCanonical(payload, canonical);
    assert canonical.bytes == Canonical(payload);
    var hasher := new Hasher(sha);
    var parts := [verb, target, canonical.bytes];
    for i := 0 to 3
      invariant hasher.sha == sha && parts == [verb, target, Canonical(payload)]
      invariant hasher.absorbed == (if i == 0 then [] else if i == 1 then Prefixed(verb)
                                    else if i == 2 then Prefixed(verb) + Prefixed(target)
                                    else Preimage(verb, target, payload))
    {
      hide Canonical;
      PrefixedAppends(hasher.absorbed, parts[i]);
      hide Prefixed, BigEndian;
      hasher.Update(BigEndian(|parts[i]|, 8));
      hasher.Update(parts[i]);
    }
    return hasher.sha(hasher.absorbed);
  }

  // Short of a collision between these two preimages, equal digests mean the same request.
  lemma SameDigestMeansSameRequest(
      sha: seq<byte> -> Digest, v: Text, t: Text, p: Value, w: Text, u: Text, q: Value)
    requires WellFormed(p) && WellFormed(q)
    requires Representable(v) && Representable(t) && Representable(Canonical(p))
    requires Representable(w) && Representable(u) && Representable(Canonical(q))
    requires sha(Preimage(v, t, p)) == sha(Preimage(w, u, q)) ==> Preimage(v, t, p) == Preimage(w, u, q)
    ensures sha(Preimage(v, t, p)) == sha(Preimage(w, u, q)) <==> v == w && t == u && Equivalent(p, q)
  {
    SamePreimageExactlyForSameRequest(v, t, p, w, u, q);
    hide Preimage, Equivalent;
  }
}
