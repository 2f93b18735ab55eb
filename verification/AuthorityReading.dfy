/** The text of a saved ledger determines the ledger, so whatever reads the text back can only
    find the ledger that was written. */
module AuthorityReading {
  import opened OperationIds
  import opened AuthorityRecords
  import opened AuthorityText
  import opened AuthorityLedger
  import opened AuthorityRuns
  import Bytes

  // --- pieces of known length ---

  lemma Cut(s: string, t: string, u: string, v: string)
    requires s + t == u + v && (|s| == |u| || |t| == |v|)
    ensures s == u && t == v
  {
    assert (s + t)[..|s|] == s && (u + v)[..|u|] == u;
    assert (s + t)[|s|..] == t && (u + v)[|u|..] == v;
  }

  lemma Assoc(p: string, q: string, x: string)
    ensures p + q + x == p + (q + x)
  {}

  function Power16(k: nat): (p: nat)
    ensures p > 0
  {
    if k == 0 then 1 else 16 * Power16(k - 1)
  }

  lemma HexDigit(m: nat, n: nat)
    requires HEX[m % 16] == HEX[n % 16]
    ensures m % 16 == n % 16
  {}

  lemma {:induction false} HexDetermines(m: nat, n: nat, count: nat)
    requires m < Power16(count) && n < Power16(count) && Hex(m, count) == Hex(n, count)
    ensures m == n
  {
    if count > 0 {
      Cut(Hex(m / 16, count - 1), [HEX[m % 16]], Hex(n / 16, count - 1), [HEX[n % 16]]);
      assert [HEX[m % 16]][0] == [HEX[n % 16]][0];
      HexDigit(m, n);
      HexDetermines(m / 16, n / 16, count - 1);
    }
  }

  // The low digits of a larger number.
  lemma {:induction false} HexIgnores(n: nat, count: nat)
    ensures Hex(n, count) == Hex(n % Power16(count), count)
  {
    if count > 0 {
      HexIgnores(n / 16, count - 1);
      LowDigits(n, Power16(count - 1));
    }
  }

  lemma LowDigits(n: nat, p: nat)
    requires p > 0
    ensures n % (16 * p) / 16 == n / 16 % p && n % (16 * p) % 16 == n % 16
  {
    var q, r := n / (16 * p), n % (16 * p);
    assert n == 16 * (p * q) + r;
    var a, b := r / 16, r % 16;
    assert r == 16 * a + b && 0 <= a < p;
    assert n == 16 * (p * q + a) + b;
    assert n / 16 == p * q + a;
    QuotientUnique(n / 16, p, q, a);
  }

  lemma HexLow(m: nat, n: nat, count: nat)
    requires Hex(m, count) == Hex(n, count)
    ensures m % Power16(count) == n % Power16(count)
  {
    HexIgnores(m, count);
    HexIgnores(n, count);
    HexDetermines(m % Power16(count), n % Power16(count), count);
  }

  lemma Powers()
    ensures Power16(4) == 0x1_0000 && Power16(8) == 0x1_0000_0000 && Power16(12) == 0x1_0000_0000_0000
  {
    assert Power16(6) == 256 * Power16(4);
    assert Power16(8) == 256 * Power16(6);
    assert Power16(10) == 256 * Power16(8);
    assert Power16(12) == 256 * Power16(10);
  }

  lemma HyphenatedParts(u: Uuid, v: Uuid)
    requires Hyphenated(u) == Hyphenated(v)
    ensures Hex(u.time / 0x1_0000, 8) == Hex(v.time / 0x1_0000, 8) && Hex(u.time, 4) == Hex(v.time, 4)
    ensures Hex(u.version * 0x1000 + u.randA, 4) == Hex(v.version * 0x1000 + v.randA, 4)
    ensures Hex(u.variant * 0x4000 + u.randB / 0x1_0000_0000_0000, 4)
            == Hex(v.variant * 0x4000 + v.randB / 0x1_0000_0000_0000, 4)
    ensures Hex(u.randB, 12) == Hex(v.randB, 12)
  {
    var a, b, c, d, e := Hex(u.time / 0x1_0000, 8), Hex(u.time, 4), Hex(u.version * 0x1000 + u.randA, 4),
                         Hex(u.variant * 0x4000 + u.randB / 0x1_0000_0000_0000, 4), Hex(u.randB, 12);
    var a', b', c', d', e' := Hex(v.time / 0x1_0000, 8), Hex(v.time, 4), Hex(v.version * 0x1000 + v.randA, 4),
                              Hex(v.variant * 0x4000 + v.randB / 0x1_0000_0000_0000, 4), Hex(v.randB, 12);
    hide Hex;
    HyphenatedIs(u);
    HyphenatedIs(v);
    hide Hyphenated, Dashed;
    DashedDetermines(a, b, c, d, e, a', b', c', d', e');
  }

  lemma HyphenatedIs(u: Uuid)
    ensures Hyphenated(u) ==
            Dashed(Hex(u.time / 0x1_0000, 8), Hex(u.time, 4), Hex(u.version * 0x1000 + u.randA, 4),
                   Hex(u.variant * 0x4000 + u.randB / 0x1_0000_0000_0000, 4), Hex(u.randB, 12))
  {
    hide Hex;
  }

  function Dashed(a: string, b: string, c: string, d: string, e: string): string {
    a + "-" + b + "-" + c + "-" + d + "-" + e
  }

  lemma DashedDetermines(
      a: string, b: string, c: string, d: string, e: string, a': string, b': string, c': string, d': string, e': string)
    requires Dashed(a, b, c, d, e) == Dashed(a', b', c', d', e')
    requires |b| == |b'| && |c| == |c'| && |d| == |d'| && |e| == |e'|
    ensures a == a' && b == b' && c == c' && d == d' && e == e'
  {
    var four, four' := a + "-" + b + "-" + c + "-" + d, a' + "-" + b' + "-" + c' + "-" + d';
    var three, three' := a + "-" + b + "-" + c, a' + "-" + b' + "-" + c';
    var two, two' := a + "-" + b, a' + "-" + b';
    Cut(four + "-", e, four' + "-", e');
    Cut(four, "-", four', "-");
    Cut(three + "-", d, three' + "-", d');
    Cut(three, "-", three', "-");
    Cut(two + "-", c, two' + "-", c');
    Cut(two, "-", two', "-");
    Cut(a + "-", b, a' + "-", b');
    Cut(a, "-", a', "-");
  }

  // A number in two parts, with its low part printed by its low digits.
  lemma LowAndHigh(m: nat, n: nat, count: nat)
    requires Hex(m, count) == Hex(n, count) && m / Power16(count) == n / Power16(count)
    ensures m == n
  {
    HexLow(m, n, count);
    SameParts(m, n, Power16(count));
  }

  lemma TimeDetermines(u: Uuid, v: Uuid)
    requires Hex(u.time / 0x1_0000, 8) == Hex(v.time / 0x1_0000, 8) && Hex(u.time, 4) == Hex(v.time, 4)
    ensures u.time == v.time
  {
    Powers();
    hide Hex, Power16;
    HexDetermines(u.time / 0x1_0000, v.time / 0x1_0000, 8);
    LowAndHigh(u.time, v.time, 4);
  }

  lemma VersionDetermines(u: Uuid, v: Uuid)
    requires Hex(u.version * 0x1000 + u.randA, 4) == Hex(v.version * 0x1000 + v.randA, 4)
    ensures u.version == v.version && u.randA == v.randA
  {
    Powers();
    hide Hex, Power16;
    HexDetermines(u.version * 0x1000 + u.randA, v.version * 0x1000 + v.randA, 4);
  }

  lemma VariantDetermines(u: Uuid, v: Uuid)
    requires Hex(u.variant * 0x4000 + u.randB / 0x1_0000_0000_0000, 4)
             == Hex(v.variant * 0x4000 + v.randB / 0x1_0000_0000_0000, 4)
    requires Hex(u.randB, 12) == Hex(v.randB, 12)
    ensures u.variant == v.variant && u.randB == v.randB
  {
    Powers();
    hide Hex, Power16;
    var a, b := u.randB / 0x1_0000_0000_0000, v.randB / 0x1_0000_0000_0000;
    assert a < 0x4000 && b < 0x4000;
    HexDetermines(u.variant * 0x4000 + a, v.variant * 0x4000 + b, 4);
    assert a == b && u.variant == v.variant;
    LowAndHigh(u.randB, v.randB, 12);
  }

  lemma HyphenatedDetermines(u: Uuid, v: Uuid)
    requires Hyphenated(u) == Hyphenated(v)
    ensures u == v
  {
    HyphenatedParts(u, v);
    hide Hex, Hyphenated;
    TimeDetermines(u, v);
    VersionDetermines(u, v);
    VariantDetermines(u, v);
  }

  lemma SameParts(m: nat, n: nat, d: nat)
    requires d > 0 && m % d == n % d && m / d == n / d
    ensures m == n
  {
    assert m == d * (m / d) + m % d;
  }

  lemma IdDetermines(prefix: string, u: Uuid, v: Uuid)
    requires Id(prefix, u) == Id(prefix, v)
    ensures u == v
  {
    hide Hyphenated;
    Cut("\"" + prefix + "_" + Hyphenated(u), "\"", "\"" + prefix + "_" + Hyphenated(v), "\"");
    Cut("\"" + prefix + "_", Hyphenated(u), "\"" + prefix + "_", Hyphenated(v));
    HyphenatedDetermines(u, v);
  }

  lemma IdLength(prefix: string, u: Uuid)
    ensures |Id(prefix, u)| == |prefix| + 39
  {}

  // --- numbers ---

  predicate Digit(c: char) {
    '0' <= c <= '9'
  }

  // What ends a number.
  predicate Ends(x: string) {
    x != [] && !Digit(x[0])
  }

  function ValueOf(digits: string): int {
    if digits == [] then 0 else ValueOf(digits[..|digits| - 1]) * 10 + (digits[|digits| - 1] as int - '0' as int)
  }

  lemma DigitAt(n: nat)
    requires n < 10
    ensures Digit(DIGITS[n]) && DIGITS[n] as int - '0' as int == n
  {}

  lemma {:induction false} DecimalReads(n: nat)
    ensures Decimal(n) != [] && forall i :: 0 <= i < |Decimal(n)| ==> Digit(Decimal(n)[i])
    ensures ValueOf(Decimal(n)) == n
  {
    DigitAt(n % 10);
    if n >= 10 {
      DecimalReads(n / 10);
      assert Decimal(n)[..|Decimal(n)| - 1] == Decimal(n / 10);
    } else {
      assert Decimal(n)[..0] == [];
    }
  }

  lemma DigitsReach(d: string, e: string, x: string, y: string)
    requires d + x == e + y && Ends(x) && forall i :: 0 <= i < |e| ==> Digit(e[i])
    ensures |e| <= |d|
  {
    var all := d + x;
    assert |all| == |d| + |x|;
    assert forall i :: 0 <= i < |e| ==> all[i] == e[i];
    assert |d| < |all| ==> all[|d|] == x[0];
  }

  lemma DecimalSplits(m: nat, n: nat, x: string, y: string)
    requires Decimal(m) + x == Decimal(n) + y && Ends(x) && Ends(y)
    ensures m == n && x == y
  {
    DecimalReads(m);
    DecimalReads(n);
    hide Decimal, ValueOf;
    DigitsReach(Decimal(m), Decimal(n), x, y);
    DigitsReach(Decimal(n), Decimal(m), y, x);
    Cut(Decimal(m), x, Decimal(n), y);
  }

  lemma SignedStarts(n: int, x: string)
    ensures Signed(n) + x == if n < 0 then "-" + (Decimal(-n) + x) else Decimal(n) + x
    ensures Signed(n) + x != [] && ((Signed(n) + x)[0] == '-' <==> n < 0)
  {
    if n < 0 {
      Assoc("-", Decimal(-n), x);
    } else {
      DecimalReads(n);
      assert Digit((Decimal(n) + x)[0]);
    }
    hide Decimal;
  }

  lemma SignedSplits(m: int, n: int, x: string, y: string)
    requires Signed(m) + x == Signed(n) + y && Ends(x) && Ends(y)
    ensures m == n && x == y
  {
    SignedStarts(m, x);
    SignedStarts(n, y);
    hide Decimal, Signed;
    if m < 0 {
      Cut("-", Decimal(-m) + x, "-", Decimal(-n) + y);
      DecimalSplits(-m, -n, x, y);
    } else {
      DecimalSplits(m, n, x, y);
    }
  }

  // --- permits ---

  lemma PermitIdsDetermine(p: Permit, q: Permit)
    requires PermitIds(p) == PermitIds(q)
    ensures p.host == q.host && p.project == q.project && p.sandbox == q.sandbox
    ensures p.allocation == q.allocation && p.createOperation == q.createOperation
  {
    IdLength("hst", p.host);
    IdLength("hst", q.host);
    IdLength("prj", p.project);
    IdLength("prj", q.project);
    IdLength("sbx", p.sandbox);
    IdLength("sbx", q.sandbox);
    IdLength("alc", p.allocation);
    IdLength("alc", q.allocation);
    IdLength("op", p.createOperation);
    IdLength("op", q.createOperation);
    hide Id;
    var a, b, c, d, e := Id("hst", p.host), Id("prj", p.project), Id("sbx", p.sandbox), Id("alc", p.allocation),
                         Id("op", p.createOperation);
    var a', b', c', d', e' := Id("hst", q.host), Id("prj", q.project), Id("sbx", q.sandbox), Id("alc", q.allocation),
                              Id("op", q.createOperation);
    FiveDetermine(a, b, c, d, e, a', b', c', d', e');
    IdDetermines("hst", p.host, q.host);
    IdDetermines("prj", p.project, q.project);
    IdDetermines("sbx", p.sandbox, q.sandbox);
    IdDetermines("alc", p.allocation, q.allocation);
    IdDetermines("op", p.createOperation, q.createOperation);
  }

  function Five(a: string, b: string, c: string, d: string, e: string): string {
    "{\"host\":" + a + (",\"project\":" + b) + (",\"sandbox\":" + c) + (",\"allocation\":" + d)
    + (",\"create_operation\":" + e)
  }

  lemma FiveDetermine(
      a: string, b: string, c: string, d: string, e: string, a': string, b': string, c': string, d': string, e': string)
    requires Five(a, b, c, d, e) == Five(a', b', c', d', e')
    requires |b| == |b'| && |c| == |c'| && |d| == |d'| && |e| == |e'|
    ensures a == a' && b == b' && c == c' && d == d' && e == e'
  {
    var four, four' := "{\"host\":" + a + (",\"project\":" + b) + (",\"sandbox\":" + c) + (",\"allocation\":" + d),
                       "{\"host\":" + a' + (",\"project\":" + b') + (",\"sandbox\":" + c') + (",\"allocation\":" + d');
    var three, three' := "{\"host\":" + a + (",\"project\":" + b) + (",\"sandbox\":" + c),
                         "{\"host\":" + a' + (",\"project\":" + b') + (",\"sandbox\":" + c');
    var two, two' := "{\"host\":" + a + (",\"project\":" + b), "{\"host\":" + a' + (",\"project\":" + b');
    Cut(four, ",\"create_operation\":" + e, four', ",\"create_operation\":" + e');
    Cut(three, ",\"allocation\":" + d, three', ",\"allocation\":" + d');
    Cut(two, ",\"sandbox\":" + c, two', ",\"sandbox\":" + c');
    Cut("{\"host\":" + a, ",\"project\":" + b, "{\"host\":" + a', ",\"project\":" + b');
    Cut("{\"host\":", a, "{\"host\":", a');
    Cut(",\"project\":", b, ",\"project\":", b');
    Cut(",\"sandbox\":", c, ",\"sandbox\":", c');
    Cut(",\"allocation\":", d, ",\"allocation\":", d');
    Cut(",\"create_operation\":", e, ",\"create_operation\":", e');
  }

  lemma PermitIdsLength(p: Permit)
    ensures |PermitIds(p)| == 273
  {
    IdLength("hst", p.host);
    IdLength("prj", p.project);
    IdLength("sbx", p.sandbox);
    IdLength("alc", p.allocation);
    IdLength("op", p.createOperation);
    hide Id;
    assert |"{\"host\":"| == 8 && |",\"project\":"| == 11 && |",\"sandbox\":"| == 11;
    assert |",\"allocation\":"| == 14 && |",\"create_operation\":"| == 20;
  }

  // A number, a fixed text and the rest.
  lemma NumberSplits(m: int, n: int, between: string, x: string, y: string)
    requires Ends(between) && Signed(m) + (between + x) == Signed(n) + (between + y)
    ensures m == n && x == y
  {
    hide Signed;
    SignedSplits(m, n, between + x, between + y);
    Cut(between, x, between, y);
  }

  function NumbersText(g: int, e: int, k: int, x: string): string {
    ",\"generation\":" + (Signed(g)
      + (",\"original_epoch\":" + (Signed(e) + (",\"serial\":" + (Signed(k) + ("}" + x))))))
  }

  lemma NumbersSplit(g: int, e: int, k: int, x: string, g': int, e': int, k': int, y: string)
    requires NumbersText(g, e, k, x) == NumbersText(g', e', k', y)
    ensures g == g' && e == e' && k == k' && x == y
  {
    hide Signed;
    var a, b, c := ",\"generation\":", ",\"original_epoch\":", ",\"serial\":";
    var last, last' := Signed(k) + ("}" + x), Signed(k') + ("}" + y);
    var rest, rest' := Signed(e) + (c + last), Signed(e') + (c + last');
    Cut(a, Signed(g) + (b + rest), a, Signed(g') + (b + rest'));
    NumberSplits(g, g', b, rest, rest');
    NumberSplits(e, e', c, last, last');
    NumberSplits(k, k', "}", x, y);
  }

  lemma PermitTextIs(p: Permit, x: string)
    ensures PermitText(p) + x == PermitIds(p) + NumbersText(p.generation, p.originalEpoch, p.serial, x)
  {
    assert Signed(p.serial) == Decimal(p.serial);
    hide Decimal, PermitIds, Signed;
    var a, b, c := ",\"generation\":", ",\"original_epoch\":", ",\"serial\":";
    var g, e, k := Signed(p.generation), Signed(p.originalEpoch), Signed(p.serial);
    assert PermitText(p) == PermitIds(p) + (a + (g + (b + (e + (c + (k + "}"))))));
    Assoc(PermitIds(p), a + (g + (b + (e + (c + (k + "}"))))), x);
    Assoc(a, g + (b + (e + (c + (k + "}")))), x);
    Assoc(g, b + (e + (c + (k + "}"))), x);
    Assoc(b, e + (c + (k + "}")), x);
    Assoc(e, c + (k + "}"), x);
    Assoc(c, k + "}", x);
    Assoc(k, "}", x);
  }

  lemma PermitSplits(p: Permit, q: Permit, x: string, y: string)
    requires PermitText(p) + x == PermitText(q) + y
    ensures p == q && x == y
  {
    PermitTextIs(p, x);
    PermitTextIs(q, y);
    PermitIdsLength(p);
    PermitIdsLength(q);
    hide PermitText, PermitIds, NumbersText;
    Cut(PermitIds(p), NumbersText(p.generation, p.originalEpoch, p.serial, x),
        PermitIds(q), NumbersText(q.generation, q.originalEpoch, q.serial, y));
    PermitIdsDetermine(p, q);
    NumbersSplit(p.generation, p.originalEpoch, p.serial, x, q.generation, q.originalEpoch, q.serial, y);
  }

  // --- states ---

  lemma {:induction false} ByteListFront(bytes: seq<Bytes.byte>)
    requires bytes != []
    ensures ByteList(bytes) == Decimal(bytes[0] as nat) + (if |bytes| == 1 then "" else "," + ByteList(bytes[1..]))
  {
    hide Decimal;
    if |bytes| > 1 {
      var init, last := bytes[..|bytes| - 1], bytes[|bytes| - 1];
      ByteListFront(init);
      var rest := bytes[1..];
      assert init[1..] == rest[..|rest| - 1] && rest[|rest| - 1] == last;
      var head, tail := Decimal(bytes[0] as nat), "," + Decimal(last as nat);
      assert ByteList(bytes) == ByteList(init) + "," + Decimal(last as nat) == ByteList(init) + tail by {
        Assoc(ByteList(init), ",", Decimal(last as nat));
      }
      if |init| == 1 {
        assert head + "" == head && ByteList(rest) == Decimal(last as nat);
      } else {
        assert ByteList(rest) == ByteList(init[1..]) + "," + Decimal(last as nat);
        Assoc(ByteList(init[1..]), ",", Decimal(last as nat));
        Assoc(",", ByteList(init[1..]), tail);
        Assoc(head, "," + ByteList(init[1..]), tail);
      }
    }
  }

  lemma {:induction false} ByteListSplits(a: seq<Bytes.byte>, b: seq<Bytes.byte>, x: string, y: string)
    requires ByteList(a) + ("]" + x) == ByteList(b) + ("]" + y)
    ensures a == b && x == y
    decreases |a|
  {
    if a == [] || b == [] {
      if a != [] {
        ByteListStarts(a, "]" + x);
      }
      if b != [] {
        ByteListStarts(b, "]" + y);
      }
      assert "" + ("]" + x) == "]" + x && "" + ("]" + y) == "]" + y;
      Cut("]", x, "]", y);
    } else {
      ByteListFront(a);
      ByteListFront(b);
      hide ByteList, Decimal;
      var s, t := if |a| == 1 then "" else "," + ByteList(a[1..]), if |b| == 1 then "" else "," + ByteList(b[1..]);
      var m, n := a[0] as nat, b[0] as nat;
      Assoc(Decimal(m), s, "]" + x);
      Assoc(Decimal(n), t, "]" + y);
      DecimalSplits(m, n, s + ("]" + x), t + ("]" + y));
      if |a| == 1 || |b| == 1 {
        assert (s + ("]" + x))[0] == (if |a| == 1 then ']' else ',');
        assert (t + ("]" + y))[0] == (if |b| == 1 then ']' else ',');
        assert s == "" && t == "";
        Cut(s, "]" + x, t, "]" + y);
        Cut("]", x, "]", y);
      } else {
        Assoc(",", ByteList(a[1..]), "]" + x);
        Assoc(",", ByteList(b[1..]), "]" + y);
        Cut(",", ByteList(a[1..]) + ("]" + x), ",", ByteList(b[1..]) + ("]" + y));
        ByteListSplits(a[1..], b[1..], x, y);
        assert a == [a[0]] + a[1..] && b == [b[0]] + b[1..];
      }
    }
  }

  lemma ByteListStarts(a: seq<Bytes.byte>, x: string)
    requires a != []
    ensures ByteList(a) + x != [] && (ByteList(a) + x)[0] != ']'
  {
    ByteListFront(a);
    DecimalReads(a[0] as nat);
    hide Decimal, ByteList;
    assert Digit((ByteList(a) + x)[0]);
  }

  const ACTIVE := "{\"state\":\"active\"}"
  const FENCED := "{\"state\":\"fenced\",\"retirement\":"
  const COMPLETE := "{\"state\":\"complete\",\"retirement\":"
  const INTENT := ",\"intent_sha256\":["

  lemma StateTextIs(state: State, x: string)
    ensures StateText(state) + x ==
            match state
            case Active => ACTIVE + x
            case Fenced(r) => FENCED + (Id("op", r) + ("}" + x))
            case Complete(r, d) => COMPLETE + (Id("op", r) + (INTENT + (ByteList(d) + ("]" + ("}" + x)))))
  {
    hide Id, ByteList;
    match state
    case Active =>
    case Fenced(r) =>
      Assoc(FENCED + Id("op", r), "}", x);
      Assoc(FENCED, Id("op", r), "}" + x);
    case Complete(r, d) =>
      var list := ByteList(d) + "]}";
      Assoc(COMPLETE + Id("op", r), INTENT + list, x);
      Assoc(COMPLETE, Id("op", r), INTENT + list + x);
      Assoc(INTENT, list, x);
      Assoc(ByteList(d), "]}", x);
      assert "]}" + x == "]" + ("}" + x);
  }

  lemma StateKinds(s: State, t: State, x: string, y: string)
    requires StateText(s) + x == StateText(t) + y
    ensures s.Active? <==> t.Active?
    ensures s.Fenced? <==> t.Fenced?
  {
    StateTextIs(s, x);
    StateTextIs(t, y);
    hide StateText, Id, ByteList;
    assert ACTIVE[10] == 'a' && FENCED[10] == 'f' && COMPLETE[10] == 'c';
    assert (StateText(s) + x)[10] == (if s.Active? then 'a' else if s.Fenced? then 'f' else 'c');
    assert (StateText(t) + y)[10] == (if t.Active? then 'a' else if t.Fenced? then 'f' else 'c');
  }

  lemma StateSplits(s: State, t: State, x: string, y: string)
    requires StateText(s) + x == StateText(t) + y
    ensures s == t && x == y
  {
    StateKinds(s, t, x, y);
    StateTextIs(s, x);
    StateTextIs(t, y);
    hide StateText;
    if s.Active? {
      hide ByteList, Id;
      Cut(ACTIVE, x, ACTIVE, y);
    } else {
      IdLength("op", s.retirement);
      IdLength("op", t.retirement);
      hide Id, ByteList;
      var a, b := Id("op", s.retirement), Id("op", t.retirement);
      if s.Fenced? {
        Cut(FENCED, a + ("}" + x), FENCED, b + ("}" + y));
        Cut(a, "}" + x, b, "}" + y);
        Cut("}", x, "}", y);
      } else {
        var p, q := ByteList(s.intentSha256) + ("]" + ("}" + x)), ByteList(t.intentSha256) + ("]" + ("}" + y));
        Cut(COMPLETE, a + (INTENT + p), COMPLETE, b + (INTENT + q));
        Cut(a, INTENT + p, b, INTENT + q);
        Cut(INTENT, p, INTENT, q);
        ByteListSplits(s.intentSha256, t.intentSha256, "}" + x, "}" + y);
        Cut("}", x, "}", y);
      }
      IdDetermines("op", s.retirement, t.retirement);
    }
  }

  // --- entries ---

  lemma EntrySplits(a: Entry, b: Entry, x: string, y: string)
    requires EntryText(a) + x == EntryText(b) + y
    ensures a == b && x == y
  {
    hide PermitText, StateText;
    EntryTextIs(a, x);
    EntryTextIs(b, y);
    var first, middle := "{\"permit\":", ",\"state\":";
    var u, v := StateText(a.state) + ("}" + x), StateText(b.state) + ("}" + y);
    Cut(first, PermitText(a.permit) + (middle + u), first, PermitText(b.permit) + (middle + v));
    PermitSplits(a.permit, b.permit, middle + u, middle + v);
    Cut(middle, u, middle, v);
    StateSplits(a.state, b.state, "}" + x, "}" + y);
    Cut("}", x, "}", y);
  }

  lemma EntryTextIs(e: Entry, x: string)
    ensures EntryText(e) + x == "{\"permit\":"
      + (PermitText(e.permit) + (",\"state\":" + (StateText(e.state) + ("}" + x))))
  {
    hide PermitText, StateText;
    var first, middle := "{\"permit\":", ",\"state\":";
    var p, s := PermitText(e.permit), StateText(e.state);
    Assoc(first, p + (middle + (s + "}")), x);
    Assoc(p, middle + (s + "}"), x);
    Assoc(middle, s + "}", x);
    Assoc(s, "}", x);
  }

  lemma {:induction false} EntriesFront(entries: seq<Entry>)
    requires entries != []
    ensures EntriesText(entries) == EntryText(entries[0])
      + (if |entries| == 1 then "" else "," + EntriesText(entries[1..]))
  {
    hide EntryText;
    if |entries| > 1 {
      var init, last := entries[..|entries| - 1], entries[|entries| - 1];
      EntriesFront(init);
      var rest := entries[1..];
      assert init[1..] == rest[..|rest| - 1] && rest[|rest| - 1] == last;
      var head, tail := EntryText(entries[0]), "," + EntryText(last);
      assert EntriesText(entries) == EntriesText(init) + "," + EntryText(last) == EntriesText(init) + tail by {
        Assoc(EntriesText(init), ",", EntryText(last));
      }
      if |init| == 1 {
        assert head + "" == head && EntriesText(rest) == EntryText(last);
      } else {
        assert EntriesText(rest) == EntriesText(init[1..]) + "," + EntryText(last);
        Assoc(EntriesText(init[1..]), ",", EntryText(last));
        Assoc(",", EntriesText(init[1..]), tail);
        Assoc(head, "," + EntriesText(init[1..]), tail);
      }
    }
  }

  lemma EntriesStart(entries: seq<Entry>, x: string)
    requires entries != []
    ensures EntriesText(entries) + x != [] && (EntriesText(entries) + x)[0] == '{'
  {
    EntriesFront(entries);
    EntryTextIs(entries[0], "");
    hide EntriesText, PermitText, StateText;
    assert EntryText(entries[0])[0] == '{';
    hide EntryText;
  }

  lemma {:induction false} EntriesSplit(a: seq<Entry>, b: seq<Entry>, x: string, y: string)
    requires EntriesText(a) + ("]" + x) == EntriesText(b) + ("]" + y)
    ensures a == b && x == y
    decreases |a|
  {
    hide EntryText;
    if a == [] || b == [] {
      if a != [] {
        EntriesStart(a, "]" + x);
      }
      if b != [] {
        EntriesStart(b, "]" + y);
      }
      assert "" + ("]" + x) == "]" + x && "" + ("]" + y) == "]" + y;
      Cut("]", x, "]", y);
    } else {
      EntriesFront(a);
      EntriesFront(b);
      hide EntriesText;
      var s := if |a| == 1 then "" else "," + EntriesText(a[1..]);
      var t := if |b| == 1 then "" else "," + EntriesText(b[1..]);
      Assoc(EntryText(a[0]), s, "]" + x);
      Assoc(EntryText(b[0]), t, "]" + y);
      EntrySplits(a[0], b[0], s + ("]" + x), t + ("]" + y));
      if |a| == 1 || |b| == 1 {
        assert (s + ("]" + x))[0] == (if |a| == 1 then ']' else ',');
        assert (t + ("]" + y))[0] == (if |b| == 1 then ']' else ',');
        assert s == "" && t == "";
        Cut(s, "]" + x, t, "]" + y);
        Cut("]", x, "]", y);
      } else {
        Assoc(",", EntriesText(a[1..]), "]" + x);
        Assoc(",", EntriesText(b[1..]), "]" + y);
        Cut(",", EntriesText(a[1..]) + ("]" + x), ",", EntriesText(b[1..]) + ("]" + y));
        EntriesSplit(a[1..], b[1..], x, y);
        assert a == [a[0]] + a[1..] && b == [b[0]] + b[1..];
      }
    }
  }

  // --- ledgers ---

  /** Two ledgers with the same text are the same ledger: nothing else can be read back. */
  lemma RenderDetermines(a: Saved, b: Saved)
    requires Render(a) == Render(b)
    ensures a == b
  {
    IdLength("hst", a.host);
    IdLength("hst", b.host);
    assert Signed(a.version) == Decimal(a.version) && Signed(a.through) == Decimal(a.through);
    assert Signed(b.version) == Decimal(b.version) && Signed(b.through) == Decimal(b.through);
    hide Decimal, Signed, Id, EntriesText;
    var v, h, t, l := "{\"version\":", ",\"host\":", ",\"through\":", ",\"entries\":[";
    var p, q := EntriesText(a.entries) + "]}", EntriesText(b.entries) + "]}";
    var f, g := Signed(a.through) + (l + p), Signed(b.through) + (l + q);
    var i, j := Id("hst", a.host), Id("hst", b.host);
    Cut(v, Signed(a.version) + (h + (i + (t + f))), v, Signed(b.version) + (h + (j + (t + g))));
    NumberSplits(a.version, b.version, h, i + (t + f), j + (t + g));
    Cut(i, t + f, j, t + g);
    Cut(t, f, t, g);
    NumberSplits(a.through, b.through, l, p, q);
    IdDetermines("hst", a.host, b.host);
    assert "]}" == "]" + "}";
    EntriesSplit(a.entries, b.entries, "}", "}");
  }

  /** A ledger saved after any run is accepted when it is read back, and nothing else reads back. */
  lemma SavedLedgerReadsBack(sha: Hash, s: Saved, ops: seq<Op>, read: Saved)
    requires WellFormed(s) && Render(read) == Render(Run(sha, s, ops))
    ensures read == Run(sha, s, ops)
    ensures DecodeVerdict(|Render(read)|, read, s.host, s.through).Ok?
  {
    hide Run, Render, WellFormed, DecodeVerdict;
    RenderDetermines(read, Run(sha, s, ops));
    RunKeepsWellFormed(sha, s, ops);
    WellFormedFits(read);
    DecodeAcceptsExactlyWellFormed(|Render(read)|, read, s.host, s.through);
  }
}
