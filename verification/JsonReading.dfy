/** What the text behind a request digest is, told without the printer that writes it: a reader of
    JSON (RFC 8259) takes it back to the value it was written from, with the keys of every object
    in ascending byte order (crates/sandbox-protocol/src/idempotency.rs). */
module JsonReading {
  import opened Bytes
  import opened CanonicalJson
  import opened RequestDigest

  // --- ascending byte order ---

  // `a` agrees with `b` up to `k`, and there it ends or has the smaller byte.
  predicate SmallerAt(a: Text, b: Text, k: nat) {
    k <= |a| && k < |b| && a[..k] == b[..k] && (k == |a| || a[k] < b[k])
  }

  ghost predicate Before(a: Text, b: Text) {
    exists k: nat :: SmallerAt(a, b, k)
  }

  lemma SmallerLater(a: Text, b: Text, k: nat)
    requires k > 0 && SmallerAt(a, b, k)
    ensures a != [] && b != [] && a[0] == b[0]
  {
    assert a[..k][0] == b[..k][0];
  }

  /** The order in which the writer sorts keys is the order of bytes at their first difference. */
  lemma {:induction false} LessIsByteOrder(a: Text, b: Text)
    ensures Less(a, b) <==> Before(a, b)
  {
    if a == [] || b == [] || a[0] != b[0] {
      if Less(a, b) {
        assert SmallerAt(a, b, 0);
      }
      if Before(a, b) {
        var k: nat :| SmallerAt(a, b, k);
        if k > 0 {
          SmallerLater(a, b, k);
        }
      }
    } else {
      LessIsByteOrder(a[1..], b[1..]);
      if Before(a, b) {
        var k: nat :| SmallerAt(a, b, k);
        assert a[1..][..k - 1] == a[..k][1..] && b[1..][..k - 1] == b[..k][1..];
        assert SmallerAt(a[1..], b[1..], k - 1);
      }
      if Before(a[1..], b[1..]) {
        var k: nat :| SmallerAt(a[1..], b[1..], k);
        assert a[..k + 1] == [a[0]] + a[1..][..k] && b[..k + 1] == [b[0]] + b[1..][..k];
        assert SmallerAt(a, b, k + 1);
      }
    }
  }

  ghost predicate KeysAscend(v: Value) {
    match v
    case Array(items) => forall i :: 0 <= i < |items| ==> KeysAscend(items[i])
    case Object(fields) =>
      && (forall i, j :: 0 <= i < j < |fields| ==> Before(fields[i].key, fields[j].key))
      && (forall i :: 0 <= i < |fields| ==> KeysAscend(fields[i].value))
    case _ => true
  }

  // --- reading ---

  /* A reader of RFC 8259 for texts without insignificant whitespace (section 2): it takes no byte
     outside a token. Numbers are integers (section 6), so there is no minus zero. */
  datatype Reading<+T> = Bad | Read(value: T, rest: seq<byte>)

  function DigitCount(t: seq<byte>): (k: nat)
    ensures k <= |t|
  {
    if t != [] && DigitByte(t[0]) then 1 + DigitCount(t[1..]) else 0
  }

  function ReadNatural(t: seq<byte>): (r: Reading<int>)
    ensures r.Read? ==> |r.rest| < |t|
  {
    var k := DigitCount(t);
    if k == 0 || (k > 1 && t[0] == 48) then Bad else Read(ValueOf(t[..k]), t[k..])
  }

  function ReadInteger(t: seq<byte>): (r: Reading<int>)
    ensures r.Read? ==> |r.rest| < |t|
  {
    if t != [] && t[0] == 45 then
      match ReadNatural(t[1..])
      case Read(n, rest) => if n == 0 then Bad else Read(-n, rest)
      case Bad => Bad
    else ReadNatural(t)
  }

  function HexValue(b: byte): (n: int)
    ensures -1 <= n < 16
  {
    if 48 <= b <= 57 then b as int - 48
    else if 97 <= b <= 102 then b as int - 87
    else if 65 <= b <= 70 then b as int - 55
    else -1
  }

  // The four digits after \u; -1 if they are not hexadecimal.
  function HexUnit(t: seq<byte>): (n: int)
    ensures -1 <= n < 0x10000 && (n >= 0 ==> |t| >= 4)
  {
    if |t| < 4 || HexValue(t[0]) < 0 || HexValue(t[1]) < 0 || HexValue(t[2]) < 0 || HexValue(t[3]) < 0 then -1
    else HexValue(t[0]) * 4096 + HexValue(t[1]) * 256 + HexValue(t[2]) * 16 + HexValue(t[3])
  }

  // Section 3 of RFC 3629.
  function Utf8Of(c: nat): (r: Text)
    requires c < 0x110000
    ensures r != []
  {
    if c < 0x80 then [c as byte]
    else if c < 0x800 then [(0xC0 + c / 64) as byte, (0x80 + c % 64) as byte]
    else if c < 0x10000 then
      [(0xE0 + c / 4096) as byte, (0x80 + c / 64 % 64) as byte, (0x80 + c % 64) as byte]
    else
      [(0xF0 + c / 262144) as byte, (0x80 + c / 4096 % 64) as byte, (0x80 + c / 64 % 64) as byte,
       (0x80 + c % 64) as byte]
  }

  // After \u: a character, or the two halves of one above U+FFFF.
  function ReadUnit(t: seq<byte>): (r: Reading<Text>)
    ensures r.Read? ==> |r.rest| < |t|
  {
    var c := HexUnit(t);
    if c < 0 then Bad
    else if c < 0xD800 || c >= 0xE000 then Read(Utf8Of(c), t[4..])
    else if c < 0xDC00 && |t| >= 6 && t[4] == 92 && t[5] == 117 && 0xDC00 <= HexUnit(t[6..]) < 0xE000 then
      Read(Utf8Of(0x10000 + (c - 0xD800) * 1024 + (HexUnit(t[6..]) - 0xDC00)), t[10..])
    else Bad
  }

  // What a two-character escape stands for; 0 if it is none.
  function Unescaped(b: byte): byte {
    if b == 34 || b == 92 || b == 47 then b
    else if b == 98 then 8
    else if b == 102 then 12
    else if b == 110 then 10
    else if b == 114 then 13
    else if b == 116 then 9
    else 0
  }

  function ReadChar(t: seq<byte>): (r: Reading<Text>)
    ensures r.Read? ==> |r.rest| < |t|
  {
    if t == [] || t[0] < 32 || t[0] == 34 then Bad
    else if t[0] != 92 then Read([t[0]], t[1..])
    else if |t| >= 2 && t[1] == 117 then ReadUnit(t[2..])
    else if |t| >= 2 && Unescaped(t[1]) != 0 then Read([Unescaped(t[1])], t[2..])
    else Bad
  }

  function ReadChars(t: seq<byte>): (r: Reading<Text>)
    ensures r.Read? ==> |r.rest| < |t|
    decreases |t|
  {
    if t != [] && t[0] == 34 then Read([], t[1..])
    else match ReadChar(t)
      case Bad => Bad
      case Read(c, rest) =>
        match ReadChars(rest)
        case Bad => Bad
        case Read(s, end) => Read(c + s, end)
  }

  function ReadString(t: seq<byte>): (r: Reading<Text>)
    ensures r.Read? ==> |r.rest| < |t|
  {
    if t != [] && t[0] == 34 then ReadChars(t[1..]) else Bad
  }

  function ReadWord(t: seq<byte>, word: seq<byte>, v: Value): (r: Reading<Value>)
    requires word != []
    ensures r.Read? ==> |r.rest| < |t|
  {
    if word <= t then Read(v, t[|word|..]) else Bad
  }

  function ReadValue(t: seq<byte>): (r: Reading<Value>)
    ensures r.Read? ==> |r.rest| < |t|
    decreases |t|, 0
  {
    if t == [] then Bad
    else if t[0] == 110 then ReadWord(t, [110, 117, 108, 108], Null)
    else if t[0] == 116 then ReadWord(t, [116, 114, 117, 101], Bool(true))
    else if t[0] == 102 then ReadWord(t, [102, 97, 108, 115, 101], Bool(false))
    else if t[0] == 34 then
      match ReadString(t)
      case Read(s, rest) => Read(String(s), rest)
      case Bad => Bad
    else if t[0] == 91 then
      if |t| > 1 && t[1] == 93 then Read(Array([]), t[2..])
      else match ReadItems(t[1..])
        case Read(items, rest) => Read(Array(items), rest)
        case Bad => Bad
    else if t[0] == 123 then
      if |t| > 1 && t[1] == 125 then Read(Object([]), t[2..])
      else match ReadFields(t[1..])
        case Read(fields, rest) => Read(Object(fields), rest)
        case Bad => Bad
    else
      match ReadInteger(t)
      case Read(n, rest) => Read(Number(n), rest)
      case Bad => Bad
  }

  // One item or more, up to the closing bracket.
  function ReadItems(t: seq<byte>): (r: Reading<seq<Value>>)
    ensures r.Read? ==> |r.rest| < |t|
    decreases |t|, 1
  {
    match ReadValue(t)
    case Bad => Bad
    case Read(v, rest) =>
      if rest != [] && rest[0] == 93 then Read([v], rest[1..])
      else if rest != [] && rest[0] == 44 then
        match ReadItems(rest[1..])
        case Read(items, end) => Read([v] + items, end)
        case Bad => Bad
      else Bad
  }

  function ReadField(t: seq<byte>): (r: Reading<Field>)
    ensures r.Read? ==> |r.rest| < |t|
    decreases |t|, 1
  {
    match ReadString(t)
    case Bad => Bad
    case Read(key, rest) =>
      if rest == [] || rest[0] != 58 then Bad
      else match ReadValue(rest[1..])
        case Read(v, end) => Read(Field(key, v), end)
        case Bad => Bad
  }

  function ReadFields(t: seq<byte>): (r: Reading<seq<Field>>)
    ensures r.Read? ==> |r.rest| < |t|
    decreases |t|, 2
  {
    match ReadField(t)
    case Bad => Bad
    case Read(f, rest) =>
      if rest != [] && rest[0] == 125 then Read([f], rest[1..])
      else if rest != [] && rest[0] == 44 then
        match ReadFields(rest[1..])
        case Read(fields, end) => Read([f] + fields, end)
        case Bad => Bad
      else Bad
  }

  // The whole text is one value.
  predicate Reads(t: seq<byte>, v: Value) {
    ReadValue(t) == Read(v, [])
  }

  // --- the writer's text reads back ---

  lemma {:induction false} DigitsCount(d: seq<byte>, x: seq<byte>)
    requires forall i :: 0 <= i < |d| ==> DigitByte(d[i])
    requires x == [] || !DigitByte(x[0])
    ensures DigitCount(d + x) == |d|
  {
    if d == [] {
      assert d + x == x;
    } else {
      DigitsCount(d[1..], x);
      assert (d + x)[1..] == d[1..] + x;
    }
  }

  lemma {:induction false} DecimalStart(n: nat)
    ensures Decimal(n) != [] && (|Decimal(n)| > 1 ==> Decimal(n)[0] != 48)
    ensures n > 0 ==> Decimal(n)[0] != 48
  {
    if n >= 10 {
      DecimalStart(n / 10);
    }
  }

  lemma NaturalReads(n: nat, x: seq<byte>)
    requires Delimited(x)
    ensures ReadNatural(Decimal(n) + x) == Read(n, x)
  {
    DecimalDigits(n);
    DecimalStart(n);
    DecimalValue(n);
    DigitsCount(Decimal(n), x);
    hide Decimal, DigitCount, ValueOf;
    assert (Decimal(n) + x)[..|Decimal(n)|] == Decimal(n);
  }

  lemma IntegerReads(n: int, x: seq<byte>)
    requires Delimited(x)
    ensures ReadInteger(Integer(n) + x) == Read(n, x)
  {
    IntegerSign(n, x);
    NaturalReads(if n < 0 then -n else n, x);
    hide Decimal, ReadNatural, Integer;
    if n < 0 {
      assert ([45] + (Decimal(-n) + x))[1..] == Decimal(-n) + x;
    }
  }

  lemma HexReads(d: nat)
    requires d < 16
    ensures HexValue(HexDigit(d)) == d
  {}

  lemma CharReads(b: byte, x: seq<byte>)
    ensures ReadChar(EscapeByte(b) + x) == Read([b], x)
  {
    var t := EscapeByte(b) + x;
    assert t[|EscapeByte(b)|..] == x;
    assert forall i :: 0 <= i < |EscapeByte(b)| ==> t[i] == EscapeByte(b)[i];
    if |EscapeByte(b)| == 6 {
      HexReads(b as nat / 16);
      HexReads(b as nat % 16);
      assert t[2..] == [48, 48, EscapeByte(b)[4], EscapeByte(b)[5]] + x;
      assert t[2..][4..] == x;
    }
  }

  lemma {:induction false} CharsRead(s: Text, x: seq<byte>)
    ensures ReadChars(Escaped(s) + [34] + x) == Read(s, x)
  {
    if s == [] {
      EscapedEnd(x);
    } else {
      EscapedHead(s, x);
      CharReads(s[0], Escaped(s[1..]) + [34] + x);
      CharsRead(s[1..], x);
      hide ReadChar, Escaped, EscapeByte;
      assert s == [s[0]] + s[1..];
    }
  }

  lemma StringReads(s: Text, x: seq<byte>)
    ensures ReadString(Quote(s) + x) == Read(s, x)
    ensures (Quote(s) + x)[0] == 34
  {
    QuoteHead(s, x);
    CharsRead(s, x);
    hide ReadChars, Escaped, Quote;
    assert ([34] + (Escaped(s) + [34] + x))[1..] == Escaped(s) + [34] + x;
  }

  lemma {:induction false} ValueReads(v: Value, x: seq<byte>)
    requires Delimited(x)
    ensures ReadValue(Print(v) + x) == Read(v, x)
    decreases v, 0
  {
    if v.Array? {
      Nested(91, PrintItems(v.items), 93, x);
      BracketReads(v.items, x);
      hide ReadValue, PrintItems;
    } else if v.Object? {
      Nested(123, PrintFields(v.fields), 125, x);
      BraceReads(v.fields, x);
      hide ReadValue, PrintFields;
    } else {
      SimpleReads(v, x);
    }
  }

  lemma Nested(open: byte, body: seq<byte>, close: byte, x: seq<byte>)
    ensures [open] + body + [close] + x == [open] + (body + ([close] + x))
  {}

  lemma WordReads(word: seq<byte>, v: Value, x: seq<byte>)
    requires word != []
    ensures ReadWord(word + x, word, v) == Read(v, x) && (word + x)[0] == word[0]
  {
    assert (word + x)[..|word|] == word && (word + x)[|word|..] == x;
  }

  lemma SimpleReads(v: Value, x: seq<byte>)
    requires !v.Array? && !v.Object? && Delimited(x)
    ensures ReadValue(Print(v) + x) == Read(v, x)
  {
    match v
    case Number(n) =>
      FirstByte(v);
      IntegerReads(n, x);
      hide Integer, ReadInteger;
      assert (Print(v) + x)[0] == Kind(v);
    case String(s) =>
      StringReads(s, x);
      hide Quote, ReadString;
    case _ =>
      WordReads(Print(v), v, x);
      hide ReadWord;
  }

  lemma {:induction false} BracketReads(items: seq<Value>, x: seq<byte>)
    ensures ReadValue([91] + (PrintItems(items) + ([93] + x))) == Read(Array(items), x)
    decreases items, 1
  {
    var t := [91] + (PrintItems(items) + ([93] + x));
    assert t[1..] == PrintItems(items) + ([93] + x);
    if items == [] {
      assert t[1] == 93 && t[2..] == x;
    } else {
      ItemsHead(items, [93] + x);
      ItemsRead(items, x);
      hide ReadItems, PrintItems, Print;
      assert t[1] == (PrintItems(items) + ([93] + x))[0];
    }
  }

  lemma {:induction false} ItemsRead(items: seq<Value>, x: seq<byte>)
    requires items != []
    ensures ReadItems(PrintItems(items) + ([93] + x)) == Read(items, x)
    decreases items, 0
  {
    var end := [93] + x;
    var t := PrintItems(items) + end;
    var rest := ItemsTail(items) + end;
    ItemsHead(items, end);
    ValueReads(items[0], rest);
    if |items| > 1 {
      ItemsRead(items[1..], x);
      hide ReadValue, PrintItems, Print, ItemsTail;
      assert ([44] + (PrintItems(items[1..]) + end))[1..] == PrintItems(items[1..]) + end;
      assert items == [items[0]] + items[1..];
    } else {
      hide ReadValue, PrintItems, Print, ItemsTail;
      assert end[1..] == x;
      assert items == [items[0]];
    }
  }

  lemma {:induction false} BraceReads(fields: seq<Field>, x: seq<byte>)
    ensures ReadValue([123] + (PrintFields(fields) + ([125] + x))) == Read(Object(fields), x)
    decreases fields, 1
  {
    var t := [123] + (PrintFields(fields) + ([125] + x));
    assert t[1..] == PrintFields(fields) + ([125] + x);
    if fields == [] {
      assert t[1] == 125 && t[2..] == x;
    } else {
      FieldsHead(fields, [125] + x);
      FieldsRead(fields, x);
      hide ReadFields, PrintFields, Print;
      assert t[1] == (PrintFields(fields) + ([125] + x))[0];
    }
  }

  lemma {:induction false} FieldsRead(fields: seq<Field>, x: seq<byte>)
    requires fields != []
    ensures ReadFields(PrintFields(fields) + ([125] + x)) == Read(fields, x)
    decreases fields, 0
  {
    hide ReadField, ReadValue, PrintFields, Print, Quote, FieldsTail;
    var end := [125] + x;
    var rest := FieldsTail(fields) + end;
    FieldsHead(fields, end);
    FieldsTailDelimits(fields, end);
    ValueReads(fields[0].value, rest);
    FieldReads(fields[0], rest);
    if |fields| > 1 {
      FieldsRead(fields[1..], x);
      After(44, PrintFields(fields[1..]) + end);
      assert fields == [fields[0]] + fields[1..];
    } else {
      After(125, x);
      assert fields == [fields[0]];
    }
  }

  lemma After(b: byte, x: seq<byte>)
    ensures ([b] + x)[0] == b && ([b] + x)[1..] == x
  {}

  lemma FieldReads(f: Field, rest: seq<byte>)
    requires ReadValue(Print(f.value) + rest) == Read(f.value, rest)
    ensures ReadField(Quote(f.key) + ([58] + (Print(f.value) + rest))) == Read(f, rest)
  {
    var after := [58] + (Print(f.value) + rest);
    StringReads(f.key, after);
    hide ReadString, ReadValue, Print, Quote;
    assert after[1..] == Print(f.value) + rest;
  }

  // --- the canonical text ---

  // Every member of the sorted object is one of the original members with its value sorted.
  lemma SortedMemberIs(fields: seq<Field>, i: nat) returns (k: nat)
    requires DistinctKeys(fields) && i < |Sorted(NormalFields(fields))|
    ensures k < |fields| && Sorted(NormalFields(fields))[i] == Field(fields[k].key, Normal(fields[k].value))
  {
    var all := NormalFields(fields);
    SortedKeeps(all);
    hide NormalFields, Normal, Sorted;
    assert Sorted(all)[i] in all;
    k :| 0 <= k < |all| && all[k] == Sorted(all)[i];
  }

  lemma SortedHasEach(fields: seq<Field>, k: nat)
    requires DistinctKeys(fields) && k < |fields|
    ensures HasKey(Sorted(NormalFields(fields)), fields[k].key)
  {
    var all := NormalFields(fields);
    SortedKeeps(all);
    hide NormalFields, Normal, Sorted;
    assert all[k] in Sorted(all);
    var i :| 0 <= i < |Sorted(all)| && Sorted(all)[i] == all[k];
    assert Sorted(all)[i].key == fields[k].key;
  }

  lemma ObjectIsEquivalent(fields: seq<Field>)
    requires DistinctKeys(fields)
    requires forall k :: 0 <= k < |fields| ==>
               Equivalent(Normal(fields[k].value), fields[k].value) && KeysAscend(Normal(fields[k].value))
    ensures Equivalent(Object(Sorted(NormalFields(fields))), Object(fields))
    ensures KeysAscend(Object(Sorted(NormalFields(fields))))
  {
    var out := Sorted(NormalFields(fields));
    SortedKeeps(NormalFields(fields));
    hide NormalFields, Normal, Sorted, HasKey;
    forall i | 0 <= i < |out|
      ensures HasKey(fields, out[i].key) && KeysAscend(out[i].value)
      ensures forall k :: 0 <= k < |fields| && out[i].key == fields[k].key ==>
                Equivalent(out[i].value, fields[k].value)
    {
      var k := SortedMemberIs(fields, i);
      HasIts(fields, k);
    }
    forall k | 0 <= k < |fields| {
      SortedHasEach(fields, k);
    }
    forall i, j | 0 <= i < j < |out|
      ensures Before(out[i].key, out[j].key)
    {
      LessIsByteOrder(out[i].key, out[j].key);
    }
  }

  lemma HasIts(fields: seq<Field>, k: nat)
    requires k < |fields|
    ensures HasKey(fields, fields[k].key)
  {}

  lemma {:induction false} NormalIsEquivalent(v: Value)
    requires WellFormed(v)
    ensures Equivalent(Normal(v), v) && KeysAscend(Normal(v))
  {
    match v
    case Array(items) =>
      forall i | 0 <= i < |items|
        ensures Equivalent(NormalItems(items)[i], items[i]) && KeysAscend(NormalItems(items)[i])
      {
        NormalIsEquivalent(items[i]);
      }
    case Object(fields) =>
      forall k | 0 <= k < |fields| {
        NormalIsEquivalent(fields[k].value);
      }
      ObjectIsEquivalent(fields);
    case _ =>
  }

  /** What the canonical text of a value is: it reads as that value with objects as unordered maps,
      has no byte outside a token, and the keys of every object stand in ascending byte order. */
  lemma CanonicalTextMeans(v: Value)
    requires WellFormed(v)
    ensures exists u :: Reads(Canonical(v), u) && Equivalent(u, v) && KeysAscend(u)
  {
    NormalIsEquivalent(v);
    ValueReads(Normal(v), []);
    assert Canonical(v) + [] == Canonical(v);
    assert Reads(Canonical(v), Normal(v));
    hide Normal, Print, ReadValue;
  }

  // --- no text of the same value is shorter ---

  lemma {:induction false} DigitsAreDecimal(d: seq<byte>)
    requires d != [] && forall i :: 0 <= i < |d| ==> DigitByte(d[i])
    requires |d| > 1 ==> d[0] != 48
    ensures ValueOf(d) >= 0 && (d[0] != 48 ==> ValueOf(d) > 0)
    ensures ValueOf(d) >= 0 && Decimal(ValueOf(d)) == d
  {
    var front, last := d[..|d| - 1], d[|d| - 1];
    assert ValueOf(d) == ValueOf(front) * 10 + (last as int - 48);
    if |d| > 1 {
      DigitsAreDecimal(front);
      assert ValueOf(d) / 10 == ValueOf(front) && ValueOf(d) % 10 == last as int - 48;
      assert d == front + [last];
    } else {
      assert front == [] && d == [last];
    }
  }

  lemma {:induction false} CountedAreDigits(t: seq<byte>)
    ensures forall i :: 0 <= i < DigitCount(t) ==> DigitByte(t[i])
  {
    if t != [] && DigitByte(t[0]) {
      CountedAreDigits(t[1..]);
      assert forall i :: 1 <= i < DigitCount(t) ==> t[i] == t[1..][i - 1];
    }
  }

  lemma NaturalIsWritten(t: seq<byte>)
    requires ReadNatural(t).Read?
    ensures ReadNatural(t).value >= 0 && t == Decimal(ReadNatural(t).value) + ReadNatural(t).rest
  {
    CountedAreDigits(t);
    DigitsAreDecimal(t[..DigitCount(t)]);
    hide Decimal, ValueOf, DigitCount;
    assert t == t[..DigitCount(t)] + t[DigitCount(t)..];
  }

  lemma NoNatural()
    ensures ReadNatural([]) == Bad
  {}

  // An integer has one text only.
  lemma IntegerIsWritten(t: seq<byte>)
    requires ReadInteger(t).Read?
    ensures t == Integer(ReadInteger(t).value) + ReadInteger(t).rest
  {
    hide ReadNatural, Decimal;
    assert t != [] by { NoNatural(); }
    if t[0] == 45 {
      NaturalIsWritten(t[1..]);
      var rest := ReadInteger(t).rest;
      Assoc([45], Decimal(ReadNatural(t[1..]).value), rest);
      assert t == [45] + t[1..];
    } else {
      NaturalIsWritten(t);
    }
  }

  lemma {:induction false} EscapedConcat(a: Text, b: Text)
    ensures |Escaped(a + b)| == |Escaped(a)| + |Escaped(b)|
  {
    if a == [] {
      assert a + b == b;
    } else {
      EscapedConcat(a[1..], b);
      assert (a + b)[1..] == a[1..] + b;
    }
  }

  lemma {:induction false} HighBytesStand(c: Text)
    requires forall i :: 0 <= i < |c| ==> c[i] >= 0x80
    ensures |Escaped(c)| == |c|
  {
    if c != [] {
      HighBytesStand(c[1..]);
    }
  }

  lemma EscapedOne(b: byte)
    ensures Escaped([b]) == EscapeByte(b)
  {
    assert [b][1..] == [] && EscapeByte(b) + [] == EscapeByte(b);
    assert Escaped([]) == [];
  }

  lemma UnitCovers(c: nat)
    requires c < 0x110000
    ensures |Escaped(Utf8Of(c))| <= if c < 0x10000 then 6 else 12
  {
    if c < 0x80 {
      EscapedOne(c as byte);
    } else {
      HighBytesStand(Utf8Of(c));
    }
  }

  lemma CharCovers(t: seq<byte>)
    requires ReadChar(t).Read?
    ensures |Escaped(ReadChar(t).value)| + |ReadChar(t).rest| <= |t|
  {
    if t[0] != 92 {
      EscapedOne(t[0]);
    } else if t[1] == 117 {
      var c := HexUnit(t[2..]);
      if c < 0xD800 || c >= 0xE000 {
        UnitCovers(c);
      } else {
        UnitCovers(0x10000 + (c - 0xD800) * 1024 + (HexUnit(t[2..][6..]) - 0xDC00));
      }
      hide Utf8Of, HexUnit, Escaped;
    } else {
      EscapedOne(Unescaped(t[1]));
    }
  }

  lemma {:induction false} CharsCover(t: seq<byte>)
    requires ReadChars(t).Read?
    ensures |Escaped(ReadChars(t).value)| + 1 + |ReadChars(t).rest| <= |t|
    decreases |t|
  {
    if t[0] != 34 {
      CharCovers(t);
      CharsCover(ReadChar(t).rest);
      EscapedConcat(ReadChar(t).value, ReadChars(ReadChar(t).rest).value);
      hide Escaped, ReadChar;
    }
  }

  lemma StringCovers(t: seq<byte>)
    requires ReadString(t).Read?
    ensures |Quote(ReadString(t).value)| + |ReadString(t).rest| <= |t|
  {
    CharsCover(t[1..]);
    hide Escaped, ReadChars;
  }

  lemma {:induction false} ValueCovers(t: seq<byte>)
    requires ReadValue(t).Read?
    ensures |Print(ReadValue(t).value)| + |ReadValue(t).rest| <= |t|
    decreases |t|, 0
  {
    var v := ReadValue(t).value;
    match v
    case Null =>
    case Bool(_) =>
    case Number(n) =>
      IntegerIsWritten(t);
      hide Integer, ReadInteger;
    case String(s) =>
      StringCovers(t);
      hide Quote, ReadString;
    case Array(items) =>
      if items != [] {
        ItemsCover(t[1..]);
      }
      hide ReadItems, PrintItems;
      assert PrintItems([]) == [] by { ItemsNone(); }
    case Object(fields) =>
      if fields != [] {
        FieldsCover(t[1..]);
      }
      hide ReadFields, PrintFields;
      assert PrintFields([]) == [] by { ItemsNone(); }
  }

  lemma ItemsNone()
    ensures PrintItems([]) == [] && PrintFields([]) == []
  {}

  lemma {:induction false} ItemsCover(t: seq<byte>)
    requires ReadItems(t).Read?
    ensures |PrintItems(ReadItems(t).value)| + 1 + |ReadItems(t).rest| <= |t|
    decreases |t|, 1
  {
    var head := ReadValue(t);
    var items := ReadItems(t).value;
    ValueCovers(t);
    ItemsCons(items);
    if head.rest[0] == 44 {
      ItemsCover(head.rest[1..]);
      assert items[1..] == ReadItems(head.rest[1..]).value;
    }
    hide ReadValue, Print, PrintItems;
  }

  lemma {:induction false} FieldsCover(t: seq<byte>)
    requires ReadFields(t).Read?
    ensures |PrintFields(ReadFields(t).value)| + 1 + |ReadFields(t).rest| <= |t|
    decreases |t|, 2
  {
    var head := ReadField(t);
    var fields := ReadFields(t).value;
    FieldCovers(t);
    FieldsCons(fields);
    if head.rest[0] == 44 {
      FieldsCover(head.rest[1..]);
      assert fields[1..] == ReadFields(head.rest[1..]).value;
    }
    hide ReadField, PrintField, PrintFields;
  }

  lemma {:induction false} FieldCovers(t: seq<byte>)
    requires ReadField(t).Read?
    ensures |PrintField(ReadField(t).value)| + |ReadField(t).rest| <= |t|
    decreases |t|, 1
  {
    var rest := ReadString(t).rest;
    StringCovers(t);
    ValueCovers(rest[1..]);
    hide ReadString, ReadValue, Quote, Print;
  }

  lemma {:induction false} AscendingIsNormal(u: Value)
    requires KeysAscend(u)
    ensures WellFormed(u) && Normal(u) == u
  {
    match u
    case Array(items) =>
      forall i | 0 <= i < |items| {
        AscendingIsNormal(items[i]);
      }
      assert NormalItems(items) == items;
    case Object(fields) =>
      forall i | 0 <= i < |fields|
        ensures WellFormed(fields[i].value) && Normal(fields[i].value) == fields[i].value
      {
        AscendingIsNormal(fields[i].value);
      }
      assert NormalFields(fields) == fields;
      forall i, j | 0 <= i < j < |fields|
        ensures Less(fields[i].key, fields[j].key) && fields[i].key != fields[j].key
      {
        LessIsByteOrder(fields[i].key, fields[j].key);
        LessIsTotal(fields[i].key, fields[j].key);
      }
      SortedKeeps(fields);
      AscendingIsUnique(Sorted(fields), fields);
    case _ =>
  }

  /** No text that reads as the value with ascending keys is shorter than the canonical one. */
  lemma CanonicalIsShortest(v: Value, t: seq<byte>, u: Value)
    requires WellFormed(v) && Reads(t, u) && Equivalent(u, v) && KeysAscend(u)
    ensures |Canonical(v)| <= |t|
  {
    AscendingIsNormal(u);
    NormalAgrees(u, v);
    ValueCovers(t);
    hide Normal, Print, ReadValue;
  }

  lemma RestIsSuffix(t: seq<byte>)
    requires ReadChar(t).Read?
    ensures |ReadChar(t).rest| <= |t| && ReadChar(t).rest == t[|t| - |ReadChar(t).rest|..]
  {
    hide HexUnit, Utf8Of;
    if t[0] == 92 && t[1] == 117 {
      var u := t[2..];
      assert |u| >= 4 ==> u[4..] == t[6..];
      assert |u| >= 10 ==> u[10..] == t[12..];
    }
  }

  lemma SmallHexIsDigit(b: byte)
    requires HexValue(b) >= 0 && !(65 <= b <= 70)
    ensures HexDigit(HexValue(b)) == b
  {}

  // The four digits of a control character, without capitals.
  lemma ControlIsWritten(t: seq<byte>, b: byte)
    requires |t| >= 4 && HexUnit(t) == b as int && b < 32
    requires forall i :: 0 <= i < 4 ==> !(65 <= t[i] <= 70)
    ensures t[..4] == [48, 48, HexDigit(b as nat / 16), HexDigit(b as nat % 16)]
  {
    assert HexValue(t[0]) == 0 && HexValue(t[1]) == 0;
    assert HexValue(t[2]) == b as nat / 16 && HexValue(t[3]) == b as nat % 16;
    forall i | 0 <= i < 4 {
      SmallHexIsDigit(t[i]);
    }
  }

  lemma OneByteUnit(c: nat, b: byte)
    requires c < 0x110000 && Utf8Of(c) == [b]
    ensures c == b as nat
  {}

  /** A byte is escaped only where it must be, in the shortest way, and with small letters in it. */
  lemma EscapeIsShortest(b: byte, t: seq<byte>)
    requires ReadChar(t).Read? && ReadChar(t).value == [b]
    ensures |EscapeByte(b)| + |ReadChar(t).rest| <= |t|
    ensures |EscapeByte(b)| + |ReadChar(t).rest| == |t| ==>
              t == EscapeByte(b) + ReadChar(t).rest || exists i :: 2 <= i < 6 && 65 <= t[i] <= 70
    ensures |EscapeByte(b)| == 6 ==> forall i :: 2 <= i < 6 ==> !(65 <= EscapeByte(b)[i] <= 70)
  {
    CharCovers(t);
    EscapedOne(b);
    RestIsSuffix(t);
    var e := EscapeByte(b);
    if |e| + |ReadChar(t).rest| == |t| && !exists i :: 2 <= i < 6 && i < |t| && 65 <= t[i] <= 70 {
      SameSizeIsSame(b, t);
      assert t == t[..|e|] + t[|e|..];
    }
  }

  lemma SameSizeIsSame(b: byte, t: seq<byte>)
    requires ReadChar(t).Read? && ReadChar(t).value == [b]
    requires |EscapeByte(b)| + |ReadChar(t).rest| == |t|
    requires forall i :: 2 <= i < 6 && i < |t| ==> !(65 <= t[i] <= 70)
    ensures t[..|EscapeByte(b)|] == EscapeByte(b)
  {
    if |EscapeByte(b)| == 6 {
      var u := t[2..];
      hide Utf8Of, HexUnit;
      OneByteUnit(HexUnit(u), b);
      ControlIsWritten(u, b);
      assert t[..6] == t[..2] + u[..4];
    } else {
      hide ReadUnit;
    }
  }

  // --- the preimage ---

  function FromBigEndian(b: seq<byte>): nat {
    if b == [] then 0 else FromBigEndian(b[..|b| - 1]) * 256 + b[|b| - 1] as nat
  }

  // Eight bytes of length, most significant first, and that many bytes.
  function ReadPart(t: seq<byte>): Reading<seq<byte>> {
    if |t| < 8 || |t| - 8 < FromBigEndian(t[..8]) then Bad
    else Read(t[8..8 + FromBigEndian(t[..8])], t[8 + FromBigEndian(t[..8])..])
  }

  lemma {:induction false} BigEndianReads(n: nat, count: nat)
    requires n < Power256(count)
    ensures FromBigEndian(BigEndian(n, count)) == n
  {
    if count > 0 {
      BigEndianReads(n / 256, count - 1);
      assert BigEndian(n, count)[..count - 1] == BigEndian(n / 256, count - 1);
    }
  }

  lemma PartReads(part: seq<byte>, x: seq<byte>)
    requires Representable(part)
    ensures ReadPart(Prefixed(part) + x) == Read(part, x)
  {
    var t := Prefixed(part) + x;
    assert Power256(8) == 0x1_0000_0000_0000_0000;
    BigEndianReads(|part|, 8);
    hide BigEndian, FromBigEndian, Power256;
    assert t[..8] == BigEndian(|part|, 8);
    assert t[8..8 + |part|] == part && t[8 + |part|..] == x;
  }

  /** What the hasher gets: the verb, the target and the canonical text, in this order, each behind
      its length, and nothing after them. */
  lemma PreimageMeans(verb: Text, target: Text, payload: Value)
    requires WellFormed(payload)
    requires Representable(verb) && Representable(target) && Representable(Canonical(payload))
    ensures var first := ReadPart(Preimage(verb, target, payload));
            && first.Read? && first.value == verb
            && var second := ReadPart(first.rest);
            && second.Read? && second.value == target
            && var third := ReadPart(second.rest);
            && third.Read? && third.rest == []
            && exists u :: Reads(third.value, u) && Equivalent(u, payload) && KeysAscend(u)
  {
    CanonicalTextMeans(payload);
    var text := Canonical(payload);
    PartReads(verb, Prefixed(target) + Prefixed(text));
    PartReads(target, Prefixed(text));
    PartReads(text, []);
    hide Prefixed, ReadPart, Canonical, Equivalent, Reads, KeysAscend;
    assert Prefixed(text) + [] == Prefixed(text);
    Assoc(Prefixed(verb), Prefixed(target), Prefixed(text));
  }
}
