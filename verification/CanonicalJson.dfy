/** The canonical JSON text behind a request digest (crates/sandbox-protocol/src/idempotency.rs):
    it depends only on the value with objects taken as unordered maps, and determines it. */
module CanonicalJson {
  import opened Bytes

  // An object keeps its members in the order the caller wrote them.
  datatype Value =
    | Null
    | Bool(b: bool)
    | Number(n: int)
    | String(text: Text)
    | Array(items: seq<Value>)
    | Object(fields: seq<Field>)

  datatype Field = Field(key: Text, value: Value)

  predicate DistinctKeys(fields: seq<Field>) {
    forall i, j :: 0 <= i < j < |fields| ==> fields[i].key != fields[j].key
  }

  predicate WellFormed(v: Value) {
    match v
    case Array(items) => forall i :: 0 <= i < |items| ==> WellFormed(items[i])
    case Object(fields) => DistinctKeys(fields) && forall i :: 0 <= i < |fields| ==> WellFormed(fields[i].value)
    case _ => true
  }

  predicate HasKey(fields: seq<Field>, key: Text) {
    exists i :: 0 <= i < |fields| && fields[i].key == key
  }

  // Equal up to the order of object members.
  ghost predicate Equivalent(a: Value, b: Value)
    decreases a
  {
    if a.Array? && b.Array? then
      |a.items| == |b.items| && forall i :: 0 <= i < |a.items| ==> Equivalent(a.items[i], b.items[i])
    else if a.Object? && b.Object? then
      && (forall i :: 0 <= i < |a.fields| ==> HasKey(b.fields, a.fields[i].key))
      && (forall j :: 0 <= j < |b.fields| ==> HasKey(a.fields, b.fields[j].key))
      && (forall i, j :: 0 <= i < |a.fields| && 0 <= j < |b.fields| && a.fields[i].key == b.fields[j].key ==>
            Equivalent(a.fields[i].value, b.fields[j].value))
    else a == b
  }

  // --- printing ---

  function Digit(d: nat): byte
    requires d < 10
  {
    (48 + d) as byte
  }

  function Decimal(n: nat): seq<byte> {
    if n < 10 then [Digit(n)] else Decimal(n / 10) + [Digit(n % 10)]
  }

  function Integer(n: int): seq<byte> {
    if n < 0 then [45] + Decimal(-n) else Decimal(n)
  }

  function HexDigit(d: nat): byte
    requires d < 16
  {
    if d < 10 then (48 + d) as byte else (87 + d) as byte
  }

  // Section 7 of RFC 8259: two-character escapes where they exist, \u00xx for other controls.
  function EscapeByte(b: byte): seq<byte> {
    if b == 34 || b == 92 then [92, b]
    else if b == 8 then [92, 98]
    else if b == 9 then [92, 116]
    else if b == 10 then [92, 110]
    else if b == 12 then [92, 102]
    else if b == 13 then [92, 114]
    else if b < 32 then [92, 117, 48, 48, HexDigit(b as nat / 16), HexDigit(b as nat % 16)]
    else [b]
  }

  function Escaped(s: Text): seq<byte> {
    if s == [] then [] else EscapeByte(s[0]) + Escaped(s[1..])
  }

  function Quote(s: Text): seq<byte> {
    [34] + Escaped(s) + [34]
  }

  function Print(v: Value): seq<byte>
    decreases v, 0
  {
    match v
    case Null => [110, 117, 108, 108]
    case Bool(b) => if b then [116, 114, 117, 101] else [102, 97, 108, 115, 101]
    case Number(n) => Integer(n)
    case String(s) => Quote(s)
    case Array(items) => [91] + PrintItems(items) + [93]
    case Object(fields) => [123] + PrintFields(fields) + [125]
  }

  function PrintItems(items: seq<Value>): seq<byte> {
    if items == [] then []
    else if |items| == 1 then Print(items[0])
    else Print(items[0]) + [44] + PrintItems(items[1..])
  }

  function PrintField(f: Field): seq<byte> {
    Quote(f.key) + [58] + Print(f.value)
  }

  function PrintFields(fields: seq<Field>): seq<byte> {
    if fields == [] then []
    else if |fields| == 1 then PrintField(fields[0])
    else PrintField(fields[0]) + [44] + PrintFields(fields[1..])
  }

  // --- key order ---

  predicate Less(a: Text, b: Text) {
    if b == [] then false
    else if a == [] then true
    else a[0] < b[0] || (a[0] == b[0] && Less(a[1..], b[1..]))
  }

  function Insert(f: Field, fields: seq<Field>): seq<Field> {
    if fields == [] || Less(f.key, fields[0].key) then [f] + fields
    else [fields[0]] + Insert(f, fields[1..])
  }

  function Sorted(fields: seq<Field>): seq<Field> {
    if fields == [] then [] else Insert(fields[0], Sorted(fields[1..]))
  }

  // Every object's members in key order.
  function Normal(v: Value): Value
    decreases v, 1
  {
    match v
    case Array(items) => Array(NormalItems(items))
    case Object(fields) => Object(Sorted(NormalFields(fields)))
    case _ => v
  }

  function NormalItems(items: seq<Value>): (r: seq<Value>)
    ensures |r| == |items| && forall i :: 0 <= i < |items| ==> r[i] == Normal(items[i])
    decreases items
  {
    if items == [] then [] else [Normal(items[0])] + NormalItems(items[1..])
  }

  function NormalFields(fields: seq<Field>): (r: seq<Field>)
    ensures |r| == |fields|
    ensures forall i :: 0 <= i < |fields| ==> r[i] == Field(fields[i].key, Normal(fields[i].value))
    decreases fields
  {
    if fields == [] then [] else [Field(fields[0].key, Normal(fields[0].value))] + NormalFields(fields[1..])
  }

  function Canonical(v: Value): seq<byte> {
    Print(Normal(v))
  }

  // --- printed text splits in one way only ---

  lemma Cancel(p: seq<byte>, x: seq<byte>, y: seq<byte>)
    requires p + x == p + y
    ensures x == y
  {
    assert (p + x)[|p|..] == x && (p + y)[|p|..] == y;
  }

  predicate DigitByte(b: byte) {
    48 <= b <= 57
  }

  // What can follow a printed value.
  predicate Delimited(x: seq<byte>) {
    x == [] || x[0] == 44 || x[0] == 93 || x[0] == 125
  }

  lemma {:induction false} DecimalDigits(n: nat)
    ensures Decimal(n) != [] && forall i :: 0 <= i < |Decimal(n)| ==> DigitByte(Decimal(n)[i])
  {
    if n >= 10 {
      DecimalDigits(n / 10);
    }
  }

  function ValueOf(digits: seq<byte>): int {
    if digits == [] then 0 else ValueOf(digits[..|digits| - 1]) * 10 + (digits[|digits| - 1] as int - 48)
  }

  lemma {:induction false} DecimalValue(n: nat)
    ensures ValueOf(Decimal(n)) == n
  {
    if n >= 10 {
      DecimalValue(n / 10);
      assert Decimal(n)[..|Decimal(n)| - 1] == Decimal(n / 10);
    } else {
      assert Decimal(n)[..0] == [];
    }
  }

  // A run of digits ends no earlier than another run read from the same bytes.
  lemma DigitsReach(d: seq<byte>, e: seq<byte>, x: seq<byte>, y: seq<byte>)
    requires d + x == e + y && Delimited(x)
    requires forall i :: 0 <= i < |e| ==> DigitByte(e[i])
    ensures |e| <= |d|
  {
    var all := d + x;
    assert |all| == |d| + |x|;
    assert forall i :: 0 <= i < |e| ==> all[i] == e[i];
    assert |d| < |all| ==> all[|d|] == x[0];
  }

  lemma DecimalSplits(a: nat, b: nat, x: seq<byte>, y: seq<byte>)
    requires Decimal(a) + x == Decimal(b) + y && Delimited(x) && Delimited(y)
    ensures a == b && x == y
  {
    DecimalDigits(a);
    DecimalDigits(b);
    DigitsReach(Decimal(a), Decimal(b), x, y);
    DigitsReach(Decimal(b), Decimal(a), y, x);
    assert (Decimal(a) + x)[..|Decimal(a)|] == Decimal(a);
    assert (Decimal(b) + y)[..|Decimal(b)|] == Decimal(b);
    DecimalValue(a);
    DecimalValue(b);
    Cancel(Decimal(a), x, y);
  }

  lemma IntegerSign(n: int, x: seq<byte>)
    ensures Integer(n) + x != []
    ensures if n < 0 then Integer(n) + x == [45] + (Decimal(-n) + x)
            else Integer(n) + x == Decimal(n) + x && DigitByte((Integer(n) + x)[0])
  {
    if n < 0 {
      hide Decimal;
    } else {
      DecimalDigits(n);
      hide Decimal;
      assert (Decimal(n) + x)[0] == Decimal(n)[0];
    }
  }

  lemma IntegerSplits(a: int, b: int, x: seq<byte>, y: seq<byte>)
    requires Integer(a) + x == Integer(b) + y && Delimited(x) && Delimited(y)
    ensures a == b && x == y
  {
    hide Integer, Decimal;
    IntegerSign(a, x);
    IntegerSign(b, y);
    if a < 0 {
      Cancel([45], Decimal(-a) + x, Decimal(-b) + y);
      DecimalSplits(-a, -b, x, y);
    } else {
      DecimalSplits(a, b, x, y);
    }
  }

  lemma EscapeByteSplits(a: byte, b: byte, x: seq<byte>, y: seq<byte>)
    requires EscapeByte(a) + x == EscapeByte(b) + y
    ensures a == b && x == y
  {
    var all := EscapeByte(a) + x;
    assert forall i :: 0 <= i < |EscapeByte(a)| ==> all[i] == EscapeByte(a)[i];
    assert forall i :: 0 <= i < |EscapeByte(b)| ==> all[i] == EscapeByte(b)[i];
    assert all[0] == EscapeByte(a)[0] == EscapeByte(b)[0];
    if |EscapeByte(a)| > 1 {
      assert all[1] == EscapeByte(a)[1] == EscapeByte(b)[1];
      if |EscapeByte(a)| > 2 {
        assert all[4] == EscapeByte(a)[4] == EscapeByte(b)[4];
        assert all[5] == EscapeByte(a)[5] == EscapeByte(b)[5];
      }
    }
    Cancel(EscapeByte(a), x, y);
  }

  lemma EscapedHead(s: Text, x: seq<byte>)
    requires s != []
    ensures Escaped(s) + [34] + x == EscapeByte(s[0]) + (Escaped(s[1..]) + [34] + x)
    ensures (Escaped(s) + [34] + x)[0] != 34
  {
    var rest := Escaped(s[1..]);
    assert EscapeByte(s[0]) + rest + [34] + x == EscapeByte(s[0]) + (rest + [34] + x);
    assert (EscapeByte(s[0]) + (rest + [34] + x))[0] == EscapeByte(s[0])[0];
  }

  lemma EscapedEnd(x: seq<byte>)
    ensures Escaped([]) + [34] + x == [34] + x
  {}

  lemma {:induction false} EscapedSplits(s: Text, t: Text, x: seq<byte>, y: seq<byte>)
    requires Escaped(s) + [34] + x == Escaped(t) + [34] + y
    ensures s == t && x == y
    decreases |s| + |t|
  {
    EscapedEnd(x);
    EscapedEnd(y);
    if s != [] {
      EscapedHead(s, x);
    }
    if t != [] {
      EscapedHead(t, y);
    }
    hide Escaped, EscapeByte;
    if s == [] {
      Cancel([34], x, y);
    } else {
      EscapeByteSplits(s[0], t[0], Escaped(s[1..]) + [34] + x, Escaped(t[1..]) + [34] + y);
      EscapedSplits(s[1..], t[1..], x, y);
      assert s == [s[0]] + s[1..] && t == [t[0]] + t[1..];
    }
  }

  lemma QuoteHead(s: Text, x: seq<byte>)
    ensures Quote(s) + x == [34] + (Escaped(s) + [34] + x)
  {
    hide Escaped;
    assert Quote(s) == [34] + (Escaped(s) + [34]);
  }

  lemma QuoteSplits(s: Text, t: Text, x: seq<byte>, y: seq<byte>)
    requires Quote(s) + x == Quote(t) + y
    ensures s == t && x == y
  {
    QuoteHead(s, x);
    QuoteHead(t, y);
    hide Quote, Escaped;
    Cancel([34], Escaped(s) + [34] + x, Escaped(t) + [34] + y);
    EscapedSplits(s, t, x, y);
  }

  // The first byte tells the kind of value.
  function Kind(v: Value): byte {
    match v
    case Null => 110
    case Bool(b) => if b then 116 else 102
    case Number(n) => Integer(n)[0]
    case String(_) => 34
    case Array(_) => 91
    case Object(_) => 123
  }

  lemma FirstByte(v: Value)
    ensures Print(v) != [] && Print(v)[0] == Kind(v)
    ensures v.Number? ==> Kind(v) == 45 || DigitByte(Kind(v))
  {
    if v.Number? && v.n >= 0 {
      DecimalDigits(v.n);
    }
  }

  lemma Enclosed(open: byte, u: seq<byte>, v: seq<byte>, close: byte, x: seq<byte>, y: seq<byte>)
    requires [open] + u + [close] + x == [open] + v + [close] + y
    ensures u + ([close] + x) == v + ([close] + y)
  {
    assert [open] + u + [close] + x == [open] + (u + ([close] + x));
    assert [open] + v + [close] + y == [open] + (v + ([close] + y));
    Cancel([open], u + ([close] + x), v + ([close] + y));
  }

  lemma {:induction false} PrintSplits(a: Value, b: Value, x: seq<byte>, y: seq<byte>)
    requires Print(a) + x == Print(b) + y && Delimited(x) && Delimited(y)
    ensures a == b && x == y
    decreases a, 0
  {
    FirstByte(a);
    FirstByte(b);
    assert (Print(a) + x)[0] == Kind(a);
    assert (Print(b) + y)[0] == Kind(b);
    match a
    case Null => Cancel(Print(a), x, y);
    case Bool(_) => Cancel(Print(a), x, y);
    case Number(n) => IntegerSplits(n, b.n, x, y);
    case String(s) => QuoteSplits(s, b.text, x, y);
    case Array(items) =>
      Enclosed(91, PrintItems(items), PrintItems(b.items), 93, x, y);
      hide Print, PrintItems;
      ItemsSplit(items, b.items, [93] + x, [93] + y);
      Cancel([93], x, y);
    case Object(fields) =>
      Enclosed(123, PrintFields(fields), PrintFields(b.fields), 125, x, y);
      hide Print, PrintFields;
      FieldsSplit(fields, b.fields, [125] + x, [125] + y);
      Cancel([125], x, y);
  }

  // The bytes after the first of a nonempty list.
  function ItemsTail(items: seq<Value>): seq<byte>
    requires items != []
  {
    if |items| == 1 then [] else [44] + PrintItems(items[1..])
  }

  lemma Assoc(p: seq<byte>, q: seq<byte>, x: seq<byte>)
    ensures p + q + x == p + (q + x)
  {}

  lemma HeadByte(p: seq<byte>, x: seq<byte>)
    requires p != []
    ensures p + x != [] && (p + x)[0] == p[0]
  {}

  lemma NotCloser(v: Value)
    ensures Print(v) != [] && Print(v)[0] != 93
  {
    FirstByte(v);
    hide Print, Integer;
  }

  lemma ItemsCons(a: seq<Value>)
    requires a != []
    ensures PrintItems(a) == Print(a[0]) + ItemsTail(a)
  {
    hide Print;
    if |a| > 1 {
      Assoc(Print(a[0]), [44], PrintItems(a[1..]));
    }
  }

  lemma ItemsHead(a: seq<Value>, x: seq<byte>)
    requires a != [] && x != [] && x[0] == 93
    ensures PrintItems(a) + x == Print(a[0]) + (ItemsTail(a) + x)
    ensures Delimited(ItemsTail(a) + x)
    ensures (PrintItems(a) + x)[0] != 93
    ensures if |a| == 1 then ItemsTail(a) + x == x
            else ItemsTail(a) + x == [44] + (PrintItems(a[1..]) + x)
  {
    NotCloser(a[0]);
    ItemsCons(a);
    hide Print, PrintItems;
    Assoc(Print(a[0]), ItemsTail(a), x);
    Assoc([44], PrintItems(a[1..]), x);
    assert [] + x == x;
    HeadByte(Print(a[0]), ItemsTail(a) + x);
  }

  lemma {:induction false} ItemsSplit(a: seq<Value>, b: seq<Value>, x: seq<byte>, y: seq<byte>)
    requires PrintItems(a) + x == PrintItems(b) + y
    requires x != [] && x[0] == 93 && y != [] && y[0] == 93
    ensures a == b && x == y
    decreases a
  {
    assert PrintItems([]) + x == x && PrintItems([]) + y == y;
    hide PrintItems, Print;
    if a != [] {
      ItemsHead(a, x);
    }
    if b != [] {
      ItemsHead(b, y);
    }
    if a != [] {
      PrintSplits(a[0], b[0], ItemsTail(a) + x, ItemsTail(b) + y);
      if |a| > 1 {
        Cancel([44], PrintItems(a[1..]) + x, PrintItems(b[1..]) + y);
        ItemsSplit(a[1..], b[1..], x, y);
      }
      assert a == [a[0]] + a[1..] && b == [b[0]] + b[1..];
    }
  }

  function FieldsTail(fields: seq<Field>): seq<byte>
    requires fields != []
  {
    if |fields| == 1 then [] else [44] + PrintFields(fields[1..])
  }

  lemma FieldsHead(a: seq<Field>, x: seq<byte>)
    requires a != [] && x != [] && x[0] == 125
    ensures PrintFields(a) + x == Quote(a[0].key) + ([58] + (Print(a[0].value) + (FieldsTail(a) + x)))
    ensures (PrintFields(a) + x)[0] != 125
  {
    QuoteStarts(a[0].key);
    hide Print, PrintFields, PrintField, Quote, FieldsTail;
    FieldsCons(a);
    FieldHead(a[0], FieldsTail(a), x);
    HeadByte(Quote(a[0].key), [58] + (Print(a[0].value) + (FieldsTail(a) + x)));
  }

  lemma FieldsTailDelimits(a: seq<Field>, x: seq<byte>)
    requires a != [] && x != [] && x[0] == 125
    ensures Delimited(FieldsTail(a) + x)
    ensures if |a| == 1 then FieldsTail(a) + x == x
            else FieldsTail(a) + x == [44] + (PrintFields(a[1..]) + x)
  {
    hide PrintFields;
    Assoc([44], PrintFields(a[1..]), x);
    assert [] + x == x;
  }

  lemma QuoteStarts(s: Text)
    ensures Quote(s) != [] && Quote(s)[0] == 34
  {}

  lemma FieldsCons(a: seq<Field>)
    requires a != []
    ensures PrintFields(a) == PrintField(a[0]) + FieldsTail(a)
  {
    hide PrintField;
    if |a| > 1 {
      Assoc(PrintField(a[0]), [44], PrintFields(a[1..]));
    }
  }

  lemma FieldHead(f: Field, tail: seq<byte>, x: seq<byte>)
    ensures PrintField(f) + tail + x == Quote(f.key) + ([58] + (Print(f.value) + (tail + x)))
  {
    hide Print, Quote;
    Assoc(PrintField(f), tail, x);
    Assoc(Quote(f.key) + [58], Print(f.value), tail + x);
    Assoc(Quote(f.key), [58], Print(f.value) + (tail + x));
  }

  lemma {:induction false} FieldsSplit(a: seq<Field>, b: seq<Field>, x: seq<byte>, y: seq<byte>)
    requires PrintFields(a) + x == PrintFields(b) + y
    requires x != [] && x[0] == 125 && y != [] && y[0] == 125
    ensures a == b && x == y
    decreases a
  {
    assert PrintFields([]) + x == x && PrintFields([]) + y == y;
    hide PrintFields, Print, Quote, FieldsTail;
    if a != [] {
      FieldsHead(a, x);
      FieldsTailDelimits(a, x);
    }
    if b != [] {
      FieldsHead(b, y);
      FieldsTailDelimits(b, y);
    }
    if a != [] {
      var u, v := Print(a[0].value) + (FieldsTail(a) + x), Print(b[0].value) + (FieldsTail(b) + y);
      QuoteSplits(a[0].key, b[0].key, [58] + u, [58] + v);
      Cancel([58], u, v);
      PrintSplits(a[0].value, b[0].value, FieldsTail(a) + x, FieldsTail(b) + y);
      if |a| > 1 {
        Cancel([44], PrintFields(a[1..]) + x, PrintFields(b[1..]) + y);
        FieldsSplit(a[1..], b[1..], x, y);
      }
      assert a == [a[0]] + a[1..] && b == [b[0]] + b[1..];
    }
  }

  // --- the sorted form ---

  lemma {:induction false} LessIsTotal(a: Text, b: Text)
    ensures Less(a, b) || Less(b, a) || a == b
    ensures !(Less(a, b) && Less(b, a)) && !Less(a, a)
  {
    if a != [] && b != [] {
      LessIsTotal(a[1..], b[1..]);
      LessIsTotal(a[1..], a[1..]);
      assert a == [a[0]] + a[1..] && b == [b[0]] + b[1..];
    } else if a != [] {
      LessIsTotal(a[1..], a[1..]);
    }
  }

  lemma {:induction false} LessTransitively(a: Text, b: Text, c: Text)
    requires Less(a, b) && Less(b, c)
    ensures Less(a, c)
  {
    if a != [] && a[0] == b[0] && b[0] == c[0] {
      LessTransitively(a[1..], b[1..], c[1..]);
    }
  }

  predicate Ascending(fields: seq<Field>) {
    forall i, j :: 0 <= i < j < |fields| ==> Less(fields[i].key, fields[j].key)
  }

  ghost predicate SameMembers(a: seq<Field>, b: seq<Field>) {
    forall f :: f in a <==> f in b
  }

  lemma {:induction false} InsertKeeps(f: Field, fields: seq<Field>)
    ensures forall g :: g in Insert(f, fields) <==> g == f || g in fields
    ensures Ascending(fields) && (forall g :: g in fields ==> g.key != f.key) ==> Ascending(Insert(f, fields))
    ensures |Insert(f, fields)| == |fields| + 1
  {
    if fields != [] {
      LessIsTotal(f.key, fields[0].key);
      if Less(f.key, fields[0].key) {
        forall j | 1 <= j < |fields| && Less(fields[0].key, fields[j].key)
          ensures Less(f.key, fields[j].key)
        {
          LessTransitively(f.key, fields[0].key, fields[j].key);
        }
      } else {
        InsertKeeps(f, fields[1..]);
        var rest := Insert(f, fields[1..]);
        assert fields == [fields[0]] + fields[1..];
        if Ascending(fields) && forall g :: g in fields ==> g.key != f.key {
          assert Ascending(fields[1..]);
          forall j | 0 <= j < |rest|
            ensures Less(fields[0].key, rest[j].key)
          {
            assert rest[j] in rest;
          }
        }
      }
    }
  }

  lemma {:induction false} SortedKeeps(fields: seq<Field>)
    ensures SameMembers(Sorted(fields), fields) && |Sorted(fields)| == |fields|
    ensures DistinctKeys(fields) ==> Ascending(Sorted(fields))
  {
    if fields != [] {
      SortedKeeps(fields[1..]);
      InsertKeeps(fields[0], Sorted(fields[1..]));
      assert fields == [fields[0]] + fields[1..];
      if DistinctKeys(fields) {
        assert DistinctKeys(fields[1..]);
        forall g | g in Sorted(fields[1..])
          ensures g.key != fields[0].key
        {
          assert g in fields[1..];
        }
      }
    }
  }

  // There is only one way to put given members in key order.
  lemma {:induction false} AscendingIsUnique(a: seq<Field>, b: seq<Field>)
    requires Ascending(a) && Ascending(b) && SameMembers(a, b)
    ensures a == b
  {
    assert b != [] ==> b[0] in b && b[0] in a;
    if a != [] {
      assert a[0] in a && a[0] in b;
      var i :| 0 <= i < |b| && b[i] == a[0];
      assert b[0] in a;
      var j :| 0 <= j < |a| && a[j] == b[0];
      LessIsTotal(a[0].key, b[0].key);
      assert i == 0;
      var c, d := a[1..], b[1..];
      forall f
        ensures f in c <==> f in d
      {
        RestMembers(a, f);
        RestMembers(b, f);
      }
      AscendingIsUnique(c, d);
      assert a == [a[0]] + c && b == [b[0]] + d;
    }
  }

  lemma RestMembers(a: seq<Field>, f: Field)
    requires a != [] && Ascending(a)
    ensures f in a[1..] <==> f in a && f != a[0]
  {
    assert a == [a[0]] + a[1..];
    LessIsTotal(a[0].key, a[0].key);
  }

  lemma SortedAgree(a: seq<Field>, b: seq<Field>)
    requires DistinctKeys(a) && DistinctKeys(b)
    ensures Sorted(a) == Sorted(b) <==> SameMembers(a, b)
  {
    SortedKeeps(a);
    SortedKeeps(b);
    if SameMembers(a, b) {
      AscendingIsUnique(Sorted(a), Sorted(b));
    }
  }

  // --- equivalence is equality of sorted forms ---

  lemma {:induction false} NormalAgrees(a: Value, b: Value)
    requires WellFormed(a) && WellFormed(b)
    ensures Normal(a) == Normal(b) <==> Equivalent(a, b)
    decreases a
  {
    if a.Array? && b.Array? {
      forall i | 0 <= i < |a.items| && i < |b.items|
        ensures Normal(a.items[i]) == Normal(b.items[i]) <==> Equivalent(a.items[i], b.items[i])
      {
        NormalAgrees(a.items[i], b.items[i]);
      }
      if NormalItems(a.items) == NormalItems(b.items) {
        assert forall i :: 0 <= i < |a.items| ==> NormalItems(a.items)[i] == NormalItems(b.items)[i];
      }
    } else if a.Object? && b.Object? {
      forall i, j | 0 <= i < |a.fields| && 0 <= j < |b.fields| && a.fields[i].key == b.fields[j].key
        ensures Normal(a.fields[i].value) == Normal(b.fields[j].value) <==>
                Equivalent(a.fields[i].value, b.fields[j].value)
      {
        NormalAgrees(a.fields[i].value, b.fields[j].value);
      }
      SortedAgree(NormalFields(a.fields), NormalFields(b.fields));
      MembersAgree(a.fields, b.fields);
    }
  }

  lemma MembersAgree(a: seq<Field>, b: seq<Field>)
    requires DistinctKeys(a) && DistinctKeys(b)
    requires forall i, j :: 0 <= i < |a| && 0 <= j < |b| && a[i].key == b[j].key ==>
               (Normal(a[i].value) == Normal(b[j].value) <==> Equivalent(a[i].value, b[j].value))
    ensures SameMembers(NormalFields(a), NormalFields(b)) <==>
            && (forall i :: 0 <= i < |a| ==> HasKey(b, a[i].key))
            && (forall j :: 0 <= j < |b| ==> HasKey(a, b[j].key))
            && (forall i, j :: 0 <= i < |a| && 0 <= j < |b| && a[i].key == b[j].key ==>
                  Equivalent(a[i].value, b[j].value))
  {
    var na, nb := NormalFields(a), NormalFields(b);
    hide Equivalent, Normal, NormalFields;
    if SameMembers(na, nb) {
      forall i | 0 <= i < |a| {
        MembersMatch(a, b, i);
      }
      forall j | 0 <= j < |b| {
        MembersMatch(b, a, j);
      }
      forall i, j | 0 <= i < |a| && 0 <= j < |b| && a[i].key == b[j].key {
        SameKeySameValue(a, b, i, j);
      }
    }
    if && (forall i :: 0 <= i < |a| ==> HasKey(b, a[i].key))
       && (forall j :: 0 <= j < |b| ==> HasKey(a, b[j].key))
       && (forall i, j :: 0 <= i < |a| && 0 <= j < |b| && a[i].key == b[j].key ==>
             Equivalent(a[i].value, b[j].value))
    {
      forall i | 0 <= i < |a|
        ensures na[i] in nb
      {
        var j :| 0 <= j < |b| && b[j].key == a[i].key;
        assert nb[j] == na[i];
      }
      forall j | 0 <= j < |b|
        ensures nb[j] in na
      {
        var i :| 0 <= i < |a| && a[i].key == b[j].key;
        assert nb[j] == na[i];
      }
    }
  }

  lemma MemberIn(a: seq<Field>, b: seq<Field>, i: nat) returns (k: nat)
    requires SameMembers(a, b) && i < |a|
    ensures k < |b| && b[k] == a[i]
  {
    assert a[i] in b;
    k :| k < |b| && b[k] == a[i];
  }

  lemma SameKeySameValue(a: seq<Field>, b: seq<Field>, i: nat, j: nat)
    requires SameMembers(NormalFields(a), NormalFields(b)) && DistinctKeys(b)
    requires i < |a| && j < |b| && a[i].key == b[j].key
    ensures Normal(a[i].value) == Normal(b[j].value)
  {
    hide Normal, NormalFields, SameMembers;
    var k := MemberIn(NormalFields(a), NormalFields(b), i);
    assert b[k].key == b[j].key;
  }

  lemma MembersMatch(a: seq<Field>, b: seq<Field>, i: nat)
    requires SameMembers(NormalFields(a), NormalFields(b)) && i < |a|
    ensures HasKey(b, a[i].key)
  {
    hide Normal, NormalFields, SameMembers;
    var k := MemberIn(NormalFields(a), NormalFields(b), i);
    assert b[k].key == a[i].key;
  }

  // The canonical text is the same exactly for equivalent values.
  lemma CanonicalExactlyWhenEquivalent(a: Value, b: Value)
    requires WellFormed(a) && WellFormed(b)
    ensures Canonical(a) == Canonical(b) <==> Equivalent(a, b)
  {
    NormalAgrees(a, b);
    if Canonical(a) == Canonical(b) {
      assert Print(Normal(a)) + [] == Print(Normal(b)) + [];
      PrintSplits(Normal(a), Normal(b), [], []);
    }
    hide Print, Normal, Equivalent;
  }
}
