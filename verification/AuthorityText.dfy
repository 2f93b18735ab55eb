/** The compact JSON text of a saved ledger, field for field in declaration order, and the
    bound that keeps every reachable ledger under the storage cap. */
module AuthorityText {
  import opened OperationIds
  import opened AuthorityRecords
  import Bytes

  const HEX := "0123456789abcdef"
  const DIGITS := "0123456789"

  // The low `count` hexadecimal digits of n.
  function Hex(n: nat, count: nat): (text: string)
    ensures |text| == count
  {
    if count == 0 then "" else Hex(n / 16, count - 1) + [HEX[n % 16]]
  }

  function Decimal(n: nat): string {
    if n < 10 then [DIGITS[n]] else Decimal(n / 10) + [DIGITS[n % 10]]
  }

  // Eight, four, four, four and twelve digits; the variant sits on top of randB.
  function Hyphenated(u: Uuid): (text: string)
    ensures |text| == 36
  {
    Hex(u.time / 0x1_0000, 8) + "-" + Hex(u.time, 4) + "-"
    + Hex(u.version * 0x1000 + u.randA, 4) + "-"
    + Hex(u.variant * 0x4000 + u.randB / 0x1_0000_0000_0000, 4) + "-" + Hex(u.randB, 12)
  }

  function Id(prefix: string, u: Uuid): string {
    "\"" + prefix + "_" + Hyphenated(u) + "\""
  }

  function Signed(n: int): string {
    if n < 0 then "-" + Decimal(-n) else Decimal(n)
  }

  function PermitText(p: Permit): string {
    PermitIds(p) + (",\"generation\":" + (Signed(p.generation) + (",\"original_epoch\":"
    + (Signed(p.originalEpoch) + (",\"serial\":" + (Decimal(p.serial) + "}"))))))
  }

  function PermitIds(p: Permit): string {
    "{\"host\":" + Id("hst", p.host) + (",\"project\":" + Id("prj", p.project))
    + (",\"sandbox\":" + Id("sbx", p.sandbox)) + (",\"allocation\":" + Id("alc", p.allocation))
    + (",\"create_operation\":" + Id("op", p.createOperation))
  }

  function ByteList(bytes: seq<Bytes.byte>): string {
    if bytes == [] then ""
    else if |bytes| == 1 then Decimal(bytes[0] as nat)
    else ByteList(bytes[..|bytes| - 1]) + "," + Decimal(bytes[|bytes| - 1] as nat)
  }

  function StateText(state: State): string {
    match state
    case Active => "{\"state\":\"active\"}"
    case Fenced(r) => "{\"state\":\"fenced\",\"retirement\":" + Id("op", r) + "}"
    case Complete(r, d) =>
      "{\"state\":\"complete\",\"retirement\":" + Id("op", r) + (",\"intent_sha256\":[" + (ByteList(d) + "]}"))
  }

  function EntryText(e: Entry): string {
    "{\"permit\":" + (PermitText(e.permit) + (",\"state\":" + (StateText(e.state) + "}")))
  }

  function EntriesText(entries: seq<Entry>): string {
    if entries == [] then ""
    else if |entries| == 1 then EntryText(entries[0])
    else EntriesText(entries[..|entries| - 1]) + "," + EntryText(entries[|entries| - 1])
  }

  function Render(s: Saved): string {
    "{\"version\":" + (Decimal(s.version) + (",\"host\":" + (Id("hst", s.host)
    + (",\"through\":" + (Decimal(s.through) + (",\"entries\":[" + (EntriesText(s.entries) + "]}")))))))
  }

  // --- the bound ---

  function Pow10(k: nat): nat {
    if k == 0 then 1 else 10 * Pow10(k - 1)
  }

  lemma {:induction false} DecimalLength(n: nat, k: nat)
    requires 0 < k && n < Pow10(k)
    ensures |Decimal(n)| <= k
    decreases k
  {
    if n >= 10 {
      assert k > 1;
      DecimalLength(n / 10, k - 1);
    }
  }

  lemma SerialLength(n: nat)
    requires n <= MAX_SERIAL
    ensures |Decimal(n)| <= 19
  {
    assert Pow10(5) == 100_000;
    assert Pow10(10) == 10_000_000_000 by {
      assert Pow10(7) == 100 * Pow10(5);
      assert Pow10(10) == 1000 * Pow10(7);
    }
    assert Pow10(15) == 1_000_000_000_000_000 by {
      assert Pow10(12) == 100 * Pow10(10);
      assert Pow10(15) == 1000 * Pow10(12);
    }
    assert Pow10(19) == 10_000_000_000_000_000_000 by {
      assert Pow10(17) == 100 * Pow10(15);
      assert Pow10(19) == 100 * Pow10(17);
    }
    DecimalLength(n, 19);
  }

  lemma {:induction false} ByteListLength(bytes: seq<Bytes.byte>)
    ensures |ByteList(bytes)| <= 4 * |bytes|
  {
    if bytes != [] {
      assert Pow10(3) == 1000;
      DecimalLength(bytes[|bytes| - 1] as nat, 3);
      ByteListLength(bytes[..|bytes| - 1]);
    }
  }

  lemma PermitLength(p: Permit)
    requires p.Validated()
    ensures |PermitText(p)| <= 400
  {
    SerialLength(p.generation);
    SerialLength(p.originalEpoch);
    SerialLength(p.serial);
  }

  lemma StateLength(state: State)
    ensures |StateText(state)| <= 222
  {
    if state.Complete? {
      ByteListLength(state.intentSha256);
    }
  }

  lemma EntryLength(e: Entry)
    requires e.permit.Validated()
    ensures |EntryText(e)| <= 660
  {
    PermitLength(e.permit);
    StateLength(e.state);
  }

  lemma {:induction false} EntriesLength(entries: seq<Entry>)
    requires forall e :: e in entries ==> e.permit.Validated()
    ensures |EntriesText(entries)| <= 661 * |entries|
  {
    if entries != [] {
      EntryLength(entries[|entries| - 1]);
      EntriesLength(entries[..|entries| - 1]);
    }
  }

  /** However full, a ledger within the entry and serial limits is well under the
      one-mebibyte cap. */
  lemma RenderFits(s: Saved)
    requires s.version == 1 && s.through <= MAX_SERIAL && |s.entries| <= MAX_ENTRIES
    requires forall e :: e in s.entries ==> e.permit.Validated()
    ensures |Render(s)| <= MAX_BYTES
  {
    SerialLength(s.through);
    EntriesLength(s.entries);
  }

  lemma WellFormedFits(s: Saved)
    requires WellFormed(s)
    ensures |Render(s)| <= MAX_BYTES
  {
    forall e | e in s.entries
      ensures e.permit.Validated()
    {
      assert EntryFits(s, e);
    }
    RenderFits(s);
  }
}
