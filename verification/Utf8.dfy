/** UTF-8 on bytes: which text is well-formed (section 4 of RFC 3629), and what replacing every
    ill-formed part makes of any bytes (the "UTF-8 decode" of the WHATWG Encoding standard, its
    result written as UTF-8 again). */
module Utf8 {
  import opened Bytes

  // U+FFFD and U+FEFF.
  const REPLACEMENT: Text := [0xEF, 0xBF, 0xBD]
  const BOM: Text := [0xEF, 0xBB, 0xBF]

  predicate Continues(b: byte) {
    0x80 <= b <= 0xBF
  }

  // The first two bytes of a character of three bytes, or of four.
  predicate OpensThree(a: byte, b: byte) {
    || (a == 0xE0 && 0xA0 <= b <= 0xBF)
    || (a == 0xED && 0x80 <= b <= 0x9F)
    || (0xE1 <= a <= 0xEF && a != 0xED && Continues(b))
  }

  predicate OpensFour(a: byte, b: byte) {
    || (a == 0xF0 && 0x90 <= b <= 0xBF)
    || (a == 0xF4 && 0x80 <= b <= 0x8F)
    || (0xF1 <= a <= 0xF3 && Continues(b))
  }

  // The length of the character the text begins with; 0 if it begins with none.
  function CharSize(t: Text): (n: nat)
    ensures n <= |t|
  {
    if t == [] then 0
    else if t[0] < 0x80 then 1
    else if |t| >= 2 && 0xC2 <= t[0] <= 0xDF && Continues(t[1]) then 2
    else if |t| >= 3 && OpensThree(t[0], t[1]) && Continues(t[2]) then 3
    else if |t| >= 4 && OpensFour(t[0], t[1]) && Continues(t[2]) && Continues(t[3]) then 4
    else 0
  }

  // How much of an ill-formed beginning one replacement stands for: the longest piece that
  // could have begun a character, or one byte.
  function BadSize(t: Text): (n: nat)
    requires t != []
    ensures 1 <= n <= |t|
  {
    if |t| >= 3 && OpensFour(t[0], t[1]) && Continues(t[2]) then 3
    else if |t| >= 2 && (OpensThree(t[0], t[1]) || OpensFour(t[0], t[1])) then 2
    else 1
  }

  predicate Valid(t: Text)
    decreases |t|
  {
    t == [] || (CharSize(t) > 0 && Valid(t[CharSize(t)..]))
  }

  function Lossy(t: Text): Text
    decreases |t|
  {
    if t == [] then []
    else if CharSize(t) > 0 then t[..CharSize(t)] + Lossy(t[CharSize(t)..])
    else REPLACEMENT + Lossy(t[BadSize(t)..])
  }

  // Decoding one step: what is taken and what it becomes.
  function Taken(t: Text): (n: nat)
    requires t != []
    ensures 1 <= n <= |t|
  {
    if CharSize(t) > 0 then CharSize(t) else BadSize(t)
  }

  function Piece(t: Text): Text
    requires t != []
  {
    if CharSize(t) > 0 then t[..CharSize(t)] else REPLACEMENT
  }

  lemma LossyStep(t: Text)
    requires t != []
    ensures Lossy(t) == Piece(t) + Lossy(t[Taken(t)..])
  {}

  /** Decoding changes nothing if and only if the text is well-formed. */
  lemma {:induction false} LossyKeepsExactlyValid(t: Text)
    ensures Lossy(t) == t <==> Valid(t)
    decreases |t|
  {
    if t != [] {
      var n := CharSize(t);
      if n > 0 {
        LossyKeepsExactlyValid(t[n..]);
        assert t == t[..n] + t[n..];
        assert Lossy(t)[n..] == Lossy(t[n..]);
      } else {
        assert Lossy(t)[..3] == REPLACEMENT;
      }
    }
  }

  // A character stays one whatever follows it.
  lemma CharStands(c: Text, rest: Text)
    requires c != [] && CharSize(c) == |c|
    ensures CharSize(c + rest) == |c| && (c + rest)[..|c|] == c && (c + rest)[|c|..] == rest
  {}

  /** What decoding yields is well-formed. */
  lemma {:induction false} LossyIsValid(t: Text)
    ensures Valid(Lossy(t))
    decreases |t|
  {
    if t != [] {
      var rest := t[Taken(t)..];
      LossyIsValid(rest);
      LossyStep(t);
      PieceIsChar(t);
      CharStands(Piece(t), Lossy(rest));
      hide Lossy, CharSize, BadSize;
    }
  }

  lemma PieceIsChar(t: Text)
    requires t != []
    ensures Piece(t) != [] && CharSize(Piece(t)) == |Piece(t)|
  {}

  lemma AsciiFirst(b: byte, t: Text)
    requires b < 0x80
    ensures Lossy([b] + t) == [b] + Lossy(t) && (Valid([b] + t) <==> Valid(t))
  {
    assert ([b] + t)[1..] == t && ([b] + t)[..1] == [b];
  }

  lemma BomFirst(t: Text)
    ensures Valid(BOM + t) <==> Valid(t)
  {
    CharStands(BOM, t);
  }

  // Decoding neither removes nor makes a byte below 128.
  lemma {:induction false} LossyLacks(t: Text, b: byte)
    requires b < 0x80 && b !in t
    ensures b !in Lossy(t)
    decreases |t|
  {
    if t != [] {
      var rest := t[Taken(t)..];
      LossyLacks(rest, b);
      LossyStep(t);
      assert b !in Piece(t);
      hide Lossy, CharSize, BadSize;
    }
  }

  // What comes after a piece matters only by its first byte, and an ASCII byte never continues.
  lemma StepBeforeAscii(a: Text, b: byte, rest: Text)
    requires a != [] && b < 0x80
    ensures var all := a + [b] + rest;
            && Taken(all) == Taken(a) && Piece(all) == Piece(a)
            && all[Taken(all)..] == a[Taken(a)..] + [b] + rest
  {
    var all := a + [b] + rest;
    assert all[..|a|] == a && all[|a|] == b;
    assert CharSize(all) == CharSize(a);
    assert BadSize(all) == BadSize(a);
  }

  /** Decoding splits at every ASCII byte, so decoding the whole is decoding line by line. */
  lemma {:induction false} LossySplitsAtAscii(a: Text, b: byte, rest: Text)
    requires b < 0x80
    ensures Lossy(a + [b] + rest) == Lossy(a) + [b] + Lossy(rest)
    decreases |a|
  {
    if a == [] {
      AsciiFirst(b, rest);
      assert [] + [b] + rest == [b] + rest;
    } else {
      var all := a + [b] + rest;
      StepBeforeAscii(a, b, rest);
      LossySplitsAtAscii(a[Taken(a)..], b, rest);
      LossyStep(a);
      LossyStep(all);
      hide Lossy, CharSize, BadSize, Piece;
    }
  }
}
