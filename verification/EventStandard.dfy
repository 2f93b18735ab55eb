/** The event-stream decoder against the WHATWG HTML standard (sections 9.2.5 and 9.2.6). The
    standard decodes the whole stream as UTF-8 with replacement, drops one byte order mark and
    never refuses anything. Here is its reading of any bytes, and exactly when the decoder's is
    the same. */
module EventStandard {
  import opened Wrappers
  import opened Bytes
  import opened EventStreams
  import Utf8

  // --- the standard ---

  // A dispatched event. The empty kind stands for the default one, the empty id for none.
  datatype Message = Message(kind: Text, id: Text, data: Text)

  function TrimOneBom(bytes: seq<byte>): seq<byte> {
    if Utf8.BOM <= bytes then bytes[3..] else bytes
  }

  function TrimOneNewline(data: Text): Text {
    if data != [] && data[|data| - 1] == LF then data[..|data| - 1] else data
  }

  function OwnId(frame: seq<Text>): Option<Text> {
    Latest(WithoutNul(Values(frame, ID)))
  }

  // An id stays in force until another one is set.
  function IdInForce(last: Text, frame: seq<Text>): Text {
    if OwnId(frame).Some? then OwnId(frame).value else last
  }

  // What the blank line after a frame dispatches; `last` is the id in force before the frame.
  function Announced(last: Text, frame: seq<Text>): Option<Message> {
    var data := Joined(Values(frame, DATA));
    if data == [] then None else Some(Message(Kind(frame), IdInForce(last, frame), TrimOneNewline(data)))
  }

  function Listed<T>(event: Option<T>): seq<T> {
    if event.Some? then [event.value] else []
  }

  // Decoded text with LF line ends; `frame` holds the lines since the last blank one. What has
  // no blank line behind it is dropped.
  function Interpret(last: Text, frame: seq<Text>, text: Text): seq<Message>
    decreases |text|
  {
    var k := FirstLf(text);
    if k == |text| then []
    else if k > 0 then Interpret(last, frame + [text[..k]], text[k + 1..])
    else Listed(Announced(last, frame)) + Interpret(IdInForce(last, frame), [], text[1..])
  }

  /** The standard's events of any bytes: one byte order mark is dropped, the rest decoded as
      UTF-8, and the lines, ended by CRLF, LF or CR, are interpreted. */
  function Standard(bytes: seq<byte>): seq<Message> {
    Interpret([], [], Normalized(false, Utf8.Lossy(TrimOneBom(bytes))))
  }

  // --- what the decoder hands on ---

  datatype Handed = Handed(kind: Text, id: Option<Text>, data: Text)

  // The profile that takes every event as it is handed on.
  const RECORDER: Profile<Handed> := Profile((kind, id, data) => Some(Handed(kind, id, data)), e => false)

  // In the standard's terms: no id is the empty id.
  function Told(h: Handed): Message {
    Message(h.kind, if h.id.Some? then h.id.value else [], h.data)
  }

  function AllTold(events: seq<Handed>): seq<Message> {
    if events == [] then [] else [Told(events[0])] + AllTold(events[1..])
  }

  function ToldIfAny(h: Option<Handed>): Option<Message> {
    if h.Some? then Some(Told(h.value)) else None
  }

  predicate Agree(heard: Outcome<Handed>, messages: seq<Message>) {
    !heard.failed && AllTold(heard.events) == messages
  }

  // Decoding what was handed on, one after another, up to the first that is refused.
  function Replay<E>(profile: Profile<E>, heard: Outcome<Handed>): Outcome<E>
    decreases |heard.events|
  {
    if heard.events == [] then Outcome([], heard.failed)
    else
      var h := heard.events[0];
      match profile.decode(h.kind, h.id, h.data)
      case None => Outcome([], true)
      case Some(e) =>
        var later := Replay(profile, Outcome(heard.events[1..], heard.failed));
        Outcome([e] + later.events, later.failed)
  }

  // One byte under any profile, told from what is handed on.
  lemma FeedReplays<E>(profile: Profile<E>, p: Parser, b: byte)
    ensures var heard, fed := Feed(RECORDER, p, b), Feed(profile, p, b);
            if heard.Broken? then fed == Broken
            else if heard.event.None? then fed == Next(heard.parser, None)
            else
              var h := heard.event.value;
              match profile.decode(h.kind, h.id, h.data)
              case None => fed == Broken
              case Some(e) => fed == Next(heard.parser, Some(e))
  {
    hide Utf8.Valid, TrimBom, TrimNewlines, Assign, Name, Value;
  }

  /** Whatever the profile, running it is decoding what the decoder hands on. */
  lemma {:induction false} EveryProfileReplays<E>(profile: Profile<E>, p: Parser, bytes: seq<byte>)
    ensures Run(profile, p, bytes) == Replay(profile, Run(RECORDER, p, bytes))
    decreases |bytes|
  {
    if bytes != [] {
      FeedReplays(profile, p, bytes[0]);
      var heard := Feed(RECORDER, p, bytes[0]);
      hide Feed;
      if heard.Next? {
        EveryProfileReplays(profile, heard.parser, bytes[1..]);
        if heard.event.Some? {
          var rest := Run(RECORDER, heard.parser, bytes[1..]);
          assert ([heard.event.value] + rest.events)[1..] == rest.events;
        }
      }
    }
  }

  // --- byte order marks ---

  predicate DoubleBom(line: Text) {
    Utf8.BOM + Utf8.BOM <= line
  }

  lemma BomBytes(line: Text)
    ensures Utf8.BOM <= line <==> |line| >= 3 && line[0] == 0xEF && line[1] == 0xBB && line[2] == 0xBF
    ensures Utf8.BOM <= line ==> line == Utf8.BOM + line[3..]
  {}

  /** The first line handed on is the standard's if and only if it does not begin with two byte
      order marks. */
  lemma FirstLineIsStandardExactlyUnlessDoubled(line: Text)
    ensures TrimBom(line) == TrimOneBom(line) <==> !DoubleBom(line)
  {
    BomBytes(line);
    if Utf8.BOM <= line {
      var rest := line[3..];
      BomBytes(rest);
      assert DoubleBom(line) <==> Utf8.BOM <= rest;
      if Utf8.BOM <= rest {
        TrimBomShortens(rest[3..]);
      }
    }
  }

  lemma {:induction false} TrimBomIsSuffix(line: Text)
    ensures forall b :: b in TrimBom(line) ==> b in line
    decreases |line|
  {
    if |line| >= 3 && line[0] == 0xEF && line[1] == 0xBB && line[2] == 0xBF {
      TrimBomIsSuffix(line[3..]);
    }
  }

  // --- trailing newlines ---

  predicate DoubleNewline(data: Text) {
    |data| >= 2 && data[|data| - 2] == LF && data[|data| - 1] == LF
  }

  lemma {:induction false} TrimNewlinesShortens(data: Text)
    ensures |TrimNewlines(data)| <= |data|
    decreases |data|
  {
    if data != [] && data[|data| - 1] == LF {
      TrimNewlinesShortens(data[..|data| - 1]);
    }
  }

  /** The data handed on is the standard's if and only if it does not end in two newlines. */
  lemma DataIsStandardExactlyUnlessDoubled(data: Text)
    ensures TrimNewlines(data) == TrimOneNewline(data) <==> !DoubleNewline(data)
  {
    if data != [] && data[|data| - 1] == LF {
      var rest := data[..|data| - 1];
      if rest != [] && rest[|rest| - 1] == LF {
        TrimNewlinesShortens(rest[..|rest| - 1]);
      }
    }
  }

  // The last data value is an empty one after another.
  predicate EmptyAfterAnother(values: seq<Text>) {
    |values| >= 2 && values[|values| - 1] == []
  }

  lemma EndsInTwoNewlinesExactlyWhenEmptyAfterAnother(values: seq<Text>)
    requires forall v :: v in values ==> LF !in v
    ensures DoubleNewline(Joined(values)) <==> EmptyAfterAnother(values)
  {
    if values != [] {
      var init, last := values[..|values| - 1], values[|values| - 1];
      var before := Joined(init);
      JoinedEndsInNewline(init);
      assert last in values;
      var all := before + last + [LF];
      assert Joined(values) == all;
      hide Joined;
      if last != [] {
        assert all[|all| - 2] == last[|last| - 1];
      } else if init != [] {
        assert all[|all| - 2] == before[|before| - 1];
      }
    }
  }

  lemma JoinedEndsInNewline(values: seq<Text>)
    ensures if values == [] then Joined(values) == []
            else Joined(values) != [] && Joined(values)[|Joined(values)| - 1] == LF
  {}

  lemma {:induction false} ValuesLackNewlines(frame: seq<Text>, name: Text)
    requires forall line :: line in frame ==> LF !in line
    ensures forall v :: v in Values(frame, name) ==> LF !in v
    ensures Joined(Values(frame, name)) == [] <==> Values(frame, name) == []
  {
    if frame != [] {
      var line := frame[|frame| - 1];
      assert line in frame;
      ValuesLackNewlines(frame[..|frame| - 1], name);
      ValueLacks(line);
    }
  }

  lemma ValueLacks(line: Text)
    ensures LF !in line ==> LF !in Value(line)
  {
    forall b | b in Value(line)
      ensures b in line
    {}
  }

  // When the data of a frame is the standard's.
  lemma FrameData(frame: seq<Text>)
    requires forall line :: line in frame ==> LF !in line
    ensures var values := Values(frame, DATA);
            && (Joined(values) == [] <==> values == [])
            && (TrimNewlines(Joined(values)) == TrimOneNewline(Joined(values)) <==> !EmptyAfterAnother(values))
  {
    hide Values, Joined, TrimNewlines, TrimOneNewline, DoubleNewline, EmptyAfterAnother;
    ValuesLackNewlines(frame, DATA);
    EndsInTwoNewlinesExactlyWhenEmptyAfterAnother(Values(frame, DATA));
    DataIsStandardExactlyUnlessDoubled(Joined(Values(frame, DATA)));
  }

  // --- one frame ---

  // A first line that only the decoder reads as a field, because the standard leaves a byte
  // order mark before it, still makes no difference to kind and id.
  predicate Harmless(lost: Text, frame: seq<Text>) {
    && (Name(lost) == EVENT ==> Value(lost) == [] || Values(frame, EVENT) != [])
    && (Name(lost) == ID ==> 0 in Value(lost) || Value(lost) == [] || OwnId(frame).Some?)
  }

  // There is no data to dispatch; or its last value is not an empty one after another, no other
  // id is in force, and no line was lost that matters.
  predicate FrameConforms(last: Text, lost: Option<Text>, frame: seq<Text>) {
    var values := Values(frame, DATA);
    if lost.Some? && Name(lost.value) == DATA then Value(lost.value) == [] && values == [[]]
    else
      || values == []
      || (&& !EmptyAfterAnother(values)
          && (last == [] || OwnId(frame).Some?)
          && (lost.Some? ==> Harmless(lost.value, frame)))
  }

  function Lead(lost: Option<Text>): seq<Text> {
    if lost.Some? then [lost.value] else []
  }

  predicate WithoutLf(lost: Option<Text>, frame: seq<Text>) {
    (forall line :: line in frame ==> LF !in line) && (lost.Some? ==> LF !in lost.value)
  }

  lemma RecordedFrame(frame: seq<Text>)
    ensures var data := Joined(Values(frame, DATA));
            Dispatch(RECORDER, frame) ==
            if data == [] then Ok(None) else Ok(Some(Handed(Kind(frame), OwnId(frame), TrimNewlines(data))))
  {
    hide Values, WithoutNul, Joined, TrimNewlines, Kind;
  }

  lemma {:induction false} ValuesPrepend(line: Text, frame: seq<Text>, name: Text)
    ensures Values([line] + frame, name) ==
            (if Name(line) == name then [Value(line)] else []) + Values(frame, name)
    decreases |frame|
  {
    hide Name, Value;
    if frame == [] {
      assert [line] + frame == [line] && [line][..0] == [];
      assert Values([line][..0], name) == [];
    } else {
      var init := frame[..|frame| - 1];
      assert ([line] + frame)[..|frame|] == [line] + init;
      ValuesPrepend(line, init, name);
    }
  }

  lemma {:induction false} JoinedPrepend(value: Text, values: seq<Text>)
    ensures Joined([value] + values) == value + [LF] + Joined(values)
    decreases |values|
  {
    if values == [] {
      assert [value] + values == [value] && [value][..0] == [];
      assert Joined([value][..0]) == [];
    } else {
      var init := values[..|values| - 1];
      assert ([value] + values)[..|values|] == [value] + init;
      JoinedPrepend(value, init);
    }
  }

  lemma {:induction false} WithoutNulPrepend(value: Text, values: seq<Text>)
    ensures WithoutNul([value] + values) == (if 0 in value then [] else [value]) + WithoutNul(values)
    decreases |values|
  {
    if values == [] {
      assert [value] + values == [value] && [value][..0] == [];
      assert WithoutNul([value][..0]) == [];
    } else {
      var init := values[..|values| - 1];
      assert ([value] + values)[..|values|] == [value] + init;
      WithoutNulPrepend(value, init);
    }
  }

  lemma LeadingId(lost: Text, frame: seq<Text>)
    ensures OwnId([lost] + frame) ==
            if OwnId(frame).Some? || Name(lost) != ID || 0 in Value(lost) then OwnId(frame) else Some(Value(lost))
  {
    ValuesPrepend(lost, frame, ID);
    var values := Values(frame, ID);
    WithoutNulPrepend(Value(lost), values);
    hide Values, WithoutNul, Name, Value;
    assert [] + values == values && [] + WithoutNul(values) == WithoutNul(values);
  }

  lemma LeadingKind(lost: Text, frame: seq<Text>)
    ensures Kind([lost] + frame) ==
            if Values(frame, EVENT) != [] || Name(lost) != EVENT then Kind(frame) else Value(lost)
  {
    ValuesPrepend(lost, frame, EVENT);
    hide Values, Name, Value;
    assert [] + Values(frame, EVENT) == Values(frame, EVENT);
  }

  // A value in front of all data agrees only if it is empty before a single empty one.
  lemma LeadingData(value: Text, values: seq<Text>)
    requires values != [] && LF !in value
    ensures TrimNewlines(Joined([value] + values)) == TrimOneNewline(Joined(values)) <==>
      value == [] && values == [[]]
  {
    var data := Joined(values);
    JoinedEndsInNewline(values);
    JoinedPrepend(value, values);
    OnlyNewline(values);
    hide Joined;
    var all := value + [LF] + data;
    assert all[|all| - 1] == LF && all[..|all| - 1] == value + [LF] + data[..|data| - 1];
    if |data| > 1 {
      assert (value + [LF] + data)[|all| - 2] == data[|data| - 2];
      if data[|data| - 2] == LF {
        TrimNewlinesEndsPlain(all);
        assert data[..|data| - 1][|data| - 2] == LF;
      } else {
        assert TrimNewlines(all) == all[..|all| - 1];
      }
    } else {
      assert data == [LF] && all == value + [LF] + [LF];
      assert all[..|all| - 1] == value + [LF] && (value + [LF])[..|value|] == value;
      assert TrimNewlines(all) == TrimNewlines(value + [LF]) == TrimNewlines(value) == value;
    }
  }

  lemma {:induction false} TrimNewlinesEndsPlain(data: Text)
    ensures var r := TrimNewlines(data); r == [] || r[|r| - 1] != LF
    decreases |data|
  {
    if data != [] && data[|data| - 1] == LF {
      TrimNewlinesEndsPlain(data[..|data| - 1]);
    }
  }

  lemma OnlyNewline(values: seq<Text>)
    ensures Joined(values) == [LF] <==> values == [[]]
  {
    if values != [] {
      var init, last := values[..|values| - 1], values[|values| - 1];
      JoinedEndsInNewline(init);
      assert |Joined(values)| == |Joined(init)| + |last| + 1;
      if Joined(values) == [LF] {
        assert init == [] && last == [];
        assert values == [last];
      }
      if values == [[]] {
        assert init == [];
        assert Joined(values) == [] + last + [LF];
      }
    }
  }

  // What a frame hands on when a line was lost, from what it hands on otherwise.
  lemma LeadingLine(lost: Text, frame: seq<Text>)
    requires LF !in lost && forall line :: line in frame ==> LF !in line
    ensures var values := Values(frame, DATA);
            && Values([lost] + frame, DATA) == (if Name(lost) == DATA then [Value(lost)] else []) + values
            && (Joined(Values([lost] + frame, DATA)) == [] <==> Name(lost) != DATA && values == [])
  {
    ValuesPrepend(lost, frame, DATA);
    ValuesLackNewlines(frame, DATA);
    hide Values, Name, Value;
    var values := Values(frame, DATA);
    if Name(lost) == DATA {
      JoinedPrepend(Value(lost), values);
    } else {
      assert [] + values == values;
    }
    hide Joined;
  }

  lemma NamesDiffer()
    ensures DATA != ID && DATA != EVENT && ID != EVENT
  {
    assert |DATA| == 4 && |ID| == 2 && |EVENT| == 5;
  }

  /** A frame hands on the standard's message, or like the standard none, if and only if it
      conforms. */
  lemma FrameIsStandardExactlyWhenConforming(last: Text, lost: Option<Text>, frame: seq<Text>)
    requires WithoutLf(lost, frame) && (lost.Some? ==> last == [])
    ensures var ours, theirs := Dispatch(RECORDER, Lead(lost) + frame), Announced(last, frame);
            && ours.Ok?
            && (theirs.Some? ==> ours.value.Some?)
            && (lost.None? ==> (ours.value.Some? <==> theirs.Some?))
            && (ToldIfAny(ours.value) == theirs <==> FrameConforms(last, lost, frame))
  {
    hide Values, Joined, TrimNewlines, TrimOneNewline, EmptyAfterAnother, Kind, OwnId, Dispatch, RECORDER, Name, Value;
    FrameData(frame);
    RecordedFrame(Lead(lost) + frame);
    if lost.None? {
      assert [] + frame == frame;
    } else {
      NamesDiffer();
      LeadingLine(lost.value, frame);
      LeadingKind(lost.value, frame);
      LeadingId(lost.value, frame);
      var values := Values(frame, DATA);
      if Name(lost.value) == DATA {
        if values != [] {
          ValueLacks(lost.value);
          LeadingData(Value(lost.value), values);
        }
      } else {
        assert [] + values == values;
        NoKind(frame);
      }
    }
  }

  lemma NoKind(frame: seq<Text>)
    ensures Values(frame, EVENT) == [] ==> Kind(frame) == []
  {}

  // --- decoding and line ends ---

  lemma {:induction false} FirstLfOf(raw: Text, rest: seq<byte>)
    requires LF !in raw
    ensures FirstLf(raw + [LF] + rest) == |raw|
    decreases |raw|
  {
    var all := raw + [LF] + rest;
    if raw != [] {
      FirstLfOf(raw[1..], rest);
      assert all[1..] == raw[1..] + [LF] + rest;
    }
  }

  lemma LineParts(raw: Text, rest: seq<byte>)
    requires LF !in raw
    ensures var all := raw + [LF] + rest;
            FirstLf(all) == |raw| < |all| && all[..|raw|] == raw && all[|raw| + 1..] == rest
  {
    FirstLfOf(raw, rest);
    hide FirstLf;
  }

  lemma InterpretLine(last: Text, frame: seq<Text>, line: Text, rest: Text)
    requires LF !in line
    ensures Interpret(last, frame, line + [LF] + rest) ==
            if line != [] then Interpret(last, frame + [line], rest)
            else Listed(Announced(last, frame)) + Interpret(IdInForce(last, frame), [], rest)
  {
    LineParts(line, rest);
    hide FirstLf, Announced, IdInForce;
  }

  lemma InterpretTail(last: Text, frame: seq<Text>, tail: Text)
    requires LF !in tail
    ensures Interpret(last, frame, tail) == []
  {}

  // The lines of decoded bytes are the decoded lines of the bytes.
  lemma LossyLine(bytes: seq<byte>)
    ensures var k := FirstLf(bytes);
            if k == |bytes| then LF !in Utf8.Lossy(bytes)
            else && Utf8.Lossy(bytes) == Utf8.Lossy(bytes[..k]) + [LF] + Utf8.Lossy(bytes[k + 1..])
                 && LF !in bytes[..k] && LF !in Utf8.Lossy(bytes[..k])
  {
    var k := FirstLf(bytes);
    hide FirstLf, Utf8.Lossy;
    assert bytes[..|bytes|] == bytes;
    Utf8.LossyLacks(bytes[..k], LF);
    if k < |bytes| {
      SplitAt(bytes, k, LF);
      assert bytes == bytes[..k] + [LF] + bytes[k + 1..];
      Utf8.LossySplitsAtAscii(bytes[..k], LF, bytes[k + 1..]);
    }
  }

  // A character without line ends in front stays as it is.
  lemma {:induction false} NormalizedPrefix(afterCr: bool, c: Text, rest: Text)
    requires c != [] && LF !in c && CR !in c
    ensures Normalized(afterCr, c + rest) == c + Normalized(false, rest)
    decreases |c|
  {
    assert (c + rest)[0] == c[0] && (c + rest)[1..] == c[1..] + rest;
    if |c| == 1 {
      assert c[1..] + rest == rest && c == [c[0]];
    } else {
      NormalizedPrefix(false, c[1..], rest);
      assert c == [c[0]] + c[1..];
    }
  }

  // An ill-formed beginning is the same whatever becomes of the line end behind it.
  lemma BadStands(t: Text, rest: Text)
    requires t != [] && Utf8.CharSize(t) == 0
    requires var after := t[Utf8.BadSize(t)..];
             && (after == [] <==> rest == [])
             && (after != [] ==> rest[0] == after[0] || (rest[0] == LF && after[0] == CR))
    ensures var n := Utf8.BadSize(t);
            var all := t[..n] + rest;
            Utf8.Taken(all) == n && Utf8.Piece(all) == Utf8.REPLACEMENT && all[n..] == rest
  {
    var n := Utf8.BadSize(t);
    var all := t[..n] + rest;
    assert all[0] == t[0] && (n < |t| ==> t[n..][0] == t[n]);
    assert n < |all| ==> all[n] == rest[0];
    assert forall i :: 0 <= i < n ==> all[i] == t[i];
    assert Utf8.CharSize(all) == 0 && Utf8.BadSize(all) == n;
  }

  lemma NormalizedHead(t: Text)
    ensures Normalized(false, t) == [] <==> t == []
    ensures t != [] ==> Normalized(false, t)[0] == if t[0] == CR then LF else t[0]
  {}

  // Line ends may as well be made LF before decoding.
  lemma {:induction false} NormalizedDecodes(afterCr: bool, t: Text)
    ensures Normalized(afterCr, Utf8.Lossy(t)) == Utf8.Lossy(Normalized(afterCr, t))
    decreases |t|
  {
    if t != [] {
      if t[0] < 0x80 {
        AsciiNormalizes(afterCr, t[0], t[1..]);
        assert t == [t[0]] + t[1..];
      } else {
        WideNormalizes(afterCr, t);
      }
    }
  }

  lemma WideNormalizes(afterCr: bool, t: Text)
    requires t != [] && t[0] >= 0x80
    ensures Normalized(afterCr, Utf8.Lossy(t)) == Utf8.Lossy(Normalized(afterCr, t))
    decreases |t|, 0
  {
    hide Utf8.Lossy, Utf8.CharSize, Utf8.BadSize, Utf8.Piece, Normalized;
    var n := Utf8.Taken(t);
    var c, rest := t[..n], t[n..];
    NormalizedDecodes(false, rest);
    Utf8.LossyStep(t);
    WideTaken(t);
    assert t == c + rest;
    NormalizedPrefix(afterCr, c, rest);
    NormalizedPrefix(afterCr, Utf8.Piece(t), Utf8.Lossy(rest));
    NormalizedHead(rest);
    WideStands(t, Normalized(false, rest));
    Utf8.LossyStep(c + Normalized(false, rest));
  }

  lemma WideTaken(t: Text)
    requires t != [] && t[0] >= 0x80
    ensures LF !in t[..Utf8.Taken(t)] && CR !in t[..Utf8.Taken(t)]
    ensures Utf8.Piece(t) != [] && LF !in Utf8.Piece(t) && CR !in Utf8.Piece(t)
  {}

  lemma WideStands(t: Text, rest: Text)
    requires t != []
    requires var after := t[Utf8.Taken(t)..];
             && (after == [] <==> rest == [])
             && (after != [] ==> rest[0] == if after[0] == CR then LF else after[0])
    ensures var n := Utf8.Taken(t);
            var all := t[..n] + rest;
            all != [] && Utf8.Taken(all) == n && Utf8.Piece(all) == Utf8.Piece(t) && all[n..] == rest
  {
    if Utf8.CharSize(t) > 0 {
      var c := t[..Utf8.CharSize(t)];
      assert Utf8.CharSize(c) == |c|;
      Utf8.CharStands(c, rest);
    } else {
      BadStands(t, rest);
    }
  }

  lemma AsciiNormalizes(afterCr: bool, b: byte, rest: Text)
    requires b < 0x80
    ensures Normalized(afterCr, Utf8.Lossy([b] + rest)) == Utf8.Lossy(Normalized(afterCr, [b] + rest))
    decreases |rest| + 1, 0
  {
    Utf8.AsciiFirst(b, rest);
    assert ([b] + rest)[1..] == rest && ([b] + Utf8.Lossy(rest))[1..] == Utf8.Lossy(rest);
    NormalizedDecodes(false, rest);
    NormalizedDecodes(true, rest);
    Utf8.AsciiFirst(LF, Normalized(true, rest));
    Utf8.AsciiFirst(b, Normalized(false, rest));
    hide Utf8.Lossy;
  }

  lemma NormalizedBom(bytes: seq<byte>)
    requires Utf8.BOM <= Normalized(false, bytes)
    ensures Utf8.BOM <= bytes
  {
    var normal := Normalized(false, bytes);
    BomBytes(normal);
    assert bytes[0] == 0xEF;
    assert normal[1..] == Normalized(false, bytes[1..]) && bytes[1..][0] == 0xBB;
    assert normal[1..][1..] == Normalized(false, bytes[1..][1..]) && bytes[1..][1..][0] == 0xBF;
    BomBytes(bytes);
  }

  // The mark is dropped from the first line.
  lemma NormalizedTrims(bytes: seq<byte>)
    ensures Normalized(false, TrimOneBom(bytes)) == TrimOneBom(Normalized(false, bytes))
  {
    if Utf8.BOM <= bytes {
      BomBytes(bytes);
      NormalizedPrefix(false, Utf8.BOM, bytes[3..]);
    } else if Utf8.BOM <= Normalized(false, bytes) {
      NormalizedBom(bytes);
    }
    hide Normalized;
  }

  /** The standard decodes first and finds the lines then; finding the lines first is the same. */
  lemma StandardByLines(bytes: seq<byte>)
    ensures Standard(bytes) == Interpret([], [], Utf8.Lossy(TrimOneBom(Normalized(false, bytes))))
  {
    NormalizedTrims(bytes);
    NormalizedDecodes(false, TrimOneBom(bytes));
    hide Interpret, Utf8.Lossy, TrimOneBom, Normalized;
  }

  // --- whole streams ---

  // Bytes with LF line ends, after a first line: every line is well-formed, every frame and the
  // unterminated rest take at most MAX_FRAME bytes, and every frame conforms to the id in force.
  predicate Conforms(last: Text, lost: Option<Text>, frame: seq<Text>, size: nat, bytes: seq<byte>)
    decreases |bytes|, 0
  {
    var k := FirstLf(bytes);
    if k == |bytes| then size + k <= MAX_FRAME
    else ConformsLine(last, lost, frame, size, bytes[..k], bytes[k + 1..])
  }

  predicate ConformsLine(last: Text, lost: Option<Text>, frame: seq<Text>, size: nat, raw: Text, rest: seq<byte>)
    decreases |rest|, 1
  {
    && size + |raw| + 1 <= MAX_FRAME
    && Utf8.Valid(raw)
    && (if raw != [] then Conforms(last, lost, frame + [raw], size + |raw| + 1, rest)
        else FrameConforms(last, lost, frame) && Conforms(IdInForce(last, frame), None, [], 0, rest))
  }

  // The whole stream: a first line behind two byte order marks is lost to the standard.
  predicate StreamConforms(bytes: seq<byte>) {
    var k := FirstLf(bytes);
    if k == |bytes| then k <= MAX_FRAME
    else
      var raw, rest := bytes[..k], bytes[k + 1..];
      var line := TrimBom(raw);
      && k + 1 <= MAX_FRAME
      && Utf8.Valid(raw)
      && (if line == [] then Conforms([], None, [], 0, rest)
          else if DoubleBom(raw) then Conforms([], Some(line), [], k + 1, rest)
          else Conforms([], None, [line], k + 1, rest))
  }

  lemma TellingAppends(event: Option<Handed>, later: seq<Handed>)
    ensures AllTold(Listed(event) + later) == Listed(ToldIfAny(event)) + AllTold(later)
    ensures |AllTold(Listed(event) + later)| == |Listed(event)| + |AllTold(later)|
  {
    if event.Some? {
      assert (Listed(event) + later)[1..] == later;
    } else {
      assert Listed(event) + later == later;
    }
  }

  lemma {:induction false} TellingKeepsCount(events: seq<Handed>)
    ensures |AllTold(events)| == |events|
  {
    if events != [] {
      TellingKeepsCount(events[1..]);
    }
  }

  // The decoder after a line that it can use.
  lemma ReferenceGoesOn(frame: seq<Text>, size: nat, raw: Text, rest: seq<byte>)
    requires size + |raw| + 1 <= MAX_FRAME && Utf8.Valid(raw)
    ensures var later := Reference(RECORDER, [], 0, false, rest);
            AfterReference(RECORDER, frame, size, false, raw, rest) ==
            if raw != [] then Reference(RECORDER, frame + [raw], size + |raw| + 1, false, rest)
            else Outcome(Listed(Dispatch(RECORDER, frame).value) + later.events, later.failed)
    ensures Dispatch(RECORDER, frame).Ok?
  {
    RecordedFrame(frame);
    hide Reference, Values, Joined, Utf8.Valid;
    var later := Reference(RECORDER, [], 0, false, rest);
    assert [] + later.events == later.events;
  }

  // As long as nothing fails and no line is lost, both dispatch the same number of events.
  lemma {:induction false} SameCount(last: Text, frame: seq<Text>, size: nat, bytes: seq<byte>)
    requires forall line :: line in frame ==> LF !in line
    ensures var heard := Reference(RECORDER, frame, size, false, bytes);
            heard.failed || |heard.events| == |Interpret(last, frame, Utf8.Lossy(bytes))|
    decreases |bytes|
  {
    var k := FirstLf(bytes);
    ReferenceLine(RECORDER, frame, size, false, bytes);
    LossyLine(bytes);
    hide Reference, FirstLf, Utf8.Lossy, Utf8.Valid, AfterReference, Interpret, Announced, IdInForce;
    if k == |bytes| {
      InterpretTail(last, frame, Utf8.Lossy(bytes));
    } else if size + k + 1 <= MAX_FRAME && Utf8.Valid(bytes[..k]) {
      var raw, rest := bytes[..k], bytes[k + 1..];
      Utf8.LossyKeepsExactlyValid(raw);
      InterpretLine(last, frame, raw, Utf8.Lossy(rest));
      ReferenceGoesOn(frame, size, raw, rest);
      if raw != [] {
        SameCount(last, frame + [raw], size + k + 1, rest);
      } else {
        SameCount(IdInForce(last, frame), [], 0, rest);
        FrameIsStandardExactlyWhenConforming(last, None, frame);
        assert Lead(None) + frame == frame;
        hide FrameConforms, Dispatch;
      }
    } else {
      BadReference(frame, size, bytes[..k], bytes[k + 1..]);
    }
  }

  lemma BadReference(frame: seq<Text>, size: nat, raw: Text, rest: seq<byte>)
    requires size + |raw| + 1 > MAX_FRAME || !Utf8.Valid(raw)
    ensures AfterReference(RECORDER, frame, size, false, raw, rest) == Outcome([], true)
  {
    hide Utf8.Valid;
  }

  // After a blank line both agree if and only if the frame conforms and they agree from there on.
  lemma BlankLinesAgree(
      ours: Option<Handed>, theirs: Option<Message>, later: Outcome<Handed>, messages: seq<Message>)
    requires theirs.Some? ==> ours.Some?
    requires later.failed || |later.events| == |messages|
    ensures Agree(Outcome(Listed(ours) + later.events, later.failed), Listed(theirs) + messages) <==>
      ToldIfAny(ours) == theirs && Agree(later, messages)
  {
    TellingAppends(ours, later.events);
    TellingKeepsCount(later.events);
    if theirs.Some? {
      SameListsExactly(Told(ours.value), AllTold(later.events), theirs.value, messages);
    } else {
      assert Listed(theirs) + messages == messages;
      if ours.Some? && !later.failed {
        assert |Listed(ToldIfAny(ours)) + AllTold(later.events)| == 1 + |messages|;
      } else {
        assert Listed(ToldIfAny(ours)) + AllTold(later.events) == AllTold(later.events) || ours.Some?;
      }
    }
  }

  lemma SameListsExactly<T>(a: T, x: seq<T>, b: T, y: seq<T>)
    ensures [a] + x == [b] + y <==> a == b && x == y
  {
    assert ([a] + x)[0] == a && ([a] + x)[1..] == x;
    assert ([b] + y)[0] == b && ([b] + y)[1..] == y;
  }

  lemma {:induction false} AgreeExactlyWhenConforming(
      last: Text, lost: Option<Text>, frame: seq<Text>, size: nat, bytes: seq<byte>)
    requires WithoutLf(lost, frame) && (lost.Some? ==> last == [])
    ensures Agree(Reference(RECORDER, Lead(lost) + frame, size, false, bytes),
                  Interpret(last, frame, Utf8.Lossy(bytes)))
      <==> Conforms(last, lost, frame, size, bytes)
    decreases |bytes|, 1
  {
    var k := FirstLf(bytes);
    ReferenceLine(RECORDER, Lead(lost) + frame, size, false, bytes);
    LossyLine(bytes);
    assert k < |bytes| ==> Conforms(last, lost, frame, size, bytes) ==
                           ConformsLine(last, lost, frame, size, bytes[..k], bytes[k + 1..]);
    hide Reference, FirstLf, Utf8.Lossy, Utf8.Valid, AfterReference, Interpret;
    if k == |bytes| {
      InterpretTail(last, frame, Utf8.Lossy(bytes));
    } else {
      var raw, rest := bytes[..k], bytes[k + 1..];
      if size + k + 1 <= MAX_FRAME && Utf8.Valid(raw) {
        Utf8.LossyKeepsExactlyValid(raw);
        hide Conforms;
        LineAgrees(last, lost, frame, size, raw, rest);
      } else {
        BadReference(Lead(lost) + frame, size, raw, rest);
      }
    }
  }

  lemma {:induction false} LineAgrees(
      last: Text, lost: Option<Text>, frame: seq<Text>, size: nat, raw: Text, rest: seq<byte>)
    requires WithoutLf(lost, frame) && (lost.Some? ==> last == []) && LF !in raw
    requires size + |raw| + 1 <= MAX_FRAME && Utf8.Valid(raw)
    ensures Agree(AfterReference(RECORDER, Lead(lost) + frame, size, false, raw, rest),
                  Interpret(last, frame, raw + [LF] + Utf8.Lossy(rest)))
      <==> ConformsLine(last, lost, frame, size, raw, rest)
    decreases |rest|, 2
  {
    hide Reference, Utf8.Lossy, Utf8.Valid, AfterReference, Interpret, Announced, IdInForce, Conforms, Dispatch,
         FrameConforms;
    InterpretLine(last, frame, raw, Utf8.Lossy(rest));
    ReferenceGoesOn(Lead(lost) + frame, size, raw, rest);
    if raw != [] {
      assert Lead(lost) + frame + [raw] == Lead(lost) + (frame + [raw]);
      AgreeExactlyWhenConforming(last, lost, frame + [raw], size + |raw| + 1, rest);
    } else {
      var id := IdInForce(last, frame);
      assert Lead(None) + [] == [];
      AgreeExactlyWhenConforming(id, None, [], 0, rest);
      SameCount(id, [], 0, rest);
      FrameIsStandardExactlyWhenConforming(last, lost, frame);
      hide Lead;
      BlankLinesAgree(
        Dispatch(RECORDER, Lead(lost) + frame).value, Announced(last, frame),
        Reference(RECORDER, [], 0, false, rest), Interpret(id, [], Utf8.Lossy(rest)));
      hide Agree;
    }
  }

  // A line that is no field of an event changes nothing for the standard.
  lemma {:induction false} IgnoredLine(last: Text, line: Text, frame: seq<Text>, text: Text)
    requires Name(line) != EVENT && Name(line) != ID && Name(line) != DATA
    ensures Interpret(last, [line] + frame, text) == Interpret(last, frame, text)
    decreases |text|
  {
    var k := FirstLf(text);
    if k < |text| {
      hide FirstLf, Announced, IdInForce, Name;
      if k > 0 {
        assert [line] + frame + [text[..k]] == [line] + (frame + [text[..k]]);
        IgnoredLine(last, line, frame + [text[..k]], text[k + 1..]);
      } else {
        IgnoredInFrame(last, line, frame);
      }
    }
  }

  lemma IgnoredInFrame(last: Text, line: Text, frame: seq<Text>)
    requires Name(line) != EVENT && Name(line) != ID && Name(line) != DATA
    ensures Announced(last, [line] + frame) == Announced(last, frame)
    ensures IdInForce(last, [line] + frame) == IdInForce(last, frame)
  {
    ValuesPrepend(line, frame, DATA);
    LeadingKind(line, frame);
    LeadingId(line, frame);
    hide Values, OwnId, Kind, Name;
    assert [] + Values(frame, DATA) == Values(frame, DATA);
  }

  // A line that still has a mark in front is no field.
  lemma MarkedIsNoField(line: Text)
    requires Utf8.BOM <= line
    ensures Name(line) != EVENT && Name(line) != ID && Name(line) != DATA
  {
    BomBytes(line);
    assert line[0] == 0xEF && line[0] != COLON;
    assert Name(line) != [] && Name(line)[0] == 0xEF;
  }

  lemma EmptyFrame()
    ensures Dispatch(RECORDER, []) == Ok(None) && Announced([], []) == None && IdInForce([], []) == []
  {}

  // The first line, as each of the two reads it.
  lemma FirstLineTrims(raw: Text)
    requires LF !in raw && Utf8.Valid(raw)
    ensures Utf8.Lossy(TrimOneBom(raw)) == TrimOneBom(raw)
    ensures LF !in TrimBom(raw) && LF !in TrimOneBom(raw)
    ensures if DoubleBom(raw) then Utf8.BOM <= TrimOneBom(raw) else TrimOneBom(raw) == TrimBom(raw)
  {
    FirstLineIsStandardExactlyUnlessDoubled(raw);
    TrimBomIsSuffix(raw);
    BomBytes(raw);
    Utf8.BomFirst(TrimOneBom(raw));
    Utf8.LossyKeepsExactlyValid(TrimOneBom(raw));
    hide Utf8.Lossy, Utf8.Valid, TrimBom;
  }

  // The mark is in the first line, if anywhere.
  lemma TrimOneBomOfLine(raw: Text, rest: seq<byte>)
    requires LF !in raw
    ensures TrimOneBom(raw + [LF] + rest) == TrimOneBom(raw) + [LF] + rest
  {
    var all := raw + [LF] + rest;
    BomBytes(raw);
    BomBytes(all);
    if |raw| < 3 {
      assert all[|raw|] == LF;
    } else {
      assert all[3..] == raw[3..] + [LF] + rest;
    }
  }

  // The standard after a first line that decodes to itself.
  lemma StandardFirstLine(raw: Text, rest: seq<byte>)
    requires LF !in raw && Utf8.Valid(raw)
    ensures var line := TrimBom(raw);
            Interpret([], [], Utf8.Lossy(TrimOneBom(raw + [LF] + rest))) ==
            Interpret([], if line == [] || DoubleBom(raw) then [] else [line], Utf8.Lossy(rest))
  {
    var theirs, text := TrimOneBom(raw), Utf8.Lossy(rest);
    FirstLineTrims(raw);
    TrimOneBomOfLine(raw, rest);
    Utf8.LossySplitsAtAscii(theirs, LF, rest);
    InterpretLine([], [], theirs, text);
    EmptyFrame();
    hide Utf8.Lossy, Utf8.Valid, TrimBom, Interpret, Announced, IdInForce, TrimOneBom, DoubleBom;
    if DoubleBom(raw) {
      MarkedIsNoField(theirs);
      IgnoredLine([], theirs, [], text);
      assert [theirs] + [] == [] + [theirs];
    } else {
      assert [] + [theirs] == [theirs];
      assert Listed<Message>(None) + Interpret([], [], text) == Interpret([], [], text);
    }
  }

  // The decoder after such a line.
  lemma OurFirstLine(raw: Text, rest: seq<byte>)
    requires |raw| + 1 <= MAX_FRAME && Utf8.Valid(raw)
    ensures var line := TrimBom(raw);
            AfterReference(RECORDER, [], 0, true, raw, rest) ==
            if line == [] then Reference(RECORDER, [], 0, false, rest)
            else Reference(RECORDER, [line], |raw| + 1, false, rest)
  {
    EmptyFrame();
    assert [] + [TrimBom(raw)] == [TrimBom(raw)];
    hide Reference, Utf8.Valid, TrimBom, Dispatch;
  }

  lemma FirstLineAgrees(raw: Text, rest: seq<byte>)
    requires LF !in raw && |raw| + 1 <= MAX_FRAME && Utf8.Valid(raw)
    ensures var line := TrimBom(raw);
            Agree(AfterReference(RECORDER, [], 0, true, raw, rest),
                  Interpret([], [], Utf8.Lossy(TrimOneBom(raw + [LF] + rest))))
            <==> (if line == [] then Conforms([], None, [], 0, rest)
                  else if DoubleBom(raw) then Conforms([], Some(line), [], |raw| + 1, rest)
                  else Conforms([], None, [line], |raw| + 1, rest))
  {
    var line := TrimBom(raw);
    StandardFirstLine(raw, rest);
    OurFirstLine(raw, rest);
    FirstLineTrims(raw);
    hide Utf8.Lossy, Utf8.Valid, TrimBom, Interpret, TrimOneBom, DoubleBom, AfterReference, Reference, Conforms, Agree;
    assert Lead(None) + [] == [] && Lead(Some(line)) + [] == [line] && Lead(None) + [line] == [line];
    if line == [] {
      AgreeExactlyWhenConforming([], None, [], 0, rest);
    } else if DoubleBom(raw) {
      AgreeExactlyWhenConforming([], Some(line), [], |raw| + 1, rest);
    } else {
      AgreeExactlyWhenConforming([], None, [line], |raw| + 1, rest);
    }
  }

  lemma LinesAgreeExactlyWhenConforming(bytes: seq<byte>)
    ensures Agree(Reference(RECORDER, [], 0, true, bytes), Interpret([], [], Utf8.Lossy(TrimOneBom(bytes))))
      <==> StreamConforms(bytes)
  {
    hide Reference, FirstLf, Utf8.Lossy, Utf8.Valid, TrimBom, Interpret, TrimOneBom, DoubleBom, Conforms, RECORDER,
         AfterReference;
    var k := FirstLf(bytes);
    ReferenceLine(RECORDER, [], 0, true, bytes);
    if k == |bytes| {
      assert bytes[..k] == bytes;
      UnterminatedOnly(bytes);
    } else {
      var raw, rest := bytes[..k], bytes[k + 1..];
      SplitAt(bytes, k, LF);
      assert bytes == raw + [LF] + rest && LF !in raw;
      if k + 1 <= MAX_FRAME && Utf8.Valid(raw) {
        FirstLineAgrees(raw, rest);
        hide Agree;
      } else {
        BadFirstLine(raw, rest);
      }
    }
  }

  lemma UnterminatedOnly(bytes: seq<byte>)
    requires LF !in bytes
    ensures Interpret([], [], Utf8.Lossy(TrimOneBom(bytes))) == []
  {
    Utf8.LossyLacks(TrimOneBom(bytes), LF);
    InterpretTail([], [], Utf8.Lossy(TrimOneBom(bytes)));
    hide Utf8.Lossy, Interpret;
  }

  lemma BadFirstLine(raw: Text, rest: seq<byte>)
    requires |raw| + 1 > MAX_FRAME || !Utf8.Valid(raw)
    ensures AfterReference(RECORDER, [], 0, true, raw, rest) == Outcome([], true)
  {
    hide Utf8.Valid, TrimBom;
  }

  /** For every stream: the decoder hands on exactly the standard's events, and does not fail, if
      and only if the stream conforms; and every profile decodes what is handed on. */
  lemma StreamIsStandardExactlyWhenConforming<E>(profile: Profile<E>, bytes: seq<byte>)
    ensures var heard := Run(RECORDER, INITIAL, bytes);
            && (!heard.failed && AllTold(heard.events) == Standard(bytes) <==>
                StreamConforms(Normalized(false, bytes)))
            && Run(profile, INITIAL, bytes) == Replay(profile, heard)
  {
    ParserIsCorrect(RECORDER, bytes);
    StandardByLines(bytes);
    LinesAgreeExactlyWhenConforming(Normalized(false, bytes));
    EveryProfileReplays(profile, INITIAL, bytes);
    hide Run, Reference, Standard, StreamConforms, Normalized, Interpret, Replay, RECORDER;
  }
}
