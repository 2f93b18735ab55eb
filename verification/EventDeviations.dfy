/** For each rule in which the event-stream decoder departs from the WHATWG HTML standard, streams
    that the two read differently. */
module EventDeviations {
  import opened Wrappers
  import opened Bytes
  import opened EventStreams
  import opened EventStandard
  import Utf8

  // --- streams made of frames ---

  // The lines of a frame and its blank line.
  function Block(lines: seq<Text>): Text {
    if lines == [] then [LF] else lines[0] + [LF] + Block(lines[1..])
  }

  function Stream(frames: seq<seq<Text>>): Text {
    if frames == [] then [] else Block(frames[0]) + Stream(frames[1..])
  }

  predicate Ascii(text: Text) {
    forall i :: 0 <= i < |text| ==> text[i] < 0x80
  }

  predicate Plain(line: Text) {
    line != [] && Ascii(line) && LF !in line && CR !in line
  }

  predicate AllPlain(lines: seq<Text>) {
    forall i :: 0 <= i < |lines| ==> Plain(lines[i])
  }

  predicate PlainFrame(lines: seq<Text>) {
    AllPlain(lines) && |Block(lines)| <= MAX_FRAME
  }

  function Dispatched(frames: seq<seq<Text>>): seq<Handed>
    requires forall i :: 0 <= i < |frames| ==> Dispatch(RECORDER, frames[i]).Ok?
  {
    if frames == [] then []
    else Listed(Dispatch(RECORDER, frames[0]).value) + Dispatched(frames[1..])
  }

  function AllAnnounced(last: Text, frames: seq<seq<Text>>): seq<Message>
    decreases |frames|
  {
    if frames == [] then []
    else Listed(Announced(last, frames[0])) + AllAnnounced(IdInForce(last, frames[0]), frames[1..])
  }

  lemma {:induction false} AsciiDecodes(text: Text)
    requires Ascii(text)
    ensures Utf8.Valid(text) && Utf8.Lossy(text) == text
    decreases |text|
  {
    if text != [] {
      AsciiDecodes(text[1..]);
      Utf8.AsciiFirst(text[0], text[1..]);
      assert text == [text[0]] + text[1..];
    }
  }

  lemma {:induction false} TheirBlock(last: Text, frame: seq<Text>, lines: seq<Text>, rest: Text)
    requires forall i :: 0 <= i < |lines| ==> lines[i] != [] && LF !in lines[i]
    ensures Interpret(last, frame, Block(lines) + rest) ==
            Listed(Announced(last, frame + lines)) + Interpret(IdInForce(last, frame + lines), [], rest)
    decreases |lines|
  {
    hide Interpret, Announced, IdInForce;
    if lines == [] {
      assert [] + [LF] + rest == Block(lines) + rest && frame + lines == frame;
      InterpretLine(last, frame, [], rest);
    } else {
      var line := lines[0];
      InterpretLine(last, frame, line, Block(lines[1..]) + rest);
      assert Block(lines) + rest == line + [LF] + (Block(lines[1..]) + rest);
      assert frame + lines == frame + [line] + lines[1..];
      TheirBlock(last, frame + [line], lines[1..], rest);
    }
  }

  // One complete line of the decoder's reading, once the first is over.
  lemma OurLine(frame: seq<Text>, size: nat, line: Text, rest: seq<byte>)
    requires LF !in line && size + |line| + 1 <= MAX_FRAME && Utf8.Valid(line)
    ensures Dispatch(RECORDER, frame).Ok?
    ensures var later := Reference(RECORDER, [], 0, false, rest);
            Reference(RECORDER, frame, size, false, line + [LF] + rest) ==
            if line != [] then Reference(RECORDER, frame + [line], size + |line| + 1, false, rest)
            else Outcome(Listed(Dispatch(RECORDER, frame).value) + later.events, later.failed)
  {
    LineParts(line, rest);
    ReferenceLine(RECORDER, frame, size, false, line + [LF] + rest);
    ReferenceGoesOn(frame, size, line, rest);
    hide Reference, Dispatch, FirstLf, Utf8.Valid, AfterReference;
  }

  lemma {:induction false} OurBlock(frame: seq<Text>, size: nat, lines: seq<Text>, rest: seq<byte>)
    requires AllPlain(lines)
    requires size + |Block(lines)| <= MAX_FRAME
    ensures Dispatch(RECORDER, frame + lines).Ok?
    ensures var later := Reference(RECORDER, [], 0, false, rest);
            Reference(RECORDER, frame, size, false, Block(lines) + rest) ==
            Outcome(Listed(Dispatch(RECORDER, frame + lines).value) + later.events, later.failed)
    decreases |lines|
  {
    hide Reference, Dispatch, RECORDER, Utf8.Valid;
    if lines == [] {
      assert [] + [LF] + rest == Block(lines) + rest && frame + lines == frame;
      AsciiDecodes([]);
      OurLine(frame, size, [], rest);
    } else {
      var line := lines[0];
      AsciiDecodes(line);
      OurLine(frame, size, line, Block(lines[1..]) + rest);
      assert Block(lines) + rest == line + [LF] + (Block(lines[1..]) + rest);
      assert frame + lines == frame + [line] + lines[1..];
      OurBlock(frame + [line], size + |line| + 1, lines[1..], rest);
    }
  }

  lemma {:induction false} ReadFrames(last: Text, frames: seq<seq<Text>>)
    requires forall i :: 0 <= i < |frames| ==> PlainFrame(frames[i])
    ensures forall i :: 0 <= i < |frames| ==> Dispatch(RECORDER, frames[i]).Ok?
    ensures Reference(RECORDER, [], 0, false, Stream(frames)) == Outcome(Dispatched(frames), false)
    ensures Interpret(last, [], Stream(frames)) == AllAnnounced(last, frames)
    decreases |frames|
  {
    if frames != [] {
      var lines, rest := frames[0], Stream(frames[1..]);
      OurBlock([], 0, lines, rest);
      TheirBlock(last, [], lines, rest);
      assert [] + lines == lines;
      hide Reference, Interpret, Dispatch, RECORDER, Announced, IdInForce, Block, Plain;
      ReadFrames(IdInForce(last, lines), frames[1..]);
    }
  }

  lemma {:induction false} BlockBytes(lines: seq<Text>)
    requires AllPlain(lines)
    ensures Ascii(Block(lines)) && CR !in Block(lines)
    decreases |lines|
  {
    if lines != [] {
      BlockBytes(lines[1..]);
    }
  }

  lemma {:induction false} StreamBytes(frames: seq<seq<Text>>)
    requires forall i :: 0 <= i < |frames| ==> PlainFrame(frames[i])
    ensures Ascii(Stream(frames)) && CR !in Stream(frames)
    decreases |frames|
  {
    if frames != [] {
      BlockBytes(frames[0]);
      StreamBytes(frames[1..]);
    }
  }

  lemma {:induction false} NormalizedKeeps(bytes: seq<byte>)
    requires CR !in bytes
    ensures Normalized(false, bytes) == bytes
    decreases |bytes|
  {
    if bytes != [] {
      NormalizedKeeps(bytes[1..]);
      assert bytes == [bytes[0]] + bytes[1..];
    }
  }

  // Without a mark in front the first line is like any other.
  lemma FirstIsNothingSpecial(bytes: seq<byte>)
    requires bytes != [] ==> bytes[0] != 0xEF
    ensures Reference(RECORDER, [], 0, true, bytes) == Reference(RECORDER, [], 0, false, bytes)
    ensures TrimOneBom(bytes) == bytes
  {
    BomBytes(bytes);
    ReferenceLine(RECORDER, [], 0, true, bytes);
    ReferenceLine(RECORDER, [], 0, false, bytes);
    var raw := bytes[..FirstLf(bytes)];
    assert raw != [] ==> raw[0] == bytes[0];
    assert TrimBom(raw) == raw;
    hide Reference, FirstLf, TrimBom, Dispatch, Utf8.Valid;
  }

  // The decoder itself does what the line-wise meaning says.
  lemma DecoderMeans(bytes: seq<byte>)
    requires CR !in bytes
    ensures Run(RECORDER, INITIAL, bytes) == Reference(RECORDER, [], 0, true, bytes)
  {
    NormalizedKeeps(bytes);
    ParserIsCorrect(RECORDER, bytes);
    hide Reference, Run, Normalized;
  }

  // A stream of plain frames, as the decoder reads it and as the standard does.
  lemma PlainStream(frames: seq<seq<Text>>)
    requires forall i :: 0 <= i < |frames| ==> PlainFrame(frames[i])
    ensures forall i :: 0 <= i < |frames| ==> Dispatch(RECORDER, frames[i]).Ok?
    ensures Run(RECORDER, INITIAL, Stream(frames)) == Outcome(Dispatched(frames), false)
    ensures Standard(Stream(frames)) == AllAnnounced([], frames)
  {
    var bytes := Stream(frames);
    StreamBytes(frames);
    ReadFrames([], frames);
    DecoderMeans(bytes);
    FirstIsNothingSpecial(bytes);
    NormalizedKeeps(bytes);
    AsciiDecodes(bytes);
    hide Reference, Run, Interpret, Normalized, Utf8.Lossy, Utf8.Valid, TrimOneBom, Stream, Dispatched, AllAnnounced,
         Dispatch, RECORDER, PlainFrame, IdInForce, Announced;
  }

  lemma TwoFrames(last: Text, a: seq<Text>, b: seq<Text>)
    requires Dispatch(RECORDER, a).Ok? && Dispatch(RECORDER, b).Ok?
    ensures Dispatched([a, b]) == Listed(Dispatch(RECORDER, a).value) + Listed(Dispatch(RECORDER, b).value)
    ensures AllAnnounced(last, [a, b]) == Listed(Announced(last, a)) + Listed(Announced(IdInForce(last, a), b))
  {
    hide Dispatch, Announced, IdInForce, RECORDER;
    assert [a, b][1..] == [b] && [b][1..] == [];
    assert Dispatched([b]) == Listed(Dispatch(RECORDER, b).value) + [];
    assert AllAnnounced(IdInForce(last, a), [b]) == Listed(Announced(IdInForce(last, a), b)) + [];
  }

  lemma StreamOfTwo(a: seq<Text>, b: seq<Text>)
    requires PlainFrame(a) && PlainFrame(b)
    ensures Dispatch(RECORDER, a).Ok? && Dispatch(RECORDER, b).Ok?
    ensures Run(RECORDER, INITIAL, Stream([a, b])) ==
            Outcome(Listed(Dispatch(RECORDER, a).value) + Listed(Dispatch(RECORDER, b).value), false)
    ensures Standard(Stream([a, b])) ==
            Listed(Announced([], a)) + Listed(Announced(IdInForce([], a), b))
  {
    hide Run, Standard, Dispatch, RECORDER, Announced, IdInForce, Stream, PlainFrame, Dispatched, AllAnnounced;
    PlainStream([a, b]);
    assert [a, b][0] == a && [a, b][1] == b;
    TwoFrames([], a, b);
  }

  // --- frames made of fields ---

  lemma {:induction false} FirstColon(name: Text, text: Text)
    requires COLON !in name
    ensures ColonAt(name + [COLON] + text) == |name|
    decreases |name|
  {
    if name != [] {
      FirstColon(name[1..], text);
      assert (name + [COLON] + text)[1..] == name[1..] + [COLON] + text;
    }
  }

  function FieldLine(name: Text, text: Text): Text {
    name + [COLON] + text
  }

  lemma FieldLineReads(name: Text, text: Text)
    requires COLON !in name && (text == [] || text[0] != SPACE)
    ensures Name(FieldLine(name, text)) == name && Value(FieldLine(name, text)) == text
  {
    FirstColon(name, text);
    hide ColonAt;
    assert FieldLine(name, text)[..|name|] == name && FieldLine(name, text)[|name| + 1..] == text;
  }

  // One more line of a frame.
  lemma FrameGrows(frame: seq<Text>, name: Text, text: Text)
    requires COLON !in name && (text == [] || text[0] != SPACE)
    ensures var line := FieldLine(name, text);
            forall field :: Values(frame + [line], field) ==
              if name == field then Values(frame, field) + [text] else Values(frame, field)
  {
    var line := FieldLine(name, text);
    FieldLineReads(name, text);
    hide Values, Name, Value, FieldLine;
    forall field
      ensures Values(frame + [line], field) ==
        if name == field then Values(frame, field) + [text] else Values(frame, field)
    {
      ValuesAppend(frame, line, field);
    }
  }

  // What a frame without kind becomes, told from its values.
  lemma FrameBecomes(last: Text, frame: seq<Text>, data: seq<Text>, ids: seq<Text>)
    requires Values(frame, DATA) == data && Values(frame, ID) == ids && Values(frame, EVENT) == []
    ensures var own := Latest(WithoutNul(ids));
            var id := if own.Some? then own.value else last;
            && IdInForce(last, frame) == id
            && (if Joined(data) == [] then Dispatch(RECORDER, frame) == Ok(None) && Announced(last, frame) == None
                else && Dispatch(RECORDER, frame) == Ok(Some(Handed([], own, TrimNewlines(Joined(data)))))
                     && Announced(last, frame) == Some(Message([], id, TrimOneNewline(Joined(data)))))
  {
    RecordedFrame(frame);
    hide Values, WithoutNul, Joined, TrimNewlines, TrimOneNewline, Dispatch, RECORDER;
  }

  const NO_LINES: seq<Text> := []
  const X: Text := [120]
  const Y: Text := [121]
  const ONE: Text := [49]

  lemma NoValues()
    ensures forall field :: Values(NO_LINES, field) == []
  {}

  lemma OneValue(text: Text)
    ensures Joined([text]) == text + [LF] && Joined([]) == []
    ensures TrimOneNewline(text + [LF]) == text
    ensures text == [] || text[|text| - 1] != LF ==> TrimNewlines(text + [LF]) == text
  {
    hide TrimNewlines;
    JoinedAppends([], text);
    assert [] + [text] == [text];
    NewlineTrimmed(text);
  }

  lemma NewlineTrimmed(text: Text)
    ensures TrimOneNewline(text + [LF]) == text
    ensures text == [] || text[|text| - 1] != LF ==> TrimNewlines(text + [LF]) == text
  {
    var all := text + [LF];
    assert all[..|all| - 1] == text;
    assert TrimNewlines(all) == TrimNewlines(text);
  }

  lemma OneId(id: Text)
    requires 0 !in id
    ensures Latest(WithoutNul([])) == None && Latest(WithoutNul([id])) == Some(id)
  {
    WithoutNulAppends([], id);
    assert [] + [id] == [id];
  }

  // A frame of one data line.
  lemma DataFrame(last: Text, text: Text)
    requires LF !in text && (text == [] || text[0] != SPACE)
    ensures var frame := [FieldLine(DATA, text)];
            && Dispatch(RECORDER, frame) == Ok(Some(Handed([], None, text)))
            && Announced(last, frame) == Some(Message([], last, text))
            && IdInForce(last, frame) == last
  {
    NamesDiffer();
    NoValues();
    OneValue(text);
    OneId(ONE);
    FrameGrows(NO_LINES, DATA, text);
    hide *;
    var frame := [FieldLine(DATA, text)];
    assert NO_LINES + [FieldLine(DATA, text)] == frame && NO_LINES + [text] == [text];
    FrameBecomes(last, frame, [text], []);
  }

  lemma FieldLineIsPlain(name: Text, text: Text)
    requires Ascii(name) && Ascii(text)
    requires LF !in name && CR !in name && LF !in text && CR !in text
    ensures Plain(FieldLine(name, text)) && |FieldLine(name, text)| == |name| + 1 + |text|
  {}

  lemma FieldNames()
    ensures Ascii(DATA) && LF !in DATA && CR !in DATA && COLON !in DATA && |DATA| == 4
    ensures Ascii(ID) && LF !in ID && CR !in ID && COLON !in ID && |ID| == 2
    ensures Ascii(X) && LF !in X && CR !in X && Ascii(Y) && LF !in Y && CR !in Y
    ensures Ascii(ONE) && LF !in ONE && CR !in ONE && 0 !in ONE && |X| == |Y| == |ONE| == 1
  {}

  lemma BlockLength(a: Text, b: Text)
    ensures Block([a]) == a + [LF] + [LF] && Block([a, b]) == a + [LF] + (b + [LF] + [LF])
  {
    assert [a][1..] == [] && [b][1..] == [] && [a, b][1..] == [b];
    assert Block([b]) == b + [LF] + [LF];
  }

  lemma ShortFrames(a: Text, b: Text)
    requires Plain(a) && Plain(b) && |a| <= 100 && |b| <= 100
    ensures PlainFrame([a]) && PlainFrame([a, b])
  {
    BlockLength(a, b);
    hide Plain, Block;
  }

  // --- one rule after the other ---

  lemma EmptyTwice()
    ensures Joined([[], []]) == [LF, LF] && TrimNewlines([LF, LF]) == [] && TrimOneNewline([LF, LF]) == [LF]
  {
    var blank: Text := [];
    var newline: Text := [LF];
    assert [LF, LF][..1] == newline && newline[..0] == blank && TrimNewlines(newline) == blank;
    assert [blank, blank][..1] == [blank] && Joined([blank]) == newline;
  }

  lemma TwoEmptyValues()
    ensures var line := FieldLine(DATA, []);
            && Dispatch(RECORDER, [line, line]) == Ok(Some(Handed([], None, [])))
            && Announced([], [line, line]) == Some(Message([], [], [LF]))
  {
    NamesDiffer();
    EmptyTwice();
    NoValues();
    FieldNames();
    OneId(ONE);
    var line := FieldLine(DATA, []);
    FrameGrows(NO_LINES, DATA, []);
    FrameGrows([line], DATA, []);
    hide *;
    assert NO_LINES + [line] == [line] && [line] + [line] == [line, line];
    var blank: Text := [];
    assert NO_LINES + [blank] == [blank] && [blank] + [blank] == [blank, blank];
    FrameBecomes([], [line, line], [[], []], []);
  }

  /** Two empty data lines: the decoder hands on no data, the standard one newline. */
  lemma EmptyAfterAnotherDiffers()
    ensures var line := FieldLine(DATA, []);
            var bytes := Stream([[line, line]]);
            && Run(RECORDER, INITIAL, bytes) == Outcome([Handed([], None, [])], false)
            && Standard(bytes) == [Message([], [], [LF])]
  {
    var line := FieldLine(DATA, []);
    FieldNames();
    FieldLineIsPlain(DATA, []);
    ShortFrames(line, line);
    TwoEmptyValues();
    hide Run, Standard, Dispatch, RECORDER, Announced, IdInForce, Stream, FieldLine, PlainFrame;
    PlainStream([[line, line]]);
    assert [[line, line]][1..] == [];
  }

  lemma IdFrame()
    ensures var frame := [FieldLine(ID, ONE), FieldLine(DATA, X)];
            && Dispatch(RECORDER, frame) == Ok(Some(Handed([], Some(ONE), X)))
            && Announced([], frame) == Some(Message([], ONE, X))
            && IdInForce([], frame) == ONE
  {
    NamesDiffer();
    NoValues();
    FieldNames();
    OneValue(X);
    OneId(ONE);
    var b, a := FieldLine(ID, ONE), FieldLine(DATA, X);
    assert X[0] != SPACE && ONE[0] != SPACE && X[0] != LF;
    FrameGrows(NO_LINES, ID, ONE);
    FrameGrows([b], DATA, X);
    hide *;
    assert NO_LINES + [b] == [b] && [b] + [a] == [b, a];
    assert NO_LINES + [ONE] == [ONE] && NO_LINES + [X] == [X];
    FrameBecomes([], [b, a], [X], [ONE]);
  }

  /** An id, an event and another event: the decoder forgets the id, the standard keeps it. */
  lemma ForgottenIdDiffers()
    ensures var bytes := Stream([[FieldLine(ID, ONE), FieldLine(DATA, X)], [FieldLine(DATA, Y)]]);
            && Run(RECORDER, INITIAL, bytes) == Outcome([Handed([], Some(ONE), X), Handed([], None, Y)], false)
            && Standard(bytes) == [Message([], ONE, X), Message([], ONE, Y)]
  {
    var b, a, c := FieldLine(ID, ONE), FieldLine(DATA, X), FieldLine(DATA, Y);
    FieldNames();
    FieldLineIsPlain(ID, ONE);
    FieldLineIsPlain(DATA, X);
    FieldLineIsPlain(DATA, Y);
    ShortFrames(b, a);
    ShortFrames(c, c);
    IdFrame();
    DataFrame(ONE, Y);
    hide Run, Standard, Dispatch, RECORDER, Announced, IdInForce, Stream, FieldLine, PlainFrame;
    StreamOfTwo([b, a], [c]);
  }

  // --- marks, ill-formed text and long frames ---

  // A stream of one data line, as the standard reads it.
  lemma StandardDataLine(text: Text)
    requires text != [] && text[0] != SPACE && LF !in text && CR !in text
    ensures Standard(Block([FieldLine(DATA, text)])) == [Message([], [], Utf8.Lossy(text))]
  {
    var line, bytes := FieldLine(DATA, text), Block([FieldLine(DATA, text)]);
    DataLineBytes(text);
    LossyHead(text);
    Utf8.LossyLacks(text, LF);
    FieldLineDecodes(text);
    AsciiDecodes([LF]);
    hide Utf8.Lossy, Utf8.Valid, Interpret, Normalized, FieldLine, Block, TrimOneBom, Reference, Standard;
    Utf8.LossySplitsAtAscii(line, LF, [LF]);
    FirstIsNothingSpecial(bytes);
    NormalizedKeeps(bytes);
    StandardByLines(bytes);
    DecodedDataLine(Utf8.Lossy(text));
  }

  lemma DataLineBytes(text: Text)
    requires LF !in text && CR !in text
    ensures var line := FieldLine(DATA, text);
            var bytes := Block([line]);
            && LF !in line && line != [] && bytes == line + [LF] + [LF] && CR !in bytes && bytes[0] == 100
  {
    var line := FieldLine(DATA, text);
    BlockLength(line, line);
    FieldNames();
    hide Block;
  }

  lemma DecodedDataLine(text: Text)
    requires LF !in text && text != [] && text[0] != SPACE
    ensures Interpret([], [], FieldLine(DATA, text) + [LF] + [LF]) == [Message([], [], text)]
  {
    var line := FieldLine(DATA, text);
    assert LF !in line && line != [];
    assert [LF] == [] + [LF] + [];
    DataFrame([], text);
    hide Interpret, FieldLine, Announced, IdInForce;
    InterpretLine([], [], line, [LF]);
    assert [] + [line] == [line];
    InterpretLine([], [line], [], []);
    InterpretTail([], [], []);
  }

  lemma LossyHead(text: Text)
    requires text != []
    ensures Utf8.Lossy(text) != [] && (text[0] != SPACE ==> Utf8.Lossy(text)[0] != SPACE)
  {
    Utf8.LossyStep(text);
    hide Utf8.Lossy;
  }

  lemma FieldLineDecodes(text: Text)
    ensures Utf8.Lossy(FieldLine(DATA, text)) == FieldLine(DATA, Utf8.Lossy(text))
    ensures Utf8.Valid(FieldLine(DATA, text)) <==> Utf8.Valid(text)
  {
    hide Utf8.Lossy, Utf8.Valid;
    Utf8.AsciiFirst(COLON, text);
    Utf8.AsciiFirst(97, [COLON] + text);
    Utf8.AsciiFirst(116, [97] + ([COLON] + text));
    Utf8.AsciiFirst(97, [116] + ([97] + ([COLON] + text)));
    Utf8.AsciiFirst(100, [97] + ([116] + ([97] + ([COLON] + text))));
    assert FieldLine(DATA, text) == [100] + ([97] + ([116] + ([97] + ([COLON] + text))));
    assert FieldLine(DATA, Utf8.Lossy(text)) == [100] + ([97] + ([116] + ([97] + ([COLON] + Utf8.Lossy(text)))));
  }

  // The decoder on a stream of one data line.
  lemma OurDataLine(text: Text)
    requires LF !in text && CR !in text
    ensures var line := FieldLine(DATA, text);
            Run(RECORDER, INITIAL, Block([line])) == AfterReference(RECORDER, [], 0, false, line, [LF])
  {
    var line := FieldLine(DATA, text);
    DataLineBytes(text);
    hide FieldLine, Block, Run, Reference, AfterReference, RECORDER, FirstLf;
    DecoderMeans(Block([line]));
    FirstIsNothingSpecial(Block([line]));
    LineParts(line, [LF]);
    ReferenceLine(RECORDER, [], 0, false, line + [LF] + [LF]);
  }

  /** Ill-formed UTF-8 in a data line, whatever it is: the decoder fails, the standard replaces it. */
  lemma IllFormedDiffers(text: Text)
    requires text != [] && text[0] != SPACE && LF !in text && CR !in text && !Utf8.Valid(text)
    ensures var bytes := Block([FieldLine(DATA, text)]);
            && Run(RECORDER, INITIAL, bytes) == Outcome([], true)
            && Standard(bytes) == [Message([], [], Utf8.Lossy(text))]
  {
    FieldLineDecodes(text);
    OurDataLine(text);
    StandardDataLine(text);
    hide Utf8.Valid, Run, Standard, Block, FieldLine, RECORDER;
  }

  /** Any data line whose frame is longer than the cap: the decoder fails, the standard hands the
      text on. */
  lemma OversizedDiffers(text: Text)
    requires text != [] && text[0] != SPACE && LF !in text && CR !in text && Utf8.Valid(text)
    requires |DATA| + 1 + |text| + 2 > MAX_FRAME
    ensures var bytes := Block([FieldLine(DATA, text)]);
            && Run(RECORDER, INITIAL, bytes) == Outcome([], true)
            && Standard(bytes) == [Message([], [], text)]
  {
    var line := FieldLine(DATA, text);
    FieldLineDecodes(text);
    OurDataLine(text);
    StandardDataLine(text);
    Utf8.LossyKeepsExactlyValid(text);
    assert |line| == |DATA| + 1 + |text|;
    hide Utf8.Valid, Utf8.Lossy, Run, Standard, Block, FieldLine, Reference;
    if |line| + 1 <= MAX_FRAME {
      ReferenceGoesOn([], 0, line, [LF]);
      BlankTooFar([] + [line], |line| + 1);
    }
  }

  lemma BlankTooFar(frame: seq<Text>, size: nat)
    requires size + 1 > MAX_FRAME
    ensures Reference(RECORDER, frame, size, false, [LF]) == Outcome([], true)
  {
    assert FirstLf([LF]) == 0;
    hide FirstLf, Dispatch;
  }

  /** Two byte order marks before a data line: the decoder sees the field, the standard does not. */
  lemma DoubledBomDiffers()
    ensures var bytes := Utf8.BOM + (Utf8.BOM + Block([FieldLine(DATA, X)]));
            && Run(RECORDER, INITIAL, bytes) == Outcome([Handed([], None, X)], false)
            && Standard(bytes) == []
  {
    var line := FieldLine(DATA, X);
    var raw := Utf8.BOM + (Utf8.BOM + line);
    var bytes := Utf8.BOM + (Utf8.BOM + Block([line]));
    MarkedLine();
    BlockLength(line, line);
    MarkedBytes(line);
    hide Run, Standard, Block, FieldLine, RECORDER, Reference, Interpret, Normalized, TrimBom, TrimOneBom, Utf8.Valid,
         DoubleBom, Utf8.Lossy, FirstLf, AfterReference;
    DecoderMeans(bytes);
    NormalizedKeeps(bytes);
    StandardByLines(bytes);
    StandardFirstLine(raw, [LF]);
    LineParts(raw, [LF]);
    ReferenceLine(RECORDER, [], 0, true, bytes);
    OurFirstLine(raw, [LF]);
    OurLastBlank(line);
    TheirLastBlank();
  }

  lemma MarkedLine()
    ensures var line := FieldLine(DATA, X);
            var raw := Utf8.BOM + (Utf8.BOM + line);
            && line != [] && TrimBom(raw) == line && DoubleBom(raw) && Utf8.Valid(raw)
            && |raw| == 12 && |line| == 6 && LF !in raw && CR !in raw
  {
    var line := FieldLine(DATA, X);
    FieldNames();
    FieldLineIsPlain(DATA, X);
    AsciiDecodes(line);
    assert line[0] == 100 && TrimBom(line) == line;
    hide Utf8.Valid, Utf8.Lossy, FieldLine, TrimBom;
    TrimsMark(line);
    TrimsMark(Utf8.BOM + line);
    Utf8.BomFirst(line);
    Utf8.BomFirst(Utf8.BOM + line);
    MarkedBytes(line);
  }

  lemma TrimsMark(rest: Text)
    ensures TrimBom(Utf8.BOM + rest) == TrimBom(rest)
  {
    assert (Utf8.BOM + rest)[3..] == rest;
  }

  lemma MarkedBytes(line: Text)
    ensures var raw := Utf8.BOM + (Utf8.BOM + line);
            && DoubleBom(raw) && |raw| == |line| + 6
            && Utf8.BOM + (Utf8.BOM + (line + [LF] + [LF])) == raw + [LF] + [LF]
            && (LF !in line ==> LF !in raw)
            && (CR !in line ==> CR !in raw && CR !in raw + [LF] + [LF])
  {
    assert Utf8.BOM + (Utf8.BOM + line) == Utf8.BOM + Utf8.BOM + line;
  }

  lemma OurLastBlank(line: Text)
    requires line == FieldLine(DATA, X)
    ensures Reference(RECORDER, [line], 13, false, [LF]) == Outcome([Handed([], None, X)], false)
  {
    FieldNames();
    DataFrame([], X);
    AsciiDecodes([]);
    assert [LF] == [] + [LF] + [];
    hide Reference, Dispatch, FieldLine, RECORDER, Utf8.Valid;
    OurLine([line], 13, [], []);
    NothingMore();
  }

  lemma NothingMore()
    ensures Reference(RECORDER, [], 0, false, []) == Outcome([], false)
  {}

  lemma TheirLastBlank()
    ensures Interpret([], [], Utf8.Lossy([LF])) == []
  {
    AsciiDecodes([LF]);
    assert [LF] == [] + [LF] + [];
    EmptyFrame();
    InterpretLine([], [], [], []);
    InterpretTail([], [], []);
  }
}
