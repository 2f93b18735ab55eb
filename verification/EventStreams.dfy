/** The event-stream decoder of crates/sandbox-client/src/stream.rs: the byte-wise parser, the
    line-wise meaning it has, and what it keeps in memory. */
module EventStreams {
  import opened Wrappers
  import opened Bytes
  import Utf8

  const MAX_FRAME := 65536
  const LF: byte := 10
  const CR: byte := 13
  const COLON: byte := 58
  const SPACE: byte := 32

  // The JSON profile of one event (its kind, id and data), and which events end the stream, left
  // uninterpreted.
  datatype Profile<!E> = Profile(decode: (Text, Option<Text>, Text) -> Option<E>, terminal: E -> bool)

  datatype Parser = Parser(
    line: Text, data: Text, event: Text, id: Option<Text>, frameBytes: nat, afterCr: bool, firstSeen: bool)

  const INITIAL := Parser([], [], [], None, 0, false, false)

  // What one byte does.
  datatype Fed<E> = Next(parser: Parser, event: Option<E>) | Broken

  // --- lines and fields ---

  function TrimBom(line: Text): Text
    decreases |line|
  {
    if |line| >= 3 && line[0] == 0xEF && line[1] == 0xBB && line[2] == 0xBF then TrimBom(line[3..]) else line
  }

  function TrimNewlines(data: Text): Text {
    if data != [] && data[|data| - 1] == LF then TrimNewlines(data[..|data| - 1]) else data
  }

  function ColonAt(line: Text): (k: nat)
    ensures k <= |line| && COLON !in line[..k] && (k < |line| ==> line[k] == COLON)
  {
    if line == [] || line[0] == COLON then 0
    else
      var k := 1 + ColonAt(line[1..]);
      assert line[..k] == [line[0]] + line[1..][..k - 1];
      k
  }

  function Name(line: Text): Text {
    line[..ColonAt(line)]
  }

  function Value(line: Text): Text {
    var k := ColonAt(line);
    var value := if k < |line| then line[k + 1..] else [];
    if value != [] && value[0] == SPACE then value[1..] else value
  }

  const EVENT: Text := [101, 118, 101, 110, 116]
  const ID: Text := [105, 100]
  const DATA: Text := [100, 97, 116, 97]

  // --- the parser ---

  function EndLine<E>(profile: Profile<E>, p: Parser): Fed<E> {
    if !Utf8.Valid(p.line) then Broken
    else
      var line := if p.firstSeen then p.line else TrimBom(p.line);
      var p' := p.(line := [], firstSeen := true);
      if line == [] then
        var blank := p'.(frameBytes := 0, data := [], event := [], id := None);
        if p.data == [] then Next(blank, None)
        else
          match profile.decode(p.event, p.id, TrimNewlines(p.data))
          case Some(e) => Next(blank, Some(e))
          case None => Broken
      else if line[0] == COLON then Next(p', None)
      else Next(Assign(p', Name(line), Value(line)), None)
  }

  function Assign(p: Parser, name: Text, value: Text): Parser {
    if name == EVENT then p.(event := value)
    else if name == ID && 0 !in value then p.(id := Some(value))
    else if name == DATA then p.(data := p.data + value + [LF])
    else p
  }

  function Feed<E>(profile: Profile<E>, p: Parser, b: byte): Fed<E> {
    if p.afterCr && b == LF then Next(p.(afterCr := false), None)
    else
      var p' := p.(afterCr := b == CR, frameBytes := p.frameBytes + 1);
      if p'.frameBytes > MAX_FRAME then Broken
      else if b != LF && b != CR then Next(p'.(line := p.line + [b]), None)
      else EndLine(profile, p')
  }

  // All events of a byte sequence up to the first failure.
  datatype Outcome<E> = Outcome(events: seq<E>, failed: bool)

  function Run<E>(profile: Profile<E>, p: Parser, bytes: seq<byte>): Outcome<E>
    decreases |bytes|
  {
    if bytes == [] then Outcome([], false)
    else
      match Feed(profile, p, bytes[0])
      case Broken => Outcome([], true)
      case Next(p', event) =>
        var rest := Run(profile, p', bytes[1..]);
        if event.Some? then Outcome([event.value] + rest.events, rest.failed) else rest
  }

  // --- line endings do not matter ---

  // CRLF and CR as LF; `afterCr` when the byte before was a CR.
  function Normalized(afterCr: bool, bytes: seq<byte>): seq<byte>
    decreases |bytes|
  {
    if bytes == [] then []
    else if afterCr && bytes[0] == LF then Normalized(false, bytes[1..])
    else if bytes[0] == CR then [LF] + Normalized(true, bytes[1..])
    else [bytes[0]] + Normalized(false, bytes[1..])
  }

  lemma EndLineIgnoresCr<E>(profile: Profile<E>, p: Parser)
    ensures EndLine(profile, p.(afterCr := false)) ==
            match EndLine(profile, p) { case Broken => Broken case Next(p', e) => Next(p'.(afterCr := false), e) }
    ensures EndLine(profile, p).Next? ==> EndLine(profile, p).parser.afterCr == p.afterCr
  {
    hide Utf8.Valid, TrimBom, TrimNewlines, Name, Value;
  }

  // A line end as EndLine sees it, whichever byte it is.
  lemma FeedLineEnd<E>(profile: Profile<E>, p: Parser, b: byte)
    requires !(p.afterCr && b == LF) && (b == LF || b == CR)
    ensures Feed(profile, p, b) ==
            if p.frameBytes + 1 > MAX_FRAME then Broken
            else EndLine(profile, p.(afterCr := b == CR, frameBytes := p.frameBytes + 1))
  {
    hide EndLine;
  }

  lemma FeedIgnoresEnding<E>(profile: Profile<E>, p: Parser, b: byte)
    requires !(p.afterCr && b == LF)
    ensures var fed := Feed(profile, p, b);
            && Feed(profile, p.(afterCr := false), if b == CR then LF else b) ==
               (match fed { case Broken => Broken case Next(p', e) => Next(p'.(afterCr := false), e) })
            && (fed.Next? ==> fed.parser.afterCr == (b == CR))
  {
    hide EndLine;
    if b == LF || b == CR {
      EndLineIgnoresCr(profile, p.(afterCr := b == CR, frameBytes := p.frameBytes + 1));
      FeedLineEnd(profile, p, b);
      FeedLineEnd(profile, p.(afterCr := false), LF);
      hide Feed;
    }
  }

  lemma {:induction false} LineEndsDoNotMatter<E>(profile: Profile<E>, p: Parser, bytes: seq<byte>)
    ensures Run(profile, p, bytes) == Run(profile, p.(afterCr := false), Normalized(p.afterCr, bytes))
    decreases |bytes|
  {
    if bytes != [] {
      var b, rest := bytes[0], bytes[1..];
      if p.afterCr && b == LF {
        LineEndsDoNotMatter(profile, p.(afterCr := false), rest);
      } else {
        var all := Normalized(p.afterCr, bytes);
        assert all == [if b == CR then LF else b] + all[1..] && all[1..] == Normalized(b == CR, rest);
        FeedIgnoresEnding(profile, p, b);
        var fed := Feed(profile, p, b);
        hide Feed;
        if fed.Next? {
          LineEndsDoNotMatter(profile, fed.parser, rest);
        }
      }
    }
  }

  // --- memory ---

  predicate Bounded(p: Parser) {
    Held(p) <= p.frameBytes <= MAX_FRAME
  }

  lemma {:induction false} TrimBomShortens(line: Text)
    ensures |TrimBom(line)| <= |line|
    decreases |line|
  {
    if |line| >= 3 && line[0] == 0xEF && line[1] == 0xBB && line[2] == 0xBF {
      TrimBomShortens(line[3..]);
    }
  }

  function Held(p: Parser): nat {
    |p.line| + |p.data| + |p.event| + (if p.id.Some? then |p.id.value| else 0)
  }

  lemma AssignAdds(p: Parser, line: Text)
    ensures Held(Assign(p, Name(line), Value(line))) <= Held(p) + |line| + 1
    ensures Assign(p, Name(line), Value(line)).frameBytes == p.frameBytes
  {
    assert |Value(line)| <= |line|;
    hide Value, Name;
  }

  lemma EndLineStaysBounded<E>(profile: Profile<E>, p: Parser)
    requires Held(p) + 1 <= p.frameBytes <= MAX_FRAME
    ensures EndLine(profile, p).Next? ==> Bounded(EndLine(profile, p).parser)
  {
    TrimBomShortens(p.line);
    var line := if p.firstSeen then p.line else TrimBom(p.line);
    AssignAdds(p.(line := [], firstSeen := true), line);
    hide TrimBom, TrimNewlines, Assign, Name, Value;
  }

  // The buffers never hold more than the bytes of the current frame.
  lemma FeedStaysBounded<E>(profile: Profile<E>, p: Parser, b: byte)
    requires Bounded(p)
    ensures Feed(profile, p, b).Next? ==> Bounded(Feed(profile, p, b).parser)
  {
    var p' := p.(afterCr := b == CR, frameBytes := p.frameBytes + 1);
    if p'.frameBytes <= MAX_FRAME {
      EndLineStaysBounded(profile, p');
    }
    if !(p.afterCr && b == LF) && (b == LF || b == CR) {
      FeedLineEnd(profile, p, b);
      hide Feed;
    }
    hide EndLine;
  }

  // The parser after some bytes, unless it failed on the way.
  function StateAfter<E>(profile: Profile<E>, p: Parser, bytes: seq<byte>): Option<Parser>
    decreases |bytes|
  {
    if bytes == [] then Some(p)
    else
      match Feed(profile, p, bytes[0])
      case Broken => None
      case Next(p', _) => StateAfter(profile, p', bytes[1..])
  }

  // Whatever arrives, line, data, event and id together never exceed the frame cap.
  lemma {:induction false} BuffersAlwaysFitOneFrame<E>(profile: Profile<E>, p: Parser, bytes: seq<byte>)
    requires Bounded(p)
    ensures StateAfter(profile, p, bytes).Some? ==> Held(StateAfter(profile, p, bytes).value) <= MAX_FRAME
    decreases |bytes|
  {
    if bytes != [] {
      FeedStaysBounded(profile, p, bytes[0]);
      var fed := Feed(profile, p, bytes[0]);
      hide Feed, Held;
      if fed.Next? {
        BuffersAlwaysFitOneFrame(profile, fed.parser, bytes[1..]);
      }
    }
  }

  // --- the meaning, line by line ---

  function FirstLf(bytes: seq<byte>): (k: nat)
    ensures k <= |bytes| && LF !in bytes[..k] && (k < |bytes| ==> bytes[k] == LF)
  {
    if bytes == [] || bytes[0] == LF then 0
    else
      var k := 1 + FirstLf(bytes[1..]);
      assert bytes[..k] == [bytes[0]] + bytes[1..][..k - 1];
      k
  }

  // The values of all fields of one name in a frame's lines, in order.
  function Values(frame: seq<Text>, name: Text): seq<Text> {
    if frame == [] then []
    else
      var line := frame[|frame| - 1];
      Values(frame[..|frame| - 1], name) + (if Name(line) == name then [Value(line)] else [])
  }

  function WithoutNul(values: seq<Text>): seq<Text> {
    if values == [] then []
    else
      var value := values[|values| - 1];
      WithoutNul(values[..|values| - 1]) + (if 0 in value then [] else [value])
  }

  function Latest(values: seq<Text>): Option<Text> {
    if values == [] then None else Some(values[|values| - 1])
  }

  function Kind(frame: seq<Text>): Text {
    var kind := Latest(Values(frame, EVENT));
    if kind.Some? then kind.value else []
  }

  function Joined(values: seq<Text>): Text {
    if values == [] then [] else Joined(values[..|values| - 1]) + values[|values| - 1] + [LF]
  }

  // A blank line dispatches the frame before it, unless it has no data.
  function Dispatch<E>(profile: Profile<E>, frame: seq<Text>): Result<Option<E>, bool> {
    var data := Joined(Values(frame, DATA));
    if data == [] then Ok(None)
    else
      match profile.decode(Kind(frame), Latest(WithoutNul(Values(frame, ID))), TrimNewlines(data))
      case Some(e) => Ok(Some(e))
      case None => Err(false)
  }

  // Text with LF line ends only: `frame` holds the lines since the last blank one and `size`
  // the bytes they took.
  function Reference<E>(profile: Profile<E>, frame: seq<Text>, size: nat, first: bool, bytes: seq<byte>): Outcome<E>
    decreases |bytes|
  {
    var k := FirstLf(bytes);
    if k == |bytes| then Outcome([], size + k > MAX_FRAME)
    else if size + k + 1 > MAX_FRAME || !Utf8.Valid(bytes[..k]) then Outcome([], true)
    else
      var line := if first then TrimBom(bytes[..k]) else bytes[..k];
      var rest := bytes[k + 1..];
      if line != [] then Reference(profile, frame + [line], size + k + 1, false, rest)
      else
        match Dispatch(profile, frame)
        case Err(_) => Outcome([], true)
        case Ok(None) => Reference(profile, [], 0, false, rest)
        case Ok(Some(e)) =>
          var later := Reference(profile, [], 0, false, rest);
          Outcome([e] + later.events, later.failed)
  }

  // A stretch without line ends only fills the line buffer.
  lemma {:induction false} PlainBytes<E>(profile: Profile<E>, p: Parser, plain: seq<byte>, rest: seq<byte>)
    requires !p.afterCr && LF !in plain && CR !in plain && p.frameBytes <= MAX_FRAME
    ensures Run(profile, p, plain + rest) ==
            if p.frameBytes + |plain| > MAX_FRAME then Outcome([], true)
            else Run(profile, p.(line := p.line + plain, frameBytes := p.frameBytes + |plain|), rest)
    decreases |plain|
  {
    if plain == [] {
      assert plain + rest == rest && p.line + plain == p.line;
    } else {
      assert (plain + rest)[0] == plain[0] && (plain + rest)[1..] == plain[1..] + rest;
      var p' := p.(line := p.line + [plain[0]], frameBytes := p.frameBytes + 1);
      assert plain[0] != LF && plain[0] != CR;
      if p'.frameBytes <= MAX_FRAME {
        PlainBytes(profile, p', plain[1..], rest);
        assert p.line + [plain[0]] + plain[1..] == p.line + plain;
      }
    }
  }

  // The parser between two lines.
  function At(frame: seq<Text>, size: nat, first: bool): Parser {
    Parser([], Joined(Values(frame, DATA)), Kind(frame), Latest(WithoutNul(Values(frame, ID))), size, false, !first)
  }

  lemma ValuesAppend(frame: seq<Text>, line: Text, name: Text)
    ensures Values(frame + [line], name) ==
            if Name(line) == name then Values(frame, name) + [Value(line)] else Values(frame, name)
  {
    assert (frame + [line])[..|frame|] == frame;
  }

  lemma WithoutNulAppends(values: seq<Text>, value: Text)
    ensures WithoutNul(values + [value]) == if 0 in value then WithoutNul(values) else WithoutNul(values) + [value]
  {
    assert (values + [value])[..|values|] == values;
  }

  lemma JoinedAppends(values: seq<Text>, value: Text)
    ensures Joined(values + [value]) == Joined(values) + value + [LF]
  {
    assert (values + [value])[..|values|] == values;
  }

  lemma AppendedLine(frame: seq<Text>, line: Text, size: nat)
    ensures Assign(At(frame, size, false), Name(line), Value(line)) == At(frame + [line], size, false)
  {
    ValuesAppend(frame, line, EVENT);
    ValuesAppend(frame, line, ID);
    ValuesAppend(frame, line, DATA);
    WithoutNulAppends(Values(frame, ID), Value(line));
    JoinedAppends(Values(frame, DATA), Value(line));
    hide Values, WithoutNul, Joined, Value, Name;
  }

  lemma EndOfLine<E>(profile: Profile<E>, frame: seq<Text>, size: nat, first: bool, raw: Text)
    requires Utf8.Valid(raw) && size <= MAX_FRAME
    ensures var line := if first then TrimBom(raw) else raw;
            EndLine(profile, At(frame, size, first).(line := raw)) ==
            if line != [] then Next(At(frame + [line], size, false), None)
            else
              match Dispatch(profile, frame)
              case Err(_) => Broken
              case Ok(e) => Next(At([], 0, false), e)
  {
    var line := if first then TrimBom(raw) else raw;
    if line != [] {
      AppendedLine(frame, line, size);
      if line[0] == COLON {
        assert Name(line) == [];
      }
    }
    hide TrimBom, TrimNewlines;
  }

  function Continued<E>(profile: Profile<E>, fed: Fed<E>, rest: seq<byte>): Outcome<E> {
    match fed
    case Broken => Outcome([], true)
    case Next(p, event) =>
      var later := Run(profile, p, rest);
      if event.Some? then Outcome([event.value] + later.events, later.failed) else later
  }

  lemma AfterLine<E>(profile: Profile<E>, frame: seq<Text>, size: nat, first: bool, raw: Text, rest: seq<byte>)
    requires size + |raw| + 1 <= MAX_FRAME
    ensures Run(profile, At(frame, size, first).(line := raw, frameBytes := size + |raw|), [LF] + rest) ==
            Continued(profile, EndLine(profile, At(frame, size + |raw| + 1, first).(line := raw)), rest)
  {
    assert ([LF] + rest)[0] == LF && ([LF] + rest)[1..] == rest;
    hide EndLine;
  }

  lemma WholeLine<E>(profile: Profile<E>, frame: seq<Text>, size: nat, first: bool, raw: Text, rest: seq<byte>)
    requires size <= MAX_FRAME && LF !in raw && CR !in raw
    ensures Run(profile, At(frame, size, first), raw + ([LF] + rest)) ==
            if size + |raw| + 1 > MAX_FRAME then Outcome([], true)
            else Continued(profile, EndLine(profile, At(frame, size + |raw| + 1, first).(line := raw)), rest)
  {
    hide Run, EndLine, Continued, Values, Joined, WithoutNul, Kind;
    PlainBytes(profile, At(frame, size, first), raw, [LF] + rest);
    assert [] + raw == raw;
    if size + |raw| + 1 <= MAX_FRAME {
      AfterLine(profile, frame, size, first, raw, rest);
    } else if size + |raw| == MAX_FRAME {
      LineTooFar(profile, At(frame, size, first).(line := raw, frameBytes := MAX_FRAME), rest);
    }
  }

  // The line end itself does not fit any more.
  lemma LineTooFar<E>(profile: Profile<E>, p: Parser, rest: seq<byte>)
    requires !p.afterCr && p.frameBytes == MAX_FRAME
    ensures Run(profile, p, [LF] + rest) == Outcome([], true)
  {
    assert ([LF] + rest)[0] == LF;
    hide EndLine;
  }

  lemma SplitAt(bytes: seq<byte>, k: nat, b: byte)
    requires k < |bytes| && bytes[k] == b
    ensures bytes == bytes[..k] + ([b] + bytes[k + 1..])
  {
    assert bytes[k..] == [b] + bytes[k + 1..];
    assert bytes == bytes[..k] + bytes[k..];
  }

  lemma PartsLack(bytes: seq<byte>, k: nat, b: byte)
    requires k < |bytes| && b !in bytes
    ensures b !in bytes[..k] && b !in bytes[k + 1..]
  {}

  lemma SplitLine(bytes: seq<byte>)
    requires FirstLf(bytes) < |bytes|
    ensures var k := FirstLf(bytes);
            && bytes == bytes[..k] + ([LF] + bytes[k + 1..]) && LF !in bytes[..k]
            && (CR !in bytes ==> CR !in bytes[..k] && CR !in bytes[k + 1..])
  {
    var k := FirstLf(bytes);
    hide FirstLf;
    SplitAt(bytes, k, LF);
    if CR !in bytes {
      PartsLack(bytes, k, CR);
    }
  }

  lemma TailOnly<E>(profile: Profile<E>, frame: seq<Text>, size: nat, first: bool, tail: seq<byte>)
    requires LF !in tail && CR !in tail && size <= MAX_FRAME
    ensures Run(profile, At(frame, size, first), tail) == Outcome([], size + |tail| > MAX_FRAME)
  {
    PlainBytes(profile, At(frame, size, first), tail, []);
    assert tail + [] == tail;
    hide Values, Joined;
  }

  // What the reference does after a complete line, as the parser would say it.
  function AfterReference<E>(profile: Profile<E>, frame: seq<Text>, size: nat, first: bool, raw: Text,
      rest: seq<byte>): Outcome<E>
  {
    var line := if first then TrimBom(raw) else raw;
    if size + |raw| + 1 > MAX_FRAME || !Utf8.Valid(raw) then Outcome([], true)
    else if line != [] then Reference(profile, frame + [line], size + |raw| + 1, false, rest)
    else
      match Dispatch(profile, frame)
      case Err(_) => Outcome([], true)
      case Ok(event) =>
        var later := Reference(profile, [], 0, false, rest);
        if event.Some? then Outcome([event.value] + later.events, later.failed) else later
  }

  lemma ReferenceLine<E>(profile: Profile<E>, frame: seq<Text>, size: nat, first: bool, bytes: seq<byte>)
    ensures var k := FirstLf(bytes);
            Reference(profile, frame, size, first, bytes) ==
            if k == |bytes| then Outcome([], size + k > MAX_FRAME)
            else AfterReference(profile, frame, size, first, bytes[..k], bytes[k + 1..])
  {
    hide FirstLf, Dispatch, TrimBom;
  }

  // On text with LF line ends the parser computes exactly the line-wise meaning.
  lemma {:induction false} ParserMeansReference<E>(profile: Profile<E>, frame: seq<Text>, size: nat, first: bool,
      bytes: seq<byte>)
    requires CR !in bytes && size <= MAX_FRAME
    ensures Run(profile, At(frame, size, first), bytes) == Reference(profile, frame, size, first, bytes)
    decreases |bytes|
  {
    hide Run, Reference, EndLine, At, Dispatch, TrimBom, FirstLf;
    var k := FirstLf(bytes);
    ReferenceLine(profile, frame, size, first, bytes);
    if k == |bytes| {
      assert bytes[..k] == bytes;
      TailOnly(profile, frame, size, first, bytes);
    } else {
      var raw, rest := bytes[..k], bytes[k + 1..];
      SplitLine(bytes);
      WholeLine(profile, frame, size, first, raw, rest);
      if size + k + 1 <= MAX_FRAME {
        if Utf8.Valid(raw) {
          EndOfLine(profile, frame, size + k + 1, first, raw);
          ParserMeansReference(profile, frame + [if first then TrimBom(raw) else raw], size + k + 1, false, rest);
          ParserMeansReference(profile, [], 0, false, rest);
        } else {
          BadLine(profile, At(frame, size + k + 1, first).(line := raw));
          AtLine(frame, size + k + 1, first, raw);
        }
      }
    }
  }

  lemma BadLine<E>(profile: Profile<E>, p: Parser)
    requires !Utf8.Valid(p.line)
    ensures EndLine(profile, p) == Broken
  {}

  lemma AtLine(frame: seq<Text>, size: nat, first: bool, raw: Text)
    ensures At(frame, size, first).(line := raw).line == raw
  {}

  lemma {:induction false} NormalizedHasNoCr(afterCr: bool, bytes: seq<byte>)
    ensures CR !in Normalized(afterCr, bytes)
    decreases |bytes|
  {
    if bytes != [] {
      NormalizedHasNoCr(false, bytes[1..]);
      NormalizedHasNoCr(true, bytes[1..]);
    }
  }

  /** For every input, the byte-wise parser yields the events, and the failure, that the
      line-wise meaning gives for the input with all line ends made LF. */
  lemma ParserIsCorrect<E>(profile: Profile<E>, bytes: seq<byte>)
    ensures Run(profile, INITIAL, bytes) == Reference(profile, [], 0, true, Normalized(false, bytes))
  {
    LineEndsDoNotMatter(profile, INITIAL, bytes);
    NormalizedHasNoCr(false, bytes);
    ParserMeansReference(profile, [], 0, true, Normalized(false, bytes));
    hide Reference, Run, Normalized;
  }

  // Bytes after the last line end never dispatch anything.
  lemma {:induction false} UnterminatedNeverDispatches<E>(profile: Profile<E>, p: Parser, bytes: seq<byte>,
      tail: seq<byte>)
    requires LF !in tail && CR !in tail
    ensures Run(profile, p, bytes + tail).events == Run(profile, p, bytes).events
    decreases |bytes| + |tail|
  {
    if bytes != [] {
      assert (bytes + tail)[0] == bytes[0] && (bytes + tail)[1..] == bytes[1..] + tail;
      var fed := Feed(profile, p, bytes[0]);
      hide Feed;
      if fed.Next? {
        UnterminatedNeverDispatches(profile, fed.parser, bytes[1..], tail);
      }
    } else if tail != [] {
      assert bytes + tail == tail;
      var fed := Feed(profile, p, tail[0]);
      assert tail[0] != LF && tail[0] != CR;
      if fed.Next? {
        UnterminatedNeverDispatches(profile, fed.parser, [], tail[1..]);
        assert [] + tail[1..] == tail[1..];
      }
    }
  }
}
