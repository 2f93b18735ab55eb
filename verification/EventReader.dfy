/** The stateful reader of crates/sandbox-client/src/stream.rs over a chunked response: whatever
    the chunk boundaries, it yields the events of the joined bytes. */
module EventReader {
  import opened Wrappers
  import opened Bytes
  import opened EventStreams
  import Utf8

  const MAX_PIECE := 262144

  datatype Error = Protocol | Transport

  // What the transport delivers next; nothing left is the end of the body.
  datatype Piece = Chunk(bytes: seq<byte>) | Failure

  datatype Ending = Clean | Oversized | Cut

  // What reading on at such an end answers.
  function AtEnd<E>(end: Ending): Result<Option<E>, Error> {
    match end
    case Clean => Ok(None)
    case Oversized => Err(Protocol)
    case Cut => Err(Transport)
  }

  // The bytes delivered before the first piece that cannot be used, and how delivery ends.
  function Readable(source: seq<Piece>): seq<byte> {
    if source == [] || source[0].Failure? || |source[0].bytes| > MAX_PIECE then []
    else source[0].bytes + Readable(source[1..])
  }

  function EndOf(source: seq<Piece>): Ending {
    if source == [] then Clean
    else if source[0].Failure? then Cut
    else if |source[0].bytes| > MAX_PIECE then Oversized
    else EndOf(source[1..])
  }

  // The first event of a byte sequence.
  datatype Read<E> = Yield(event: E, parser: Parser, rest: seq<byte>) | Failed | Exhausted(parser: Parser)

  function First<E>(profile: Profile<E>, p: Parser, bytes: seq<byte>): Read<E>
    decreases |bytes|
  {
    if bytes == [] then Exhausted(p)
    else
      match Feed(profile, p, bytes[0])
      case Broken => Failed
      case Next(p', event) =>
        if event.Some? then Yield(event.value, p', bytes[1..]) else First(profile, p', bytes[1..])
  }

  // Reading event by event is running the parser.
  lemma {:induction false} FirstIsRun<E>(profile: Profile<E>, p: Parser, bytes: seq<byte>)
    ensures Run(profile, p, bytes) ==
            match First(profile, p, bytes)
            case Failed => Outcome([], true)
            case Exhausted(_) => Outcome([], false)
            case Yield(e, p', rest) =>
              Outcome([e] + Run(profile, p', rest).events, Run(profile, p', rest).failed)
    decreases |bytes|
  {
    if bytes != [] {
      var fed := Feed(profile, p, bytes[0]);
      hide Feed;
      if fed.Next? && fed.event.None? {
        FirstIsRun(profile, fed.parser, bytes[1..]);
      }
    }
  }

  lemma {:induction false} FirstShrinks<E>(profile: Profile<E>, p: Parser, bytes: seq<byte>)
    ensures First(profile, p, bytes).Yield? ==> |First(profile, p, bytes).rest| < |bytes|
    decreases |bytes|
  {
    if bytes != [] {
      var fed := Feed(profile, p, bytes[0]);
      hide Feed;
      if fed.Next? {
        FirstShrinks(profile, fed.parser, bytes[1..]);
      }
    }
  }

  class ByteParser<E> {
    const profile: Profile<E>
    var line: Text
    var data: Text
    var event: Text
    var id: Option<Text>
    var frameBytes: nat
    var afterCr: bool
    var firstSeen: bool

    constructor (profile: Profile<E>)
      ensures this.profile == profile && View() == INITIAL
    {
      this.profile := profile;
      line, data, event, id, frameBytes, afterCr, firstSeen := [], [], [], None, 0, false, false;
    }

    function View(): Parser
      reads this
    {
      Parser(line, data, event, id, frameBytes, afterCr, firstSeen)
    }

    method TakeLine() returns (r: Result<Option<E>, Error>)
      modifies this
      ensures match EndLine(profile, old(View()))
              case Broken => r == Err(Protocol)
              case Next(p, e) => r == Ok(e) && View() == p
    {
      hide TrimBom, TrimNewlines, Name, Value;
      var taken := line;
      line := [];
      if !Utf8.Valid(taken) {
        return Err(Protocol);
      }
      if !firstSeen {
        taken := TrimBom(taken);
      }
      firstSeen := true;
      if taken == [] {
        frameBytes := 0;
        var d, kind, i := data, event, id;
        data, event, id := [], [], None;
        if d == [] {
          return Ok(None);
        }
        var decoded := profile.decode(kind, i, TrimNewlines(d));
        return if decoded.Some? then Ok(Some(decoded.value)) else Err(Protocol);
      }
      if taken[0] == COLON {
        return Ok(None);
      }
      var field, value := Name(taken), Value(taken);
      if field == EVENT {
        event := value;
      } else if field == ID && 0 !in value {
        id := Some(value);
      } else if field == DATA {
        data := data + value;
        data := data + [LF];
      }
      return Ok(None);
    }

    method Byte(b: byte) returns (r: Result<Option<E>, Error>)
      modifies this
      ensures match Feed(profile, old(View()), b)
              case Broken => r == Err(Protocol)
              case Next(p, e) => r == Ok(e) && View() == p
    {
      hide EndLine;
      if afterCr && b == LF {
        afterCr := false;
        return Ok(None);
      }
      if b == LF || b == CR {
        FeedLineEnd(profile, View(), b);
      }
      afterCr := b == CR;
      frameBytes := frameBytes + 1;
      if frameBytes > MAX_FRAME {
        return Err(Protocol);
      }
      if b != LF && b != CR {
        line := line + [b];
        return Ok(None);
      }
      hide Feed;
      r := TakeLine();
    }
  }

  class EventStream<E> {
    const parser: ByteParser<E>
    var source: seq<Piece>
    var pending: seq<byte>
    var position: nat
    var ended: bool

    constructor (profile: Profile<E>, source: seq<Piece>)
      ensures Valid() && fresh(parser) && !ended
      ensures parser.profile == profile && parser.View() == INITIAL && Unread() == Readable(source)
        && this.source == source
    {
      this.parser := new ByteParser(profile);
      this.source := source;
      pending, position, ended := [], 0, false;
    }

    predicate Valid()
      reads this
    {
      position <= |pending|
    }

    ghost function Unread(): seq<byte>
      reads this
      requires Valid()
    {
      pending[position..] + Readable(source)
    }

    method ReadNext() returns (r: Result<Option<E>, Error>)
      requires Valid()
      modifies this, parser
      ensures Valid() && ended == old(ended)
      ensures match First(parser.profile, old(parser.View()), old(Unread()))
              case Yield(e, p, rest) =>
                r == Ok(Some(e)) && parser.View() == p && Unread() == rest && EndOf(source) == old(EndOf(source))
              case Failed => r == Err(Protocol)
              case Exhausted(p) =>
                r == AtEnd(old(EndOf(source)))
    {
      ghost var goal := First(parser.profile, parser.View(), Unread());
      while true
        invariant Valid() && ended == old(ended)
        invariant First(parser.profile, parser.View(), Unread()) == goal
        invariant EndOf(source) == old(EndOf(source))
        decreases |source|
      {
        hide Feed;
        ghost var undelivered := source;
        while position < |pending|
          invariant Valid() && ended == old(ended) && source == undelivered
          invariant First(parser.profile, parser.View(), Unread()) == goal
          invariant EndOf(source) == old(EndOf(source))
        {
          var b := pending[position];
          assert Unread()[0] == b && Unread()[1..] == pending[position + 1..] + Readable(source);
          position := position + 1;
          var fed := parser.Byte(b);
          if fed.Err? {
            return Err(fed.error);
          }
          if fed.value.Some? {
            return Ok(fed.value);
          }
        }
        assert Unread() == Readable(source);
        if source == [] {
          return Ok(None);
        }
        var piece := source[0];
        if piece.Failure? {
          return Err(Transport);
        }
        if |piece.bytes| > MAX_PIECE {
          return Err(Protocol);
        }
        source := source[1..];
        pending, position := piece.bytes, 0;
        assert pending[0..] == pending;
      }
    }

    // The next event; after a failure, the end of the body or a terminal event, nothing.
    method Next() returns (r: Result<Option<E>, Error>)
      requires Valid()
      modifies this, parser
      ensures Valid()
      ensures old(ended) ==> r == Ok(None) && ended && parser.View() == old(parser.View()) && Unread() == old(Unread())
      ensures !old(ended) ==>
        match First(parser.profile, old(parser.View()), old(Unread()))
        case Yield(e, p, rest) =>
          && r == Ok(Some(e)) && ended == parser.profile.terminal(e)
          && parser.View() == p && Unread() == rest && EndOf(source) == old(EndOf(source))
        case Failed => r == Err(Protocol) && ended
        case Exhausted(p) =>
          && ended
          && r == AtEnd(old(EndOf(source)))
    {
      if ended {
        return Ok(None);
      }
      r := ReadNext();
      if r.Err? || r.value.None? || parser.profile.terminal(r.value.value) {
        ended := true;
      }
    }
  }

  // The events a client sees: none after a terminal one.
  function Seen<E>(profile: Profile<E>, events: seq<E>): seq<E> {
    if events == [] then []
    else if profile.terminal(events[0]) then [events[0]]
    else [events[0]] + Seen(profile, events[1..])
  }

  lemma SeenFirst<E>(profile: Profile<E>, p: Parser, bytes: seq<byte>)
    ensures Seen(profile, Run(profile, p, bytes).events) ==
            match First(profile, p, bytes)
            case Failed => []
            case Exhausted(_) => []
            case Yield(e, p', rest) =>
              if profile.terminal(e) then [e] else [e] + Seen(profile, Run(profile, p', rest).events)
  {
    FirstIsRun(profile, p, bytes);
    hide Run;
    var read := First(profile, p, bytes);
    hide First;
    if read.Yield? {
      var later := Run(profile, read.parser, read.rest).events;
      assert ([read.event] + later)[1..] == later;
    }
  }

  lemma Regroup<E>(events: seq<E>, e: E, later: seq<E>)
    ensures events + ([e] + later) == events + [e] + later
    ensures events + [e] + [] == events + [e]
  {}

  /** Draining the stream yields exactly the events of the joined bytes, up to the first terminal
      one, however the body was cut into pieces. */
  method Drain<E>(profile: Profile<E>, source: seq<Piece>) returns (events: seq<E>)
    ensures events == Seen(profile, Run(profile, INITIAL, Readable(source)).events)
  {
    events := [];
    var stream := new EventStream(profile, source);
    ghost var goal := Seen(profile, Run(profile, INITIAL, Readable(source)).events);
    while !stream.ended
      invariant stream.Valid() && fresh(stream) && fresh(stream.parser) && stream.parser.profile == profile
      invariant goal == events + (if stream.ended then []
                                  else Seen(profile, Run(profile, stream.parser.View(), stream.Unread()).events))
      decreases if stream.ended then 0 else |stream.Unread()| + 1
    {
      hide Feed, Run, First, Seen, Readable, EndOf;
      ghost var p, unread := stream.parser.View(), stream.Unread();
      SeenFirst(profile, p, unread);
      FirstShrinks(profile, p, unread);
      var r := stream.Next();
      if r.Ok? && r.value.Some? {
        var e := r.value.value;
        Regroup(events, e, Seen(profile, Run(profile, stream.parser.View(), stream.Unread()).events));
        events := events + [e];
      }
    }
  }
}
