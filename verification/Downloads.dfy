/** The ranged download loop of crates/sandbox-client/src/files.rs over the range checks of
    crates/sandbox-client/src/transport.rs, against a server that may answer anything. */
module Downloads {
  import opened Wrappers
  import opened Bytes

  const MAX_FILE := 8388608
  const CHUNK := 32768

  datatype Error = Request | Protocol | Transport | Integrity

  // A piece of a response body, or the failure of the connection.
  datatype Piece = Chunk(bytes: seq<byte>) | Failure

  // A response: each header as it parses, or not; what other checks on it answer.
  datatype Reply = Reply(
    refused: Option<Error>, offset: Option<nat>, next: Option<nat>, size: Option<nat>, eof: Option<bool>,
    simulated: Option<bool>, sha256: Option<Text>, guestReported: Option<bool>, length: Option<nat>, body: seq<Piece>)

  datatype RangeChunk = RangeChunk(
    bytes: seq<byte>, offset: nat, next: nat, size: nat, eof: bool, simulated: bool, sha256: Text)

  datatype Capture = Capture(size: nat, chunkSize: nat, guestReported: bool, simulated: bool, sha256: Text)

  // The reply to the k-th request, asking from an offset. The server is not trusted.
  type Server = (nat, nat) -> Reply

  // The hexadecimal SHA-256 of a byte sequence, left uninterpreted.
  type Sha = seq<byte> -> Text

  predicate HexDigest(s: Text) {
    |s| == 64 && forall b :: b in s ==> 48 <= b <= 57 || 97 <= b <= 102
  }

  function Joined(body: seq<Piece>): seq<byte> {
    if body == [] then []
    else Joined(body[..|body| - 1]) + (if body[|body| - 1].Chunk? then body[|body| - 1].bytes else [])
  }

  predicate Whole(body: seq<Piece>) {
    forall i :: 0 <= i < |body| ==> body[i].Chunk?
  }

  // What a range reply must say: `bytes` of the body from the requested offset, consistently.
  predicate Accepted(reply: Reply, offset: nat, c: RangeChunk) {
    && reply.refused.None?
    && reply.offset == Some(offset) && reply.next == Some(c.next) && reply.size == Some(c.size)
    && reply.eof == Some(c.eof) && reply.simulated == Some(c.simulated) && reply.sha256 == Some(c.sha256)
    && reply.guestReported == Some(true) && HexDigest(c.sha256)
    && (reply.length.Some? ==> reply.length.value <= CHUNK)
    && Whole(reply.body) && Joined(reply.body) == c.bytes && |c.bytes| <= CHUNK
    && c.offset == offset && c.next == offset + |c.bytes| && c.next <= c.size <= MAX_FILE
    && (c.eof <==> c.next == c.size)
    && (!c.eof ==> c.bytes != [])
  }

  lemma {:induction false} JoinedGrows(body: seq<Piece>, i: nat)
    requires i <= |body|
    ensures |Joined(body[..i])| <= |Joined(body)|
    decreases |body|
  {
    if i == |body| {
      assert body[..i] == body;
    } else {
      assert body[..|body| - 1][..i] == body[..i];
      JoinedGrows(body[..|body| - 1], i);
    }
  }

  // Read a body of at most `cap` bytes.
  method ReadBounded(reply: Reply, cap: nat) returns (r: Result<seq<byte>, Error>)
    ensures r.Ok? <==>
      (reply.length.Some? ==> reply.length.value <= cap) && Whole(reply.body) && |Joined(reply.body)| <= cap
    ensures r.Ok? ==> r.value == Joined(reply.body)
    ensures r.Err? ==> r.error in {Protocol, Transport}
    ensures r == Err(Transport) ==> !Whole(reply.body)
    ensures r == Err(Protocol) ==>
      (reply.length.Some? && reply.length.value > cap) || |Joined(reply.body)| > cap
  {
    if reply.length.Some? && reply.length.value > cap {
      return Err(Protocol);
    }
    var bytes := [];
    for i := 0 to |reply.body|
      invariant bytes == Joined(reply.body[..i]) && |bytes| <= cap
      invariant forall k :: 0 <= k < i ==> reply.body[k].Chunk?
    {
      var piece := reply.body[i];
      if piece.Failure? {
        return Err(Transport);
      }
      assert reply.body[..i + 1][..i] == reply.body[..i];
      if |piece.bytes| > cap - |bytes| {
        JoinedGrows(reply.body, i + 1);
        return Err(Protocol);
      }
      bytes := bytes + piece.bytes;
    }
    assert reply.body[..|reply.body|] == reply.body;
    return Ok(bytes);
  }

  // Check one range reply against the request.
  method ReadRange(reply: Reply, offset: nat) returns (r: Result<RangeChunk, Error>)
    ensures r.Ok? ==> Accepted(reply, offset, r.value)
    ensures r.Err? ==> forall c :: !Accepted(reply, offset, c)
    ensures reply.refused.Some? ==> r == Err(reply.refused.value)
    ensures reply.refused.None? && r.Err? ==> r.error in {Protocol, Transport}
    ensures reply.refused.None? && r == Err(Transport) ==> !Whole(reply.body)
  {
    if reply.refused.Some? {
      return Err(reply.refused.value);
    }
    if reply.offset.None? || reply.next.None? || reply.size.None? || reply.eof.None? || reply.simulated.None?
       || reply.sha256.None? || reply.guestReported.None? {
      return Err(Protocol);
    }
    if reply.size.value > MAX_FILE || !HexDigest(reply.sha256.value) || !reply.guestReported.value {
      return Err(Protocol);
    }
    var bytes := ReadBounded(reply, CHUNK);
    if bytes.Err? {
      return Err(bytes.error);
    }
    var c := RangeChunk(bytes.value, reply.offset.value, reply.next.value, reply.size.value, reply.eof.value,
                        reply.simulated.value, reply.sha256.value);
    if c.offset != offset || c.next != c.offset + |c.bytes| || c.next > c.size || c.eof != (c.next == c.size)
       || (!c.eof && c.bytes == []) {
      return Err(Protocol);
    }
    return Ok(c);
  }

  predicate Sound(capture: Capture) {
    capture.size <= MAX_FILE && capture.chunkSize == CHUNK && capture.guestReported && HexDigest(capture.sha256)
  }

  predicate Matches(c: RangeChunk, capture: Capture) {
    c.size == capture.size && c.sha256 == capture.sha256 && c.simulated == capture.simulated
  }

  function Content(chunks: seq<RangeChunk>): seq<byte> {
    if chunks == [] then [] else Content(chunks[..|chunks| - 1]) + chunks[|chunks| - 1].bytes
  }

  // Accepted chunks, each asked for where the one before it ended; only the last can be final.
  ghost predicate Contiguous(serve: Server, capture: Capture, chunks: seq<RangeChunk>, done: bool) {
    forall k :: 0 <= k < |chunks| ==>
      && Accepted(serve(k, |Content(chunks[..k])|), |Content(chunks[..k])|, chunks[k]) && Matches(chunks[k], capture)
      && (chunks[k].eof <==> done && k == |chunks| - 1)
  }

  lemma ContentAppends(chunks: seq<RangeChunk>, c: RangeChunk)
    ensures Content(chunks + [c]) == Content(chunks) + c.bytes
  {
    assert (chunks + [c])[..|chunks|] == chunks;
  }

  lemma ContiguousAppends(serve: Server, capture: Capture, chunks: seq<RangeChunk>, c: RangeChunk)
    requires Contiguous(serve, capture, chunks, false) && Matches(c, capture)
    requires Accepted(serve(|chunks|, |Content(chunks)|), |Content(chunks)|, c)
    ensures Contiguous(serve, capture, chunks + [c], c.eof)
  {
    var more := chunks + [c];
    hide Accepted, Content;
    forall k | 0 <= k < |more|
      ensures Accepted(serve(k, |Content(more[..k])|), |Content(more[..k])|, more[k]) && Matches(more[k], capture)
              && (more[k].eof <==> c.eof && k == |more| - 1)
    {
      assert more[..k] == chunks[..k];
      if k == |chunks| {
        assert chunks[..k] == chunks;
      }
    }
  }

  // A server that holds `data` and always sends some of what was asked for.
  ghost predicate Serves(serve: Server, capture: Capture, data: seq<byte>) {
    |data| == capture.size && forall k, offset: nat :: offset <= |data| ==>
      Honest(serve(k, offset), offset, capture, data)
  }

  ghost predicate Honest(reply: Reply, offset: nat, capture: Capture, data: seq<byte>) {
    exists c :: Accepted(reply, offset, c) && Matches(c, capture) && c.next <= |data| && c.bytes == data[offset..c.next]
  }

  lemma HonestChunk(reply: Reply, offset: nat, capture: Capture, data: seq<byte>, c: RangeChunk)
    requires Honest(reply, offset, capture, data) && Accepted(reply, offset, c)
    ensures Matches(c, capture) && c.next <= |data| && c.bytes == data[offset..c.next]
  {}

  ghost predicate ServesFile(serve: Server, sha: Sha, capture: Capture, data: seq<byte>) {
    Sound(capture) && sha(data) == capture.sha256 && Serves(serve, capture, data)
  }

  // Whatever file the server honestly serves starts with these bytes.
  ghost predicate Agrees(serve: Server, sha: Sha, capture: Capture, file: seq<byte>) {
    forall data :: ServesFile(serve, sha, capture, data) ==> file <= data
  }

  lemma AgreesMore(serve: Server, sha: Sha, capture: Capture, k: nat, file: seq<byte>, c: RangeChunk)
    requires Agrees(serve, sha, capture, file) && Accepted(serve(k, |file|), |file|, c)
    ensures Agrees(serve, sha, capture, file + c.bytes)
    ensures forall data :: ServesFile(serve, sha, capture, data) ==> Matches(c, capture)
  {
    forall data | ServesFile(serve, sha, capture, data)
      ensures file + c.bytes <= data && Matches(c, capture)
    {
      assert file <= data && Honest(serve(k, |file|), |file|, capture, data);
      HonestChunk(serve(k, |file|), |file|, capture, data, c);
      assert data[..c.next] == data[..|file|] + data[|file|..c.next];
    }
  }

  lemma HonestIsAccepted(serve: Server, sha: Sha, capture: Capture, k: nat, file: seq<byte>, data: seq<byte>)
    requires Agrees(serve, sha, capture, file) && ServesFile(serve, sha, capture, data)
    ensures exists c :: Accepted(serve(k, |file|), |file|, c)
  {
    assert file <= data;
    assert Honest(serve(k, |file|), |file|, capture, data);
  }

  lemma CompleteFile(serve: Server, sha: Sha, capture: Capture, file: seq<byte>)
    requires Agrees(serve, sha, capture, file) && |file| == capture.size
    ensures forall data :: ServesFile(serve, sha, capture, data) ==> file == data
  {
    hide Honest, Sound;
  }

  function AtLeastOne(n: nat): nat {
    if n > 1 then n else 1
  }

  /** Download a captured file in ranges. It ends within max(1, size) requests whatever the server
      does; success means that the bytes written are the contiguous chunks of the whole file with
      the captured length and digest; and an honest server succeeds. */
  method DownloadCapture(serve: Server, sha: Sha, capture: Capture)
    returns (r: Option<Error>, file: seq<byte>, requests: nat, ghost chunks: seq<RangeChunk>)
    ensures requests <= AtLeastOne(capture.size)
    ensures !Sound(capture) ==> r == Some(Protocol) && file == [] && requests == 0
    ensures r.None? ==>
      && |file| == capture.size && sha(file) == capture.sha256
      && |chunks| == requests && Contiguous(serve, capture, chunks, true) && file == Content(chunks)
    ensures forall data :: ServesFile(serve, sha, capture, data) ==> r.None? && file == data
  {
    requests, file, chunks := 0, [], [];
    if capture.size > MAX_FILE || capture.chunkSize != CHUNK || !capture.guestReported || !HexDigest(capture.sha256) {
      return Some(Protocol), file, requests, chunks;
    }
    var offset := 0;
    var done := false;
    assert Agrees(serve, sha, capture, []);
    while !done
      invariant offset == |file| <= capture.size && file == Content(chunks) && |chunks| == requests
      invariant done ==> offset == capture.size && requests <= AtLeastOne(capture.size)
      invariant !done ==> requests <= offset && (requests > 0 ==> offset < capture.size)
      invariant Contiguous(serve, capture, chunks, done)
      invariant Agrees(serve, sha, capture, file)
      decreases capture.size - offset, !done
    {
      var reply := ReadRange(serve(requests, offset), offset);
      if reply.Err? {
        forall data | ServesFile(serve, sha, capture, data)
          ensures exists c :: Accepted(serve(requests, offset), offset, c)
        {
          HonestIsAccepted(serve, sha, capture, requests, file, data);
        }
        return Some(reply.error), file, requests + 1, chunks;
      }
      var chunk := reply.value;
      AgreesMore(serve, sha, capture, requests, file, chunk);
      hide ServesFile, Agrees, Contiguous;
      requests := requests + 1;
      if chunk.size != capture.size || chunk.sha256 != capture.sha256 || chunk.simulated != capture.simulated {
        return Some(Integrity), file, requests, chunks;
      }
      ContiguousAppends(serve, capture, chunks, chunk);
      ContentAppends(chunks, chunk);
      file := file + chunk.bytes;
      chunks := chunks + [chunk];
      offset := chunk.next;
      done := chunk.eof;
    }
    CompleteFile(serve, sha, capture, file);
    if offset != capture.size || sha(file) != capture.sha256 {
      assert forall data :: ServesFile(serve, sha, capture, data) ==> sha(data) == capture.sha256;
      return Some(Integrity), file, requests, chunks;
    }
    return None, file, requests, chunks;
  }
}
