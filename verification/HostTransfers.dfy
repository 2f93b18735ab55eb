/** What the file transfers of the simulated supervisor answer, each told without the order of its
    checks, and that asking too early rules a transfer out (crates/sandbox-fake-host/src/files.rs). */
module HostTransfers {
  import opened Wrappers
  import opened Totals
  import opened Bytes
  import opened HostModel
  import opened HostSafety
  import opened HostFiles
  import opened HostRuns

  // The chunk agrees with what is stored wherever the two overlap.
  predicate Repeats(bytes: seq<byte>, offset: nat, data: seq<byte>) {
    forall i :: 0 <= i < |data| && offset + i < |bytes| ==> bytes[offset + i] == data[i]
  }

  predicate Refuses(reply: Result<FileSight, Code>, code: Code) {
    reply == Err(code)
  }

  /** The answer to a chunk of an open transfer: taken exactly if it leaves no gap, repeats what it
      overlaps and fits in memory; each refusal for its own reason; and only its new bytes count. */
  lemma ChunkAnswer(h: Host, key: Key, file: FileRecord, offset: nat, data: seq<byte>)
    requires key in h.staged
    ensures var (h', reply) := WriteChunk(h, key, file, offset, data);
            var bytes := h.staged[key];
            var longer := if offset + |data| > |bytes| then offset + |data| else |bytes|;
            var fits := RetainedBytes(h) + longer - |bytes| <= MAX_RESERVED;
            && (Refuses(reply, FailedPrecondition) <==> offset > |bytes|)
            && (Refuses(reply, AlreadyExists) <==> offset <= |bytes| && !Repeats(bytes, offset, data))
            && (Refuses(reply, ResourceExhausted) <==>
                  offset <= |bytes| && Repeats(bytes, offset, data) && !fits)
            && (reply.Ok? <==> offset <= |bytes| && Repeats(bytes, offset, data) && fits)
            && (reply.Ok? ==> reply.value == FileSight(file, Some(longer), false))
            && (reply.Err? ==> h' == h)
            && h'.published == h.published && h'.allocations == h.allocations
  {
    hide RetainedBytes;
    var bytes := h.staged[key];
    if offset <= |bytes| {
      var overlap := if |bytes| - offset < |data| then |bytes| - offset else |data|;
      OverlapRepeats(bytes, offset, data, overlap);
    }
  }

  lemma OverlapRepeats(bytes: seq<byte>, offset: nat, data: seq<byte>, overlap: nat)
    requires offset + overlap <= |bytes| && overlap <= |data|
    requires overlap == |data| || offset + overlap == |bytes|
    ensures bytes[offset..offset + overlap] == data[..overlap] <==> Repeats(bytes, offset, data)
  {
    if bytes[offset..offset + overlap] == data[..overlap] {
      forall i | 0 <= i < |data| && offset + i < |bytes|
        ensures bytes[offset + i] == data[i]
      {
        assert bytes[offset..offset + overlap][i] == data[..overlap][i];
      }
    }
  }

  /** One action on a known transfer. A finished one is reported as it is; one whose allocation no
      longer runs, as uncertain; and neither changes. Otherwise a chunk and a commit are taken only
      while the transfer is open, an abort drops what was staged unless one was asked for before,
      and anything else only looks. */
  lemma TransferAnswer(
      hashes: Hashes, h: Host, key: Key, file: FileRecord, upload: Upload, a: Action, running: bool)
    requires KnownFile(h, key) && file == h.fences[key.allocation].files[key.operation]
    ensures var (h', reply) := Transfer(hashes, h, key, file, upload, a, running);
            var moves := running && !file.Finished();
            && (!moves ==> h' == h && reply == Ok(FileSight(file, None, !file.Finished())))
            && (moves && a.Write? && file.Open() ==> (h', reply) == WriteChunk(h, key, file, a.offset, a.data))
            && (moves && a.Commit? && file.Open() ==> (h', reply) == CommitFile(hashes, h, key, file, upload))
            && (moves && a.Abort? && !file.abortRequested ==>
                  && reply.Ok? && !reply.value.uncertain && reply.value.file.state == 5
                  && reply.value.file.Finished() && reply.value.file.abortRequested
                  && reply.value.file.commitRequested == file.commitRequested
                  && key !in h'.staged && h'.staged == h.staged - {key} && h'.published == h.published
                  && KnownFile(h', key) && h'.fences[key.allocation].files[key.operation] == reply.value.file)
            && (moves && !(a.Abort? && !file.abortRequested) && !((a.Write? || a.Commit?) && file.Open()) ==>
                  h' == h && reply == Ok(FileSight(file, None, false)))
  {
    hide WriteChunk, CommitFile, RetainedBytes;
    KeptIsSame(h, key, file);
  }

  lemma KeptIsSame(h: Host, key: Key, file: FileRecord)
    requires KnownFile(h, key) && file == h.fences[key.allocation].files[key.operation]
    ensures KeepFile(h, key, file) == h
  {
    var f := h.fences[key.allocation];
    assert f.files[key.operation := file] == f.files;
    assert f.(files := f.files) == f;
    assert h.fences[key.allocation := f] == h.fences;
  }

  predicate BeginsNow(h1: Host, o: Ownership, a: Action) {
    a.Begin? && Live(h1, o.allocation) && o.allocation in h1.fences && !h1.fences[o.allocation].stopped
  }

  // The first accepted action on an operation that has no transfer yet.
  ghost predicate First(
      cfg: Config, hashes: Hashes, h: Host, o: Ownership, upload: Upload, a: Action, clock: Clock, h1: Host)
  {
    FileEntry(cfg, hashes, h, o, upload, a, clock) == (h1, None)
    && o.allocation in h1.fences && o.operation !in h1.fences[o.allocation].files
  }

  lemma FirstAnswer(
      cfg: Config, hashes: Hashes, h: Host, o: Ownership, upload: Upload, a: Action, clock: Clock, h1: Host)
    requires First(cfg, hashes, h, o, upload, a, clock, h1)
    ensures var (h2, reply) := FileStep(cfg, hashes, h, o, upload, a, clock);
            var key := Key(o.allocation, o.operation);
            && reply.Ok? && !reply.value.uncertain && KnownFile(h2, key)
            && h2.fences[o.allocation].files[o.operation] == reply.value.file
            && reply.value.file.digest == hashes.upload(upload)
            && (BeginsNow(h1, o, a) <==> reply.value.file.Open())
            && (BeginsNow(h1, o, a) ==>
                  key in h2.staged && h2.staged[key] == [] && reply.value.file.size == upload.size)
            && (!BeginsNow(h1, o, a) ==> reply.value.file.notStarted)
  {
    hide FileEntry, Live;
  }

  /** The first accepted action on a transfer settles whether it ever begins: only a begin on a
      running allocation opens it, with nothing staged; any other fences it for good. */
  lemma FirstActionDecides(
      cfg: Config, hashes: Hashes, h: Host, o: Ownership, upload: Upload, a: Action, clock: Clock, h1: Host,
      events: seq<Event>)
    requires Inv(cfg, h) && First(cfg, hashes, h, o, upload, a, clock, h1)
    ensures var (h2, reply) := FileStep(cfg, hashes, h, o, upload, a, clock);
            var key, h3 := Key(o.allocation, o.operation), Run(cfg, hashes, h2, events);
            && reply.Ok? && (BeginsNow(h1, o, a) <==> reply.value.file.Open())
            && KnownFile(h3, key)
            && (!BeginsNow(h1, o, a) ==>
                  reply.value.file.notStarted && h3.fences[o.allocation].files[o.operation] == reply.value.file)
  {
    hide Inv, Run, First, FileStep, BeginsNow;
    FirstAnswer(cfg, hashes, h, o, upload, a, clock, h1);
    FileKeepsInv(cfg, hashes, h, o, upload, a, clock);
    RunKeepsFile(cfg, hashes, FileStep(cfg, hashes, h, o, upload, a, clock).0, events, Key(o.allocation, o.operation));
  }

  /** Over every run: whatever a transfer is asked to do, it is for the upload it was first asked
      about, or the request is refused. */
  lemma OneUploadPerTransfer(
      cfg: Config, hashes: Hashes, h: Host, key: Key, events: seq<Event>,
      o: Ownership, upload: Upload, a: Action, clock: Clock)
    requires Inv(cfg, h) && KnownFile(h, key) && o.allocation == key.allocation && o.operation == key.operation
    requires FileEntry(cfg, hashes, Run(cfg, hashes, h, events), o, upload, a, clock).1.None?
    ensures hashes.upload(upload) == h.fences[key.allocation].files[key.operation].digest
    ensures upload.operation == key.operation
  {
    hide Inv, Run, FileEntry;
    RunKeepsFile(cfg, hashes, h, events, key);
    AcceptedForItsUpload(cfg, hashes, Run(cfg, hashes, h, events), key, o, upload, a, clock);
  }

  lemma AcceptedForItsUpload(
      cfg: Config, hashes: Hashes, h: Host, key: Key, o: Ownership, upload: Upload, a: Action, clock: Clock)
    requires KnownFile(h, key) && o.allocation == key.allocation && o.operation == key.operation
    requires FileEntry(cfg, hashes, h, o, upload, a, clock).1.None?
    ensures hashes.upload(upload) == h.fences[key.allocation].files[key.operation].digest
    ensures upload.operation == key.operation
  {
    ExpiryKeepsFile(h, clock.mono, key);
    hide Expire, CheckOwner, NewFileRefusal, Claim;
  }

  lemma ExpiryKeepsFile(h: Host, mono: int, key: Key)
    requires KnownFile(h, key)
    ensures KnownFile(Expire(h, mono), key)
    ensures Expire(h, mono).fences[key.allocation].files == h.fences[key.allocation].files
  {}
}
