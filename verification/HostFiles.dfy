/** File staging in the simulated supervisor: entry, chunks, commit and abort keep the invariant,
    and what each action does to the staged and published bytes. */
module HostFiles {
  import opened Wrappers
  import opened Totals
  import opened Bytes
  import opened HostModel
  import opened HostSafety
  import opened HostSteps

  // One fence's file journal rewritten.
  ghost predicate Refiles(h: Host, h': Host, id: Id) {
    && h'.allocations == h.allocations && h'.sandboxes == h.sandboxes
    && h'.started == h.started && h'.totalStarts == h.totalStarts
    && id in h.fences && id in h'.fences && h'.fences == h.fences[id := h'.fences[id]]
    && FenceFits(h'.fences[id])
    && SameOwner(h'.fences[id], h.fences[id].project, h.fences[id].sandbox, h.fences[id].generation)
    && h'.fences[id].stopped == h.fences[id].stopped
    && Total(FileCounts(h.fences)) - |h.fences[id].files| + |h'.fences[id].files| <= MAX_HOST_FILES
  }

  lemma RefilesKeepsInv(cfg: Config, h: Host, h': Host, id: Id)
    requires Inv(cfg, h) && Refiles(h, h', id) && BufferInv(h')
    ensures Inv(cfg, h')
  {
    assert OnlyEnds(h, h') by {
      hide Inv, FenceFits, Total, FileCounts;
    }
    assert AllocationInv(h') by {
      hide FenceFits, Total, FileCounts, LogFits, FenceInv, BufferInv;
      forall a | a in h'.allocations
        ensures RecordFits(h', a)
      {
        assert RecordFits(h, a);
      }
    }
    hide AllocationInv, BufferInv, FenceFits, FenceInv;
    EndsKeepLog(h, h');
    PutKeepsFences(h.fences, id, h'.fences[id]);
    hide LogFits, WithinCapacity;
  }

  // --- entering ---

  // What a transfer that was not refused may rely on.
  ghost predicate Entered(hashes: Hashes, h: Host, o: Ownership, upload: Upload, a: Action) {
    && o.allocation in h.fences && upload.size <= MAX_FILE_BYTES
    && var f := h.fences[o.allocation];
       if o.operation in f.files then f.files[o.operation].digest == hashes.upload(upload)
       else
         && o.operation !in f.commands && |f.files| < MAX_FILES
         && Total(FileCounts(h.fences)) < MAX_HOST_FILES
         && (Beginning(a, Live(h, o.allocation), f) ==> Total(Sizes(f.files)) + upload.size <= MAX_RESERVED)
  }

  lemma ClaimCounts(h: Host, o: Ownership)
    requires Claim(h, o).1.None?
    ensures Total(FileCounts(Claim(h, o).0.fences)) == Total(FileCounts(h.fences))
  {
    CountsAfter(h.fences, o.allocation, Claim(h, o).0.fences[o.allocation]);
    hide Total, FileCounts;
  }

  lemma ClaimKeepsLive(h: Host, o: Ownership)
    ensures Claim(h, o).0.allocations == h.allocations
    ensures Claim(h, o).1.None? && o.allocation in h.fences ==>
      Claim(h, o).0.fences[o.allocation].stopped == h.fences[o.allocation].stopped
  {}

  lemma FileEntryShape(cfg: Config, hashes: Hashes, h: Host, o: Ownership, upload: Upload, a: Action, clock: Clock)
    ensures var (h1, refused) := FileEntry(cfg, hashes, h, o, upload, a, clock);
            var expired := Expire(h, clock.mono);
            && (h1 == h || h1 == expired || h1 == Claim(expired, o).0)
            && (refused.None? ==>
                  && h1 == Claim(expired, o).0 && Claim(expired, o).1.None? && upload.size <= MAX_FILE_BYTES
                  && (if o.allocation in expired.fences && o.operation in expired.fences[o.allocation].files
                      then expired.fences[o.allocation].files[o.operation].digest == hashes.upload(upload)
                      else NewFileRefusal(expired, o, upload, a).None?))
  {
    hide Expire, Claim, CheckOwner, NewFileRefusal, ChunkBounded, ChunkFits;
  }

  lemma EntryIsEntered(cfg: Config, hashes: Hashes, h: Host, o: Ownership, upload: Upload, a: Action, clock: Clock)
    requires Inv(cfg, h)
    ensures var (h1, refused) := FileEntry(cfg, hashes, h, o, upload, a, clock);
            Inv(cfg, h1) && (refused.None? ==> Entered(hashes, h1, o, upload, a))
  {
    hide Inv, Expire, Claim, FileEntry, Live, Total, FileCounts, Sizes;
    var expired := Expire(h, clock.mono);
    ExpireKeepsInv(cfg, h, clock.mono);
    ClaimKeepsInv(cfg, expired, o);
    FileEntryShape(cfg, hashes, h, o, upload, a, clock);
    if Claim(expired, o).1.None? {
      ClaimShape(expired, o);
      ClaimCounts(expired, o);
      ClaimKeepsLive(expired, o);
      LiveHasFence(cfg, expired, o.allocation);
      LiveDepends(expired, Claim(expired, o).0, o.allocation);
    }
  }

  lemma LiveHasFence(cfg: Config, h: Host, id: Id)
    requires Inv(cfg, h)
    ensures Live(h, id) ==> id in h.fences
  {
    if id in h.allocations {
      assert RecordFits(h, id);
    }
    hide LogFits, WithinCapacity, FenceInv, BufferInv;
  }

  lemma LiveDepends(h: Host, h': Host, id: Id)
    requires h'.allocations == h.allocations
    ensures Live(h', id) == Live(h, id)
  {}

  // --- journal updates ---

  lemma AddedFileFits(files: map<Id, FileRecord>, op: Id, file: FileRecord)
    requires FilesFit(files) && op !in files && |files| < MAX_FILES && FileFits(file)
    requires Total(Sizes(files)) + file.size <= MAX_RESERVED
    ensures FilesFit(files[op := file])
  {
    SizePuts(files, op, file);
    hide Total, FileFits;
    assert Sizes(files[op := file]) == Sizes(files)[op := file.size];
    TotalPuts(Sizes(files), op, file.size);
    hide Sizes;
  }

  lemma ChangedFileFits(files: map<Id, FileRecord>, op: Id, file: FileRecord)
    requires FilesFit(files) && op in files && FileFits(file) && file.size == files[op].size
    ensures FilesFit(files[op := file])
  {
    SizePuts(files, op, file);
    hide Total, FileFits;
    assert Sizes(files[op := file]) == Sizes(files);
    hide Sizes;
  }

  lemma FenceWithFiles(f: Fence, files: map<Id, FileRecord>)
    requires FenceFits(f) && FilesFit(files) && f.commands.Keys !! files.Keys
    ensures FenceFits(f.(files := files))
  {
    hide FilesFit, CommandsFit;
  }

  lemma AddedFence(f: Fence, op: Id, file: FileRecord)
    requires FenceFits(f) && op !in f.files && op !in f.commands && |f.files| < MAX_FILES
    requires FileFits(file) && Total(Sizes(f.files)) + file.size <= MAX_RESERVED
    ensures FenceFits(f.(files := f.files[op := file])) && |f.files[op := file]| == |f.files| + 1
  {
    hide FilesFit, CommandsFit, FileFits, Total, Sizes;
    AddedFileFits(f.files, op, file);
    SizePuts(f.files, op, file);
    FenceWithFiles(f, f.files[op := file]);
  }

  lemma KeepAddedRefiles(cfg: Config, h: Host, staged: map<Key, seq<byte>>, key: Key, file: FileRecord)
    requires Inv(cfg, h) && key.allocation in h.fences
    requires var f := h.fences[key.allocation];
             && key.operation !in f.files && key.operation !in f.commands && |f.files| < MAX_FILES
             && FileFits(file) && Total(Sizes(f.files)) + file.size <= MAX_RESERVED
    requires Total(FileCounts(h.fences)) < MAX_HOST_FILES
    ensures Refiles(h, KeepFile(h.(staged := staged), key, file), key.allocation)
  {
    hide Inv, FenceFits, Total, FileCounts, Sizes, FileFits;
    FenceFitsAt(cfg, h, key.allocation);
    AddedFence(h.fences[key.allocation], key.operation, file);
  }

  lemma ChangedFence(f: Fence, op: Id, file: FileRecord)
    requires FenceFits(f) && op in f.files && FileFits(file) && file.size == f.files[op].size
    ensures FenceFits(f.(files := f.files[op := file])) && |f.files[op := file]| == |f.files|
  {
    hide FilesFit, CommandsFit, FileFits;
    ChangedFileFits(f.files, op, file);
    SizePuts(f.files, op, file);
    FenceWithFiles(f, f.files[op := file]);
  }

  lemma KeepChangedRefiles(cfg: Config, h: Host, h1: Host, key: Key, file: FileRecord)
    requires Inv(cfg, h) && key.allocation in h.fences && key.operation in h.fences[key.allocation].files
    requires h1 == h.(staged := h1.staged, published := h1.published, fileCommits := h1.fileCommits)
    requires FileFits(file) && file.size == h.fences[key.allocation].files[key.operation].size
    ensures Refiles(h, KeepFile(h1, key, file), key.allocation)
  {
    hide Inv, FenceFits, Total, FileCounts, FileFits;
    FenceFitsAt(cfg, h, key.allocation);
    CountsBounded(cfg, h);
    ChangedFence(h.fences[key.allocation], key.operation, file);
  }

  lemma CountsBounded(cfg: Config, h: Host)
    requires Inv(cfg, h)
    ensures Total(FileCounts(h.fences)) <= MAX_HOST_FILES
  {
    hide AllocationInv, LogFits, WithinCapacity, BufferInv, Total, FileCounts;
  }

  lemma FileFitsAt(cfg: Config, h: Host, key: Key)
    requires Inv(cfg, h) && key.allocation in h.fences && key.operation in h.fences[key.allocation].files
    ensures FileFits(h.fences[key.allocation].files[key.operation])
  {
    FenceFitsAt(cfg, h, key.allocation);
    hide Inv, FileFits;
  }

  // --- one action ---

  // Where a file record stands after an update.
  lemma StagingAfter(h: Host, h': Host, key: Key, file: FileRecord, k: Key)
    requires key.allocation in h.fences && h'.fences == KeepFile(h, key, file).fences
    ensures Staging(h', k) == if k == key then !file.notStarted && file.state == 1 else Staging(h, k)
  {}

  lemma RunningAfter(h: Host, h': Host, key: Key, file: FileRecord, id: Id)
    requires key.allocation in h.fences && h'.fences == KeepFile(h, key, file).fences && h'.allocations == h.allocations
    ensures Running(h', id) == Running(h, id)
  {}

  // Buffers after an update of one transfer.
  lemma BufferedAfter(h: Host, h': Host, key: Key, file: FileRecord)
    requires Buffered(h) && key.allocation in h.fences
    requires h'.fences == KeepFile(h, key, file).fences && h'.allocations == h.allocations
    requires forall k: Key :: k != key ==> (k in h'.staged <==> k in h.staged)
    requires key in h'.staged <==> !file.notStarted && file.state == 1 && Running(h, key.allocation)
    requires !file.notStarted && file.state == 1 ==> key.allocation in h.allocations
    requires forall p :: p in h'.published ==> p in h.published || (p.0 == key.allocation && Running(h, key.allocation))
    ensures Buffered(h')
  {
    forall k: Key
      ensures Staging(h', k) == if k == key then !file.notStarted && file.state == 1 else Staging(h, k)
    {
      StagingAfter(h, h', key, file, k);
    }
    forall id
      ensures Running(h', id) == Running(h, id)
    {
      RunningAfter(h, h', key, file, id);
    }
    hide Staging, Running, KeepFile;
  }

  lemma RunningInAllocations(h: Host, id: Id)
    ensures Running(h, id) ==> id in h.allocations
  {}

  lemma StagedBytes(staged: map<Key, seq<byte>>, key: Key, bytes: seq<byte>)
    ensures Total(Lengths(staged[key := bytes])) ==
            Total(Lengths(staged)) - (if key in staged then |staged[key]| else 0) + |bytes|
  {
    hide Total;
    assert Lengths(staged[key := bytes]) == Lengths(staged)[key := |bytes|];
    TotalPuts(Lengths(staged), key, |bytes|);
  }

  lemma DroppedBytes(staged: map<Key, seq<byte>>, key: Key)
    requires key in staged
    ensures Total(Lengths(staged - {key})) == Total(Lengths(staged)) - |staged[key]|
  {
    hide Total;
    assert Lengths(staged - {key}) == Lengths(staged) - {key};
    TotalSplits(Lengths(staged), key);
  }

  lemma PublishedBytes(published: map<(Id, Id), seq<byte>>, p: (Id, Id), bytes: seq<byte>)
    ensures Total(Lengths(published[p := bytes])) <= Total(Lengths(published)) + |bytes|
  {
    hide Total;
    assert Lengths(published[p := bytes]) == Lengths(published)[p := |bytes|];
    TotalPuts(Lengths(published), p, |bytes|);
  }

  lemma BuffersOf(cfg: Config, h: Host)
    requires Inv(cfg, h)
    ensures Buffered(h) && RetainedBytes(h) <= MAX_RESERVED
  {
    hide AllocationInv, LogFits, WithinCapacity, FenceInv, RetainedBytes, Buffered;
  }

  lemma UnknownIsUnstaged(h: Host, key: Key)
    requires Buffered(h) && key.allocation in h.fences && key.operation !in h.fences[key.allocation].files
    ensures key !in h.staged
  {}

  lemma BeginsRunning(h: Host, id: Id, a: Action)
    requires id in h.fences && Beginning(a, Live(h, id), h.fences[id])
    ensures Running(h, id) && id in h.allocations
  {}

  lemma BeginKeepsInv(cfg: Config, hashes: Hashes, h: Host, o: Ownership, upload: Upload, a: Action)
    requires Inv(cfg, h) && Entered(hashes, h, o, upload, a)
    requires o.operation !in h.fences[o.allocation].files && Beginning(a, Live(h, o.allocation), h.fences[o.allocation])
    ensures var key := Key(o.allocation, o.operation);
            Inv(cfg, KeepFile(h.(staged := h.staged[key := []]), key, StagingFile(hashes.upload(upload), upload.size)))
  {
    hide Inv, Total, Lengths, Sizes, FileCounts, Live, Refiles, Running;
    var key := Key(o.allocation, o.operation);
    var file := StagingFile(hashes.upload(upload), upload.size);
    var h' := KeepFile(h.(staged := h.staged[key := []]), key, file);
    BuffersOf(cfg, h);
    UnknownIsUnstaged(h, key);
    BeginsRunning(h, o.allocation, a);
    KeepAddedRefiles(cfg, h, h.staged[key := []], key, file);
    hide Entered, Beginning, FileFits;
    StagedBytes(h.staged, key, []);
    BufferedAfter(h, h', key, file);
    hide Buffered;
    RefilesKeepsInv(cfg, h, h', key.allocation);
  }

  lemma FenceOffKeepsInv(cfg: Config, hashes: Hashes, h: Host, o: Ownership, upload: Upload, a: Action)
    requires Inv(cfg, h) && Entered(hashes, h, o, upload, a)
    requires o.operation !in h.fences[o.allocation].files
    ensures var key := Key(o.allocation, o.operation);
            Inv(cfg, KeepFile(h, key, FencedFile(hashes.upload(upload))))
  {
    hide Inv, Total, Lengths, Sizes, FileCounts, Live, Refiles, Running, Beginning;
    var key := Key(o.allocation, o.operation);
    var file := FencedFile(hashes.upload(upload));
    var h' := KeepFile(h, key, file);
    BuffersOf(cfg, h);
    UnknownIsUnstaged(h, key);
    SizesBounded(cfg, h, key.allocation);
    KeepAddedRefiles(cfg, h, h.staged, key, file);
    assert h.(staged := h.staged) == h;
    hide Entered, FileFits;
    BufferedAfter(h, h', key, file);
    hide Buffered;
    RefilesKeepsInv(cfg, h, h', key.allocation);
  }

  // A transfer that is staging under a running allocation has its buffer.
  lemma LiveStagingHasBuffer(cfg: Config, h: Host, key: Key)
    requires Inv(cfg, h) && Staging(h, key) && Running(h, key.allocation)
    ensures key in h.staged
  {
    BuffersOf(cfg, h);
    hide Inv, Staging, Running;
  }

  lemma StagedIsRunning(cfg: Config, h: Host, key: Key)
    requires Inv(cfg, h) && key in h.staged
    ensures Staging(h, key) && Running(h, key.allocation) && key.allocation in h.allocations
  {
    BuffersOf(cfg, h);
    hide Inv, Staging, Running;
  }

  lemma WriteKeepsInv(cfg: Config, h: Host, key: Key, file: FileRecord, offset: nat, data: seq<byte>)
    requires Inv(cfg, h) && key.allocation in h.fences && key.operation in h.fences[key.allocation].files
    requires file == h.fences[key.allocation].files[key.operation] && file.Open()
    ensures Inv(cfg, WriteChunk(h, key, file, offset, data).0)
  {
    hide Inv, Total, Lengths, Refiles, FileFits, Staging, Running;
    var (h', reply) := WriteChunk(h, key, file, offset, data);
    if reply.Ok? {
      BuffersOf(cfg, h);
      StagedIsRunning(cfg, h, key);
      FileFitsAt(cfg, h, key);
      StagedBytes(h.staged, key, h'.staged[key]);
      KeepChangedRefiles(cfg, h, h.(staged := h'.staged), key, file);
      BufferedAfter(h, h', key, file);
      hide Buffered;
      RefilesKeepsInv(cfg, h, h', key.allocation);
    }
  }

  lemma CommitKeepsInv(cfg: Config, hashes: Hashes, h: Host, key: Key, file: FileRecord, upload: Upload)
    requires Inv(cfg, h) && key.allocation in h.fences && key.operation in h.fences[key.allocation].files
    requires file == h.fences[key.allocation].files[key.operation] && file.Open()
    ensures Inv(cfg, CommitFile(hashes, h, key, file, upload).0)
  {
    hide Inv, Total, Lengths, Refiles, Staging, Running;
    var (h', reply) := CommitFile(hashes, h, key, file, upload);
    if reply.Ok? {
      BuffersOf(cfg, h);
      StagedIsRunning(cfg, h, key);
      FileFitsAt(cfg, h, key);
      DroppedBytes(h.staged, key);
      PublishedBytes(h.published, (key.allocation, upload.path), h.staged[key]);
      var bytes := h.staged[key];
      if |bytes| == upload.size && hashes.content(bytes) == upload.sha256 {
        var done := file.(commitRequested := true, state := 3);
        KeepChangedRefiles(cfg, h, h.(staged := h'.staged, published := h'.published, fileCommits := h'.fileCommits),
          key, done);
        BufferedAfter(h, h', key, done);
      } else {
        KeepChangedRefiles(cfg, h, h, key, file.(commitRequested := true));
        BufferedAfter(h, h', key, file.(commitRequested := true));
      }
      hide Buffered, CommitFile;
      RefilesKeepsInv(cfg, h, h', key.allocation);
    }
  }

  lemma AbortKeepsInv(cfg: Config, h: Host, key: Key, file: FileRecord)
    requires Inv(cfg, h) && key.allocation in h.fences && key.operation in h.fences[key.allocation].files
    requires file == h.fences[key.allocation].files[key.operation] && !file.Finished() && Running(h, key.allocation)
    ensures Inv(cfg, KeepFile(h.(staged := h.staged - {key}), key, file.(abortRequested := true, state := 5)))
  {
    hide Inv, Total, Lengths, Refiles, Running;
    var aborted := file.(abortRequested := true, state := 5);
    var h1 := h.(staged := h.staged - {key});
    var h' := KeepFile(h1, key, aborted);
    BuffersOf(cfg, h);
    FileFitsAt(cfg, h, key);
    LiveStagingHasBuffer(cfg, h, key);
    DroppedBytes(h.staged, key);
    KeepChangedRefiles(cfg, h, h1, key, aborted);
    hide FileFits;
    BufferedAfter(h, h', key, aborted);
    hide Buffered;
    RefilesKeepsInv(cfg, h, h', key.allocation);
  }

  lemma SameFile(h: Host, key: Key, file: FileRecord)
    requires key.allocation in h.fences && key.operation in h.fences[key.allocation].files
    requires file == h.fences[key.allocation].files[key.operation]
    ensures KeepFile(h, key, file) == h
  {
    var f := h.fences[key.allocation];
    assert f.files[key.operation := file] == f.files;
    assert h.fences[key.allocation := f] == h.fences;
  }

  lemma TransferKeepsInv(cfg: Config, hashes: Hashes, h: Host, key: Key, upload: Upload, a: Action)
    requires Inv(cfg, h) && key.allocation in h.fences && key.operation in h.fences[key.allocation].files
    ensures var file := h.fences[key.allocation].files[key.operation];
            Inv(cfg, Transfer(hashes, h, key, file, upload, a, Running(h, key.allocation)).0)
  {
    hide Inv, WriteChunk, CommitFile, KeepFile, Running;
    var file := h.fences[key.allocation].files[key.operation];
    SameFile(h, key, file);
    if !file.Finished() && Running(h, key.allocation) {
      if a.Write? && file.Open() {
        WriteKeepsInv(cfg, h, key, file, a.offset, a.data);
      } else if a.Commit? && file.Open() {
        CommitKeepsInv(cfg, hashes, h, key, file, upload);
      } else if a.Abort? && !file.abortRequested {
        AbortKeepsInv(cfg, h, key, file);
      }
    }
  }

  lemma FileKeepsInv(cfg: Config, hashes: Hashes, h: Host, o: Ownership, upload: Upload, a: Action, clock: Clock)
    requires Inv(cfg, h)
    ensures Inv(cfg, FileStep(cfg, hashes, h, o, upload, a, clock).0)
  {
    hide Inv, FileEntry, KeepFile, Transfer, Entered;
    EntryIsEntered(cfg, hashes, h, o, upload, a, clock);
    var (h1, refused) := FileEntry(cfg, hashes, h, o, upload, a, clock);
    if refused.None? && o.allocation in h1.fences {
      if o.operation in h1.fences[o.allocation].files {
        TransferKeepsInv(cfg, hashes, h1, Key(o.allocation, o.operation), upload, a);
      } else if Beginning(a, Live(h1, o.allocation), h1.fences[o.allocation]) {
        BeginKeepsInv(cfg, hashes, h1, o, upload, a);
      } else {
        FenceOffKeepsInv(cfg, hashes, h1, o, upload, a);
      }
    }
  }

  lemma SizesBounded(cfg: Config, h: Host, id: Id)
    requires Inv(cfg, h) && id in h.fences
    ensures Total(Sizes(h.fences[id].files)) <= MAX_RESERVED
  {
    FenceFitsAt(cfg, h, id);
    hide Inv, Total, Sizes;
  }
}
