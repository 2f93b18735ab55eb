/** The two capture tasks of crates/sandbox-guest/src/runner.rs, which share one output
    budget: every interleaving of their steps, and the ranged reads of what they publish. */
module Capture {
  import opened Wrappers
  import opened Bytes

  const MAX_OUTPUT: nat := 16 * 1024 * 1024
  const MAX_U64: nat := 0xffff_ffff_ffff_ffff
  const BUFFER := 8192

  datatype Output = Output(seen: nat, stored: nat, truncated: bool) {
    // Receipt shape required of each stream (crates/sandbox-protocol/src/guest_model.rs).
    predicate Consistent() {
      stored <= seen && (truncated <==> stored < seen)
    }
  }

  const EMPTY := Output(0, 0, false)

  datatype Phase =
    | Reading
    | Charged(chunk: seq<byte>, keep: nat)
    | Written
    | Failed

  // `stream` is everything read from the pipe so far, `file` what reached the output file.
  datatype Task = Task(stream: seq<byte>, file: seq<byte>, result: Output, phase: Phase)

  const NEW_TASK := Task([], [], EMPTY, Reading)

  datatype State = State(limit: nat, budget: nat, out: Task, err: Task, published: Output, publishedErr: Output) {
    // Both pipes can come to their end now: nothing read is unwritten and no write has failed.
    predicate Ended() {
      out.phase.Reading? && err.phase.Reading?
    }
  }

  function Start(limit: nat): State {
    State(limit, limit, NEW_TASK, NEW_TASK, EMPTY, EMPTY)
  }

  datatype Event =
    | Charge(stdout: bool, chunk: seq<byte>)
    | Write(stdout: bool)
    | Publish(stdout: bool)
    | WriteFails(stdout: bool, partial: nat)

  function Min(a: nat, b: nat): nat {
    if a < b then a else b
  }

  function TaskOf(s: State, stdout: bool): Task {
    if stdout then s.out else s.err
  }

  function WithTask(s: State, stdout: bool, t: Task): State {
    if stdout then s.(out := t) else s.(err := t)
  }

  // One read counts as seen and takes what is left of the shared budget, atomically.
  function Step(s: State, e: Event): State {
    var t := TaskOf(s, e.stdout);
    match e
    case Charge(stdout, chunk) =>
      if !t.phase.Reading? || !(0 < |chunk| <= BUFFER) then s
      else
        var keep := Min(|chunk|, s.budget);
        WithTask(s.(budget := s.budget - keep), stdout,
                 t.(stream := t.stream + chunk,
                    result := t.result.(seen := Min(t.result.seen + |chunk|, MAX_U64)),
                    phase := Charged(chunk, keep)))
    case Write(stdout) =>
      if !t.phase.Charged? || t.phase.keep > |t.phase.chunk| then s
      else
        WithTask(s, stdout,
                 t.(file := t.file + t.phase.chunk[..t.phase.keep],
                    result := t.result.(stored := t.result.stored + t.phase.keep,
                                        truncated := t.result.truncated || t.phase.keep < |t.phase.chunk|),
                    phase := Written))
    case Publish(stdout) =>
      if !t.phase.Written? then s
      else
        var s' := WithTask(s, stdout, t.(phase := Reading));
        if stdout then s'.(published := t.result) else s'.(publishedErr := t.result)
    case WriteFails(stdout, partial) =>
      if !t.phase.Charged? || t.phase.keep > |t.phase.chunk| then s
      else
        WithTask(s, stdout,
                 t.(file := t.file + t.phase.chunk[..Min(partial, t.phase.keep)], phase := Failed))
  }

  function Run(s: State, events: seq<Event>): State
    decreases |events|
  {
    if events == [] then s else Run(Step(s, events[0]), events[1..])
  }

  // Bytes of the budget a task has taken: stored, or charged and about to be.
  function Taken(t: Task): nat {
    match t.phase
    case Charged(_, keep) => t.result.stored + keep
    case _ => t.result.stored
  }

  // --- the invariant ---

  ghost predicate TaskFits(t: Task, budget: nat) {
    && t.file <= t.stream
    && t.result.seen == Min(|t.stream|, MAX_U64)
    && (t.result.truncated ==> budget == 0)
    && match t.phase
       case Charged(chunk, keep) =>
         && keep <= |chunk| <= |t.stream|
         && t.result.stored == |t.file|
         && (keep < |chunk| ==> budget == 0)
         && (t.result.truncated ==> keep == 0)
         && (if t.result.truncated then |t.file| + |chunk| < |t.stream| else t.file + chunk == t.stream)
       case Failed => t.result.stored <= |t.file|
       case _ =>
         && t.result.stored == |t.file|
         && (t.result.truncated <==> |t.file| < |t.stream|)
  }

  ghost predicate PublishedFits(o: Output, t: Task) {
    o.Consistent() && o.stored <= |t.file| && o.stored <= t.result.stored && o.seen <= |t.stream|
  }

  ghost predicate AnyFailed(s: State) {
    s.out.phase.Failed? || s.err.phase.Failed?
  }

  ghost predicate Inv(s: State) {
    && 1 <= s.limit <= MAX_OUTPUT
    && TaskFits(s.out, s.budget)
    && TaskFits(s.err, s.budget)
    && s.budget + Taken(s.out) + Taken(s.err) <= s.limit
    && (!AnyFailed(s) ==> s.budget + Taken(s.out) + Taken(s.err) == s.limit)
    && PublishedFits(s.published, s.out)
    && PublishedFits(s.publishedErr, s.err)
  }

  lemma ChargeFits(t: Task, budget: nat, chunk: seq<byte>)
    requires TaskFits(t, budget) && t.phase.Reading? && chunk != []
    ensures var keep := Min(|chunk|, budget);
            TaskFits(t.(stream := t.stream + chunk,
                        result := t.result.(seen := Min(t.result.seen + |chunk|, MAX_U64)),
                        phase := Charged(chunk, keep)), budget - keep)
  {
    if !t.result.truncated {
      assert t.file == t.stream;
    }
    assert t.file <= t.stream + chunk;
  }

  lemma WriteFits(t: Task, budget: nat)
    requires TaskFits(t, budget) && t.phase.Charged? && |t.file| <= MAX_OUTPUT
    ensures TaskFits(t.(file := t.file + t.phase.chunk[..t.phase.keep],
                        result := t.result.(stored := t.result.stored + t.phase.keep,
                                            truncated := t.result.truncated || t.phase.keep < |t.phase.chunk|),
                        phase := Written), budget)
  {
    WrittenIsPrefix(t, budget, t.phase.keep);
  }

  lemma WrittenIsPrefix(t: Task, budget: nat, n: nat)
    requires TaskFits(t, budget) && t.phase.Charged? && n <= t.phase.keep
    ensures t.file + t.phase.chunk[..n] <= t.stream
  {
    if t.result.truncated {
      assert t.file + t.phase.chunk[..n] == t.file;
    } else {
      assert t.stream == t.file + t.phase.chunk[..n] + t.phase.chunk[n..];
    }
  }

  lemma SmallerBudgetFits(t: Task, budget: nat, less: nat)
    requires TaskFits(t, budget) && less <= budget
    ensures TaskFits(t, less)
  {}

  // One task moves on; the other one, the limit and what it published stay.
  lemma TaskMoves(s: State, stdout: bool, t: Task, budget: nat)
    requires Inv(s) && budget <= s.budget
    requires TaskFits(t, budget)
    requires s.budget + Taken(TaskOf(s, stdout)) == budget + Taken(t) || t.phase.Failed?
    requires s.budget + Taken(TaskOf(s, stdout)) >= budget + Taken(t)
    requires TaskOf(s, stdout).phase.Failed? ==> t.phase.Failed?
    requires |TaskOf(s, stdout).file| <= |t.file| && |TaskOf(s, stdout).stream| <= |t.stream|
    requires TaskOf(s, stdout).result.stored <= t.result.stored
    ensures Inv(WithTask(s.(budget := budget), stdout, t))
  {
    SmallerBudgetFits(TaskOf(s, !stdout), s.budget, budget);
  }

  lemma ChargeKeepsInv(s: State, stdout: bool, chunk: seq<byte>)
    requires Inv(s)
    ensures Inv(Step(s, Charge(stdout, chunk)))
  {
    var t := TaskOf(s, stdout);
    if t.phase.Reading? && 0 < |chunk| <= BUFFER {
      var keep := Min(|chunk|, s.budget);
      ChargeFits(t, s.budget, chunk);
      TaskMoves(s, stdout, t.(stream := t.stream + chunk,
                              result := t.result.(seen := Min(t.result.seen + |chunk|, MAX_U64)),
                              phase := Charged(chunk, keep)), s.budget - keep);
    }
  }

  lemma WriteKeepsInv(s: State, stdout: bool)
    requires Inv(s)
    ensures Inv(Step(s, Write(stdout)))
  {
    var t := TaskOf(s, stdout);
    if t.phase.Charged? {
      WriteFits(t, s.budget);
      TaskMoves(s, stdout, TaskOf(Step(s, Write(stdout)), stdout), s.budget);
    }
  }

  lemma PublishKeepsInv(s: State, stdout: bool)
    requires Inv(s)
    ensures Inv(Step(s, Publish(stdout)))
  {
    var t := TaskOf(s, stdout);
    if t.phase.Written? {
      TaskMoves(s, stdout, t.(phase := Reading), s.budget);
    }
  }

  lemma FailureKeepsInv(s: State, stdout: bool, partial: nat)
    requires Inv(s)
    ensures Inv(Step(s, WriteFails(stdout, partial)))
  {
    var t := TaskOf(s, stdout);
    if t.phase.Charged? {
      WrittenIsPrefix(t, s.budget, Min(partial, t.phase.keep));
      TaskMoves(s, stdout, TaskOf(Step(s, WriteFails(stdout, partial)), stdout), s.budget);
    }
  }

  lemma StepKeepsInv(s: State, e: Event)
    requires Inv(s)
    ensures Inv(Step(s, e))
  {
    hide Inv;
    match e {
      case Charge(stdout, chunk) => ChargeKeepsInv(s, stdout, chunk);
      case Write(stdout) => WriteKeepsInv(s, stdout);
      case Publish(stdout) => PublishKeepsInv(s, stdout);
      case WriteFails(stdout, partial) => FailureKeepsInv(s, stdout, partial);
    }
  }

  lemma {:induction false} RunKeepsInv(s: State, events: seq<Event>)
    requires Inv(s)
    ensures Inv(Run(s, events)) && Run(s, events).limit == s.limit
    decreases |events|
  {
    if events != [] {
      StepKeepsInv(s, events[0]);
      RunKeepsInv(Step(s, events[0]), events[1..]);
    }
  }

  /** However the two tasks interleave: budget left plus bytes taken is the limit, the total
      taken is min(limit, total read), each file is a prefix of its own stream, a settled
      stream is truncated exactly when it lost bytes, and everything published is a
      consistent receipt whose two streams fit the limit together. */
  lemma EveryInterleavingSharesTheBudget(limit: nat, events: seq<Event>)
    requires 1 <= limit <= MAX_OUTPUT
    ensures var s := Run(Start(limit), events);
            && s.out.file <= s.out.stream && s.err.file <= s.err.stream
            && (!AnyFailed(s) ==>
              && s.budget + Taken(s.out) + Taken(s.err) == limit
              && Taken(s.out) + Taken(s.err) == Min(limit, |s.out.stream| + |s.err.stream|))
            && (s.out.phase.Reading? ==> s.out.result.truncated == (|s.out.file| < |s.out.stream|))
            && (s.err.phase.Reading? ==> s.err.result.truncated == (|s.err.file| < |s.err.stream|))
            && s.published.Consistent() && s.publishedErr.Consistent()
            && s.published.stored + s.publishedErr.stored <= limit
            && s.published.stored <= |s.out.file| && s.publishedErr.stored <= |s.err.file|
  {
    assert Inv(Start(limit));
    RunKeepsInv(Start(limit), events);
    var s := Run(Start(limit), events);
    if !AnyFailed(s) {
      TakenAgainstRead(s.out, s.budget);
      TakenAgainstRead(s.err, s.budget);
    }
  }

  /** What both tasks return at their end fits a receipt with this limit, as does what they have
      published at any time. */
  lemma CountersFitReceipt(limit: nat, events: seq<Event>)
    requires 1 <= limit <= MAX_OUTPUT
    ensures var s := Run(Start(limit), events);
            && s.published.Consistent() && s.publishedErr.Consistent()
            && s.published.stored + s.publishedErr.stored <= limit
            && (s.Ended() ==>
                  && s.out.result.Consistent() && s.err.result.Consistent()
                  && s.out.result.stored + s.err.result.stored <= limit)
  {
    RunKeepsInv(Start(limit), events);
    EveryInterleavingSharesTheBudget(limit, events);
    hide Run;
  }

  lemma TakenAgainstRead(t: Task, budget: nat)
    requires TaskFits(t, budget) && !t.phase.Failed?
    ensures Taken(t) <= |t.stream|
    ensures Taken(t) < |t.stream| ==> budget == 0
  {}

  // --- the two streams are kept apart ---

  // What was read from one pipe: the chunks its task took, in order.
  function PipeBytes(s: State, events: seq<Event>, stdout: bool): seq<byte>
    decreases |events|
  {
    if events == [] then []
    else
      var e := events[0];
      (if e.Charge? && e.stdout == stdout && Reads(s, e) then e.chunk else [])
      + PipeBytes(Step(s, e), events[1..], stdout)
  }

  predicate Reads(s: State, e: Event)
    requires e.Charge?
  {
    (if e.stdout then s.out else s.err).phase.Reading? && 0 < |e.chunk| <= BUFFER
  }

  lemma {:induction false} StreamIsItsPipe(s: State, events: seq<Event>, stdout: bool)
    ensures (if stdout then Run(s, events).out else Run(s, events).err).stream ==
            (if stdout then s.out else s.err).stream + PipeBytes(s, events, stdout)
    decreases |events|
  {
    if events != [] {
      var e := events[0];
      StepReads(s, e, stdout);
      StreamIsItsPipe(Step(s, e), events[1..], stdout);
      hide Step;
    }
  }

  lemma StepReads(s: State, e: Event, stdout: bool)
    ensures (if stdout then Step(s, e).out else Step(s, e).err).stream ==
            (if stdout then s.out else s.err).stream
            + (if e.Charge? && e.stdout == stdout && Reads(s, e) then e.chunk else [])
  {}

  /** Over every interleaving, once both tasks are between two chunks: the file of a stream is a
      prefix of what was read from its own pipe, its stored count is the length of that file, its
      seen count what was read, and it is marked truncated exactly when the file is shorter. */
  lemma CountersDescribeTheirStream(limit: nat, events: seq<Event>, stdout: bool)
    requires 1 <= limit <= MAX_OUTPUT && Run(Start(limit), events).Ended()
    ensures var end := Run(Start(limit), events);
            var t := if stdout then end.out else end.err;
            var pipe := PipeBytes(Start(limit), events, stdout);
            && t.file <= pipe
            && t.result == Output(Min(|pipe|, MAX_U64), |t.file|, |t.file| < |pipe|)
  {
    var end := Run(Start(limit), events);
    RunKeepsInv(Start(limit), events);
    StreamIsItsPipe(Start(limit), events, stdout);
    var t := if stdout then end.out else end.err;
    var pipe := PipeBytes(Start(limit), events, stdout);
    assert (if stdout then Start(limit).out else Start(limit).err).stream + pipe == pipe;
    hide Run, PipeBytes;
  }

  // --- counters only grow ---

  predicate Grows(a: Output, b: Output) {
    a.seen <= b.seen && a.stored <= b.stored && (a.truncated ==> b.truncated)
  }

  // What is published never runs ahead of what the tasks have counted.
  predicate Behind(s: State) {
    && Grows(s.published, s.out.result) && Grows(s.publishedErr, s.err.result)
    && s.out.result.seen <= MAX_U64 && s.err.result.seen <= MAX_U64
  }

  lemma StepPublishesMore(s: State, e: Event)
    requires Behind(s)
    ensures var s' := Step(s, e);
            && Behind(s')
            && Grows(s.published, s'.published) && Grows(s.publishedErr, s'.publishedErr)
            && Grows(s.out.result, s'.out.result) && Grows(s.err.result, s'.err.result)
  {}

  /** What is published of either stream only grows, and what its task returns in the end is no
      less. */
  lemma {:induction false} CountersOnlyGrow(s: State, events: seq<Event>)
    requires Behind(s)
    ensures var s' := Run(s, events);
            && Behind(s')
            && Grows(s.published, s'.published) && Grows(s.publishedErr, s'.publishedErr)
    decreases |events|
  {
    if events != [] {
      StepPublishesMore(s, events[0]);
      hide Step;
      CountersOnlyGrow(Step(s, events[0]), events[1..]);
    }
  }

  lemma {:induction false} RunSplits(s: State, first: seq<Event>, second: seq<Event>)
    ensures Run(s, first + second) == Run(Run(s, first), second)
    decreases |first|
  {
    if first == [] {
      assert first + second == second;
    } else {
      assert (first + second)[0] == first[0] && (first + second)[1..] == first[1..] + second;
      RunSplits(Step(s, first[0]), first[1..], second);
    }
  }

  // --- the same steps on the shared counters, files and receipt ---

  class OutputCapture {
    const limit: nat
    var budget: nat
    var out: Task
    var err: Task
    var published: Output
    var publishedErr: Output

    function View(): State
      reads this
    {
      State(limit, budget, out, err, published, publishedErr)
    }

    constructor (limit: nat)
      ensures View() == Start(limit)
    {
      this.limit := limit;
      budget := limit;
      out, err := NEW_TASK, NEW_TASK;
      published, publishedErr := EMPTY, EMPTY;
    }

    // fetch_update: the budget before the update decides what may be kept.
    method TakeBudget(count: nat) returns (before: nat)
      modifies this`budget
      ensures before == old(budget) && budget == if count < before then before - count else 0
    {
      before := budget;
      budget := if count < before then before - count else 0;
    }

    method Put(stdout: bool, t: Task)
      modifies this`out, this`err
      ensures View() == WithTask(old(View()), stdout, t)
    {
      if stdout { out := t; } else { err := t; }
    }

    method ReadChunk(stdout: bool, bytes: seq<byte>)
      requires TaskOf(View(), stdout).phase.Reading? && 0 < |bytes| <= BUFFER
      modifies this
      ensures View() == Step(old(View()), Charge(stdout, bytes))
    {
      var t := if stdout then out else err;
      var seen := if t.result.seen + |bytes| < MAX_U64 then t.result.seen + |bytes| else MAX_U64;
      var before := TakeBudget(|bytes|);
      var keep := if |bytes| < before then |bytes| else before;
      Put(stdout, t.(stream := t.stream + bytes, result := t.result.(seen := seen), phase := Charged(bytes, keep)));
    }

    method WriteChunk(stdout: bool)
      requires TaskOf(View(), stdout).phase.Charged?
      requires TaskOf(View(), stdout).phase.keep <= |TaskOf(View(), stdout).phase.chunk|
      modifies this
      ensures View() == Step(old(View()), Write(stdout))
    {
      var t := if stdout then out else err;
      var Charged(bytes, keep) := t.phase;
      var result := t.result.(stored := t.result.stored + keep,
                              truncated := t.result.truncated || keep < |bytes|);
      Put(stdout, t.(file := t.file + bytes[..keep], result := result, phase := Written));
    }

    method FailWrite(stdout: bool, partial: nat)
      requires TaskOf(View(), stdout).phase.Charged?
      requires TaskOf(View(), stdout).phase.keep <= |TaskOf(View(), stdout).phase.chunk|
      modifies this
      ensures View() == Step(old(View()), WriteFails(stdout, partial))
    {
      var t := if stdout then out else err;
      var written := if partial < t.phase.keep then partial else t.phase.keep;
      Put(stdout, t.(file := t.file + t.phase.chunk[..written], phase := Failed));
    }

    method PublishCounters(stdout: bool)
      requires TaskOf(View(), stdout).phase.Written?
      modifies this
      ensures View() == Step(old(View()), Publish(stdout))
    {
      var t := if stdout then out else err;
      if stdout { published := t.result; } else { publishedErr := t.result; }
      Put(stdout, t.(phase := Reading));
    }
  }

  // --- ranged reads ---

  const MAX_CHUNK := 32 * 1024

  datatype OutputChunk = OutputChunk(data: seq<byte>, nextOffset: nat, atEnd: bool)

  /** One read of a stream whose receipt snapshot accounts for `stored` bytes. The file
      system may return fewer bytes than asked for, but not none. */
  method ReadOutput(file: Option<seq<byte>>, stored: nat, outputLimit: nat, offset: nat, limit: nat, short: nat)
    returns (r: Option<OutputChunk>)
    ensures r.Some? <==>
            && 0 < limit <= MAX_CHUNK && offset <= outputLimit
            && match file
               case Some(bytes) => |bytes| <= outputLimit && offset <= stored <= |bytes|
               case None => stored == 0 && offset == 0
    ensures r.Some? ==>
            && r.value.nextOffset == offset + |r.value.data| <= stored
            && (r.value.atEnd <==> r.value.nextOffset == stored)
            && (!r.value.atEnd ==> r.value.data != [])
            && |r.value.data| <= limit
            && (file.Some? ==> r.value.data == file.value[offset..r.value.nextOffset])
  {
    if limit == 0 || limit > MAX_CHUNK { return None; }
    if offset > outputLimit { return None; }
    var data := [];
    var len := 0;
    match file {
      case Some(bytes) =>
        if |bytes| > outputLimit { return None; }
        if |bytes| < stored || offset > stored { return None; }
        var wanted := if stored - offset < limit then stored - offset else limit;
        var count := if short == 0 || short > wanted then wanted else short;
        data := bytes[offset..offset + count];
        len := stored;
      case None =>
        if stored != 0 { return None; }
        if offset != 0 { return None; }
    }
    var next := offset + |data|;
    return Some(OutputChunk(data, next, next >= len));
  }

  /** Following the offsets to the end rebuilds exactly the published prefix of the stream,
      whatever has been written to the file beyond it. */
  method ReadAll(file: seq<byte>, stored: nat, outputLimit: nat, limit: nat, short: nat -> nat)
    returns (data: seq<byte>)
    requires stored <= |file| <= outputLimit && 0 < limit <= MAX_CHUNK
    ensures data == file[..stored]
  {
    data := [];
    var done := false;
    while !done
      invariant |data| <= stored && data == file[..|data|]
      invariant done ==> |data| == stored
      decreases stored - |data|, !done
    {
      var r := ReadOutput(Some(file), stored, outputLimit, |data|, limit, short(|data|));
      ghost var before := data;
      data := data + r.value.data;
      assert data == file[..r.value.nextOffset];
      done := r.value.atEnd;
    }
  }
}
