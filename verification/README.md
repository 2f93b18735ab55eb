# Sandbox control plane: a Dafny model

A Dafny model of the stateful core of the sandbox service: the command runner inside a guest,
the launch-authority ledger and its registration handshake, the simulated supervisor, the
create-only object protocol with retirement markers, leased claims with cancellation, and the
wire codecs around them. `dafny verify dfyconfig.toml` checks the whole project.

## How it is built

Code that changes state step by step is modelled twice. A transition function says what one
atomic step does to the whole state, including every error answer; a class with the same fields,
loops and early exits as the source is proved to take exactly that step (`ensures (View(), reply)
== SomeStep(old(View()), ...)`). The theorems are then about arbitrary sequences of steps, by
invariants that every step keeps. Code that only computes is modelled as functions and
characterised by lemmas, usually against an independent definition of what it should mean. The
modules named Meaning, Answers, Times, Outputs, Commands and Transfers say what each answer of a
transition means and for how long it stands.

| area | modules |
|---|---|
| operation ids and barriers | OperationIds |
| launch authority | AuthorityRecords, AuthorityText, AuthorityReading, AuthorityLedger, AuthorityRuns, AuthorityMeaning, LaunchAuthority |
| registration handshake | Registration, RegistrationController |
| guest runner | Capture, RunnerModel, RunnerSafety, RunnerRecovery, RunnerRuns, RunnerWorkspace, RunnerCancellation, RunnerReopening, RunnerLeftovers, RunnerOutputs, RunnerAnswers, Runner |
| object protocol | ObjectStore, Artifacts |
| request digest | CanonicalJson, RequestDigest, JsonReading |
| simulated supervisor | HostModel, HostSafety, HostSteps, HostFiles, HostRuns, HostCommands, HostTimes, HostTransfers, FakeHost |
| event stream | Utf8, EventStreams, EventStandard, EventDeviations, EventReader |
| claims and cancellation | Claims, ClaimRuns, ClaimTimes, ClaimAnswers, OperationStore |
| downloads | Downloads |

Everything the outside world decides is a parameter or an arbitrary event: clock readings, the
order of a directory listing, whether a write fails before or after it committed, crashes,
whether a reply is lost, which request lands when and how often, what a server answers, how a
body is cut into pieces, on which boot and for which context a state directory is opened. SHA-256,
the text of a marker and the JSON profile of one stream event are uninterpreted functions; where injectivity of the hash matters it is an
explicit hypothesis about the two inputs at hand. Each database transaction and each locked
section is one atomic step. What happens outside a lock is split at the points where others can
come in between: the look of a command's worker at its cancel signal and the spawn that follows are
two steps, and so are the two sections of an archive request. The theorems about claims take
readings of the database clock to be non-decreasing; a clock set back would make an expired claim
live again.

## What the code does not promise

Each item names a lemma with an input or run on which the promise fails and one that says exactly
when it is kept.

- An acknowledged cancellation does not always keep a command from being launched. The worker of
  the command looks at the signal once and spawns later without holding the registry lock; a
  cancellation acknowledged in between is only noticed by the running command
  (`RunnerCancellation.CancelledAfterCheckStillRuns`). It comes too late if and only if that look
  has happened (`RunnerCancellation.CancellationIsTooLateExactlyPastCheck`). The deadline is
  checked at the same moment.
- A launch intent without confirmed cleanup can be retired. If the receipt write of a start fails
  after the rename took effect, the registry never learns of the receipt, and a barrier that
  covers it deletes it unchecked (`RunnerRuns.FailedStartCanBeRetired`). That happens exactly to a
  receipt that is on disk and covered but not in the registry, for acknowledged retirements
  (`RunnerRuns.UnresolvedIsRetiredExactlyWhenUnknownToTheRegistry`) and for failed ones that the
  next opening completes
  (`RunnerLeftovers.CompletedRetirementTakesUnresolvedExactlyWhenUnknown`). Such an operation was
  never launched, and receipts in state Unknown are never retired.
- A closed state directory does not always open again, even when nothing fails any more. For a
  given context it does if and only if that context names the boot it is opened on and is the one
  bound to the directory, if any is, the receipts the directory keeps fit the limits, it has a
  context or nothing but its lock file, and it has at most 642 entries
  (`RunnerReopening.ReopensExactlyWhenOpenable`). Each part can fail: a context that differs only in
  its boot id never gets in (`RunnerReopening.OnlyTheBootDiffers`), so after another boot nobody does
  (`RunnerReopening.AnotherBootRefusesEverybody`); a start that failed after committing takes
  capacity the registry does not know of (`RunnerLeftovers.FiveCommandsCanBlockReopening`), the
  temporary file of an interrupted first opening stays in the way
  (`RunnerLeftovers.InterruptedFirstOpeningStaysClosed`), and the temporary files of failed starts
  pile up, since they are only removed by an opening that gets past the count
  (`RunnerLeftovers.FailedStartsCrowdTheDirectory`).
- The stream decoder departs from the WHATWG HTML standard in five rules. It drops every leading
  byte order mark of the first line and every trailing newline of the data, where the standard
  drops one; it forgets the event id after each frame, where the standard keeps it; and it fails on
  a line that is not well-formed UTF-8 and on a frame of more than 65536 bytes, where the standard
  replaces what is ill-formed and has no limit (`EventDeviations.DoubledBomDiffers`,
  `EventDeviations.EmptyAfterAnotherDiffers`, `EventDeviations.ForgottenIdDiffers`,
  `EventDeviations.IllFormedDiffers`, `EventDeviations.OversizedDiffers`). A stream is read as the
  standard reads it if and only if all its complete lines are well-formed, no frame is too long and
  no frame that has data ends in an empty value after another or lacks an id while an earlier one is
  in force; behind two byte order marks the first line must besides be one that makes no difference,
  such as a comment (`EventStandard.StreamIsStandardExactlyWhenConforming`, for every stream; what
  a frame must meet is in `EventStandard.FrameIsStandardExactlyWhenConforming`). An unset id and an
  empty one are the same in the standard and are compared as such; the JSON profile, which is
  applied to what is handed on, tells them apart.

## Model

| member | source | states |
|---|---|---|
| OperationIds.AdvanceIsLeastAboveFloor | crates/sandbox-protocol/src/history.rs:212-236 | For every candidate, floor and other valid id: the call fails with InvalidIdentity exactly for an invalid input and with Exhausted exactly when the floor is the largest UUIDv7; otherwise the result is valid and above the floor, is the candidate itself if that was above, and else no valid id lies between floor and result |
| OperationIds.RankIsOrderIsomorphism | crates/sandbox-protocol/src/history.rs:212-236 | The 122-bit rank (timestamp, then the random fields without version and variant) is an order isomorphism on valid ids, with the shift-and-mask reconstruction as its inverse |
| OperationIds.RankIsOnto | crates/sandbox-protocol/src/history.rs:212-236 | Every number below 2^122 is the rank of a valid id, so the successor computed on ranks never leaves a gap |
| OperationIds.U128RoundTrip | crates/sandbox-protocol/src/history.rs:212-236 | Reading the 128-bit number of an identifier back gives the same five fields (section 5.7 of RFC 9562) |
| OperationIds.AsU128PreservesOrder | crates/sandbox-protocol/src/history.rs:40-42 | The order the barrier uses is the numeric order of the identifiers |
| OperationIds.BelowIsInherited | crates/sandbox-protocol/src/history.rs:212-236 | An id above everything an issuer has reserved later was already above everything it had reserved earlier, over every run of issuing and reserving |
| OperationIds.IssuanceNeverFallsUnderABarrier | crates/sandbox-protocol/src/history.rs:212-236 | After any run of issuing and of barriers being reserved, the next issued id is valid and is covered by none of the earlier barriers and ids |
| AuthorityRecords.DecodeAcceptsExactlyWellFormed | crates/sandbox-protocol/src/allocation_authority.rs:142-187 | The decode loop, with its growing sets and early exits, accepts a saved ledger if and only if it is at most 1 MiB, for this host, not behind the demanded frontier, and well formed: sorted serials up to `through`, valid permits, pairwise distinct allocations, create operations and sandbox-generation pairs |
| AuthorityText.RenderFits | crates/sandbox-protocol/src/allocation_authority.rs:132-141 | The compact JSON text of any ledger with at most the retained maximum of validated permits is at most 1 MiB |
| AuthorityText.WellFormedFits | crates/sandbox-protocol/src/allocation_authority.rs:132-141 | Hence no well-formed ledger is ever refused by the byte cap |
| AuthorityReading.RenderDetermines | crates/sandbox-protocol/src/allocation_authority.rs:132-187 | The compact JSON text determines the ledger: any two ledgers with the same text, host to last digest byte, are equal |
| AuthorityReading.SavedLedgerReadsBack | crates/sandbox-protocol/src/allocation_authority.rs:132-187 | What was saved after any run of operations is accepted when it is read back, and no other ledger has that text |
| AuthorityRuns.RegisterMeaning | crates/sandbox-protocol/src/allocation_authority.rs:188-228 | Registration succeeds if and only if the batch has 1 to 32 contiguous permits for this host and is either an exact retry of retained permits or the exact next batch, with room and no clash; a new batch extends the ledger by itself, a retry or a refusal changes nothing |
| AuthorityRuns.ApplyKeepsWellFormed | crates/sandbox-protocol/src/allocation_authority.rs:188-317 | Every operation, successful or not, keeps the ledger well formed, its host, and never lowers the frontier |
| AuthorityRuns.RunKeepsWellFormed | crates/sandbox-protocol/src/allocation_authority.rs:142-317 | Every ledger reached by any run of operations is well formed, and the verdict on it when it is reloaded at any earlier frontier is that it is accepted |
| AuthorityRuns.StepFollowsLifecycle | crates/sandbox-protocol/src/allocation_authority.rs:188-317 | One operation leaves a serial where it is, or moves it one step: register makes it active under a permit of the batch, fence, complete and forget move exactly the owner they name; no operation touches another serial |
| AuthorityRuns.RunFollowsLifecycle | crates/sandbox-protocol/src/allocation_authority.rs:188-317 | Over every run a serial only moves unregistered, active, fenced, complete, closed; its owner and, once fenced, its retirement id never change |
| AuthorityRuns.LostAuthorizationNeverReturns | crates/sandbox-protocol/src/allocation_authority.rs:268-317 | A permit that was authorized and stopped being so is never authorized again, whatever is registered, retried or reloaded afterwards |
| AuthorityRuns.CompletionBindsScope | crates/sandbox-protocol/src/allocation_authority.rs:290-311 | If an intent completed a serial, then after any run only the very same intent counts as completed for it (given that the digest separates the two intents) |
| AuthorityRuns.FrontierCountsEverySerial | crates/sandbox-protocol/src/allocation_authority.rs:188-317 | From an empty ledger the frontier equals the retained entries plus the successful forgets: no serial is lost or counted twice |
| LaunchAuthority.Authority.constructor | crates/sandbox-protocol/src/allocation_authority.rs:117-125 | A new authority is the empty well-formed ledger of its host |
| LaunchAuthority.Authority.Encode | crates/sandbox-protocol/src/allocation_authority.rs:132-141 | Encoding a valid ledger always succeeds with its compact JSON text, so the cap never blocks saving a fence or completion |
| LaunchAuthority.Authority.Decode | crates/sandbox-protocol/src/allocation_authority.rs:142-187 | The loop over saved entries with three growing sets gives the verdict that is characterised by AuthorityRecords.DecodeAcceptsExactlyWellFormed |
| LaunchAuthority.Authority.Index | crates/sandbox-protocol/src/allocation_authority.rs:229-244 | The binary search finds the entry of exactly this permit, and distinguishes an invalid, an unknown and a conflicting permit as specified |
| LaunchAuthority.Authority.CheckBatch | crates/sandbox-protocol/src/allocation_authority.rs:188-202 | The first loop of registration accepts exactly the contiguous batches of this host |
| LaunchAuthority.Authority.CheckRetained | crates/sandbox-protocol/src/allocation_authority.rs:203-208 | The retry check answers as looking every permit up in the whole ledger does |
| LaunchAuthority.Authority.Register | crates/sandbox-protocol/src/allocation_authority.rs:188-228 | Registration in place is the specified transition, and keeps the ledger valid |
| LaunchAuthority.Authority.CheckAuthorized | crates/sandbox-protocol/src/allocation_authority.rs:268-275 | Only an exact permit retained as active is authorized |
| LaunchAuthority.Authority.ActiveAllocation | crates/sandbox-protocol/src/allocation_authority.rs:253-267 | An owner is returned if and only if an active entry for the allocation is retained, and it is authorized; a retained owner that is not active is a conflict |
| LaunchAuthority.Authority.Fence | crates/sandbox-protocol/src/allocation_authority.rs:276-289 | Fencing in place is the transition characterised by AuthorityMeaning.FenceMeaning, and keeps the ledger valid |
| LaunchAuthority.Authority.Complete | crates/sandbox-protocol/src/allocation_authority.rs:290-302 | Completion in place is the specified transition of the fenced owner and keeps the ledger valid |
| LaunchAuthority.Authority.CheckCompleted | crates/sandbox-protocol/src/allocation_authority.rs:303-311 | Answers whether the entry is complete under exactly this intent |
| LaunchAuthority.Authority.Forget | crates/sandbox-protocol/src/allocation_authority.rs:312-317 | Removes exactly the entry completed by this intent, nothing else, and keeps the ledger valid |
| AuthorityMeaning.LookupMeaning | crates/sandbox-protocol/src/allocation_authority.rs:229-244 | A permit is found exactly where it is the retained owner of its serial; an invalid permit, one of another host or owner, a closed and an unregistered serial are told apart, each in terms of the stage of the serial |
| AuthorityMeaning.FenceMeaning | crates/sandbox-protocol/src/allocation_authority.rs:276-289 | Fencing succeeds if and only if the retirement id is valid and this exact permit is retained, active or already bound to that very retirement; then the serial is bound to it; another retirement of a bound owner is a conflict; a refusal changes nothing |
| AuthorityMeaning.AcknowledgedFenceIsRepeated | crates/sandbox-protocol/src/allocation_authority.rs:276-289 | Over every run after an acknowledged fence, while the entry is retained, fencing is acknowledged for that retirement and for no other, and answered Closed once it is gone |
| AuthorityMeaning.CompletionMeaning | crates/sandbox-protocol/src/allocation_authority.rs:290-302 | Completion succeeds if and only if its scope is valid and not simulated and its owner is fenced under its retirement, or complete under this very scope |
| AuthorityMeaning.CompletedMeaning | crates/sandbox-protocol/src/allocation_authority.rs:303-311 | A completion is read back if and only if the serial is complete under this very scope |
| AuthorityMeaning.AcknowledgedCompletionIsRepeated | crates/sandbox-protocol/src/allocation_authority.rs:290-311 | Over every run after an acknowledged completion, while the entry is retained, completing and reading it are acknowledged for scopes of that retirement and digest and for no others |
| AuthorityMeaning.ForgetMeaning | crates/sandbox-protocol/src/allocation_authority.rs:312-317 | Forgetting succeeds exactly when that completion can be read; then the serial is closed and every other one is where it was |
| AuthorityMeaning.ForgottenStaysClosed | crates/sandbox-protocol/src/allocation_authority.rs:312-317 | Over every run after it the permit is neither authorized, fenced, completed nor read as complete; each of these is answered Closed |
| AuthorityMeaning.RegistrationRefusals | crates/sandbox-protocol/src/allocation_authority.rs:188-228 | Why a well-shaped batch is refused: a permit behind the frontier that is not retained, a gap, no room, or a clash with what is retained |
| Registration.ValidTableServesNextPermits | crates/sandbox-store/src/allocation_permits.rs:30-108 | From a consistent table the batch after a serial is exactly the next min(32, issued - after) permits in order, with the issued frontier |
| Registration.StepKeeps | crates/sandbox-controller/src/allocation_authority.rs:4-103 | Every step of the issuer, of any of the racing controllers, of the host and of the lossy channel keeps the joint invariant and only advances the frontiers; the `required` flag is never taken back |
| Registration.FrontiersStayOrdered | crates/sandbox-controller/src/allocation_authority.rs:4-76 | Over every run from a consistent state, whatever replies are lost: recorded checkpoint <= host frontier <= issued frontier, and none of them goes back |
| Registration.ReachableFrontiersAreOrdered | crates/sandbox-controller/src/allocation_authority.rs:4-76 | From an empty table and an empty ledger, over every run, the three frontiers stay in that order and every retained owner is a permit the database issued |
| Registration.AcknowledgedRoundAdvances | crates/sandbox-controller/src/allocation_authority.rs:46-76 | A round that is acknowledged and recorded has advanced at least min(32, gap) serials, is not beyond what was issued, and leaves the acknowledged frontier recorded as required |
| Registration.NextBatchIsRefusedOnlyForCapacity | crates/sandbox-protocol/src/allocation_authority.rs:188-228 | The host refuses the exact next batch of issued permits if and only if its ledger has no room for it |
| Registration.LaunchPermitIsRegistered | crates/sandbox-controller/src/allocation_authority.rs:77-103 | A permit handed to a create request is registered on the host under this exact owner, and stays so until it is closed |
| Registration.RecordingAnswers | crates/sandbox-store/src/allocation_permits.rs:109-128 | A checkpoint is recorded exactly for the present epoch, not behind the last one, not beyond what was issued and never taking back the requirement; a refusal changes nothing |
| Registration.HostAnswers | crates/sandbox-supervisor/src/launch_authority.rs:304-319 | The host acknowledges, with its new frontier, exactly a batch under its own epoch, without permits of a later one, that the ledger accepts and saves, if the reply arrives |
| RegistrationController.PermitStore.PermitsAfter | crates/sandbox-store/src/allocation_permits.rs:30-108 | The batch loop over permit rows answers as specified: the next contiguous permits, or an error for an inconsistent table |
| RegistrationController.PermitStore.RecordRegistration | crates/sandbox-store/src/allocation_permits.rs:109-128 | The guarded checkpoint update is the specified one: only forward, only at the current epoch, `required` only set |
| RegistrationController.Controller.RegisterOnHost | crates/sandbox-supervisor/src/launch_authority.rs:304-319 | The host answers with the frontier after registering, refuses other epochs and future permits, and a lost reply leaves either the old or the new ledger |
| RegistrationController.Controller.AcceptInspection | crates/sandbox-controller/src/allocation_authority.rs:4-22 | Recording an inspected frontier is exactly the checkpoint step of the handshake |
| RegistrationController.Controller.RegisterNext | crates/sandbox-controller/src/allocation_authority.rs:46-76 | Fetching, registering and recording one batch is exactly the run of those three atomic steps; it reports a frontier only when that was recorded |
| RegistrationController.Controller.SyncAllocationAuthority | crates/sandbox-controller/src/allocation_authority.rs:23-76 | One whole exchange is exactly the run of its atomic steps, ending at the first failure or lost reply |
| Capture.EveryInterleavingSharesTheBudget | crates/sandbox-guest/src/runner.rs:558-600 | Under every interleaving of the two capture tasks: each file is a prefix of its stream; budget left plus bytes taken equals the limit; bytes taken equal min(limit, bytes read); a stream is marked truncated exactly when its file is shorter; what is published is consistent, within the limit and already in the file |
| Capture.StepKeepsInv | crates/sandbox-guest/src/runner.rs:558-600 | Each read, write, publication or failed write of one task keeps the joint invariant of both |
| Capture.RunKeepsInv | crates/sandbox-guest/src/runner.rs:558-600 | So does every run, and the limit is fixed |
| Capture.CountersFitReceipt | crates/sandbox-guest/src/runner.rs:558-600 | Under every interleaving, what both tasks have published at any time, and what they return at their end, is consistent and within the output limit together |
| Capture.CountersDescribeTheirStream | crates/sandbox-guest/src/runner.rs:558-600 | When both tasks have ended, each file is a prefix of what was read from the pipe of that very stream, its counters are the lengths of the two, and it is marked truncated exactly when the file is shorter |
| Capture.CountersOnlyGrow | crates/sandbox-guest/src/runner.rs:558-600 | Under every interleaving the published counters of a stream never decrease, nor does its result fall behind what was published |
| Capture.OutputCapture.TakeBudget | crates/sandbox-guest/src/runner.rs:558-600 | The atomic update returns the budget before and subtracts the count, stopping at zero |
| Capture.OutputCapture.ReadChunk | crates/sandbox-guest/src/runner.rs:558-600 | Reading and charging a chunk on the shared counters is one Charge step |
| Capture.OutputCapture.WriteChunk | crates/sandbox-guest/src/runner.rs:558-600 | Writing the kept part is one Write step |
| Capture.OutputCapture.FailWrite | crates/sandbox-guest/src/runner.rs:558-600 | A failed write ends that capture, with any part of the bytes in the file |
| Capture.OutputCapture.PublishCounters | crates/sandbox-guest/src/runner.rs:558-600 | Publishing copies the counters of what is already in the file |
| Capture.ReadOutput | crates/sandbox-guest/src/runner.rs:603-681 | A ranged read succeeds exactly for a valid limit and an offset within what is stored, returns the file bytes from the offset, advances unless at the end, and reports the end exactly there |
| Capture.ReadAll | crates/sandbox-guest/src/runner.rs:603-681 | Following `next_offset` from zero, with any short reads, rebuilds exactly the published prefix, and ends |
| Runner.Guest.WriteReceipt | crates/sandbox-guest/src/runner.rs:67-80 | A receipt write leaves the old or the new file, the new one for certain if it reports success; a failed one may leave its temporary file behind; nothing else changes |
| Runner.Guest.WriteBinding | crates/sandbox-guest/src/runner.rs:67-80 | The same for the context binding |
| Runner.Guest.Entries | crates/sandbox-guest/src/runner.rs:712-722 | A listing names every receipt, output file, exit report and temporary file exactly once, in any order |
| Runner.Guest.HistoryEntries | crates/sandbox-guest/src/runner.rs:712-722 | The listing for retirement and pruning is refused exactly when the directory, with its lock file and context, has more than 642 entries |
| Runner.Guest.ValidateEntries | crates/sandbox-guest/src/runner.rs:737-753 | The check loop accepts exactly when no covered file of any kind belongs to an operation that still has a workload group |
| Runner.Guest.PruneHistory | crates/sandbox-guest/src/runner.rs:754-768 | Deleting entry by entry removes only covered files, of every kind; all of them on success, and some of them when it fails in between |
| Runner.Runner.Open | crates/sandbox-guest/src/runner.rs:129-246 | Opening a state directory for any context, on any boot, with any outcome of its writes, deletions and repairs is exactly one Open step, including the refusal of a context that does not name this boot or is not the bound one, of stray files without a context and of a crowded directory; there is a runner only if all of it succeeded |
| Runner.Runner.LoadEntry | crates/sandbox-guest/src/runner.rs:181-227 | One receipt is loaded within the limits; an unsettled one is first cleaned up and rewritten as Unknown with cleanup confirmed; any failure on the way refuses the opening |
| Runner.Runner.LoadEntries | crates/sandbox-guest/src/runner.rs:181-227 | The recovery loop over all entries removes temporary files, loads receipts and leaves output alone, stopping at the first failure |
| Runner.Runner.Load | crates/sandbox-guest/src/runner.rs:181-246 | Recovery and the final check for leftover workload groups are the loading step |
| Runner.Runner.Reserved | crates/sandbox-guest/src/runner.rs:300-366 | The summing loop is the total output reservation of the retained receipts |
| Runner.Runner.Start | crates/sandbox-guest/src/runner.rs:300-366 | Admission is exactly one Start step: replay of a known id under its digest, refusal under the barrier, when busy, closed, failed or full, and otherwise a durable launch intent first |
| Runner.Runner.CheckSignal | crates/sandbox-guest/src/runner.rs:424-434 | The worker of a command looks at the cancel signal and the deadline once, and is refused if either stands |
| Runner.Runner.Launch | crates/sandbox-guest/src/runner.rs:435-480 | Later, without a lock and without looking again, it creates the cgroup and two new output files and spawns the process; any prefix of that may happen |
| Runner.Runner.Cancel | crates/sandbox-guest/src/runner.rs:370-388 | Cancellation is exactly one Cancel step |
| Runner.Runner.Publish | crates/sandbox-guest/src/runner.rs:558-600 | What the capture tasks have published, one stream at a time in any order, reaches the receipt of the active command only, and never the disk |
| Runner.Runner.Finish | crates/sandbox-guest/src/runner.rs:389-423 | The end of a command is exactly one Finish step, whose result is characterised by RunnerAnswers.FinishAnswers and RunnerOutputs.FinalReceiptDescribesItsStreams |
| Runner.Runner.AllResolved | crates/sandbox-guest/src/runner.rs:249-293 | The loop decides whether every covered receipt in the registry is resolved |
| Runner.Runner.CommitRetirement | crates/sandbox-guest/src/runner.rs:274-292 | Once nothing stands in the way the barrier becomes durable first, then the covered files go; a failure of either fails the registry |
| Runner.Runner.RetireHistory | crates/sandbox-guest/src/runner.rs:249-293 | Retirement is exactly one Retire step: the barrier is durable before any receipt is deleted |
| Runner.Runner.Shutdown | crates/sandbox-guest/src/runner.rs:685-710 | Shutdown fences admission first and then cancels the active command |
| RunnerRecovery.StepKeepsInv | crates/sandbox-guest/src/runner.rs:129-423 | Every step, with every outcome of its writes, keeps the joint invariant of registry, disk, workload groups and launches |
| RunnerRecovery.RunKeepsInv | crates/sandbox-guest/src/runner.rs:129-423 | So does every run over one state directory, with crashes and reopenings anywhere |
| RunnerRecovery.RecoverKeeps | crates/sandbox-guest/src/runner.rs:181-227 | Recovery over any listing keeps the receipts of settled operations, only mends the others, and loads every listed one if it succeeds |
| RunnerRecovery.CoveredRetirable | crates/sandbox-guest/src/runner.rs:249-293 | Whatever a successful retirement covers on disk is resolved, or a launch intent that was never launched; it is resolved exactly when the registry knows it |
| RunnerRuns.LaunchedAtMostOnce | crates/sandbox-guest/src/runner.rs:129-423 | Over every run each operation id is launched at most once, and each launched id stays receipted under its digest or is covered by the durable barrier |
| RunnerRuns.BarrierOnlyGrows | crates/sandbox-guest/src/runner.rs:249-293 | What the durable barrier covers stays covered forever, and a covered receipt that is gone never comes back |
| RunnerRuns.SettledIsFinal | crates/sandbox-guest/src/runner.rs:129-423 | A settled receipt on disk is never rewritten; it leaves the disk only if resolved and covered |
| RunnerRuns.UnknownIsNeverRetired | crates/sandbox-guest/src/runner.rs:249-293 | A receipt whose outcome is unknown stays on disk and stays unknown, over every run |
| RunnerRuns.LaunchIsRetiredOnlyResolved | crates/sandbox-guest/src/runner.rs:249-293 | Before the receipt of a launched operation disappears, it stood resolved on disk under the digest of the launch at some earlier point of the run |
| RunnerRuns.UnresolvedIsRetiredExactlyWhenUnknownToTheRegistry | crates/sandbox-guest/src/runner.rs:249-366 | An acknowledged retirement takes a receipt without confirmed cleanup if and only if it covers one that the registry never admitted; that one is a launch intent of an operation never launched |
| RunnerRuns.FailedStartCanBeRetired | crates/sandbox-guest/src/runner.rs:300-366 | Such a receipt exists: for any admissible request, a start whose write fails after committing leaves a launch intent that a covering retirement deletes |
| RunnerRuns.LaunchedNeverRestarts | crates/sandbox-guest/src/runner.rs:300-366 | A start for an id that was ever launched changes nothing, and answers only with the receipt of the same digest |
| RunnerRuns.CancelledBeforeCheckNeverRuns | crates/sandbox-guest/src/runner.rs:370-434 | An acknowledged cancellation of a command not launched yet, whose worker is not past its check, rules the launch out over every later run |
| RunnerOutputs.FinalReceiptDescribesItsStreams | crates/sandbox-guest/src/runner.rs:389-423 | However the two capture tasks interleave: after a known outcome with confirmed cleanup the durable receipt says, for stdout and for stderr, how much was read from that pipe, how long its own file is, and truncated exactly if the file is shorter |
| RunnerOutputs.ReadStream | crates/sandbox-guest/src/runner.rs:603-681 | One ranged read answers from the file and the counter of the stream that was asked for |
| RunnerOutputs.ReadWhole | crates/sandbox-guest/src/runner.rs:603-681 | Following the offsets by a receipt that describes its streams rebuilds exactly the file of the stream asked for |
| RunnerOutputs.StepKeepsMetered | crates/sandbox-guest/src/runner.rs:482-600 | The receipt of the active command always shows what its own capture tasks last published for each stream |
| RunnerOutputs.CountersNeverDecrease | crates/sandbox-guest/src/runner.rs:389-600 | Over every run without a crash, no counter of a retained receipt decreases, from the first publication to the final receipt and beyond |
| RunnerAnswers.StartAnswers | crates/sandbox-guest/src/runner.rs:300-366 | The exact answer to a start: none behind the barrier; the stored receipt exactly under its digest; otherwise a fresh intent exactly if there is room and it is durable |
| RunnerAnswers.AdmittedStartIsRemembered | crates/sandbox-guest/src/runner.rs:300-366 | Over every run with crashes and reopenings, a second start of an admitted operation changes nothing, and is answered, until the operation goes behind the barrier, exactly under the digest of the first |
| RunnerAnswers.TheCheckDecides | crates/sandbox-guest/src/runner.rs:424-480 | The one look of the worker at signal and clock decides: afterwards some run still launches the command if and only if it was not signalled and its deadline is ahead |
| RunnerAnswers.FinishAnswers | crates/sandbox-guest/src/runner.rs:389-423 | What the durable receipt and the registry say after a command: the reported state and exit exactly with confirmed cleanup, the reason of the refusal for one refused at its check, else Unknown; and that only a clean and durable end leaves the runner healthy |
| RunnerAnswers.CancelAnswers | crates/sandbox-guest/src/runner.rs:370-388 | An ended command is answered as it is; an active one is marked and signalled exactly if the mark is durable |
| RunnerAnswers.RetireAnswers | crates/sandbox-guest/src/runner.rs:249-293 | The barrier in force is answered if it reaches as far; otherwise the requested one, exactly if all it covers is resolved and barrier and deletion are durable, and then nothing it covers is left and nothing else is touched |
| RunnerWorkspace.StepKeepsWorkspace | crates/sandbox-guest/src/runner.rs:129-557 | Every step keeps the workspace invariant: a cgroup belongs to an unsettled receipt on disk that no barrier covers, output files to a known operation, and a command that has not entered yet owns neither |
| RunnerWorkspace.RunKeepsWorkspace | crates/sandbox-guest/src/runner.rs:129-557 | So does every run, together with the invariant of receipts and launches |
| RunnerCancellation.PastCheckCanLaunch | crates/sandbox-guest/src/runner.rs:424-480 | Between its check and its spawn nothing stands in the way of a command: neither its cgroup nor its output files exist |
| RunnerCancellation.CancellationIsTooLateExactlyPastCheck | crates/sandbox-guest/src/runner.rs:370-480 | After an acknowledged cancellation of a command not launched yet, some later run still launches it if and only if its worker was already past its check |
| RunnerCancellation.CancelledAfterCheckStillRuns | crates/sandbox-guest/src/runner.rs:370-480 | Such a run exists from an empty directory, for any admissible request: start, check, acknowledged cancellation, spawn |
| RunnerReopening.OpensExactlyWhenOpenable | crates/sandbox-guest/src/runner.rs:129-246 | When nothing fails on the way, a closed state directory opens for a caller if and only if the context names this boot and is the bound one, if any is; the receipts the directory keeps fit the record and reservation limits; it has a context or no other file than the lock; and it has at most 642 entries |
| RunnerReopening.UnopenableForever | crates/sandbox-guest/src/runner.rs:129-246 | A closed directory that misses one of these for a context never opens for it again, over any run, whoever else opens it and with any outcomes |
| RunnerReopening.ReopensExactlyWhenOpenable | crates/sandbox-guest/src/runner.rs:129-246 | Hence some run opens a closed directory again for a context if and only if it meets all of these for it now |
| RunnerReopening.ReopensForSomebodyExactlyWhenRoomy | crates/sandbox-guest/src/runner.rs:129-246 | Some run opens it again for some context if and only if it meets the three conditions that do not depend on the caller |
| RunnerReopening.AnotherBootRefusesEverybody | crates/sandbox-guest/src/runner.rs:129-176 | Once a context is bound, an opening on another boot changes nothing, whatever context the caller has |
| RunnerReopening.OnlyTheBootDiffers | crates/sandbox-protocol/src/history.rs:57-68 | A directory opened once and closed without a command opens again for the same context, but over no run for one that differs only in its boot id |
| RunnerLeftovers.OpeningTakesExactlyTheCovered | crates/sandbox-guest/src/runner.rs:166-180 | An opening deletes a receipt if and only if the context of the caller is accepted, the durable barrier covers the receipt, the directory is not crowded and the prune gets to it; what it deletes is resolved or was never launched |
| RunnerLeftovers.CompletedRetirementTakesUnresolvedExactlyWhenUnknown | crates/sandbox-guest/src/runner.rs:249-293 | A retirement that failed after its barrier became durable, with the opening under the bound context that completes it, takes a receipt without confirmed cleanup if and only if it covered one the registry had never admitted |
| RunnerLeftovers.InterruptedFirstOpeningStaysClosed | crates/sandbox-guest/src/runner.rs:168-176 | If the first opening fails and leaves its temporary file, no run ever opens the directory |
| RunnerLeftovers.FailedStartsCrowdTheDirectory | crates/sandbox-guest/src/runner.rs:67-80 | More than 640 starts that fail before their rename leave a healthy registry in which every retirement is refused, and a directory that no run ever opens after a crash |
| RunnerLeftovers.FailedStartCanBlockReopening | crates/sandbox-guest/src/runner.rs:300-366 | Two admissible starts that do not fit together, the first failing after its write committed: the second is admitted, and after a crash no run ever opens the directory |
| RunnerLeftovers.FiveCommandsCanBlockReopening | crates/sandbox-guest/src/runner.rs:300-366 | Such a run from an empty directory: three finished commands of 16 MiB, a fourth that fails after committing and an admitted fifth |
| ObjectStore.ApplyKeepsInv | crates/sandbox-artifacts/src/retirement.rs:88-256 | Every conditional request that lands, at any time, keeps the key at most one object below at most one marker, and never replaces the marker |
| ObjectStore.SealedForever | crates/sandbox-artifacts/src/retirement.rs:88-156 | Once a marker is current it is the current object of the key forever, whatever lands late |
| ObjectStore.AbsentForever | crates/sandbox-artifacts/src/retirement.rs:213-256 | Once the key is sealed, a deleted version never comes back |
| ObjectStore.DataStaysUntilSealed | crates/sandbox-artifacts/src/lib.rs:162-210 | An uploaded object stays as it is until a marker seals the key |
| ObjectStore.FinalForever | crates/sandbox-artifacts/src/retirement.rs:62-156 | A key left with only its marker stays so forever; the marker version itself is never deleted |
| ObjectStore.RetirementsAgree | crates/sandbox-artifacts/src/retirement.rs:62-156 | All retirements of a key that ever succeed return one and the same receipt |
| ObjectStore.NothingIsFetchedAfterRetirement | crates/sandbox-artifacts/src/lib.rs:244-298 | After a retirement no fetch verifies ever again, for any plan, pinned or not, and the retirement keeps being reported |
| ObjectStore.FetchesAgree | crates/sandbox-artifacts/src/lib.rs:244-298 | All fetches that ever verify saw the same object under the same plan metadata, size and digest |
| ObjectStore.FetchedIsUploaded | crates/sandbox-artifacts/src/lib.rs:244-298 | A fetch verifies only an object some uploader sent, with exactly its content |
| Artifacts.ReadVerified | crates/sandbox-artifacts/src/lib.rs:263-298 | The chunk loop returns the body exactly when its length and digest are the expected ones, and gives up early otherwise |
| Artifacts.Store.VerifyResponse | crates/sandbox-artifacts/src/lib.rs:263-298 | A response verifies exactly when size, metadata, pinned reference and the digest of the whole body are right, however the body is cut into pieces |
| Artifacts.Store.PutRequest | crates/sandbox-artifacts/src/lib.rs:162-210 | A conditional PUT may be done, refused or left without a reply, in which case it may still land; undisturbed, the reply says whether its condition held |
| Artifacts.Store.Confirm | crates/sandbox-artifacts/src/lib.rs:177-210 | The create-only PUT and the confirming read: success is the verified object; a conflict means an object that does not verify, a missing one is reported only after a PUT that was answered |
| Artifacts.Store.Fetch | crates/sandbox-artifacts/src/lib.rs:244-261 | A fetch answers for the object that is current when the store is read, or that the store is unavailable |
| Artifacts.Store.CheckOwner | crates/sandbox-artifacts/src/lib.rs:126-138 | Accepted exactly for a valid plan of this owner within its lifetime; the three errors are told apart |
| Artifacts.Store.Upload | crates/sandbox-artifacts/src/lib.rs:162-210 | Success means that the verified object is readable under the plan, also after a lost reply; never on a sealed key; undisturbed it succeeds exactly for a valid request on a key that is empty or already holds the object; and each refused request gets the error of its reason |
| Artifacts.Store.GetCurrent | crates/sandbox-artifacts/src/retirement.rs:158-211 | Vacant, holding or retired, as the current object says; a data object is verified and the text of a marker read and checked piece by piece |
| Artifacts.Store.SealKey | crates/sandbox-artifacts/src/retirement.rs:88-156 | Success means that a marker with this receipt is the current object; undisturbed it succeeds exactly on a retirable key |
| Artifacts.Store.RemovePrevious | crates/sandbox-artifacts/src/retirement.rs:213-256 | Success means that the version the marker names is gone, and only that one was deleted, after its bytes were verified |
| Artifacts.Store.RetireInner | crates/sandbox-artifacts/src/retirement.rs:88-156 | Success means that only the marker is left, with a valid receipt for the selected object; undisturbed it succeeds exactly on a retirable key |
| Artifacts.Store.Retire | crates/sandbox-artifacts/src/retirement.rs:62-86 | The same, and only for the owner and after the deletion date; undisturbed it succeeds exactly under these conditions |
| CanonicalJson.EscapedSplits | crates/sandbox-protocol/src/idempotency.rs:146-180 | String escaping (section 7 of RFC 8259) is self-delimiting: an escaped string and what follows its quote determine the string |
| CanonicalJson.PrintSplits | crates/sandbox-protocol/src/idempotency.rs:146-180 | The printed text of a value in front of a delimiter determines the value and the rest |
| CanonicalJson.AscendingIsUnique | crates/sandbox-protocol/src/idempotency.rs:150-165 | There is only one way to write given members in key order |
| CanonicalJson.NormalAgrees | crates/sandbox-protocol/src/idempotency.rs:146-180 | Two values sort to the same form if and only if they are equal with objects taken as unordered maps |
| CanonicalJson.CanonicalExactlyWhenEquivalent | crates/sandbox-protocol/src/idempotency.rs:146-180 | Two values have the same canonical text if and only if they are equal with objects taken as unordered maps and arrays in order |
| RequestDigest.WriteCanonical | crates/sandbox-protocol/src/idempotency.rs:146-180 | The recursive writer appends exactly the canonical text, whose meaning is JsonReading.CanonicalTextMeans |
| RequestDigest.WriteArray | crates/sandbox-protocol/src/idempotency.rs:166-175 | The array loop appends exactly the canonical text of the array |
| RequestDigest.WriteObject | crates/sandbox-protocol/src/idempotency.rs:150-165 | The loop over sorted keys appends exactly the canonical text of the object, whose keys ascend by JsonReading.LessIsByteOrder |
| RequestDigest.BigEndianInjective | crates/sandbox-protocol/src/idempotency.rs:101-119 | Eight-byte length prefixes determine the length |
| RequestDigest.SamePreimageExactlyForSameRequest | crates/sandbox-protocol/src/idempotency.rs:101-119 | Two requests feed the hasher the same bytes if and only if method and target are equal and the payloads are equal as JSON values |
| RequestDigest.Compute | crates/sandbox-protocol/src/idempotency.rs:101-119 | The digest is the hash of exactly that preimage, whose meaning is JsonReading.PreimageMeans |
| RequestDigest.SameDigestMeansSameRequest | crates/sandbox-protocol/src/idempotency.rs:101-119 | Unless the two preimages collide under the hash, equal digests mean the same request |
| JsonReading.LessIsByteOrder | crates/sandbox-protocol/src/idempotency.rs:152 | The order in which keys are sorted is the ascending order of bytes at the first difference, a prefix before what it begins |
| JsonReading.ValueReads | crates/sandbox-protocol/src/idempotency.rs:146-180 | An independent reader of JSON (RFC 8259, no whitespace, integers without minus zero, every escape with surrogate pairs) takes the printed text of a value in front of a delimiter back to that value |
| JsonReading.NormalIsEquivalent | crates/sandbox-protocol/src/idempotency.rs:146-180 | Sorting changes nothing but the order of members, and leaves the keys of every object, at every depth, in ascending byte order |
| JsonReading.CanonicalTextMeans | crates/sandbox-protocol/src/idempotency.rs:146-180 | The canonical text of a well-formed value reads as that value with objects as unordered maps, with strictly ascending keys in every object and no byte outside a token |
| JsonReading.ValueCovers | crates/sandbox-protocol/src/idempotency.rs:146-180 | Every text that reads as a value is at least as long as the printed one |
| JsonReading.CanonicalIsShortest | crates/sandbox-protocol/src/idempotency.rs:146-180 | No text that reads as an equivalent value with ascending keys is shorter than the canonical one |
| JsonReading.EscapeIsShortest | crates/sandbox-protocol/src/idempotency.rs:157-177 | A byte is escaped only where it must be, in the shortest form there is, with small hexadecimal letters |
| JsonReading.PreimageMeans | crates/sandbox-protocol/src/idempotency.rs:101-119 | Read part by part, each behind its eight-byte big-endian length, the preimage is the method, the target and a text that reads as the payload with ascending keys, in this order and with nothing after |
| HostSafety.ExpireKeepsInv | crates/sandbox-fake-host/src/lib.rs:189-218 | Expiring leases keeps the joint invariant of allocations, fences, journals and buffers |
| HostSafety.ClaimKeepsInv | crates/sandbox-fake-host/src/lib.rs:254-292 | Claiming an operation under a fence keeps it |
| HostSteps.CreateKeepsInv | crates/sandbox-fake-host/src/lib.rs:653-764 | Create keeps it: one running allocation per sandbox, capacity in each dimension, rising generations, exact start count |
| HostSteps.ObserveKeepsInv | crates/sandbox-fake-host/src/lib.rs:310-362 | Inspection and stop keep it |
| HostSteps.LeaseKeepsInv | crates/sandbox-fake-host/src/lib.rs:364-476 | Renewal and lease inspection keep it |
| HostSteps.CommandKeepsInv | crates/sandbox-fake-host/src/commands.rs:44-176 | Execute, inspect and cancel keep it |
| HostSteps.FinishCommandKeepsInv | crates/sandbox-fake-host/src/commands.rs:22-43 | Finishing a held command keeps it |
| HostSteps.AddedFits | crates/sandbox-fake-host/src/commands.rs:120-167 | A new command within the record and reservation limits keeps the journal bounds and one unfinished command |
| HostSteps.RewrittenFits | crates/sandbox-fake-host/src/commands.rs:86-119 | A command brought up to date keeps reservations and never becomes unfinished again |
| HostSteps.PrepareKeepsInv | crates/sandbox-fake-host/src/archive.rs:50-130 | The first archive section keeps the joint invariant |
| HostSteps.RecordKeepsInv | crates/sandbox-fake-host/src/archive.rs:175-201 | The second archive section keeps it |
| HostFiles.FileKeepsInv | crates/sandbox-fake-host/src/files.rs:44-218 | Every file action keeps it |
| HostFiles.WriteKeepsInv | crates/sandbox-fake-host/src/files.rs:152-172 | A chunk write keeps the 64 MiB bound on staged plus published bytes |
| HostFiles.CommitKeepsInv | crates/sandbox-fake-host/src/files.rs:173-190 | A commit keeps it, moving the bytes from staged to published |
| HostFiles.AbortKeepsInv | crates/sandbox-fake-host/src/files.rs:191-195 | An abort keeps it, dropping the buffer with the record |
| HostFiles.LiveStagingHasBuffer | crates/sandbox-fake-host/src/files.rs:132-145 | A transfer that is staging under a running allocation always has its buffer |
| HostRuns.FreshInv | crates/sandbox-fake-host/src/lib.rs:137-160 | A new host satisfies the joint invariant |
| HostRuns.StepKeeps | crates/sandbox-fake-host/src/lib.rs:189-764 | Every step keeps the joint invariant, and only adds to what was recorded |
| HostRuns.RunKeeps | crates/sandbox-fake-host/src/lib.rs:189-764 | So does every run |
| HostRuns.ReachableStatesAreSafe | crates/sandbox-fake-host/src/lib.rs:189-764 | In every state reached from a new host: one running allocation per sandbox, every start counted, resources of running allocations within capacity in each dimension, staged plus published bytes within 64 MiB, and a buffer exactly for each live staging transfer |
| HostRuns.OneRunningPerSandbox | crates/sandbox-fake-host/src/lib.rs:653-764 | Two ready allocations of one sandbox are the same |
| HostRuns.StartsAreCountedAndOrdered | crates/sandbox-fake-host/src/lib.rs:722-764 | `total_starts` equals the number of allocation records; starts name distinct allocations, and those of one sandbox have strictly rising generations |
| HostRuns.RetriedCreateStartsNothing | crates/sandbox-fake-host/src/lib.rs:653-721 | A create for a known allocation starts nothing and revives nothing: at most leases lapse |
| HostRuns.StoppedBeforeStartNeverStarts | crates/sandbox-fake-host/src/lib.rs:310-362 | An allocation stopped before it was started is never started, over every run |
| HostRuns.ReleasedNeverReturns | crates/sandbox-fake-host/src/lib.rs:189-218 | A released or stopped allocation is never running again, its request never changes, and `lease_until` never decreases |
| HostRuns.OneDeadlinePerRevision | crates/sandbox-fake-host/src/lib.rs:364-476 | Two renewals accepted under one lease revision, with any run between them, asked for the same deadline |
| HostRuns.RecordedEvidenceIsFinal | crates/sandbox-fake-host/src/lib.rs:254-292 | Accepted claim revisions per operation never decrease; a command keeps its digest and never changes once settled, also as Unknown; an archive keeps its ticket, its revision never decreases and its plans never change once recorded |
| HostRuns.InspectedBeforeExecutedNeverRuns | crates/sandbox-fake-host/src/commands.rs:86-167 | An inspection or cancellation of an unknown operation fences it: over every later run it is recorded as never started |
| HostRuns.JournalBounds | crates/sandbox-fake-host/src/commands.rs:44-176 | Per allocation: at most 32 commands and 16 files, reservations within 64 MiB each, no id both a command and a file, and at most one unfinished command |
| HostRuns.ChunkIsApplied | crates/sandbox-fake-host/src/files.rs:152-172 | An accepted chunk, overlapping or not, stands at its offset in a buffer that only got longer |
| HostRuns.WrittenChunkStays | crates/sandbox-fake-host/src/files.rs:152-172 | It still stands there after any run of further steps, as long as the file is staged |
| HostRuns.CommitPublishesExactly | crates/sandbox-fake-host/src/files.rs:173-190 | A commit publishes exactly the staged bytes, and only if size and content hash match; otherwise nothing is published and the outcome is uncertain |
| HostRuns.CommitDecidesForGood | crates/sandbox-fake-host/src/files.rs:173-195 | Over every later run a matching commit stays committed, and a mismatched one can only be left as it is or aborted |
| HostRuns.SupersededPublisherNeverRecords | crates/sandbox-fake-host/src/archive.rs:175-201 | A publisher superseded by a newer revision never records plans or succeeds, over every later run |
| HostRuns.RecordedPlansAreFinal | crates/sandbox-fake-host/src/archive.rs:50-201 | Once plans are recorded, any publisher that ever succeeds does so with the same plans and ticket, and no lower revision |
| HostCommands.KnownCommandAnswer | crates/sandbox-fake-host/src/commands.rs:86-119 | The exact answer and record for a known command under its digest: a settled one as it is; an unsettled one Cancelled if and only if a cancellation finds the allocation running and the deadline ahead, TimedOut if and only if it runs and the deadline has passed, Unknown if and only if it does not run |
| HostCommands.NewCommandAnswer | crates/sandbox-fake-host/src/commands.rs:120-175 | An unknown command is launched exactly if it may be, bound to its request, held or exited with 0; otherwise it is recorded as never started |
| HostCommands.ChangedCommandIsRefused | crates/sandbox-fake-host/src/commands.rs:86-89 | Another digest for the same operation is refused and changes nothing about it |
| HostCommands.EveryReceiptIsExplained | crates/sandbox-fake-host/src/commands.rs:22-176 | Over every run from a new host each receipt state has its event: TimedOut a request whose clock had reached the deadline, Cancelled a cancel request before it, both on a running allocation, Unknown a request that found the allocation gone, Exited an immediate end or a finish with that code |
| HostTimes.EndsExactly | crates/sandbox-fake-host/src/lib.rs:189-218 | An event ends a running allocation if and only if its clock has reached the end of the lease or it is an accepted stop of it |
| HostTimes.RunsExactlyUntilItsEnd | crates/sandbox-fake-host/src/lib.rs:189-218 | Over every run an allocation that nothing stops or renews runs until the first event whose clock has reached its end |
| HostTimes.StartSetsTheEnd | crates/sandbox-fake-host/src/lib.rs:653-764 | The end of a started allocation is the time left until the requested deadline, at most five minutes, from the reading of the monotonic clock |
| HostTimes.RenewalMovesTheEnd | crates/sandbox-fake-host/src/lib.rs:364-476 | An accepted renewal to a later deadline moves the end to the time left until it; nothing else about a lease moves it |
| HostTimes.CreateAnswer | crates/sandbox-fake-host/src/lib.rs:653-764 | A create for a known allocation answers its phase exactly under the stored request; an unknown one is started exactly if it may be, told without any order of checks |
| HostTimes.PrepareAnswer | crates/sandbox-fake-host/src/archive.rs:50-130 | Publishing begins exactly for the final receipt of a resolved command, under the one ticket and by no older revision |
| HostTimes.RecordAnswer | crates/sandbox-fake-host/src/archive.rs:175-201 | Plans are recorded exactly under the revision and ticket that prepared last, if no others were |
| HostTransfers.ChunkAnswer | crates/sandbox-fake-host/src/files.rs:152-172 | A chunk is taken exactly if it leaves no gap, repeats what it overlaps and fits in memory; each refusal has its own reason, and only new bytes count |
| HostTransfers.TransferAnswer | crates/sandbox-fake-host/src/files.rs:150-218 | What one action does to a known transfer: nothing to a finished one or one whose allocation stopped, which is reported as uncertain; an abort drops the staged bytes for good |
| HostTransfers.FirstActionDecides | crates/sandbox-fake-host/src/files.rs:120-150 | The first accepted action decides: a begin on a running allocation opens the transfer, any other fences it over every later run |
| HostTransfers.OneUploadPerTransfer | crates/sandbox-fake-host/src/files.rs:82-91 | Over every run, whatever is accepted for a transfer is for the upload it was first asked about |
| FakeHost.FakeHost.constructor | crates/sandbox-fake-host/src/lib.rs:137-160 | A new host is empty |
| FakeHost.FakeHost.ExpireLeases | crates/sandbox-fake-host/src/lib.rs:189-218 | The expiry loops release exactly the lapsed allocations and drop the buffers and published files of released ones |
| FakeHost.FakeHost.Own | crates/sandbox-fake-host/src/lib.rs:220-252 | Ownership is refused, in this order, for malformed ids, another host or epoch, a generation or revision below one, and a claim deadline out of bounds |
| FakeHost.FakeHost.ClaimFence | crates/sandbox-fake-host/src/lib.rs:254-292 | A claim is accepted only for the owner of the fence, at the accepted or a newer revision and within the limits |
| FakeHost.FakeHost.Used | crates/sandbox-fake-host/src/lib.rs:722-733 | The summing loop totals the resources of the ready allocations in each dimension |
| FakeHost.FakeHost.RefuseCreate | crates/sandbox-fake-host/src/lib.rs:653-742 | The chain of create refusals answers with the specified code |
| FakeHost.FakeHost.Create | crates/sandbox-fake-host/src/lib.rs:653-764 | Create is exactly one Create step |
| FakeHost.FakeHost.StopAllocation | crates/sandbox-fake-host/src/lib.rs:330-362 | Stopping fences the allocation against any later start and releases it |
| FakeHost.FakeHost.ObserveAllocation | crates/sandbox-fake-host/src/lib.rs:310-362 | Inspect and stop are exactly one Observe step |
| FakeHost.FakeHost.ObserveLease | crates/sandbox-fake-host/src/lib.rs:364-476 | Renew and inspect lease are exactly one Lease step |
| FakeHost.FakeHost.RunCommand | crates/sandbox-fake-host/src/commands.rs:44-176 | Execute, inspect and cancel are exactly one command step, whose answer is characterised by HostCommands.KnownCommandAnswer and NewCommandAnswer |
| FakeHost.FakeHost.FindCommand | crates/sandbox-fake-host/src/commands.rs:27-31 | The search goes through all fences and finds one that has the command, if any has |
| FakeHost.FakeHost.EndCommand | crates/sandbox-fake-host/src/commands.rs:22-43 | A held command is settled as exited with its code and confirmed cleanup; an exit code out of range, an unknown command, one never started and a settled one are refused |
| FakeHost.FakeHost.EnterFile | crates/sandbox-fake-host/src/files.rs:44-120 | The file checks before any action are exactly those of the model, in order |
| FakeHost.FakeHost.StageChunk | crates/sandbox-fake-host/src/files.rs:152-172 | Writing a chunk is exactly one chunk step |
| FakeHost.FakeHost.PublishFile | crates/sandbox-fake-host/src/files.rs:173-190 | Committing is exactly one commit step |
| FakeHost.FakeHost.TransferFile | crates/sandbox-fake-host/src/files.rs:44-218 | Every file request is exactly one file step |
| FakeHost.FakeHost.PrepareOutput | crates/sandbox-fake-host/src/archive.rs:50-130 | The first locked section is exactly one Prepare step |
| FakeHost.FakeHost.RecordOutput | crates/sandbox-fake-host/src/archive.rs:175-201 | The second locked section is exactly one Record step |
| EventStreams.LineEndsDoNotMatter | crates/sandbox-client/src/stream.rs:106-159 | From any parser state, the events and the failure are those of the same bytes with CRLF and CR replaced by LF (section 9.2.6 of the WHATWG HTML standard) |
| EventStreams.ParserMeansReference | crates/sandbox-client/src/stream.rs:106-159 | On text with LF line ends the byte-wise parser computes the line-wise meaning: lines grouped into frames, fields collected by name, one event per frame with data |
| EventStreams.ParserIsCorrect | crates/sandbox-client/src/stream.rs:106-159 | Hence for every byte stream it gives the events and the first failure of that meaning |
| EventStreams.FeedStaysBounded | crates/sandbox-client/src/stream.rs:106-159 | One byte keeps line, data, event and id together within the bytes of the frame |
| EventStreams.BuffersAlwaysFitOneFrame | crates/sandbox-client/src/stream.rs:106-159 | After any bytes the buffers together hold at most 65536 bytes |
| EventStreams.UnterminatedNeverDispatches | crates/sandbox-client/src/stream.rs:106-159 | Bytes after the last line end never dispatch an event |
| Utf8.LossyKeepsExactlyValid | crates/sandbox-client/src/stream.rs:119-120 | Bytes are well-formed UTF-8 (section 4 of RFC 3629) if and only if decoding with replacement leaves them as they are |
| Utf8.LossyIsValid | crates/sandbox-client/src/stream.rs:119-120 | What decoding with replacement yields is always well-formed |
| Utf8.LossySplitsAtAscii | crates/sandbox-client/src/stream.rs:119-120 | Decoding with replacement splits at every ASCII byte, so a line end is never swallowed by an ill-formed character before it |
| EventStandard.FirstLineIsStandardExactlyUnlessDoubled | crates/sandbox-client/src/stream.rs:119-126 | The text of the first line is that of the standard, which drops one byte order mark, if and only if it does not begin with two |
| EventStandard.DataIsStandardExactlyUnlessDoubled | crates/sandbox-client/src/stream.rs:131-139 | The data handed on is that of the standard, which drops one trailing newline, if and only if it does not end in two |
| EventStandard.EndsInTwoNewlinesExactlyWhenEmptyAfterAnother | crates/sandbox-client/src/stream.rs:148-156 | That is: if and only if the last data value of the frame is not an empty one after another |
| EventStandard.FrameIsStandardExactlyWhenConforming | crates/sandbox-client/src/stream.rs:127-157 | A frame hands on the kind, id and data of the standard, or like the standard nothing, if and only if it has no data; or its last value is not an empty one after another, it has its own id or no other id is in force, and a first line that the standard cannot read because of a second byte order mark changes neither kind nor id; or that line and the only other data value are both empty data |
| EventStandard.StandardByLines | crates/sandbox-client/src/stream.rs:106-126 | The standard decodes the whole stream with replacement and splits it into lines then; splitting the bytes first and decoding each line, as the decoder does, finds the same lines |
| EventStandard.EveryProfileReplays | crates/sandbox-client/src/stream.rs:159-222 | Under any JSON profile the decoder yields what decoding the handed-on events one after another yields, up to the first refused one |
| EventStandard.StreamIsStandardExactlyWhenConforming | crates/sandbox-client/src/stream.rs:106-159 | For every stream: the decoder does not fail and hands on exactly the events of the standard if and only if every complete line is well-formed UTF-8, every frame and the unterminated rest take at most 65536 bytes, and every frame conforms; whatever the profile, its events and its first failure are those of decoding what is handed on, one after another |
| EventDeviations.ForgottenIdDiffers | crates/sandbox-client/src/stream.rs:127-134 | An id and an event, then another event: the decoder forgets the id, the standard keeps it |
| EventDeviations.DoubledBomDiffers | crates/sandbox-client/src/stream.rs:119-126 | Two byte order marks before a data line: the decoder dispatches the event, the standard none |
| EventDeviations.EmptyAfterAnotherDiffers | crates/sandbox-client/src/stream.rs:127-136 | Two empty data lines: the decoder hands on no data, the standard one newline |
| EventDeviations.IllFormedDiffers | crates/sandbox-client/src/stream.rs:119-120 | Any ill-formed text in a data line: the decoder fails, the standard dispatches it with replacement characters |
| EventDeviations.OversizedDiffers | crates/sandbox-client/src/stream.rs:111-115 | Any data line whose frame takes more than 65536 bytes: the decoder fails, the standard dispatches its text |
| EventReader.FirstIsRun | crates/sandbox-client/src/stream.rs:73-94 | Reading event by event, keeping the parser and the rest of the bytes, is running the parser over all of them |
| EventReader.ByteParser.TakeLine | crates/sandbox-client/src/stream.rs:120-158 | The line handling in place is the specified one |
| EventReader.ByteParser.Byte | crates/sandbox-client/src/stream.rs:106-159 | One byte in place is one parser step, with Protocol for a broken frame |
| EventReader.EventStream.ReadNext | crates/sandbox-client/src/stream.rs:73-94 | The next event of the joined bytes, with the parser and the unread rest; or the end, an oversized piece or a cut connection, told apart |
| EventReader.EventStream.Next | crates/sandbox-client/src/stream.rs:59-72 | The same, and after a failure, the end or a terminal event, nothing more |
| EventReader.Drain | crates/sandbox-client/src/stream.rs:59-94 | Draining a stream yields exactly the events of the joined bytes up to the first terminal one, however the body was cut into pieces of at most 262144 bytes |
| Claims.StepKeepsInv | crates/sandbox-store/src/claims.rs:85-202 | Every transaction on the operation rows keeps their joint invariant |
| ClaimRuns.RunKeeps | crates/sandbox-store/src/claims.rs:85-202 | So does every run, and revisions, granted claims and final states only grow |
| ClaimRuns.OneLiveClaim | crates/sandbox-store/src/claims.rs:85-145 | Of two claims granted on one operation the earlier one is not live, at any time |
| ClaimRuns.DeadClaimsNeverAct | crates/sandbox-store/src/claims.rs:149-202 | An expired, superseded or ended claim stays so over every later run, and neither renews, defers, reconciles, dispatches nor records an outcome |
| ClaimRuns.OneUnresolvedCancellation | crates/sandbox-store/src/cancel.rs:66-164 | A target has at most one unresolved cancellation |
| ClaimRuns.AdmissionIsDecided | crates/sandbox-store/src/cancel.rs:66-164 | Each request has exactly one answer, and a row is inserted if and only if it is new |
| ClaimRuns.CancelledBeforeDispatchIsFinal | crates/sandbox-store/src/execute.rs:293-319 | However it came about, a row cancelled before dispatch is final: over every later run it is never dispatched, never eligible again, and no claim on it is live |
| ClaimRuns.ReconciledBeforeDispatchIsFinal | crates/sandbox-store/src/cancel.rs:166-213 | A target reconciled before dispatch is cancelled for good in that sense, and its cancellation succeeds with that result |
| ClaimRuns.RefusedDispatchIsFinal | crates/sandbox-store/src/execute.rs:293-319 | So is an execution whose own claimant finds a cancellation pending instead of dispatching it |
| ClaimRuns.ReconciliationReportsTheTarget | crates/sandbox-store/src/cancel.rs:166-213 | Reconciliation completes exactly when the target is final, with the final status of the target as its result, leaves a dispatched target alone, and ends its own claim |
| ClaimTimes.RunLeavesAlone | crates/sandbox-store/src/claims.rs:85-202 | Over every run, an operation nobody may claim yet is left alone until it may be claimed, and after that until somebody does, unless its holder acts with its claim or a reconciled cancellation revokes it |
| ClaimTimes.SleepsUntil | crates/sandbox-store/src/claims.rs:99-112 | Over every run nobody claims an operation with a retry time and no lease before that time, and as long as nobody has claimed it, it is eligible exactly from that time on, if its kind, status and phase suit |
| ClaimTimes.DeferralPutsOff | crates/sandbox-store/src/claims.rs:177-202 | A deferral succeeds exactly for 1 to 3600 seconds with a live claim; then, over every run, no claim on the operation is granted before that delay is over, from then on it is eligible while it suits and nobody has claimed it, and nothing else about it has changed |
| ClaimTimes.PendingCancellationIsPutOff | crates/sandbox-store/src/cancel.rs:196-213 | A cancellation whose target is still open is put off by one second, in the same sense |
| ClaimTimes.OpenExecutionIsPutOff | crates/sandbox-store/src/execute.rs:655-699 | So is an execution that is not reported as ended |
| ClaimTimes.GrantHolds | crates/sandbox-store/src/claims.rs:97-145 | A granted claim of n seconds is live exactly before n seconds have passed, while its row is unchanged, and over every run in which it is not used nobody else is granted one before; the grant raises the revision by one, moves queued to running, leaves unknown unknown, and touches nothing else |
| ClaimTimes.RenewalHolds | crates/sandbox-store/src/claims.rs:149-172 | A renewal succeeds exactly for 1 to 300 seconds with a live claim, answers the new end, and the claim is held until exactly then in the same sense |
| ClaimAnswers.KnownKeyAnswers | crates/sandbox-store/src/cancel.rs:96-115 | Under a key that was used before the answer is about the operation that used it: conflict exactly for another digest, expired exactly after its response expired, else that operation with its present status |
| ClaimAnswers.NewKeyAnswers | crates/sandbox-store/src/cancel.rs:116-164 | Under a new key each refusal has exactly its reason; otherwise the one new row is a cancellation, finished at once with the outcome of the target exactly if that has ended |
| ClaimAnswers.AdmittedIsRemembered | crates/sandbox-store/src/cancel.rs:66-164 | Over every run after an admission, a retry under its key answers with that operation, another request under the key conflicts, and neither changes anything |
| ClaimAnswers.ReconciliationAnswers | crates/sandbox-store/src/cancel.rs:166-213 | Reconciliation is refused exactly without a live claim on an unresolved cancellation; it completes if and only if the target has ended or was never dispatched, and then only the latter is changed, to cancelled |
| ClaimAnswers.DispatchAnswers | crates/sandbox-store/src/execute.rs:277-420 | An execution is dispatched if and only if its claim is live, it was not dispatched before and is not unknown, no cancellation of it is pending and it may run on a reachable host; otherwise it is cancelled, failed or left as it is, each exactly for its reason |
| ClaimAnswers.DispatchedAtMostOnce | crates/sandbox-store/src/execute.rs:277-420 | Over every run a dispatched execution is never dispatched again |
| OperationStore.OperationStore.SelectCandidate | crates/sandbox-store/src/claims.rs:85-120 | The scan picks the oldest eligible operation of the kind that nobody else has locked, and none only if there is none |
| OperationStore.OperationStore.ClaimNext | crates/sandbox-store/src/claims.rs:85-145 | The claimed operation is that one; the row is updated as specified, the returned claim is live, and an invalid lease changes nothing |
| OperationStore.OperationStore.RenewClaim | crates/sandbox-store/src/claims.rs:149-171 | Renewal is the specified guarded update, whose effect over every run is ClaimTimes.RenewalHolds |
| OperationStore.OperationStore.DeferClaim | crates/sandbox-store/src/claims.rs:177-202 | Deferral is the specified guarded update, whose effect over every run is ClaimTimes.DeferralPutsOff |
| OperationStore.OperationStore.AdmitCancel | crates/sandbox-store/src/cancel.rs:66-164 | Admission gives the one correct answer: unauthorized, replay, conflict of digests, missing or unsupported target, another unresolved cancellation, authority that lapsed before the insert, or a new operation |
| OperationStore.OperationStore.ReconcileCancel | crates/sandbox-store/src/cancel.rs:166-213 | Reconciliation is the specified transition |
| Downloads.ReadBounded | crates/sandbox-client/src/transport.rs:262-274 | A body is read exactly when the announced length, if any, and the actual length are within the cap and the connection does not break; the result is the joined pieces |
| Downloads.ReadRange | crates/sandbox-client/src/transport.rs:168-228 | A range reply is accepted if and only if it meets every check of status, type, range, offset, length, digest and end mark |
| Downloads.DownloadCapture | crates/sandbox-client/src/files.rs:91-132 | Against any server the loop ends within max(1, size) requests; success means contiguous accepted chunks, the last one alone final, whose concatenation has the captured length and digest; and from a server that honestly serves a file of that digest it always succeeds with that file |

## Left out

- FakeHost.FakeHost.TransferFile: the staging buffers nested in each fence are one map keyed by allocation and operation, and the flags that make the next reply get lost are not modelled, because a caller that ignores a reply already covers them.
- FakeHost.FakeHost.RecordOutput: what happens between the two locked sections (waiting for a worker, reading, collecting and uploading output) is any sequence of other steps ending with some pair of plans; the refusal of a request while both archive workers are busy is not modelled, since it changes nothing.
- FakeHost.FakeHost.Own: identifiers are compared, not parsed; a flag of the request says whether all of them are well formed.
- Runner.Guest.WriteReceipt: a rename is durable or not when the write returns; that an unsynced rename can be lost later is not modelled.
- Runner.Runner.Launch: how the launcher joins the cgroup, and its own look at the deadline before it starts the command, are not modelled; cleanup of a cgroup succeeds or fails as a whole.
- Runner.Runner.Shutdown: the wait of at most ten seconds for the settled receipt after the cancellation, and the error if it does not come or its cleanup is unconfirmed, are not modelled.
- Runner.Runner.Open: the checks of the cgroup root and of the launcher's path are not modelled, nor are what output files and exit reports contain, files of other origin in the state directory and the text of a receipt's reason; the lock file is always there.
- Capture.RunKeepsInv: capture steps come before the finish of their command; a capture aborted while the receipt is being finished is not modelled.
- LaunchAuthority.Authority.Decode: JSON parsing is not modelled; the method receives the parsed document and the length of its text.
- AuthorityRuns.CompletionBindsScope: the digest of an intent is an uninterpreted function of the whole intent, and the size cap on an encoded intent is not modelled.
- RegistrationController.Controller.RegisterOnHost: the supervisor's own journal beside the ledger is not modelled; a failed save leaves the old or the new ledger.
- Artifacts.Store.GetCurrent: reading the text of a marker as JSON is not modelled; the marker that was written is the one that is read.
- Artifacts.Store.PutRequest: every object has a fresh etag, a bucket keeps its versioning mode, and conditional writes are honoured (sections 13.1.1 and 13.1.2 of RFC 9110); the format checks on etag and version strings, upload timeouts and the limit on concurrent requests are not modelled.
- Artifacts.ReadVerified: reading a sub-range of an artifact, and the similar store for sources, are not modelled.
- CanonicalJson.CanonicalExactlyWhenEquivalent: numbers are integers; floating-point numbers and how a request is turned into a JSON value are not modelled.
- JsonReading.ValueReads: the reader takes any bytes for unescaped characters; that strings are well-formed UTF-8 is not checked there.
- RequestDigest.SamePreimageExactlyForSameRequest: each part is shorter than 2^64 bytes, as any buffer is.
- EventReader.EventStream.Next: the JSON profile of an event, its cursor and the HTTP response around the body are not modelled.
- OperationStore.OperationStore.ClaimNext: operation payloads, notifications and SQL row locks are not modelled, except as the set of rows that others have locked.
- Claims.StepKeepsInv: of the other store modules only the execution owner's fenced updates take part (the dispatch intent, the two rejections before dispatch and an observed status), because cancellation depends on them (crates/sandbox-store/src/execute.rs); what decides a rejection is one verdict.
- OperationStore.OperationStore.AdmitCancel: what project and tokens say is two flags, one when the request is checked and one when the row is inserted.
- Downloads.ReadRange: header values are given as already split out, present or missing, and parsed.
- Downloads.DownloadCapture: the temporary file, its publication under the final name and the release of the capture are not modelled.
- Retirement and forgetting of host metadata in the real supervisor are outside the model.
- Live output, capabilities, health checks and captured-file listings of the simulated supervisor are outside the model: they change no state that the theorems are about.
- Routes, TLS, listeners, configuration, command-line programs, packaging and generated code are outside the model: they hold no deep state.
- Round trips of tokens, cursors and bootstrap documents, backoff and wake-up timing are outside the model: they would only add easy members.
