/** What an acknowledged cancellation of a guest command is worth. The worker of a command looks at
    the cancel signal once and spawns later, with no lock held in between; a cancellation that is
    acknowledged in that gap does not keep the process from being launched. */
module RunnerCancellation {
  import opened Wrappers
  import opened OperationIds
  import opened Totals
  import opened RunnerModel
  import opened RunnerSafety
  import opened RunnerRecovery
  import opened RunnerRuns
  import opened RunnerWorkspace

  // Between its check and its spawn nothing stands in a command's way.
  lemma PastCheckCanLaunch(m: Machine, id: Uuid)
    requires Inv(m) && Workspace(m) && PastCheck(m, id)
    ensures IsLaunched(SpawnStep(m, Process), id)
  {
    ActiveFacts(m);
    var m' := SpawnStep(m, Process);
    assert id !in m.groups by {
      assert id in m.groups ==> Housed(m, id);
    }
    assert forall kind :: OutputFile(id, kind) in m.side ==> Placed(m, id);
    assert !Placed(m, id);
    hide Inv, Workspace, Covers;
    assert m'.launches[|m.launches|].operation == id;
  }

  lemma CancelKeepsPastCheck(m: Machine, id: Uuid, w: Write)
    requires PastCheck(m, id) && CancelStep(m, id, w).1.Some?
    requires id in m.memory.value.receipts
    ensures PastCheck(CancelStep(m, id, w).0, id)
  {}

  lemma LateCancellationCanLaunch(m: Machine, id: Uuid, w: Write)
    requires Inv(m) && Workspace(m) && CancelStep(m, id, w).1.Some? && PastCheck(m, id)
    ensures IsLaunched(Run(CancelStep(m, id, w).0, [Spawn(Process)]), id)
  {
    var m' := CancelStep(m, id, w).0;
    assert id in m.memory.value.receipts by {
      hide Inv, Workspace;
    }
    hide Inv, Workspace, CancelStep, SpawnStep, PastCheck, IsLaunched;
    CancelKeepsPastCheck(m, id, w);
    CancelKeepsInv(m, id, w);
    CancelKeepsWorkspace(m, id, w);
    PastCheckCanLaunch(m', id);
    assert Run(m', [Spawn(Process)]) == Run(Step(m', Spawn(Process)), []);
  }

  /** An acknowledged cancellation of a command not launched yet leaves a later launch possible
      if and only if the command's worker was already past its check. */
  lemma CancellationIsTooLateExactlyPastCheck(m: Machine, id: Uuid, w: Write)
    requires Inv(m) && Workspace(m) && !IsLaunched(m, id) && CancelStep(m, id, w).1.Some?
    ensures (exists events :: IsLaunched(Run(CancelStep(m, id, w).0, events), id)) <==> PastCheck(m, id)
  {
    hide *;
    var m' := CancelStep(m, id, w).0;
    if PastCheck(m, id) {
      LateCancellationCanLaunch(m, id, w);
    } else {
      forall events
        ensures !IsLaunched(Run(m', events), id)
      {
        CancelledBeforeCheckNeverRuns(m, id, w, events);
      }
    }
  }

  /** Start, check, acknowledged cancellation, spawn: the cancelled command is launched. */
  lemma CancelledAfterCheckStillRuns(context: Context, r: Request, now: int)
    requires context.Validated()
    requires r.wellFormed && 1 <= r.outputLimit <= 16 * 1024 * 1024 && 0 < r.deadline - now <= LONGEST_MS
    ensures var checked := Run(Fresh(), UpToCheck(context, r, now));
            var (cancelled, reply) := CancelStep(checked, r.operation, Synced);
            && !IsLaunched(checked, r.operation)
            && reply.Some? && reply.value.cancelRequested && reply.value.state == LaunchIntent
            && IsLaunched(Run(cancelled, [Spawn(Process)]), r.operation)
  {
    var checked := Run(Fresh(), UpToCheck(context, r, now));
    CheckedFirst(context, r, now);
    FreshInv();
    FreshWorkspace();
    RunKeepsWorkspace(Fresh(), UpToCheck(context, r, now));
    hide Inv, Workspace, Run;
    LateCancellationCanLaunch(checked, r.operation, Synced);
  }

  function UpToCheck(context: Context, r: Request, now: int): seq<Event> {
    [Opening(context), Start(r, now, Synced), Check(now)]
  }

  lemma CheckedFirst(context: Context, r: Request, now: int)
    requires context.Validated()
    requires r.wellFormed && 1 <= r.outputLimit <= 16 * 1024 * 1024 && 0 < r.deadline - now <= LONGEST_MS
    ensures Run(Fresh(), UpToCheck(context, r, now)) ==
            Machine(context, Disk(Some(Legacy(context)), map[r.operation := Intent(context, r)]), {}, {},
                    Some(Registry(None, map[r.operation := Intent(context, r)],
                                  Some(Active(r.operation, Checked, false, [])), false, false)), [])
  {
    var ready := Step(Fresh(), Opening(context));
    OpenedFirst(context);
    var started := Step(ready, Start(r, now, Synced));
    var receipts := map[r.operation := Intent(context, r)];
    assert started == ready.(disk := ready.disk.(receipts := receipts),
                              memory := Some(Registry(None, receipts, Some(Active(r.operation, Pending, false, [])),
                                false, false))) by {
      assert Limits(map[]) == map[];
      assert map[][r.operation := Intent(context, r)] == receipts;
    }
    hide OpenStep, StartStep;
    var checked := Step(started, Check(now));
    RunsThree(Fresh(), Opening(context), Start(r, now, Synced), Check(now));
    hide Run;
  }

  lemma RunsThree(m: Machine, a: Event, b: Event, c: Event)
    ensures Run(m, [a, b, c]) == Step(Step(Step(m, a), b), c)
  {
    hide Step;
    assert [a, b, c][1..] == [b, c] && [b, c][1..] == [c] && [c][1..] == [];
    assert Run(m, [a, b, c]) == Run(Step(m, a), [b, c]) == Run(Step(Step(m, a), b), [c]);
  }
}
