/** When a RUNNING test is sure to be finished by its last completion report, and when it is not. */
module FinishTheorems {
  import opened Domain
  import opened LoadShare
  import opened Transactions
  import opened Lifecycle
  import opened LifecycleTheorems

  /** A RUNNING test still has a row whose report will close it. */
  ghost predicate Finishable(db: Tables, t: TestId) {
    HasStatus(db, t, TestStatus.Running) ==> !AllCompleted(db, t)
  }

  /** The start writes RUNNING after its workers have already completed everything. */
  ghost predicate LateRunningWrite(s: State, e: Event, t: TestId) {
    StartCallAt(s, e, t, Allocated) && e.ok && AllCompleted(s.db, t)
  }

  /** A stop that read an older status releases the rows of a test that is RUNNING by now, and none
      of them has failed. */
  ghost predicate ReleaseWhileRunning(s: State, e: Event, t: TestId) {
    StopCallAt(s, e, t, Marked) && e.ok && HasStatus(s.db, t, TestStatus.Running) && !HasFailedRow(s.db, t)
  }

  /** The completion barrier at the level of transactions, exactly: a step leaves a RUNNING test
      without an unfinished row if and only if it is one of these two writes. In particular no
      completion report ever does, so the last one closes the test. */
  lemma BarrierBreaksExactlyWhen(s: State, e: Event, t: TestId)
    requires Inv(s) && t in s.db.tests && Finishable(s.db, t)
    ensures Finishable(Next(s, e).db, t) <==> !LateRunningWrite(s, e, t) && !ReleaseWhileRunning(s, e, t)
  {
    hide Inv, TestOk, StartStep, StopStep, AllCompleted, Startable, Next, Finishable;
    if !e.Advance? {
      ReportKeepsFinishable(s, e, t);
    } else if e.c !in s.calls {
      UnknownCall(s, e);
    } else {
      AdvanceIs(s, e.c, e.ok, e.picked);
      CallIsOk(s, e.c);
      if s.calls[e.c].StopCall? {
        StopFinishable(s.db, s.calls[e.c], e.ok, t);
      } else {
        StartFinishable(s.db, s.capacity, s.calls[e.c], e.ok, e.picked, t);
      }
    }
  }

  lemma ReportKeepsFinishable(s: State, e: Event, t: TestId)
    requires t in s.db.tests && Finishable(s.db, t) && !e.Advance?
    ensures Finishable(Next(s, e).db, t)
  {
    if HasStatus(Next(s, e).db, t, TestStatus.Running) && HasStatus(s.db, t, TestStatus.Running) {
      var w :| (t, w) in s.db.assignments && !s.db.assignments[(t, w)].status.Completed?;
      assert (t, w) in Next(s, e).db.assignments;
    }
  }

  lemma StopFinishable(db: Tables, call: Call, ok: bool, t: TestId)
    requires call.StopCall? && t in db.tests && Finishable(db, t)
    ensures Finishable(StopStep(db, call, ok).0, t) <==>
      !(call.test == t && call.next.Marked? && ok && HasStatus(db, t, TestStatus.Running) && !HasFailedRow(db, t))
  {
    var db' := StopStep(db, call, ok).0;
    if HasStatus(db, t, TestStatus.Running) && HasStatus(db', t, TestStatus.Running) {
      var w :| (t, w) in db.assignments && !db.assignments[(t, w)].status.Completed?;
      assert (t, w) in db'.assignments;
      if HasFailedRow(db, t) {
        var v :| RowIs(db, t, v, AssignmentStatus.Failed);
        assert RowIs(db', t, v, AssignmentStatus.Failed);
      } else if call.test == t && call.next.Marked? && ok {
        forall v | (t, v) in db'.assignments ensures db'.assignments[(t, v)].status.Completed? {
          assert !RowIs(db, t, v, AssignmentStatus.Failed);
        }
      }
    }
  }

  lemma StartFinishable(db: Tables, capacity: int, call: Call, ok: bool, picked: seq<WorkerId>, t: TestId)
    requires call.StartCall? && t in db.tests && Finishable(db, t) && CallOk(db, capacity, call)
    ensures Finishable(CallStep(db, capacity, call, ok, picked).0, t) <==>
      !(call.test == t && call.at.Allocated? && ok && AllCompleted(db, t))
  {
    var db' := CallStep(db, capacity, call, ok, picked).0;
    StartEdges(db, capacity, call, ok, picked, t);
    if call.at.Ready? {
      if db' != db {
        InsertRowsEffect(db.assignments, call.test, picked, Shares(call.rps, call.required));
      }
      assert forall w :: (t, w) in db.assignments ==> (t, w) in db'.assignments && db'.assignments[(t, w)] == db.assignments[(t, w)];
    }
  }

  ghost predicate Breaks(s: State, e: Event, t: TestId) {
    LateRunningWrite(s, e, t) || ReleaseWhileRunning(s, e, t)
  }

  /** Before its test exists no event breaks the barrier. */
  lemma MissingTestIsFinishable(s: State, e: Event, t: TestId)
    requires Inv(s) && t !in s.db.tests
    ensures Finishable(s.db, t) && Finishable(Next(s, e).db, t) && !Breaks(s, e, t)
  {
    hide Next, Inv, TestOk, CallOk, CallStep, AllCompleted;
    if e.Advance? && e.c in s.calls {
      CallIsOk(s, e.c);
      AdvanceIs(s, e.c, e.ok, e.picked);
      CallStepAddsNoTest(s.db, s.capacity, s.calls[e.c], e.ok, e.picked, t);
    } else {
      OtherEventStartsNothing(s, e, t);
    }
  }

  lemma OtherEventStartsNothing(s: State, e: Event, t: TestId)
    requires t !in s.db.tests && !(e.Advance? && e.c in s.calls)
    ensures !HasStatus(Next(s, e).db, t, TestStatus.Running)
  {
    hide CallStep;
  }

  lemma CallStepAddsNoTest(db: Tables, capacity: int, call: Call, ok: bool, picked: seq<WorkerId>, t: TestId)
    requires t !in db.tests
    ensures t !in CallStep(db, capacity, call, ok, picked).0.tests
  {
  }

  lemma RunStepBreaks(capacity: int, es: seq<Event>, i: nat, t: TestId)
    requires i < |es| && Finishable(After(capacity, es[..i]).db, t)
    ensures Finishable(After(capacity, es[..i + 1]).db, t) <==> !Breaks(After(capacity, es[..i]), es[i], t)
  {
    var s := After(capacity, es[..i]);
    AfterInv(capacity, es[..i]);
    assert es[..i + 1][..i] == es[..i];
    assert After(capacity, es[..i + 1]) == Next(s, es[i]);
    hide Run, Next, Inv, Finishable, LateRunningWrite, ReleaseWhileRunning;
    if t in s.db.tests {
      BarrierBreaksExactlyWhen(s, es[i], t);
    } else {
      MissingTestIsFinishable(s, es[i], t);
    }
  }

  ghost predicate FinishableThroughout(capacity: int, es: seq<Event>, t: TestId) {
    forall i :: 0 <= i <= |es| ==> Finishable(After(capacity, es[..i]).db, t)
  }

  ghost predicate NeverBroken(capacity: int, es: seq<Event>, t: TestId) {
    forall i :: 0 <= i < |es| ==> !Breaks(After(capacity, es[..i]), es[i], t)
  }

  lemma {:induction false} UnbrokenPrefix(capacity: int, es: seq<Event>, i: nat, t: TestId)
    requires i <= |es| && NeverBroken(capacity, es, t)
    ensures Finishable(After(capacity, es[..i]).db, t)
  {
    hide Run, Breaks;
    if i == 0 {
      assert es[..0] == [];
      NothingRunsAtFirst(capacity, t);
    } else {
      UnbrokenPrefix(capacity, es, i - 1, t);
      RunStepBreaks(capacity, es, i - 1, t);
    }
  }

  lemma NothingRunsAtFirst(capacity: int, t: TestId)
    ensures Finishable(After(capacity, []).db, t)
  {
  }

  /** Over whole runs: the last report can always finish a RUNNING test if and only if neither of the
      two writes ever happens to it. */
  lemma BarrierOverRuns(capacity: int, es: seq<Event>, t: TestId)
    ensures FinishableThroughout(capacity, es, t) <==> NeverBroken(capacity, es, t)
  {
    hide Run, Breaks, Finishable;
    if NeverBroken(capacity, es, t) {
      forall i | 0 <= i <= |es| ensures Finishable(After(capacity, es[..i]).db, t) {
        UnbrokenPrefix(capacity, es, i, t);
      }
    }
    if FinishableThroughout(capacity, es, t) {
      forall i | 0 <= i < |es| ensures !Breaks(After(capacity, es[..i]), es[i], t) {
        RunStepBreaks(capacity, es, i, t);
      }
    }
  }

  // ---------------------------------------------------------------- the two writes do happen

  ghost predicate NoStopPending(s: State, t: TestId) {
    forall c :: c in s.calls && s.calls[c].test == t && s.calls[c].StopCall? ==>
      s.calls[c].next.Done? || s.calls[c].next.Aborted?
  }

  /** All rows are COMPLETED, the status is RUNNING, and no stop is under way. */
  ghost predicate Stuck(s: State, t: TestId) {
    HasStatus(s.db, t, TestStatus.Running) && AllCompleted(s.db, t) && NoStopPending(s, t)
  }

  predicate StopsTest(e: Event, t: TestId) { e.BeginStop? && e.t == t }

  lemma NoStopPendingStep(s: State, e: Event, t: TestId)
    requires NoStopPending(s, t) && !StopsTest(e, t)
    ensures NoStopPending(Next(s, e), t)
  {
    if e.Advance? && e.c in s.calls {
      hide StartStep, StopStep;
      AdvanceIs(s, e.c, e.ok, e.picked);
      StopNeverReopens(s.db, s.capacity, s.calls[e.c], e.ok, e.picked);
    }
  }

  lemma StopNeverReopens(db: Tables, capacity: int, call: Call, ok: bool, picked: seq<WorkerId>)
    ensures var call' := CallStep(db, capacity, call, ok, picked).1;
      && call'.test == call.test
      && (call'.StopCall? <==> call.StopCall?)
      && (call.StopCall? && (call.next.Done? || call.next.Aborted?) ==> call' == call)
  {
  }

  lemma CompletedRowsStay(s: State, e: Event, t: TestId)
    requires Inv(s) && t in s.db.tests && AllCompleted(s.db, t) && Assigned(s.db, t) != {}
    ensures AllCompleted(Next(s, e).db, t)
  {
    hide Inv, Next;
    StepContinues(s, e, t);
    assert ShareTable(Next(s, e).db, t).Keys == ShareTable(s.db, t).Keys;
    assert RowsKept(s.db, Next(s, e).db, t);
  }

  lemma RunningHasRows(s: State, t: TestId)
    requires Inv(s) && HasStatus(s.db, t, TestStatus.Running)
    ensures Assigned(s.db, t) != {}
  {
    assert TestOk(s.db, s.capacity, t);
  }

  lemma StuckStep(s: State, e: Event, t: TestId)
    requires Inv(s) && Stuck(s, t) && !StopsTest(e, t)
    ensures Stuck(Next(s, e), t)
  {
    hide Inv, Next, AllCompleted;
    RunningHasRows(s, t);
    StepFollowsEdge(s, e, t);
    CompletedRowsStay(s, e, t);
    NoStopPendingStep(s, e, t);
    if !e.Advance? {
      NoReportFinishes(s, e, t);
    }
  }

  /** With every row COMPLETED no report changes the status of the test. */
  lemma NoReportFinishes(s: State, e: Event, t: TestId)
    requires HasStatus(s.db, t, TestStatus.Running) && AllCompleted(s.db, t) && !e.Advance?
    ensures HasStatus(Next(s, e).db, t, TestStatus.Running)
  {
    if e.SweepOffline? {
      assert !HasFailedRow(FailRowsOfOfflineWorkers(s.db), t);
    }
  }

  /** Without a stop request a stuck test stays RUNNING for ever, whatever its workers report. */
  lemma {:induction false} StuckForever(s: State, more: seq<Event>, t: TestId)
    requires Inv(s) && Stuck(s, t) && forall i :: 0 <= i < |more| ==> !StopsTest(more[i], t)
    ensures Stuck(Run(s, more), t)
    decreases |more|
  {
    hide Inv, Next, Stuck;
    if more != [] {
      var n := |more| - 1;
      StuckForever(s, more[..n], t);
      RunKeepsInv(s, more[..n]);
      StuckStep(Run(s, more[..n]), more[n], t);
    }
  }

  // ---------------------------------------------------------------- a run that gets stuck

  /** One worker, one test that needs one worker, started up to its committed reservation. */
  function ReserveOneWorker(): seq<Event> {
    [CreateTest(0, 1), RegisterWorker(0, "w", 0), BeginStart(0, 0)]
    + [Advance(0, true, []), Advance(0, true, []), Advance(0, true, [])]
    + [Advance(0, true, [0])]
  }

  function OneRow(test: TestStatus, worker: WorkerStatus, row: AssignmentStatus, at: StartPc): State {
    State(
      Tables(map[0 := Test(test, 1, 1)], map[0 := Worker("w", worker, 0)], map[(0, 0) := Assignment(row, 1)]),
      map[0 := StartCall(0, 1, 1, at)], 1)
  }

  function NoRow(test: TestStatus, count: int, at: StartPc): State {
    State(
      Tables(map[0 := Test(test, 1, 1)], map[0 := Worker("w", WorkerStatus.Idle, 0)], map[]),
      map[0 := StartCall(0, 1, count, at)], 1)
  }

  lemma RunThree(s: State, a: Event, b: Event, c: Event)
    ensures Run(s, [a]) == Next(s, a)
    ensures Run(s, [a, b]) == Next(Next(s, a), b)
    ensures Run(s, [a, b, c]) == Next(Next(Next(s, a), b), c)
  {
    hide Next;
    assert [a, b, c][..2] == [a, b] && [a, b][..1] == [a] && [a][..0] == [];
  }

  lemma SetUpSteps()
    ensures Run(Init(1), [CreateTest(0, 1), RegisterWorker(0, "w", 0), BeginStart(0, 0)]) == NoRow(TestStatus.Created, 0, Loaded)
  {
    RunThree(Init(1), CreateTest(0, 1), RegisterWorker(0, "w", 0), BeginStart(0, 0));
    assert RequiredWorkers(1, 1) == Ok(1);
    var s1 := Next(Init(1), CreateTest(0, 1));
    assert s1 == State(Tables(map[0 := Test(TestStatus.Created, 1, 1)], map[], map[]), map[], 1);
  }

  lemma ClaimSteps()
    ensures Run(NoRow(TestStatus.Created, 0, Loaded), [Advance(0, true, []), Advance(0, true, []), Advance(0, true, [])])
      == NoRow(TestStatus.Starting, 1, Ready)
  {
    var s := NoRow(TestStatus.Created, 0, Loaded);
    RunThree(s, Advance(0, true, []), Advance(0, true, []), Advance(0, true, []));
    var s1 := Next(s, Advance(0, true, []));
    assert s1 == NoRow(TestStatus.Starting, 0, Claimed);
    var s2 := Next(s1, Advance(0, true, []));
    assert RequiredWorkers(1, 1) == Ok(1);
    assert s2 == NoRow(TestStatus.Starting, 1, Counted);
  }

  lemma ReserveTransaction()
    ensures IsSelection(NoRow(TestStatus.Starting, 1, Ready).db, 1, [0])
    ensures ReserveWorkersForTest(NoRow(TestStatus.Starting, 1, Ready).db, 0, 1, Shares(1, 1), [0])
      == Ok(OneRow(TestStatus.Starting, WorkerStatus.Reserved, AssignmentStatus.Reserved, Allocated).db)
  {
    var s := NoRow(TestStatus.Starting, 1, Ready);
    assert Shares(1, 1) == [1];
    assert InsertRows(map[], 0, [0], [1]) == map[(0, 0) := Assignment(AssignmentStatus.Reserved, 1)];
    var r := ReserveWorkersForTest(s.db, 0, 1, [1], [0]);
    assert r.Ok?;
    assert r.value.workers == map[0 := Worker("w", WorkerStatus.Reserved, 0)];
  }

  lemma ReserveNext()
    ensures Next(NoRow(TestStatus.Starting, 1, Ready), Advance(0, true, [0]))
      == OneRow(TestStatus.Starting, WorkerStatus.Reserved, AssignmentStatus.Reserved, Allocated)
  {
    hide IsSelection, ReserveWorkersForTest, Shares, Run, Next;
    var s := NoRow(TestStatus.Starting, 1, Ready);
    ReserveTransaction();
    AdvanceIs(s, 0, true, [0]);
  }

  lemma ReserveStep()
    ensures Run(NoRow(TestStatus.Starting, 1, Ready), [Advance(0, true, [0])])
      == OneRow(TestStatus.Starting, WorkerStatus.Reserved, AssignmentStatus.Reserved, Allocated)
  {
    hide Next, NoRow, OneRow;
    RunThree(NoRow(TestStatus.Starting, 1, Ready), Advance(0, true, [0]), SweepOffline, SweepOffline);
    ReserveNext();
  }

  lemma ReserveOneWorkerRun()
    ensures After(1, ReserveOneWorker()) == OneRow(TestStatus.Starting, WorkerStatus.Reserved, AssignmentStatus.Reserved, Allocated)
  {
    hide Run, OneRow, NoRow;
    var setUp := [CreateTest(0, 1), RegisterWorker(0, "w", 0), BeginStart(0, 0)];
    var claim := [Advance(0, true, []), Advance(0, true, []), Advance(0, true, [])];
    SetUpSteps();
    ClaimSteps();
    ReserveStep();
    RunConcat(Init(1), setUp, claim);
    RunConcat(Init(1), setUp + claim, [Advance(0, true, [0])]);
  }

  /** The worker polls, runs and completes before the start has written RUNNING. */
  function FinishEarly(): seq<Event> {
    [StartAssignment(0, 0), CompleteAssignment(0, 0), Advance(0, true, [])]
  }

  /** The stronger claim, that a RUNNING test always has an unfinished row, is false of the code. */
  lemma StuckIsReachable()
    ensures Stuck(After(1, ReserveOneWorker() + FinishEarly()), 0)
  {
    var s := OneRow(TestStatus.Starting, WorkerStatus.Reserved, AssignmentStatus.Reserved, Allocated);
    ReserveOneWorkerRun();
    RunConcat(Init(1), ReserveOneWorker(), FinishEarly());
    RunThree(s, StartAssignment(0, 0), CompleteAssignment(0, 0), Advance(0, true, []));
    hide Run;
    FinishEarlySteps(s);
  }

  lemma FinishEarlySteps(s: State)
    requires s == OneRow(TestStatus.Starting, WorkerStatus.Reserved, AssignmentStatus.Reserved, Allocated)
    ensures Next(Next(s, StartAssignment(0, 0)), CompleteAssignment(0, 0))
      == OneRow(TestStatus.Starting, WorkerStatus.Idle, AssignmentStatus.Completed, Allocated)
    ensures Next(Next(Next(s, StartAssignment(0, 0)), CompleteAssignment(0, 0)), Advance(0, true, []))
      == OneRow(TestStatus.Running, WorkerStatus.Idle, AssignmentStatus.Completed, StartPc.Won)
  {
    var s1 := Next(s, StartAssignment(0, 0));
    assert s1 == OneRow(TestStatus.Starting, WorkerStatus.Running, AssignmentStatus.Running, Allocated);
    var s2 := Next(s1, CompleteAssignment(0, 0));
    assert s2 == OneRow(TestStatus.Starting, WorkerStatus.Idle, AssignmentStatus.Completed, Allocated);
  }

  // ---------------------------------------------------------------- a stop against a start in flight

  /** The schedule of a whole stop under call id d. */
  function WholeStop(d: CallId, t: TestId): seq<Event> {
    [BeginStop(d, t)] + [Advance(d, true, [])] + [Advance(d, true, [])] + [Advance(d, true, [])]
  }

  ghost predicate StopAt(s: State, d: CallId, t: TestId, next: StopPc) {
    d in s.calls && s.calls[d].StopCall? && s.calls[d].test == t && s.calls[d].next == next && t in s.db.tests
  }

  lemma StopAdvances(s: State, d: CallId, t: TestId, next: StopPc, c: CallId)
    requires StopAt(s, d, t, next) && !next.Done? && !next.Aborted? && c in s.calls && c != d
    ensures var s' := Next(s, Advance(d, true, []));
      && c in s'.calls && s'.calls[c] == s.calls[c]
      && StopAt(s', d, t, match next case Seen => Marked case Marked => Freed case _ => Done)
      && (next.Freed? ==> HasStatus(s'.db, t, TestStatus.Stopped))
  {
    AdvanceIs(s, d, true, []);
    hide Next, StartStep;
  }

  lemma StopBegins(s: State, d: CallId, t: TestId, c: CallId)
    requires t in s.db.tests && !Closed(s.db.tests[t].status) && c in s.calls && d !in s.calls
    ensures var s' := Next(s, BeginStop(d, t)); StopAt(s', d, t, Seen) && c in s'.calls && s'.calls[c] == s.calls[c]
  {
  }

  lemma RunOneMore(s: State, es: seq<Event>, e: Event)
    ensures Run(s, es + [e]) == Next(Run(s, es), e)
  {
    hide Next;
    assert (es + [e])[..|es|] == es;
  }

  /** A stop that runs from beginning to end between the reservation and the RUNNING write of a start
      is undone by that write: the test it left STOPPED is RUNNING again. */
  lemma StopLosesToStartInFlight(s: State, c: CallId, d: CallId, t: TestId)
    requires Inv(s) && c in s.calls && s.calls[c].StartCall? && s.calls[c].test == t && s.calls[c].at.Allocated?
    requires t in s.db.tests && !Closed(s.db.tests[t].status) && d !in s.calls
    ensures var stopped := Run(s, WholeStop(d, t));
      HasStatus(stopped.db, t, TestStatus.Stopped) && HasStatus(Next(stopped, Advance(c, true, [])).db, t, TestStatus.Running)
  {
    var p1 := [BeginStop(d, t)];
    RunThree(s, p1[0], p1[0], p1[0]);
    RunOneMore(s, p1, Advance(d, true, []));
    RunOneMore(s, p1 + [Advance(d, true, [])], Advance(d, true, []));
    RunOneMore(s, p1 + [Advance(d, true, [])] + [Advance(d, true, [])], Advance(d, true, []));
    var s1 := Run(s, p1);
    var s2 := Next(s1, Advance(d, true, []));
    var s3 := Next(s2, Advance(d, true, []));
    var s4 := Next(s3, Advance(d, true, []));
    StopBegins(s, d, t, c);
    StopAdvances(s1, d, t, Seen, c);
    StopAdvances(s2, d, t, Marked, c);
    StopAdvances(s3, d, t, Freed, c);
    assert s4 == Run(s, WholeStop(d, t));
    hide Run, StopAt, Inv;
    RunningWritten(s4, c, t, []);
  }
}
