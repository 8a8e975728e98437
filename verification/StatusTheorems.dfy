/** What the statuses of tests say over whole runs: STARTING means that a start is at work, RUNNING that
    no row has failed, STOPPING is announced before workers are released, and every test carries the
    rate it was created with and the least worker count for it. */
module StatusTheorems {
  import opened Domain
  import opened LoadShare
  import opened Transactions
  import opened TransactionEffects
  import opened Lifecycle
  import opened LifecycleTheorems
  import opened ProgressTheorems

  // ---------------------------------------------------------------- tests that appear

  lemma CallStepKeepsTests(db: Tables, capacity: int, call: Call, ok: bool, picked: seq<WorkerId>)
    ensures CallStep(db, capacity, call, ok, picked).0.tests.Keys == db.tests.Keys
  {
  }

  /** A test enters the table CREATED, with the requested rate and the worker count for it. */
  lemma NewTestIsCreated(s: State, e: Event, t: TestId)
    requires t !in s.db.tests
    ensures var db' := Next(s, e).db;
      t in db'.tests ==>
        && e.CreateTest? && e.t == t && e.rps > 0 && s.capacity > 0
        && db'.tests[t] == Test(TestStatus.Created, e.rps, Required(e.rps, s.capacity))
  {
    if e.Advance? && e.c in s.calls {
      AdvanceIs(s, e.c, e.ok, e.picked);
      CallStepKeepsTests(s.db, s.capacity, s.calls[e.c], e.ok, e.picked);
      hide Next, CallStep;
    } else {
      hide CallStep;
    }
  }

  // ---------------------------------------------------------------- STARTING is claimed

  ghost predicate HoldsClaim(s: State, c: CallId, t: TestId) {
    c in s.calls && Claims(s.calls[c]) && s.calls[c].test == t
  }

  /** A test is STARTING only while some start is at work on it. */
  ghost predicate StartingIsClaimed(s: State, t: TestId) {
    HasStatus(s.db, t, TestStatus.Starting) ==> exists c :: HoldsClaim(s, c, t)
  }

  /** The undo of a start fails while the test is still STARTING. */
  ghost predicate FailedUndo(s: State, e: Event, t: TestId) {
    StartCallAt(s, e, t, RollingBack) && !e.ok && HasStatus(s.db, t, TestStatus.Starting)
  }

  /** The undo gives a STARTING test back as CREATED, without rows and ready to be claimed again; it
      leaves any other status alone. */
  lemma UndoRestoresTest(s: State, c: CallId, picked: seq<WorkerId>)
    requires Inv(s) && c in s.calls && s.calls[c].StartCall? && s.calls[c].at.RollingBack?
    ensures var t := s.calls[c].test; var s' := Next(s, Advance(c, true, picked));
      && t in s.db.tests && Assigned(s'.db, t) == {}
      && (if HasStatus(s.db, t, TestStatus.Starting) then HasStatus(s'.db, t, TestStatus.Created) else s'.db == s.db)
      && c in s'.calls && s'.calls[c].StartCall? && s'.calls[c].at.Refused?
  {
    CallIsOk(s, c);
    AdvanceIs(s, c, true, picked);
    hide Inv, TestOk, Next;
  }

  lemma FailedUndoChangesNothing(s: State, c: CallId, picked: seq<WorkerId>)
    requires c in s.calls && s.calls[c].StartCall? && s.calls[c].at.RollingBack?
    ensures var s' := Next(s, Advance(c, false, picked));
      s'.db == s.db && s'.calls == s.calls[c := s.calls[c].(at := Refused)]
  {
    AdvanceIs(s, c, false, picked);
  }

  /** A claim is given up only by an undo, and won by the step that makes its test STARTING. */
  lemma ClaimMoves(db: Tables, capacity: int, call: Call, ok: bool, picked: seq<WorkerId>)
    requires call.StartCall?
    ensures var (db', call') := CallStep(db, capacity, call, ok, picked);
      && call'.StartCall? && call'.test == call.test
      && (Claims(call) && !call.at.RollingBack? ==> Claims(call'))
      && (HasStatus(db, call.test, TestStatus.Created) && HasStatus(db', call.test, TestStatus.Starting) ==> Claims(call'))
  {
  }

  lemma ClaimSurvives(s: State, e: Event, c: CallId, t: TestId)
    requires HoldsClaim(s, c, t) && !(StartCallAt(s, e, t, RollingBack) && e.c == c)
    ensures HoldsClaim(Next(s, e), c, t)
  {
    if e.Advance? && e.c in s.calls {
      AdvanceIs(s, e.c, e.ok, e.picked);
      hide Next, CallStep;
      if e.c == c {
        ClaimMoves(s.db, s.capacity, s.calls[c], e.ok, e.picked);
      }
    } else {
      hide CallStep;
    }
  }

  lemma OneHolder(s: State, c: CallId, d: CallId, t: TestId)
    requires Inv(s) && HoldsClaim(s, c, t) && HoldsClaim(s, d, t)
    ensures c == d
  {
    hide TestsOk, CallsOk, RowsRefer;
  }

  lemma FailedUndoStrands(s: State, e: Event, t: TestId)
    requires Inv(s) && FailedUndo(s, e, t)
    ensures !StartingIsClaimed(Next(s, e), t)
  {
    hide Next, Inv;
    FailedUndoChangesNothing(s, e.c, e.picked);
    forall d ensures !HoldsClaim(Next(s, e), d, t) {
      if HoldsClaim(s, d, t) {
        OneHolder(s, d, e.c, t);
      }
    }
  }

  lemma StartingWasOrIsClaimed(s: State, e: Event, t: TestId)
    requires Inv(s) && HasStatus(Next(s, e).db, t, TestStatus.Starting)
    ensures HasStatus(s.db, t, TestStatus.Starting) || (e.Advance? && HoldsClaim(Next(s, e), e.c, t))
  {
    hide Next, CallStep, Inv, TestOk, AllCompleted;
    if t !in s.db.tests {
      NewTestIsCreated(s, e, t);
    } else {
      StepFollowsEdge(s, e, t);
      if StartCallAt(s, e, t, Loaded) {
        AdvanceIs(s, e.c, e.ok, e.picked);
        ClaimMoves(s.db, s.capacity, s.calls[e.c], e.ok, e.picked);
      }
    }
  }

  /** A step leaves a STARTING test without a start at work on it if and only if it is an undo that fails. */
  lemma StartingIsClaimedExactlyWhen(s: State, e: Event, t: TestId)
    requires Inv(s) && StartingIsClaimed(s, t)
    ensures StartingIsClaimed(Next(s, e), t) <==> !FailedUndo(s, e, t)
  {
    hide Next, Inv;
    if FailedUndo(s, e, t) {
      FailedUndoStrands(s, e, t);
    } else if HasStatus(Next(s, e).db, t, TestStatus.Starting) {
      StartingWasOrIsClaimed(s, e, t);
      if HasStatus(s.db, t, TestStatus.Starting) {
        var c :| HoldsClaim(s, c, t);
        if StartCallAt(s, e, t, RollingBack) && e.c == c {
          UndoRestoresTest(s, c, e.picked);
        } else {
          ClaimSurvives(s, e, c, t);
        }
      }
    }
  }

  ghost predicate AlwaysClaimed(capacity: int, es: seq<Event>, t: TestId) {
    forall i :: 0 <= i <= |es| ==> StartingIsClaimed(After(capacity, es[..i]), t)
  }

  ghost predicate NoUndoFails(capacity: int, es: seq<Event>, t: TestId) {
    forall i :: 0 <= i < |es| ==> !FailedUndo(After(capacity, es[..i]), es[i], t)
  }

  lemma ClaimedRunStep(capacity: int, es: seq<Event>, i: nat, t: TestId)
    requires i < |es| && StartingIsClaimed(After(capacity, es[..i]), t)
    ensures StartingIsClaimed(After(capacity, es[..i + 1]), t) <==> !FailedUndo(After(capacity, es[..i]), es[i], t)
  {
    hide Next, Inv, StartingIsClaimed, FailedUndo;
    AfterInv(capacity, es[..i]);
    assert es[..i + 1][..i] == es[..i];
    StartingIsClaimedExactlyWhen(After(capacity, es[..i]), es[i], t);
  }

  lemma {:induction false} UndonePrefixClaimed(capacity: int, es: seq<Event>, i: nat, t: TestId)
    requires i <= |es| && NoUndoFails(capacity, es, t)
    ensures StartingIsClaimed(After(capacity, es[..i]), t)
  {
    hide Run, FailedUndo;
    if i == 0 {
      assert es[..0] == [];
      NothingStartsAtFirst(capacity, t);
    } else {
      UndonePrefixClaimed(capacity, es, i - 1, t);
      ClaimedRunStep(capacity, es, i - 1, t);
    }
  }

  lemma NothingStartsAtFirst(capacity: int, t: TestId)
    ensures StartingIsClaimed(After(capacity, []), t) && NoFailureWhileRunning(After(capacity, []).db, t)
  {
  }

  /** Over whole runs: a STARTING test always has a start at work on it if and only if no undo fails
      while it is STARTING. So no test is left STARTING by starts that have given up. */
  lemma StartingIsClaimedOverRuns(capacity: int, es: seq<Event>, t: TestId)
    ensures AlwaysClaimed(capacity, es, t) <==> NoUndoFails(capacity, es, t)
  {
    hide Run, StartingIsClaimed, FailedUndo;
    if NoUndoFails(capacity, es, t) {
      forall i | 0 <= i <= |es| ensures StartingIsClaimed(After(capacity, es[..i]), t) {
        UndonePrefixClaimed(capacity, es, i, t);
      }
    }
    if AlwaysClaimed(capacity, es, t) {
      forall i | 0 <= i < |es| ensures !FailedUndo(After(capacity, es[..i]), es[i], t) {
        ClaimedRunStep(capacity, es, i, t);
      }
    }
  }

  // ---------------------------------------------------------------- RUNNING has no failed row

  ghost predicate NoFailureWhileRunning(db: Tables, t: TestId) {
    HasStatus(db, t, TestStatus.Running) ==> !HasFailedRow(db, t)
  }

  /** The start writes RUNNING although a worker has failed already. */
  ghost predicate RunningDespiteFailure(s: State, e: Event, t: TestId) {
    StartCallAt(s, e, t, Allocated) && e.ok && HasFailedRow(s.db, t)
  }

  lemma ReportKeepsNoFailure(s: State, e: Event, t: TestId)
    requires NoFailureWhileRunning(s.db, t) && (e.StartAssignment? || e.CompleteAssignment? || e.FailAssignment?)
    ensures NoFailureWhileRunning(Next(s, e).db, t)
  {
    var db, db' := s.db, Next(s, e).db;
    if HasStatus(db', t, TestStatus.Running) && HasFailedRow(db', t) {
      var w :| RowIs(db', t, w, AssignmentStatus.Failed);
      ReportNeverHides(s, e, t, w);
    }
  }

  lemma ReportNeverHides(s: State, e: Event, t: TestId, w: WorkerId)
    requires e.StartAssignment? || e.CompleteAssignment? || e.FailAssignment?
    requires var db' := Next(s, e).db; HasStatus(db', t, TestStatus.Running) && RowIs(db', t, w, AssignmentStatus.Failed)
    ensures RowIs(s.db, t, w, AssignmentStatus.Failed) && HasStatus(s.db, t, TestStatus.Running)
  {
    hide AllCompleted;
  }

  lemma OtherKeepsNoFailure(s: State, e: Event, t: TestId)
    requires NoFailureWhileRunning(s.db, t) && !e.Advance? && !e.StartAssignment? && !e.CompleteAssignment? && !e.FailAssignment?
    ensures NoFailureWhileRunning(Next(s, e).db, t)
  {
    if e.SweepOffline? {
      SweepHeals(s);
    } else {
      hide CallStep, HasFailedRow;
      SameFailures(s.db, Next(s, e).db, t);
    }
  }

  lemma StopKeepsNoFailure(db: Tables, call: Call, ok: bool, t: TestId)
    requires call.StopCall? && NoFailureWhileRunning(db, t)
    ensures NoFailureWhileRunning(StopStep(db, call, ok).0, t)
  {
    var db' := StopStep(db, call, ok).0;
    if HasStatus(db', t, TestStatus.Running) && HasFailedRow(db', t) {
      var w :| RowIs(db', t, w, AssignmentStatus.Failed);
      assert RowIs(db, t, w, AssignmentStatus.Failed);
    }
  }

  lemma ReservationAddsNoFailure(db: Tables, capacity: int, call: Call, ok: bool, picked: seq<WorkerId>, t: TestId)
    requires call.StartCall?
    ensures HasFailedRow(CallStep(db, capacity, call, ok, picked).0, t) <==> HasFailedRow(db, t)
  {
    var db' := CallStep(db, capacity, call, ok, picked).0;
    if call.at.Ready? && db' != db {
      ReservationEffect(db, call.test, call.required, Shares(call.rps, call.required), picked);
      forall w ensures RowIs(db', t, w, AssignmentStatus.Failed) <==> RowIs(db, t, w, AssignmentStatus.Failed) {
        if t == call.test && w in picked {
          var i :| 0 <= i < |picked| && picked[i] == w;
        }
      }
    } else {
      SameFailures(db, db', t);
    }
  }

  lemma StartKeepsNoFailure(s: State, e: Event, t: TestId)
    requires Inv(s) && NoFailureWhileRunning(s.db, t) && t in s.db.tests
    requires e.Advance? && e.c in s.calls && s.calls[e.c].StartCall?
    ensures NoFailureWhileRunning(Next(s, e).db, t) <==> !RunningDespiteFailure(s, e, t)
  {
    hide Next, CallStep, Inv, TestOk, AllCompleted, HasFailedRow;
    AdvanceIs(s, e.c, e.ok, e.picked);
    ReservationAddsNoFailure(s.db, s.capacity, s.calls[e.c], e.ok, e.picked, t);
    StepFollowsEdge(s, e, t);
    if StartCallAt(s, e, t, Allocated) && e.ok {
      RunningWritten(s, e.c, t, e.picked);
    } else if StartCallAt(s, e, t, Allocated) {
      RunningNotWritten(s, e.c, t, e.picked);
    }
  }

  /** A step leaves a RUNNING test with a FAILED row if and only if it is the RUNNING write of a start
      one of whose workers has failed already. Reports and sweeps fail a RUNNING test at once. */
  lemma FailureEndsRunningExactlyWhen(s: State, e: Event, t: TestId)
    requires Inv(s) && NoFailureWhileRunning(s.db, t)
    ensures NoFailureWhileRunning(Next(s, e).db, t) <==> !RunningDespiteFailure(s, e, t)
  {
    hide Next, CallStep, Inv, NoFailureWhileRunning;
    if e.Advance? && e.c in s.calls {
      CallIsOk(s, e.c);
      AdvanceIs(s, e.c, e.ok, e.picked);
      if t !in s.db.tests {
        CallStepKeepsTests(s.db, s.capacity, s.calls[e.c], e.ok, e.picked);
        MissingTestHasNoFailure(Next(s, e).db, t);
      } else if s.calls[e.c].StopCall? {
        StopIsCallStep(s.db, s.capacity, s.calls[e.c], e.ok, e.picked);
        StopKeepsNoFailure(s.db, s.calls[e.c], e.ok, t);
      } else {
        StartKeepsNoFailure(s, e, t);
      }
    } else if e.Advance? {
      UnknownCall(s, e);
    } else if e.StartAssignment? || e.CompleteAssignment? || e.FailAssignment? {
      ReportKeepsNoFailure(s, e, t);
    } else {
      OtherKeepsNoFailure(s, e, t);
    }
  }

  lemma MissingTestHasNoFailure(db: Tables, t: TestId)
    requires t !in db.tests
    ensures NoFailureWhileRunning(db, t)
  {
  }

  lemma StopIsCallStep(db: Tables, capacity: int, call: Call, ok: bool, picked: seq<WorkerId>)
    requires call.StopCall?
    ensures CallStep(db, capacity, call, ok, picked) == StopStep(db, call, ok)
  {
  }

  ghost predicate FailureFree(capacity: int, es: seq<Event>, t: TestId) {
    forall i :: 0 <= i <= |es| ==> NoFailureWhileRunning(After(capacity, es[..i]).db, t)
  }

  ghost predicate NoLateFailure(capacity: int, es: seq<Event>, t: TestId) {
    forall i :: 0 <= i < |es| ==> !RunningDespiteFailure(After(capacity, es[..i]), es[i], t)
  }

  lemma FailureRunStep(capacity: int, es: seq<Event>, i: nat, t: TestId)
    requires i < |es| && NoFailureWhileRunning(After(capacity, es[..i]).db, t)
    ensures NoFailureWhileRunning(After(capacity, es[..i + 1]).db, t) <==> !RunningDespiteFailure(After(capacity, es[..i]), es[i], t)
  {
    hide Next, Inv, NoFailureWhileRunning, RunningDespiteFailure;
    AfterInv(capacity, es[..i]);
    assert es[..i + 1][..i] == es[..i];
    FailureEndsRunningExactlyWhen(After(capacity, es[..i]), es[i], t);
  }

  lemma {:induction false} FailureFreePrefix(capacity: int, es: seq<Event>, i: nat, t: TestId)
    requires i <= |es| && NoLateFailure(capacity, es, t)
    ensures NoFailureWhileRunning(After(capacity, es[..i]).db, t)
  {
    hide Run, RunningDespiteFailure;
    if i == 0 {
      assert es[..0] == [];
      NothingStartsAtFirst(capacity, t);
    } else {
      FailureFreePrefix(capacity, es, i - 1, t);
      FailureRunStep(capacity, es, i - 1, t);
    }
  }

  /** Over whole runs: a RUNNING test never has a FAILED row if and only if no start ever writes
      RUNNING over a failure. */
  lemma FailureEndsRunningOverRuns(capacity: int, es: seq<Event>, t: TestId)
    ensures FailureFree(capacity, es, t) <==> NoLateFailure(capacity, es, t)
  {
    hide Run, NoFailureWhileRunning, RunningDespiteFailure;
    if NoLateFailure(capacity, es, t) {
      forall i | 0 <= i <= |es| ensures NoFailureWhileRunning(After(capacity, es[..i]).db, t) {
        FailureFreePrefix(capacity, es, i, t);
      }
    }
    if FailureFree(capacity, es, t) {
      forall i | 0 <= i < |es| ensures !RunningDespiteFailure(After(capacity, es[..i]), es[i], t) {
        FailureRunStep(capacity, es, i, t);
      }
    }
  }

  // ---------------------------------------------------------------- stops

  /** A stop's first write announces it, unless the status has moved since it was read. */
  lemma StopAnnounces(s: State, d: CallId, picked: seq<WorkerId>)
    requires Inv(s) && d in s.calls && s.calls[d].StopCall? && s.calls[d].next.Seen?
    ensures var t := s.calls[d].test; var s' := Next(s, Advance(d, true, picked));
      && t in s.db.tests && d in s'.calls && s'.calls[d].StopCall? && s'.calls[d].next.Marked?
      && (if HasStatus(s.db, t, s.calls[d].seen) then HasStatus(s'.db, t, TestStatus.Stopping) else s'.db == s.db)
  {
    CallIsOk(s, d);
    AdvanceIs(s, d, true, picked);
    hide Inv, Next;
  }

  /** A stop's second write frees the workers of the test. */
  lemma StopFrees(s: State, d: CallId, picked: seq<WorkerId>)
    requires d in s.calls && s.calls[d].StopCall? && s.calls[d].next.Marked?
    ensures var t := s.calls[d].test; var s' := Next(s, Advance(d, true, picked));
      && FreedBy(s.db, s'.db, t) && HoldsNobody(s'.db, t) && s'.db.tests == s.db.tests
      && d in s'.calls && s'.calls[d].StopCall? && s'.calls[d].next.Freed?
  {
    ReleaseFreesWorkers(s.db, s.calls[d].test);
    AdvanceIs(s, d, true, picked);
    hide Next, FreedBy, HoldsNobody, ReleaseWorkersForTest, StartStep;
  }

  // ---------------------------------------------------------------- rates and worker counts

  ghost predicate Sized(db: Tables, capacity: int) {
    forall t :: t in db.tests ==> SizedTest(db, capacity, t)
  }

  ghost predicate SizedTest(db: Tables, capacity: int, t: TestId)
    requires t in db.tests
  {
    db.tests[t].rps > 0 && capacity > 0 && db.tests[t].workerCount == Required(db.tests[t].rps, capacity)
  }

  lemma CallStepSized(db: Tables, capacity: int, call: Call, ok: bool, picked: seq<WorkerId>)
    requires Sized(db, capacity) && call.test in db.tests && (call.StartCall? ==> call.rps == db.tests[call.test].rps)
    ensures Sized(CallStep(db, capacity, call, ok, picked).0, capacity)
  {
  }

  lemma StepSized(s: State, e: Event)
    requires Inv(s) && Sized(s.db, s.capacity)
    ensures Sized(Next(s, e).db, s.capacity)
  {
    if e.Advance? && e.c in s.calls {
      CallIsOk(s, e.c);
      AdvanceIs(s, e.c, e.ok, e.picked);
      hide Next, CallStep, Inv, TestOk, Sized;
      CallStepSized(s.db, s.capacity, s.calls[e.c], e.ok, e.picked);
    } else {
      hide Next, CallStep, Inv;
      forall t | t in Next(s, e).db.tests ensures SizedTest(Next(s, e).db, s.capacity, t) {
        if t in s.db.tests {
          assert SizedTest(s.db, s.capacity, t);
          OtherEventKeepsSize(s, e, t);
        } else {
          NewTestIsCreated(s, e, t);
        }
      }
    }
  }

  lemma OtherEventKeepsSize(s: State, e: Event, t: TestId)
    requires t in s.db.tests && !(e.Advance? && e.c in s.calls)
    ensures var db' := Next(s, e).db;
      t in db'.tests && db'.tests[t].rps == s.db.tests[t].rps && db'.tests[t].workerCount == s.db.tests[t].workerCount
  {
    hide CallStep, AllCompleted, HasFailedRow;
  }

  lemma {:induction false} RunSized(capacity: int, es: seq<Event>)
    ensures Sized(After(capacity, es).db, capacity)
    decreases |es|
  {
    hide Next, Inv;
    if es != [] {
      RunSized(capacity, es[..|es| - 1]);
      AfterInv(capacity, es[..|es| - 1]);
      StepSized(After(capacity, es[..|es| - 1]), es[|es| - 1]);
    }
  }

  /** In every run the stored worker count of a test is the least number of workers whose capacity
      carries its rate. */
  lemma WorkerCountIsLeast(capacity: int, es: seq<Event>, t: TestId, m: int)
    ensures var db := After(capacity, es).db;
      t in db.tests ==> (m * capacity >= db.tests[t].rps <==> m >= db.tests[t].workerCount)
  {
    RunSized(capacity, es);
    var db := After(capacity, es).db;
    hide Run;
    if t in db.tests {
      assert SizedTest(db, capacity, t);
      RequiredIsLeast(db.tests[t].rps, capacity, m);
    }
  }

  ghost predicate CreatedAt(capacity: int, es: seq<Event>, t: TestId, rps: int, i: nat) {
    i < |es| && es[i] == CreateTest(t, rps) && t !in After(capacity, es[..i]).db.tests
  }

  /** In every run a test carries the rate of the request that created it. */
  lemma {:induction false} RateIsAsRequested(capacity: int, es: seq<Event>, t: TestId)
    ensures var db := After(capacity, es).db;
      t in db.tests ==> exists i: nat :: CreatedAt(capacity, es, t, db.tests[t].rps, i)
    decreases |es|
  {
    hide Next, Inv;
    if es != [] {
      var n := |es| - 1;
      RateIsAsRequested(capacity, es[..n], t);
      AfterInv(capacity, es[..n]);
      var s := After(capacity, es[..n]);
      if t in s.db.tests {
        var i: nat :| CreatedAt(capacity, es[..n], t, s.db.tests[t].rps, i);
        assert es[..n][..i] == es[..i];
        assert CreatedAt(capacity, es, t, s.db.tests[t].rps, i);
        StepContinues(s, es[n], t);
      } else if t in After(capacity, es).db.tests {
        NewTestIsCreated(s, es[n], t);
        assert CreatedAt(capacity, es, t, After(capacity, es).db.tests[t].rps, n);
      }
    }
  }
}
