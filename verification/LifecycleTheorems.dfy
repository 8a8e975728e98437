/** What holds of every test in every run, whatever events interleave. Runs start from empty tables. */
module LifecycleTheorems {
  import opened Domain
  import opened LoadShare
  import opened Transactions
  import opened Lifecycle

  /** The state reached from empty tables by a schedule. */
  ghost function After(capacity: int, es: seq<Event>): State { Run(Init(capacity), es) }

  lemma AfterInv(capacity: int, es: seq<Event>)
    ensures Inv(After(capacity, es)) && After(capacity, es).capacity == capacity
  {
    RunKeepsInv(Init(capacity), es);
  }

  lemma {:induction false} RunConcat(s: State, es: seq<Event>, more: seq<Event>)
    ensures Run(s, es + more) == Run(Run(s, es), more)
    decreases |more|
  {
    hide Next;
    if more == [] {
      assert es + more == es;
    } else {
      var n := |more| - 1;
      assert (es + more)[..|es + more| - 1] == es + more[..n];
      RunConcat(s, es, more[..n]);
    }
  }

  // ---------------------------------------------------------------- single allocation

  /** A test has no workers at all, as long as it is CREATED certainly, or exactly the number its
      rate requires, on distinct workers, with shares between 1 and the capacity that sum to its rate. */
  lemma AllocationIsAllOrNothing(capacity: int, es: seq<Event>, t: TestId)
    ensures var db := After(capacity, es).db;
            t in db.tests ==>
              && (Assigned(db, t) == {} || FullAllocation(ShareTable(db, t), db.tests[t].rps, capacity))
              && (db.tests[t].status.Created? ==> Assigned(db, t) == {})
  {
    AfterInv(capacity, es);
    var s := After(capacity, es);
    hide Run;
    if t in s.db.tests {
      assert TestOk(s.db, s.capacity, t);
    }
  }

  /** What any step does to a test and its rows: the rate is kept, rows never vanish or move
      backwards, and no row joins an allocation. */
  ghost predicate Continues(db: Tables, db': Tables, t: TestId)
    requires t in db.tests
  {
    && t in db'.tests && db'.tests[t].rps == db.tests[t].rps
    && (Assigned(db, t) != {} ==> ShareTable(db', t) == ShareTable(db, t))
    && RowsKept(db, db', t)
  }

  ghost predicate RowsKept(db: Tables, db': Tables, t: TestId) {
    forall w :: (t, w) in db.assignments ==>
      (t, w) in db'.assignments && Progresses(db.assignments[(t, w)].status, db'.assignments[(t, w)].status)
  }

  lemma MovesContinue(db: Tables, db': Tables, t: TestId)
    requires t in db.tests && Moves(db, db')
    ensures Continues(db, db', t)
  {
    ProgressKeepsShares(db, db', t);
  }

  lemma QuietContinues(s: State, e: Event, t: TestId)
    requires t in s.db.tests && (e.CreateTest? || e.BeginStart? || e.BeginStop?)
    ensures Continues(s.db, Next(s, e).db, t)
  {
    ProgressKeepsShares(s.db, Next(s, e).db, t);
  }

  lemma StepContinues(s: State, e: Event, t: TestId)
    requires Inv(s) && t in s.db.tests
    ensures Continues(s.db, Next(s, e).db, t)
  {
    hide Continues, Next, TestsOk, CallsOk, SingleClaim;
    if e.CreateTest? || e.BeginStart? || e.BeginStop? {
      QuietContinues(s, e, t);
    } else if e.Advance? {
      if e.c in s.calls {
        CallStepContinues(s, e.c, e.ok, e.picked, t);
      } else {
        UnknownCall(s, e);
        SameContinues(s.db, t);
      }
    } else {
      OtherEventMoves(s, e);
      MovesContinue(s.db, Next(s, e).db, t);
    }
  }

  lemma SameContinues(db: Tables, t: TestId)
    requires t in db.tests
    ensures Continues(db, db, t)
  {
  }

  lemma CallStepContinues(s: State, c: CallId, ok: bool, picked: seq<WorkerId>, t: TestId)
    requires Inv(s) && c in s.calls && t in s.db.tests
    ensures Continues(s.db, Next(s, Advance(c, ok, picked)).db, t)
  {
    hide Inv, TestOk, StartStep, StopStep, Commit;
    var call := s.calls[c];
    CallIsOk(s, c);
    AdvanceIs(s, c, ok, picked);
    var (db', call') := CallStep(s.db, s.capacity, call, ok, picked);
    if call.StopCall? {
      StopStepMoves(s.db, s.capacity, call, ok, picked);
      MovesContinue(s.db, db', t);
    } else {
      StartStepSound(s.db, s.capacity, call, ok, picked);
      if call.test != t || db'.assignments == s.db.assignments {
        OnlyTestKeepsViews(s.db, db', call.test, t);
      } else {
        OnlyReserveInserts(s.db, s.capacity, call, ok, picked);
      }
    }
  }

  lemma OnlyReserveInserts(db: Tables, capacity: int, call: Call, ok: bool, picked: seq<WorkerId>)
    requires call.StartCall?
    ensures CallStep(db, capacity, call, ok, picked).0.assignments == db.assignments || call.at.Ready?
  {
  }

  /** Along any run a test keeps its rate, its rows and, once it has one, its allocation. */
  lemma {:induction false} RunContinues(s: State, more: seq<Event>, t: TestId)
    requires Inv(s) && t in s.db.tests
    ensures Inv(Run(s, more)) && Continues(s.db, Run(s, more).db, t)
    decreases |more|
  {
    hide Inv, Next;
    RunKeepsInv(s, more);
    if more != [] {
      var n := |more| - 1;
      RunContinues(s, more[..n], t);
      var mid := Run(s, more[..n]);
      StepContinues(mid, more[n], t);
      ContinuesCompose(s.db, mid.db, Next(mid, more[n]).db, t);
    }
  }

  lemma ContinuesCompose(a: Tables, b: Tables, c: Tables, t: TestId)
    requires t in a.tests && Continues(a, b, t) && Continues(b, c, t)
    ensures Continues(a, c, t)
  {
    assert ShareTable(b, t) == ShareTable(a, t) ==> ShareTable(b, t).Keys == ShareTable(a, t).Keys;
  }

  /** Once made, an allocation never changes: same workers, same shares, in every later state. */
  lemma AllocationIsPermanent(capacity: int, es: seq<Event>, more: seq<Event>, t: TestId)
    ensures var s, s' := After(capacity, es), After(capacity, es + more);
            t in s.db.tests && Assigned(s.db, t) != {} ==> ShareTable(s'.db, t) == ShareTable(s.db, t)
  {
    hide Inv, Next;
    AfterInv(capacity, es);
    RunConcat(Init(capacity), es, more);
    if t in After(capacity, es).db.tests {
      RunContinues(After(capacity, es), more, t);
    }
  }

  // ---------------------------------------------------------------- the edges of a test's status

  ghost predicate StartCallAt(s: State, e: Event, t: TestId, at: StartPc) {
    e.Advance? && e.c in s.calls && s.calls[e.c].StartCall? && s.calls[e.c].test == t && s.calls[e.c].at == at
  }

  ghost predicate StopCallAt(s: State, e: Event, t: TestId, next: StopPc) {
    e.Advance? && e.c in s.calls && s.calls[e.c].StopCall? && s.calls[e.c].test == t && s.calls[e.c].next == next
  }

  /** Every way the status of a test can change. */
  ghost predicate Edge(s: State, e: Event, t: TestId, a: TestStatus, b: TestStatus) {
    || a == b
    || (a.Created? && b.Starting? && StartCallAt(s, e, t, Loaded))
    || (a.Starting? && b.Created? && StartCallAt(s, e, t, RollingBack))
    || (Startable(a) && b.Running? && StartCallAt(s, e, t, Allocated))
    || (!Closed(a) && b.Stopping? && StopCallAt(s, e, t, Seen))
    || (b.Stopped? && StopCallAt(s, e, t, Freed))
    || (a.Running? && b.Failed? && ((e.FailAssignment? && e.t == t) || e.SweepOffline?))
    || (a.Running? && b.Completed? && e.CompleteAssignment? && e.t == t && AllCompleted(Next(s, e).db, t))
  }

  lemma ReportEdges(s: State, e: Event, t: TestId)
    requires t in s.db.tests && !e.Advance?
    ensures t in Next(s, e).db.tests && Edge(s, e, t, s.db.tests[t].status, Next(s, e).db.tests[t].status)
  {
  }

  lemma StopEdges(db: Tables, call: Call, ok: bool, t: TestId)
    requires call.StopCall? && t in db.tests && (call.next.Seen? ==> !Closed(call.seen))
    ensures var (db', call') := StopStep(db, call, ok);
      && t in db'.tests
      && (var a, b := db.tests[t].status, db'.tests[t].status;
          || a == b
          || (call.test == t && call.next.Seen? && !Closed(a) && b.Stopping?)
          || (call.test == t && call.next.Freed? && b.Stopped?))
  {
  }

  lemma StartEdges(db: Tables, capacity: int, call: Call, ok: bool, picked: seq<WorkerId>, t: TestId)
    requires call.StartCall? && t in db.tests && CallOk(db, capacity, call)
    ensures var (db', call') := StartStep(db, capacity, call, ok, picked);
      && t in db'.tests
      && (var a, b := db.tests[t].status, db'.tests[t].status;
          || a == b
          || (call.test == t && call.at.Loaded? && a.Created? && b.Starting? && call'.at.Claimed?)
          || (call.test == t && call.at.RollingBack? && a.Starting? && b.Created? && call'.at.Refused?)
          || (call.test == t && call.at.Allocated? && Startable(a) && b.Running? && call'.at.Won?))
  {
  }

  lemma UnknownCall(s: State, e: Event)
    requires e.Advance? && e.c !in s.calls
    ensures Next(s, e) == s
  {
  }

  /** No step takes a test along an edge outside the list. */
  lemma StepFollowsEdge(s: State, e: Event, t: TestId)
    requires Inv(s) && t in s.db.tests
    ensures t in Next(s, e).db.tests && Edge(s, e, t, s.db.tests[t].status, Next(s, e).db.tests[t].status)
  {
    hide Inv, TestOk, StartStep, StopStep, Next, AllCompleted;
    if !e.Advance? {
      ReportEdges(s, e, t);
    } else if e.c !in s.calls {
      UnknownCall(s, e);
    } else {
      CallIsOk(s, e.c);
      AdvanceIs(s, e.c, e.ok, e.picked);
      if s.calls[e.c].StartCall? {
        StartEdges(s.db, s.capacity, s.calls[e.c], e.ok, e.picked, t);
      } else {
        StopEdges(s.db, s.calls[e.c], e.ok, t);
      }
    }
  }

  // ---------------------------------------------------------------- one start at most

  /** Of all the StartTest calls ever made on a test, at most one holds a claim it has not given
      back; this counts calls in flight and calls that succeeded alike. */
  lemma AtMostOneStart(capacity: int, es: seq<Event>, c: CallId, c': CallId)
    ensures var calls := After(capacity, es).calls;
            c in calls && c' in calls && calls[c].test == calls[c'].test && Claims(calls[c]) && Claims(calls[c']) ==>
              c == c'
  {
    AfterInv(capacity, es);
  }

  /** The step moves test t to RUNNING. */
  ghost predicate EntersRunning(s: State, e: Event, t: TestId) {
    t in s.db.tests && !HasStatus(s.db, t, TestStatus.Running) && HasStatus(Next(s, e).db, t, TestStatus.Running)
  }

  ghost predicate WonBy(s: State, c: CallId, t: TestId) {
    c in s.calls && s.calls[c].StartCall? && s.calls[c].test == t && s.calls[c].at.Won?
  }

  ghost predicate Won(s: State, t: TestId) { exists c :: WonBy(s, c, t) }

  /** A finished call is never reopened. */
  lemma WonIsFinal(s: State, e: Event, t: TestId)
    requires Won(s, t)
    ensures Won(Next(s, e), t)
  {
    var c :| WonBy(s, c, t);
    assert WonBy(Next(s, e), c, t);
  }

  /** Only the last write of the claiming StartTest call moves a test to RUNNING, and only if no
      call has done so before. */
  lemma EnteringRunningIsAWin(s: State, e: Event, t: TestId)
    requires Inv(s) && EntersRunning(s, e, t)
    ensures StartCallAt(s, e, t, Allocated) && Won(Next(s, e), t) && !Won(s, t)
  {
    hide Inv, Next, Won;
    StepFollowsEdge(s, e, t);
    WinningStep(s, e, t);
    NotWonBefore(s, e.c, t);
  }

  lemma NotWonBefore(s: State, c: CallId, t: TestId)
    requires Inv(s) && c in s.calls && s.calls[c].StartCall? && s.calls[c].test == t && s.calls[c].at.Allocated?
    ensures !Won(s, t)
  {
    hide TestsOk, CallsOk, RowsRefer;
  }

  lemma WinningStep(s: State, e: Event, t: TestId)
    requires t in s.db.tests && StartCallAt(s, e, t, Allocated) && EntersRunning(s, e, t)
    ensures Won(Next(s, e), t)
  {
    assert WonBy(Next(s, e), e.c, t);
  }

  /** Over a whole run at most one step moves a given test to RUNNING: the steps at i and j,
      if both do, are the same step. */
  lemma RunningIsEnteredOnce(capacity: int, es: seq<Event>, t: TestId, i: nat, j: nat)
    requires i <= j < |es|
    ensures EntersRunning(After(capacity, es[..i]), es[i], t) && EntersRunning(After(capacity, es[..j]), es[j], t) ==>
      i == j
  {
    hide Inv, Next, EntersRunning, Won;
    if EntersRunning(After(capacity, es[..i]), es[i], t) && EntersRunning(After(capacity, es[..j]), es[j], t) && i < j {
      AfterInv(capacity, es[..i]);
      AfterInv(capacity, es[..j]);
      EnteringRunningIsAWin(After(capacity, es[..i]), es[i], t);
      EnteringRunningIsAWin(After(capacity, es[..j]), es[j], t);
      assert es[..i + 1][..i] == es[..i];
      WonPersists(capacity, es, t, i + 1, j);
    }
  }

  lemma {:induction false} WonPersists(capacity: int, es: seq<Event>, t: TestId, i: nat, j: nat)
    requires i <= j <= |es| && Won(After(capacity, es[..i]), t)
    ensures Won(After(capacity, es[..j]), t)
    decreases j
  {
    hide Next, Won;
    if i < j {
      WonPersists(capacity, es, t, i, j - 1);
      assert es[..j][..j - 1] == es[..j - 1];
      WonIsFinal(After(capacity, es[..j - 1]), es[j - 1], t);
    }
  }

  // ---------------------------------------------------------------- closed statuses

  /** No StartTest call on t still has writes to make. */
  ghost predicate NoStartInFlight(s: State, t: TestId) {
    forall c :: c in s.calls && s.calls[c].test == t ==> !InFlight(s.calls[c])
  }

  /** COMPLETED and FAILED already imply that the start is over; STOPPED does not. */
  ghost predicate Settled(s: State, t: TestId) {
    && t in s.db.tests && Closed(s.db.tests[t].status)
    && (s.db.tests[t].status.Stopped? ==> NoStartInFlight(s, t))
  }

  lemma FinishedHasNoStart(s: State, t: TestId)
    requires Inv(s) && t in s.db.tests && Closed(s.db.tests[t].status) && !s.db.tests[t].status.Stopped?
    ensures NoStartInFlight(s, t)
  {
    forall c | c in s.calls && s.calls[c].test == t ensures !InFlight(s.calls[c]) {
      CallIsOk(s, c);
    }
  }

  lemma NoNewStart(s: State, e: Event, t: TestId)
    requires t in s.db.tests && !s.db.tests[t].status.Created? && NoStartInFlight(s, t)
    ensures NoStartInFlight(Next(s, e), t)
  {
    if e.Advance? && e.c in s.calls {
      AdvanceIs(s, e.c, e.ok, e.picked);
    }
  }

  lemma SettledStep(s: State, e: Event, t: TestId)
    requires Inv(s) && Settled(s, t)
    ensures Settled(Next(s, e), t)
    ensures Next(s, e).db.tests[t].status == s.db.tests[t].status || Next(s, e).db.tests[t].status.Stopped?
  {
    hide Inv, Next;
    if !s.db.tests[t].status.Stopped? {
      FinishedHasNoStart(s, t);
    }
    NoNewStart(s, e, t);
    StepFollowsEdge(s, e, t);
    if e.Advance? && e.c in s.calls {
      assert InFlight(s.calls[e.c]) ==> s.calls[e.c].test != t;
    }
  }

  lemma {:induction false} SettledRun(s: State, more: seq<Event>, t: TestId)
    requires Inv(s) && Settled(s, t)
    ensures Settled(Run(s, more), t)
    ensures Run(s, more).db.tests[t].status == s.db.tests[t].status || Run(s, more).db.tests[t].status.Stopped?
    decreases |more|
  {
    hide Inv, Next, Settled;
    if more != [] {
      SettledRun(s, more[..|more| - 1], t);
      RunKeepsInv(s, more[..|more| - 1]);
      SettledStep(Run(s, more[..|more| - 1]), more[|more| - 1], t);
    }
  }

  /** A test that is COMPLETED, FAILED, or STOPPED with no start in flight never leaves these
      statuses again. COMPLETED and FAILED can only give way to STOPPED; STOPPED is final. */
  lemma ClosedForever(capacity: int, es: seq<Event>, more: seq<Event>, t: TestId)
    ensures var s, s' := After(capacity, es), After(capacity, es + more);
            Settled(s, t) ==>
              t in s'.db.tests && (s'.db.tests[t].status == s.db.tests[t].status || s'.db.tests[t].status.Stopped?)
  {
    hide Inv, Next;
    AfterInv(capacity, es);
    RunConcat(Init(capacity), es, more);
    if Settled(After(capacity, es), t) {
      SettledRun(After(capacity, es), more, t);
    }
  }

  /** A closed test is reopened by a step exactly when that step is the RUNNING write of a start
      still in flight, which only a STOPPED test can have. */
  lemma ReopensExactlyWhen(s: State, e: Event, t: TestId)
    requires Inv(s) && t in s.db.tests && Closed(s.db.tests[t].status)
    ensures var s' := Next(s, e);
      t in s'.db.tests && (!Closed(s'.db.tests[t].status) <==> StartCallAt(s, e, t, Allocated) && e.ok)
    ensures StartCallAt(s, e, t, Allocated) ==> s.db.tests[t].status.Stopped?
  {
    hide Next, Inv, AllCompleted, Assigned;
    StepFollowsEdge(s, e, t);
    if StartCallAt(s, e, t, Allocated) {
      AllocatedIsStartable(s, e.c);
      if e.ok {
        RunningWritten(s, e.c, t, e.picked);
      } else {
        RunningNotWritten(s, e.c, t, e.picked);
      }
    }
  }

  lemma AllocatedIsStartable(s: State, c: CallId)
    requires Inv(s) && c in s.calls && s.calls[c].StartCall? && s.calls[c].at.Allocated?
    ensures Startable(s.db.tests[s.calls[c].test].status)
  {
    CallIsOk(s, c);
  }

  lemma RunningWritten(s: State, c: CallId, t: TestId, picked: seq<WorkerId>)
    requires c in s.calls && s.calls[c].StartCall? && s.calls[c].test == t && s.calls[c].at.Allocated? && t in s.db.tests
    ensures HasStatus(Next(s, Advance(c, true, picked)).db, t, TestStatus.Running)
  {
    AdvanceIs(s, c, true, picked);
  }

  lemma RunningNotWritten(s: State, c: CallId, t: TestId, picked: seq<WorkerId>)
    requires c in s.calls && s.calls[c].StartCall? && s.calls[c].test == t && s.calls[c].at.Allocated?
    ensures Next(s, Advance(c, false, picked)).db == s.db
  {
    AdvanceIs(s, c, false, picked);
  }

  // ---------------------------------------------------------------- COMPLETED is sound

  /** A COMPLETED test has its full allocation, and every row of it is COMPLETED. */
  lemma CompletedIsSound(capacity: int, es: seq<Event>, t: TestId)
    ensures var db := After(capacity, es).db;
            HasStatus(db, t, TestStatus.Completed) ==>
              FullAllocation(ShareTable(db, t), db.tests[t].rps, capacity) && AllCompleted(db, t)
  {
    hide Run, Next;
    AfterInv(capacity, es);
    var s := After(capacity, es);
    if t in s.db.tests {
      assert TestOk(s.db, s.capacity, t);
    }
  }

  /** Once a row of a test has FAILED, the test is not COMPLETED now nor in any later state. */
  lemma FailedRowForbidsCompletion(capacity: int, es: seq<Event>, more: seq<Event>, t: TestId)
    ensures var s, s' := After(capacity, es), After(capacity, es + more);
            HasFailedRow(s.db, t) ==> HasFailedRow(s'.db, t) && !HasStatus(s'.db, t, TestStatus.Completed)
  {
    hide Inv, Next, Run;
    AfterInv(capacity, es);
    RunConcat(Init(capacity), es, more);
    var s := After(capacity, es);
    if HasFailedRow(s.db, t) {
      var w :| RowIs(s.db, t, w, AssignmentStatus.Failed);
      RowsReferToTests(s, t, w);
      RunContinues(s, more, t);
      assert RowIs(Run(s, more).db, t, w, AssignmentStatus.Failed);
      CompletedIsSound(capacity, es + more, t);
    }
  }

  lemma RowsReferToTests(s: State, t: TestId, w: WorkerId)
    requires Inv(s) && (t, w) in s.db.assignments
    ensures t in s.db.tests && w in s.db.workers
  {
  }
}
