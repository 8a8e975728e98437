/** Exclusive ownership of workers: when it holds, when a single event breaks it, and two runs of the
    code that do break it. */
module Ownership {
  import opened Domain
  import opened LoadShare
  import opened Transactions
  import opened Lifecycle
  import opened LifecycleTheorems
  import opened FinishTheorems

  /** A worker has at most one live row; a RESERVED row has a RESERVED (or dead) worker and a RUNNING
      row a RUNNING (or dead) one. So IDLE and DRAINING workers have none. */
  ghost predicate Owned(db: Tables) {
    && OneLiveRow(db)
    && forall t, w :: LiveRow(db, t, w) ==> WorkerMatches(db, db.assignments[(t, w)].status, w)
  }

  ghost predicate WorkerMatches(db: Tables, row: AssignmentStatus, w: WorkerId) {
    || WorkerIs(db, w, WorkerStatus.Offline)
    || (row.Reserved? && WorkerIs(db, w, WorkerStatus.Reserved))
    || (row.Running? && WorkerIs(db, w, WorkerStatus.Running))
  }

  ghost predicate OneLiveRow(db: Tables) {
    forall t, t', w :: LiveRow(db, t, w) && LiveRow(db, t', w) ==> t == t'
  }

  /** Nobody who once worked for t and is RESERVED now is live for another test. */
  ghost predicate SafeToRelease(db: Tables, t: TestId) {
    forall t', w :: (t, w) in db.assignments && WorkerIs(db, w, WorkerStatus.Reserved) && t' != t ==> !LiveRow(db, t', w)
  }

  /** A worker the tables show RUNNING a row may only report RUNNING. */
  ghost predicate SafeReport(db: Tables, w: WorkerId, reported: WorkerStatus) {
    WorkerIs(db, w, WorkerStatus.Running) && (exists t :: RowIs(db, t, w, AssignmentStatus.Running)) ==>
      reported.Running? || reported.Offline?
  }

  ghost predicate Safe(s: State, e: Event) {
    && (e.Heartbeat? ==> SafeReport(s.db, e.w, e.reported))
    && (forall t :: StopCallAt(s, e, t, Marked) && e.ok ==> SafeToRelease(s.db, t))
  }

  // ---------------------------------------------------------------- exactness of one step

  lemma HeartbeatOwned(s: State, w: WorkerId, reported: WorkerStatus, now: int)
    requires Owned(s.db)
    ensures Owned(Next(s, Heartbeat(w, reported, now)).db) <==> SafeReport(s.db, w, reported)
  {
    var db, db' := s.db, Next(s, Heartbeat(w, reported, now)).db;
    assert forall t, v :: LiveRow(db', t, v) ==> LiveRow(db, t, v);
    if !SafeReport(db, w, reported) {
      var t :| RowIs(db, t, w, AssignmentStatus.Running);
      assert LiveRow(db', t, w) && !WorkerMatches(db', AssignmentStatus.Running, w);
    } else {
      forall t | LiveRow(db', t, w) ensures WorkerMatches(db', db.assignments[(t, w)].status, w) {
        assert LiveRow(db, t, w) && RowIs(db, t, w, db.assignments[(t, w)].status);
      }
    }
  }

  lemma ReleaseOwned(db: Tables, t: TestId)
    requires Owned(db)
    ensures Owned(ReleaseWorkersForTest(db, t)) <==> SafeToRelease(db, t)
  {
    var db' := ReleaseWorkersForTest(db, t);
    assert forall u, v :: LiveRow(db', u, v) ==> LiveRow(db, u, v) && u != t;
    if !SafeToRelease(db, t) {
      var t', w :| (t, w) in db.assignments && WorkerIs(db, w, WorkerStatus.Reserved) && t' != t && LiveRow(db, t', w);
      assert LiveRow(db', t', w) && WorkerIs(db', w, WorkerStatus.Idle);
    }
  }

  lemma ReserveOwned(db: Tables, t: TestId, n: int, shares: seq<int>, picked: seq<WorkerId>)
    requires Owned(db) && IsSelection(db, n, picked) && ReserveWorkersForTest(db, t, n, shares, picked).Ok?
    ensures Owned(ReserveWorkersForTest(db, t, n, shares, picked).value)
  {
    InsertRowsEffect(db.assignments, t, picked, shares);
    var db' := ReserveWorkersForTest(db, t, n, shares, picked).value;
    assert forall w :: w in picked ==> WorkerIs(db, w, WorkerStatus.Idle);
    assert forall u, w :: w in picked ==> !LiveRow(db, u, w);
    forall u, w | LiveRow(db', u, w)
      ensures if w in picked then u == t && db'.assignments[(u, w)].status.Reserved? else LiveRow(db, u, w)
    {
      if w in picked && u == t {
        var i :| 0 <= i < |picked| && picked[i] == w;
      } else {
        assert (u, w) in db.assignments && db.assignments[(u, w)] == db'.assignments[(u, w)];
        assert LiveRow(db, u, w);
      }
    }
  }

  lemma WorkerEventOwned(s: State, e: Event)
    requires Owned(s.db) && (e.RegisterWorker? || e.MarkOffline? || e.SweepOffline? || e.Drain?)
    ensures Owned(Next(s, e).db)
  {
    assert forall t, v :: LiveRow(Next(s, e).db, t, v) ==> LiveRow(s.db, t, v);
  }

  lemma RowReportOwned(s: State, e: Event)
    requires Owned(s.db) && (e.StartAssignment? || e.CompleteAssignment? || e.FailAssignment?)
    ensures Owned(Next(s, e).db)
  {
    match e
    case StartAssignment(t, w) => StartReportOwned(s, t, w);
    case CompleteAssignment(t, w) => EndReportOwned(s, e);
    case FailAssignment(t, w) => EndReportOwned(s, e);
  }

  lemma StartReportOwned(s: State, t: TestId, w: WorkerId)
    requires Owned(s.db)
    ensures Owned(Next(s, StartAssignment(t, w)).db)
  {
    var db, db' := s.db, Next(s, StartAssignment(t, w)).db;
    if db' != db {
      assert LiveRow(db, t, w);
      assert forall u, v :: LiveRow(db', u, v) ==> LiveRow(db, u, v);
    }
  }

  lemma EndReportOwned(s: State, e: Event)
    requires Owned(s.db) && (e.CompleteAssignment? || e.FailAssignment?)
    ensures Owned(Next(s, e).db)
  {
    var db, db' := s.db, Next(s, e).db;
    if db' != db {
      assert LiveRow(db, e.t, e.w);
      assert forall u, v :: LiveRow(db', u, v) ==> LiveRow(db, u, v);
    }
  }

  lemma SameRowsOwned(db: Tables, db': Tables)
    requires db'.assignments == db.assignments && db'.workers == db.workers
    ensures Owned(db') <==> Owned(db)
  {
    assert forall t, v :: LiveRow(db', t, v) <==> LiveRow(db, t, v);
    assert forall w, st :: WorkerIs(db', w, st) <==> WorkerIs(db, w, st);
  }

  lemma CallStepOwned(db: Tables, capacity: int, call: Call, ok: bool, picked: seq<WorkerId>)
    requires Owned(db)
    ensures Owned(CallStep(db, capacity, call, ok, picked).0) <==>
      (call.StopCall? && call.next.Marked? && ok ==> SafeToRelease(db, call.test))
  {
    hide Owned, ReserveWorkersForTest, ReleaseWorkersForTest, SafeToRelease;
    if call.StopCall? && call.next.Marked? {
      ReleaseOwned(db, call.test);
    } else if call.StartCall? && call.at.Ready? && IsSelection(db, call.required, picked) && call.required > 0 {
      var shares := Shares(call.rps, call.required);
      if ReserveWorkersForTest(db, call.test, call.required, shares, picked).Ok? {
        ReserveOwned(db, call.test, call.required, shares, picked);
      }
    } else {
      SameRowsOwned(db, CallStep(db, capacity, call, ok, picked).0);
    }
  }

  /** From a state in which workers are exclusively owned, a step keeps exclusive ownership if and
      only if it is safe: only the two kinds of event above can break it, and they always do. */
  lemma OwnershipKeptExactlyWhen(s: State, e: Event)
    requires Owned(s.db)
    ensures Owned(Next(s, e).db) <==> Safe(s, e)
  {
    if e.Heartbeat? {
      HeartbeatOwned(s, e.w, e.reported, e.now);
    } else if e.Advance? {
      if e.c in s.calls {
        hide Owned, SafeToRelease;
        AdvanceIs(s, e.c, e.ok, e.picked);
        CallStepOwned(s.db, s.capacity, s.calls[e.c], e.ok, e.picked);
        assert StopCallAt(s, e, s.calls[e.c].test, Marked) <==> s.calls[e.c].StopCall? && s.calls[e.c].next.Marked?;
      }
    } else if e.StartAssignment? || e.CompleteAssignment? || e.FailAssignment? {
      RowReportOwned(s, e);
    } else if e.RegisterWorker? || e.MarkOffline? || e.SweepOffline? || e.Drain? {
      WorkerEventOwned(s, e);
    } else {
      SameRowsOwned(s.db, Next(s, e).db);
    }
  }

  // ---------------------------------------------------------------- whole runs

  ghost predicate OwnedThroughout(capacity: int, es: seq<Event>) {
    forall i :: 0 <= i <= |es| ==> Owned(After(capacity, es[..i]).db)
  }

  ghost predicate SafeThroughout(capacity: int, es: seq<Event>) {
    forall i :: 0 <= i < |es| ==> Safe(After(capacity, es[..i]), es[i])
  }

  lemma OwnedStep(capacity: int, es: seq<Event>, i: nat)
    requires i < |es| && Owned(After(capacity, es[..i]).db)
    ensures Owned(After(capacity, es[..i + 1]).db) <==> Safe(After(capacity, es[..i]), es[i])
  {
    hide Owned, Next, Safe;
    assert es[..i + 1] == es[..i] + [es[i]];
    assert (es[..i] + [es[i]])[..i] == es[..i];
    OwnershipKeptExactlyWhen(After(capacity, es[..i]), es[i]);
  }

  /** Over a whole run from empty tables, workers are exclusively owned in every state if and only if
      every step of the run is safe. */
  lemma OwnershipOverRuns(capacity: int, es: seq<Event>)
    ensures OwnedThroughout(capacity, es) <==> SafeThroughout(capacity, es)
  {
    hide Safe, Next;
    if OwnedThroughout(capacity, es) {
      forall i | 0 <= i < |es| ensures Safe(After(capacity, es[..i]), es[i]) {
        OwnedStep(capacity, es, i);
      }
    }
    if SafeThroughout(capacity, es) {
      forall i | 0 <= i <= |es| ensures Owned(After(capacity, es[..i]).db) {
        SafePrefixOwned(capacity, es, i);
      }
    }
  }

  lemma {:induction false} SafePrefixOwned(capacity: int, es: seq<Event>, i: nat)
    requires i <= |es| && SafeThroughout(capacity, es)
    ensures Owned(After(capacity, es[..i]).db)
    decreases i
  {
    hide Safe, Next;
    if i > 0 {
      SafePrefixOwned(capacity, es, i - 1);
      OwnedStep(capacity, es, i - 1);
    }
  }

  // ---------------------------------------------------------------- two runs that break it

  /** A worker whose completion report was lost goes back to reporting IDLE while its row is RUNNING. */
  lemma IdleReportBreaksOwnership()
    ensures var es := ReserveOneWorker() + [StartAssignment(0, 0)];
      Owned(After(1, es).db) && !Owned(After(1, es + [Heartbeat(0, WorkerStatus.Idle, 1)]).db)
  {
    hide Run, Owned;
    var es := ReserveOneWorker() + [StartAssignment(0, 0)];
    var s := OneRow(TestStatus.Starting, WorkerStatus.Reserved, AssignmentStatus.Reserved, Allocated);
    ReserveOneWorkerRun();
    RunConcat(Init(1), ReserveOneWorker(), [StartAssignment(0, 0)]);
    RunThree(s, StartAssignment(0, 0), SweepOffline, SweepOffline);
    RunningRowState(s);
    var s1 := After(1, es);
    RunConcat(Init(1), es, [Heartbeat(0, WorkerStatus.Idle, 1)]);
    RunThree(s1, Heartbeat(0, WorkerStatus.Idle, 1), SweepOffline, SweepOffline);
    OwnershipKeptExactlyWhen(s1, Heartbeat(0, WorkerStatus.Idle, 1));
    assert RowIs(s1.db, 0, 0, AssignmentStatus.Running);
  }

  lemma RunningRowState(s: State)
    requires s == OneRow(TestStatus.Starting, WorkerStatus.Reserved, AssignmentStatus.Reserved, Allocated)
    ensures Next(s, StartAssignment(0, 0)) == OneRow(TestStatus.Starting, WorkerStatus.Running, AssignmentStatus.Running, Allocated)
    ensures Owned(Next(s, StartAssignment(0, 0)).db)
  {
  }

  /** Worker 0 has completed test 0, which is still STARTING, and is reserved for test 1; then test 0
      is stopped. */
  function ReuseThenStop(): seq<Event> {
    [StartAssignment(0, 0), CompleteAssignment(0, 0), CreateTest(1, 1)]
    + [BeginStart(1, 1), Advance(1, true, []), Advance(1, true, [])]
    + [Advance(1, true, []), Advance(1, true, [0]), BeginStop(2, 0)]
    + [Advance(2, true, [])]
  }

  function TwoTests(first: TestStatus, second: int, worker: WorkerStatus, rows: map<(TestId, WorkerId), Assignment>, calls: map<CallId, Call>): State {
    State(
      Tables(map[0 := Test(first, 1, 1), 1 := Test(if second == 0 then TestStatus.Created else TestStatus.Starting, 1, 1)],
             map[0 := Worker("w", worker, 0)], rows),
      map[0 := StartCall(0, 1, 1, Allocated)] + calls, 1)
  }

  const DoneRow: map<(TestId, WorkerId), Assignment> := map[(0, 0) := Assignment(AssignmentStatus.Completed, 1)]

  const BothRows: map<(TestId, WorkerId), Assignment> := DoneRow[(1, 0) := Assignment(AssignmentStatus.Reserved, 1)]

  lemma ReuseSteps1()
    ensures Run(OneRow(TestStatus.Starting, WorkerStatus.Reserved, AssignmentStatus.Reserved, Allocated),
                [StartAssignment(0, 0), CompleteAssignment(0, 0), CreateTest(1, 1)])
      == TwoTests(TestStatus.Starting, 0, WorkerStatus.Idle, DoneRow, map[])
  {
    var s := OneRow(TestStatus.Starting, WorkerStatus.Reserved, AssignmentStatus.Reserved, Allocated);
    RunThree(s, StartAssignment(0, 0), CompleteAssignment(0, 0), CreateTest(1, 1));
    hide Run;
    FinishEarlySteps(s);
    var s2 := OneRow(TestStatus.Starting, WorkerStatus.Idle, AssignmentStatus.Completed, Allocated);
    assert Next(Next(s, StartAssignment(0, 0)), CompleteAssignment(0, 0)) == s2;
    assert RequiredWorkers(1, 1) == Ok(1);
  }

  lemma SecondClaim()
    ensures var s1 := Next(TwoTests(TestStatus.Starting, 0, WorkerStatus.Idle, DoneRow, map[]), BeginStart(1, 1));
      Next(s1, Advance(1, true, [])) == TwoTests(TestStatus.Starting, 1, WorkerStatus.Idle, DoneRow, map[1 := StartCall(1, 1, 0, Claimed)])
  {
    var s := TwoTests(TestStatus.Starting, 0, WorkerStatus.Idle, DoneRow, map[]);
    var s1 := Next(s, BeginStart(1, 1));
    assert s1 == TwoTests(TestStatus.Starting, 0, WorkerStatus.Idle, DoneRow, map[1 := StartCall(1, 1, 0, Loaded)]);
  }

  lemma SecondCount()
    ensures var s1 := Next(TwoTests(TestStatus.Starting, 1, WorkerStatus.Idle, DoneRow, map[1 := StartCall(1, 1, 0, Claimed)]), Advance(1, true, []));
      Next(s1, Advance(1, true, [])) == TwoTests(TestStatus.Starting, 1, WorkerStatus.Idle, DoneRow, map[1 := StartCall(1, 1, 1, Ready)])
  {
    var s := TwoTests(TestStatus.Starting, 1, WorkerStatus.Idle, DoneRow, map[1 := StartCall(1, 1, 0, Claimed)]);
    assert RequiredWorkers(1, 1) == Ok(1);
    var s1 := Next(s, Advance(1, true, []));
    assert s1 == TwoTests(TestStatus.Starting, 1, WorkerStatus.Idle, DoneRow, map[1 := StartCall(1, 1, 1, Counted)]);
  }

  lemma SecondReservation()
    ensures var db := TwoTests(TestStatus.Starting, 1, WorkerStatus.Idle, DoneRow, map[]).db;
      && IsSelection(db, 1, [0])
      && ReserveWorkersForTest(db, 1, 1, Shares(1, 1), [0]) == Ok(TwoTests(TestStatus.Starting, 1, WorkerStatus.Reserved, BothRows, map[]).db)
  {
    var db := TwoTests(TestStatus.Starting, 1, WorkerStatus.Idle, DoneRow, map[]).db;
    assert Shares(1, 1) == [1];
    assert InsertRows(DoneRow, 1, [0], [1]) == BothRows;
    var r := ReserveWorkersForTest(db, 1, 1, [1], [0]);
    assert r.Ok?;
    assert r.value.workers == map[0 := Worker("w", WorkerStatus.Reserved, 0)];
  }

  lemma SecondReserve()
    ensures Next(TwoTests(TestStatus.Starting, 1, WorkerStatus.Idle, DoneRow, map[1 := StartCall(1, 1, 1, Ready)]), Advance(1, true, [0]))
      == TwoTests(TestStatus.Starting, 1, WorkerStatus.Reserved, BothRows, map[1 := StartCall(1, 1, 1, Allocated)])
  {
    hide IsSelection, ReserveWorkersForTest, Shares;
    var s := TwoTests(TestStatus.Starting, 1, WorkerStatus.Idle, DoneRow, map[1 := StartCall(1, 1, 1, Ready)]);
    SecondReservation();
    AdvanceIs(s, 1, true, [0]);
    var (db', call') := CallStep(s.db, 1, s.calls[1], true, [0]);
    assert s.calls[1 := call'] == map[0 := StartCall(0, 1, 1, Allocated)] + map[1 := StartCall(1, 1, 1, Allocated)];
  }

  function FinalCalls(): map<CallId, Call> {
    map[1 := StartCall(1, 1, 1, Allocated), 2 := StopCall(0, TestStatus.Starting, Marked)]
  }

  lemma SecondStopBegins()
    ensures Next(TwoTests(TestStatus.Starting, 1, WorkerStatus.Reserved, BothRows, map[1 := StartCall(1, 1, 1, Allocated)]), BeginStop(2, 0))
      == TwoTests(TestStatus.Starting, 1, WorkerStatus.Reserved, BothRows,
                  map[1 := StartCall(1, 1, 1, Allocated), 2 := StopCall(0, TestStatus.Starting, Seen)])
  {
    hide CallStep;
  }

  lemma SecondStop()
    ensures var s1 := Next(TwoTests(TestStatus.Starting, 1, WorkerStatus.Reserved, BothRows, map[1 := StartCall(1, 1, 1, Allocated)]), BeginStop(2, 0));
      Next(s1, Advance(2, true, [])) == TwoTests(TestStatus.Stopping, 1, WorkerStatus.Reserved, BothRows, FinalCalls())
  {
    var s1 := TwoTests(TestStatus.Starting, 1, WorkerStatus.Reserved, BothRows,
      map[1 := StartCall(1, 1, 1, Allocated), 2 := StopCall(0, TestStatus.Starting, Seen)]);
    SecondStopBegins();
    AdvanceIs(s1, 2, true, []);
    hide Next, StartStep;
  }

  lemma ReuseThenStopRun()
    ensures Run(OneRow(TestStatus.Starting, WorkerStatus.Reserved, AssignmentStatus.Reserved, Allocated), ReuseThenStop())
      == TwoTests(TestStatus.Stopping, 1, WorkerStatus.Reserved, BothRows, FinalCalls())
  {
    hide Next, TwoTests, OneRow;
    var s0 := OneRow(TestStatus.Starting, WorkerStatus.Reserved, AssignmentStatus.Reserved, Allocated);
    var p1 := [StartAssignment(0, 0), CompleteAssignment(0, 0), CreateTest(1, 1)];
    var p2 := [BeginStart(1, 1), Advance(1, true, []), Advance(1, true, [])];
    var p3 := [Advance(1, true, []), Advance(1, true, [0]), BeginStop(2, 0)];
    var p4 := [Advance(2, true, [])];
    RunConcat(s0, p1, p2);
    RunConcat(s0, p1 + p2, p3);
    RunConcat(s0, p1 + p2 + p3, p4);
    RunPieces(Run(s0, p1), p2, p3, p4);
    hide Run;
    ReuseSteps1();
    SecondClaim();
    SecondCount();
    SecondReserve();
    SecondStop();
  }

  lemma RunPieces(s: State, p2: seq<Event>, p3: seq<Event>, p4: seq<Event>)
    requires |p2| == 3 && |p3| == 3 && |p4| == 1
    ensures Run(Run(Run(s, p2), p3), p4)
      == Next(Next(Next(Next(Next(Next(Next(s, p2[0]), p2[1]), p2[2]), p3[0]), p3[1]), p3[2]), p4[0])
  {
    hide Next;
    assert p2 == [p2[0], p2[1], p2[2]] && p3 == [p3[0], p3[1], p3[2]] && p4 == [p4[0]];
    RunThree(s, p2[0], p2[1], p2[2]);
    RunThree(Run(s, p2), p3[0], p3[1], p3[2]);
    RunThree(Run(Run(s, p2), p3), p4[0], p4[0], p4[0]);
  }

  lemma BothRowsOwned()
    ensures var s := TwoTests(TestStatus.Stopping, 1, WorkerStatus.Reserved, BothRows, FinalCalls());
      && Owned(s.db) && !SafeToRelease(s.db, 0) && StopCallAt(s, Advance(2, true, []), 0, Marked)
  {
    var db := TwoTests(TestStatus.Stopping, 1, WorkerStatus.Reserved, BothRows, FinalCalls()).db;
    assert LiveRow(db, 1, 0) && (0, 0) in db.assignments;
  }

  /** Stopping a test hands back a worker that finished it and is now reserved for another test. */
  lemma StopStealsAReservedWorker()
    ensures var es := ReserveOneWorker() + ReuseThenStop();
      Owned(After(1, es).db) && !Owned(After(1, es + [Advance(2, true, [])]).db)
  {
    hide Next, Owned, OneRow, TwoTests, SafeToRelease, ReuseThenStop, ReserveOneWorker;
    var es := ReserveOneWorker() + ReuseThenStop();
    ReserveOneWorkerRun();
    ReuseThenStopRun();
    RunConcat(Init(1), ReserveOneWorker(), ReuseThenStop());
    BothRowsOwned();
    assert (es + [Advance(2, true, [])])[..|es|] == es;
    OwnershipKeptExactlyWhen(After(1, es), Advance(2, true, []));
  }
}
