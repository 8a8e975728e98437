/** What each transaction means for the rows it touches, and that it touches no others. These are
    statements about the tables before and after, in terms of statuses only. */
module TransactionEffects {
  import opened Domain
  import opened Transactions

  // ---------------------------------------------------------------- what stays

  ghost predicate SameRows(db: Tables, db': Tables) { db'.assignments == db.assignments }

  ghost predicate SameTests(db: Tables, db': Tables) { db'.tests == db.tests }

  /** Only worker w, if any, differs, and in its status at most. */
  ghost predicate OnlyWorker(db: Tables, db': Tables, w: WorkerId) {
    && db'.workers.Keys == db.workers.Keys
    && (forall v :: v in db.workers && v != w ==> db'.workers[v] == db.workers[v])
    && (w in db.workers ==> SameButStatus(db.workers[w], db'.workers[w]))
  }

  predicate SameButStatus(a: Worker, b: Worker) { b.hostname == a.hostname && b.lastHeartbeat == a.lastHeartbeat }

  /** Only row (t, w) differs, and in its status only. */
  ghost predicate OnlyRow(db: Tables, db': Tables, t: TestId, w: WorkerId) {
    && db'.assignments.Keys == db.assignments.Keys
    && (forall k :: k in db.assignments && k != (t, w) ==> db'.assignments[k] == db.assignments[k])
    && ((t, w) in db.assignments ==> db'.assignments[(t, w)].rps == db.assignments[(t, w)].rps)
  }

  /** Only test t, if any, differs, and in its status at most. */
  ghost predicate OnlyTestStatus(db: Tables, db': Tables, t: TestId) {
    && db'.tests.Keys == db.tests.Keys
    && (forall u :: u in db.tests && u != t ==> db'.tests[u] == db.tests[u])
    && (t in db.tests ==> db'.tests[t].rps == db.tests[t].rps && db'.tests[t].workerCount == db.tests[t].workerCount)
  }

  // ---------------------------------------------------------------- release

  /** The workers RESERVED under some row of the test are IDLE, its live rows are COMPLETED, and all
      other workers and rows are as they were. */
  ghost predicate FreedBy(db: Tables, db': Tables, t: TestId) {
    && db'.workers.Keys == db.workers.Keys && db'.assignments.Keys == db.assignments.Keys
    && (forall w :: w in db.workers ==> WorkerFreed(db, db', t, w))
    && (forall k :: k in db.assignments ==> RowReleased(db, db', t, k))
  }

  ghost predicate WorkerFreed(db: Tables, db': Tables, t: TestId, w: WorkerId)
    requires w in db.workers && w in db'.workers
  {
    if (t, w) in db.assignments && WorkerIs(db, w, WorkerStatus.Reserved)
    then WorkerIs(db', w, WorkerStatus.Idle) && SameButStatus(db.workers[w], db'.workers[w])
    else db'.workers[w] == db.workers[w]
  }

  ghost predicate RowReleased(db: Tables, db': Tables, t: TestId, k: (TestId, WorkerId))
    requires k in db.assignments && k in db'.assignments
  {
    if k.0 == t && LiveRow(db, t, k.1)
    then RowIs(db', t, k.1, AssignmentStatus.Completed) && db'.assignments[k].rps == db.assignments[k].rps
    else db'.assignments[k] == db.assignments[k]
  }

  /** Test t holds nobody: its rows are over, and none of its workers is RESERVED. */
  ghost predicate HoldsNobody(db: Tables, t: TestId) {
    forall w :: (t, w) in db.assignments ==> !LiveRow(db, t, w) && !WorkerIs(db, w, WorkerStatus.Reserved)
  }

  lemma ReleaseFreesWorkers(db: Tables, t: TestId)
    ensures var db' := ReleaseWorkersForTest(db, t);
      FreedBy(db, db', t) && HoldsNobody(db', t) && SameTests(db, db')
  {
  }

  // ---------------------------------------------------------------- reports

  lemma StartEffect(db: Tables, t: TestId, w: WorkerId)
    ensures MarkAssignmentRunning(db, t, w).Ok? <==> RowIs(db, t, w, AssignmentStatus.Reserved)
    ensures RowIs(db, t, w, AssignmentStatus.Reserved) ==>
      var db' := MarkAssignmentRunning(db, t, w).value;
      && RowIs(db', t, w, AssignmentStatus.Running)
      && (WorkerIs(db, w, WorkerStatus.Reserved) ==> WorkerIs(db', w, WorkerStatus.Running))
      && (!WorkerIs(db, w, WorkerStatus.Reserved) ==> db'.workers == db.workers)
      && OnlyRow(db, db', t, w) && OnlyWorker(db, db', w) && SameTests(db, db')
  {
  }

  /** Some other worker has not completed its row of t. */
  ghost predicate OthersUnfinished(db: Tables, t: TestId, w: WorkerId) {
    exists v :: v != w && (t, v) in db.assignments && !db.assignments[(t, v)].status.Completed?
  }

  /** A completion frees its worker whatever the others are doing, and closes a RUNNING test exactly
      when it is the last one. */
  lemma CompletionEffect(db: Tables, t: TestId, w: WorkerId)
    requires t in db.tests
    ensures MarkAssignmentCompleted(db, t, w).Ok? <==> RowIs(db, t, w, AssignmentStatus.Running)
    ensures RowIs(db, t, w, AssignmentStatus.Running) ==>
      var db' := MarkAssignmentCompleted(db, t, w).value;
      && RowIs(db', t, w, AssignmentStatus.Completed)
      && (WorkerIs(db, w, WorkerStatus.Running) ==> WorkerIs(db', w, WorkerStatus.Idle))
      && (!WorkerIs(db, w, WorkerStatus.Running) ==> db'.workers == db.workers)
      && OnlyRow(db, db', t, w) && OnlyWorker(db, db', w) && OnlyTestStatus(db, db', t)
      && (if HasStatus(db, t, TestStatus.Running) && !OthersUnfinished(db, t, w)
          then HasStatus(db', t, TestStatus.Completed) else db'.tests == db.tests)
  {
    if RowIs(db, t, w, AssignmentStatus.Running) {
      var db1 := WithRowStatus(db, t, w, AssignmentStatus.Completed);
      if OthersUnfinished(db, t, w) {
        var v :| v != w && (t, v) in db.assignments && !db.assignments[(t, v)].status.Completed?;
        assert (t, v) in db1.assignments && !db1.assignments[(t, v)].status.Completed?;
      } else {
        forall v | (t, v) in db1.assignments ensures db1.assignments[(t, v)].status.Completed? {
          assert v == w || db.assignments[(t, v)].status.Completed?;
        }
      }
    }
  }

  lemma FailureEffect(db: Tables, t: TestId, w: WorkerId)
    ensures MarkAssignmentFailed(db, t, w).Ok? <==> LiveRow(db, t, w)
    ensures LiveRow(db, t, w) ==>
      var db' := MarkAssignmentFailed(db, t, w).value;
      && RowIs(db', t, w, AssignmentStatus.Failed)
      && (HasStatus(db, t, TestStatus.Running) ==> HasStatus(db', t, TestStatus.Failed))
      && (!HasStatus(db, t, TestStatus.Running) ==> db'.tests == db.tests)
      && OnlyRow(db, db', t, w) && db'.workers == db.workers && OnlyTestStatus(db, db', t)
  {
  }

  // ---------------------------------------------------------------- heartbeats, drains and sweeps

  lemma HeartbeatEffect(db: Tables, w: WorkerId, reported: WorkerStatus, now: int)
    requires w in db.workers
    ensures var r := UpdateHeartbeat(db, w, reported, now);
      && r.Ok?
      && (var db' := r.value;
          && db'.workers.Keys == db.workers.Keys && db'.workers[w].lastHeartbeat == now && db'.workers[w].hostname == db.workers[w].hostname
          && (WorkerIs(db, w, WorkerStatus.Idle) || WorkerIs(db, w, WorkerStatus.Running) ==> WorkerIs(db', w, reported))
          && (!WorkerIs(db, w, WorkerStatus.Idle) && !WorkerIs(db, w, WorkerStatus.Running) ==> WorkerIs(db', w, db.workers[w].status))
          && (forall v :: v in db.workers && v != w ==> db'.workers[v] == db.workers[v])
          && SameRows(db, db') && SameTests(db, db'))
  {
  }

  /** A drain takes the IDLE workers among the given ones, and leaves every other worker alone. */
  lemma DrainEffect(db: Tables, ids: set<WorkerId>)
    ensures var db' := TerminateIdleWorkers(db, ids);
      && db'.workers.Keys == db.workers.Keys && SameRows(db, db') && SameTests(db, db')
      && (forall w :: w in ids && WorkerIs(db, w, WorkerStatus.Idle) ==>
            WorkerIs(db', w, WorkerStatus.Draining) && SameButStatus(db.workers[w], db'.workers[w]))
      && (forall w :: w in db.workers && !(w in ids && WorkerIs(db, w, WorkerStatus.Idle)) ==> db'.workers[w] == db.workers[w])
  {
  }

  /** The rows a sweep fails are the live rows of OFFLINE workers and no others; the tests it fails
      are the RUNNING ones that then have a FAILED row, and no others. */
  lemma SweepEffect(db: Tables)
    ensures var db' := MarkAssignmentsFailedForOfflineWorkers(db);
      && db'.workers == db.workers && db'.assignments.Keys == db.assignments.Keys && db'.tests.Keys == db.tests.Keys
      && (forall k :: k in db.assignments ==> RowSwept(db, db', k))
      && (forall t :: t in db.tests ==> TestSwept(db, db', t))
  {
    var db' := MarkAssignmentsFailedForOfflineWorkers(db);
    forall t | t in db.tests ensures TestSwept(db, db', t) {
      SameFailures(FailRowsOfOfflineWorkers(db), db', t);
    }
  }

  lemma SameFailures(db: Tables, db': Tables, t: TestId)
    requires SameRows(db, db')
    ensures HasFailedRow(db', t) <==> HasFailedRow(db, t)
  {
    assert forall w :: RowIs(db', t, w, AssignmentStatus.Failed) <==> RowIs(db, t, w, AssignmentStatus.Failed);
  }

  ghost predicate RowSwept(db: Tables, db': Tables, k: (TestId, WorkerId))
    requires k in db.assignments && k in db'.assignments
  {
    if LiveRow(db, k.0, k.1) && WorkerIs(db, k.1, WorkerStatus.Offline)
    then db'.assignments[k].status.Failed? && db'.assignments[k].rps == db.assignments[k].rps
    else db'.assignments[k] == db.assignments[k]
  }

  ghost predicate TestSwept(db: Tables, db': Tables, t: TestId)
    requires t in db.tests && t in db'.tests
  {
    if HasStatus(db, t, TestStatus.Running) && HasFailedRow(db', t)
    then HasStatus(db', t, TestStatus.Failed) && db'.tests[t].rps == db.tests[t].rps && db'.tests[t].workerCount == db.tests[t].workerCount
    else db'.tests[t] == db.tests[t]
  }

  // ---------------------------------------------------------------- reservation

  /** A reservation is refused for too few workers first, then for shares that do not match, and by the
      database for a test that is missing or already has one of the workers. */
  lemma ReservationRefusals(db: Tables, t: TestId, n: int, shares: seq<int>, picked: seq<WorkerId>)
    requires IsSelection(db, n, picked)
    ensures var r := ReserveWorkersForTest(db, t, n, shares, picked);
      && (r == Err(ErrInsufficientWorkers) <==> |picked| < n)
      && (r == Err(ErrAllocationMismatch) <==> |picked| >= n && |shares| != |picked|)
      && (r.Ok? <==> |shares| == |picked| == n && n > 0 && t in db.tests && forall w :: w in picked ==> (t, w) !in db.assignments)
      && (r.Err? ==> r.error in {ErrInsufficientWorkers, ErrAllocationMismatch, ErrStorage})
  {
  }

  /** A reservation takes the selected IDLE workers, adds one RESERVED row for each and nothing else. */
  lemma ReservationEffect(db: Tables, t: TestId, n: int, shares: seq<int>, picked: seq<WorkerId>)
    requires IsSelection(db, n, picked) && ReserveWorkersForTest(db, t, n, shares, picked).Ok?
    ensures var db' := ReserveWorkersForTest(db, t, n, shares, picked).value;
      && |picked| == n == |shares| && n > 0 && SameTests(db, db') && db'.workers.Keys == db.workers.Keys
      && (forall w :: w in picked ==> w in db.workers && WorkerIs(db', w, WorkerStatus.Reserved) && SameButStatus(db.workers[w], db'.workers[w]))
      && (forall w :: w in db.workers && w !in picked ==> db'.workers[w] == db.workers[w])
      && (forall k :: k in db'.assignments <==> k in db.assignments || (k.0 == t && k.1 in picked))
      && (forall k :: k in db.assignments ==> db'.assignments[k] == db.assignments[k])
      && (forall i :: 0 <= i < n ==> RowIs(db', t, picked[i], AssignmentStatus.Reserved) && db'.assignments[(t, picked[i])].rps == shares[i])
  {
    InsertRowsEffect(db.assignments, t, picked, shares);
    assert forall w :: w in picked ==> WorkerIs(db, w, WorkerStatus.Idle);
  }
}
