/** The Postgres repositories (internal/repository): one method a transaction, one assignment a SQL
    statement, with an explicit rollback where the source relies on a deferred one. `commits` says
    whether the COMMIT goes through; Postgres applies a failed transaction not at all. */
module Repository {
  import opened Domain
  import opened Transactions

  /** A parameter bound to the bulk INSERT. */
  datatype Value = Id(id: nat) | Number(number: int)

  /** ($1, $worker, 'RESERVED', NOW(), $share): parameters are numbered from 1. */
  datatype Placeholder = Placeholder(test: nat, worker: nat, share: nat)

  datatype ReservedWorker = ReservedWorker(id: WorkerId, row: Worker)

  class Database {
    var tests: map<TestId, Test>
    var workers: map<WorkerId, Worker>
    var assignments: map<(TestId, WorkerId), Assignment>

    ghost function View(): Tables
      reads this
    {
      Tables(tests, workers, assignments)
    }

    constructor ()
      ensures View() == EmptyTables
    {
      tests, workers, assignments := map[], map[], map[];
    }

    // -------------------------------------------------------------- test_repository.go

    method CreateTest(t: TestId, test: Test) returns (r: Result<()>)
      modifies this
      ensures match Transactions.CreateTest(old(View()), t, test)
        case Ok(db) => r.Ok? && View() == db
        case Err(e) => r == Err(e) && View() == old(View())
    {
      if t in tests {
        return Err(ErrStorage);
      }
      tests := tests[t := test];
      r := Ok(());
    }

    method TryTransitionStatus(t: TestId, from: TestStatus, to: TestStatus) returns (changed: bool)
      modifies this
      ensures (View(), changed) == Transactions.TryTransitionStatus(old(View()), t, from, to)
    {
      changed := t in tests && tests[t].status == from;
      if changed {
        tests := tests[t := tests[t].(status := to)];
      }
    }

    method UpdateStatus(t: TestId, st: TestStatus) returns (r: Result<()>)
      modifies this
      ensures match Transactions.UpdateStatus(old(View()), t, st)
        case Ok(db) => r.Ok? && View() == db
        case Err(e) => r == Err(e) && View() == old(View())
    {
      if t !in tests {
        return Err(ErrTestNotFound);
      }
      tests := tests[t := tests[t].(status := st)];
      r := Ok(());
    }

    method UpdateWorkerCount(t: TestId, n: int) returns (r: Result<()>)
      modifies this
      ensures match Transactions.UpdateWorkerCount(old(View()), t, n)
        case Ok(db) => r.Ok? && View() == db
        case Err(e) => r == Err(e) && View() == old(View())
    {
      if t !in tests {
        return Err(ErrTestNotFound);
      }
      tests := tests[t := tests[t].(workerCount := n)];
      r := Ok(());
    }

    // -------------------------------------------------------------- worker_repository.go

    method CreateWorker(w: WorkerId, worker: Worker) returns (r: Result<()>)
      modifies this
      ensures match Transactions.CreateWorker(old(View()), w, worker)
        case Ok(db) => r.Ok? && View() == db
        case Err(e) => r == Err(e) && View() == old(View())
    {
      if w in workers {
        return Err(ErrStorage);
      }
      workers := workers[w := worker];
      r := Ok(());
    }

    method UpdateHeartbeat(w: WorkerId, reported: WorkerStatus, now: int) returns (r: Result<()>)
      modifies this
      ensures match Transactions.UpdateHeartbeat(old(View()), w, reported, now)
        case Ok(db) => r.Ok? && View() == db
        case Err(e) => r == Err(e) && View() == old(View())
    {
      if w !in workers {
        return Err(ErrWorkerNotFound);
      }
      var row := workers[w];
      if row.status !in {WorkerStatus.Reserved, WorkerStatus.Draining, WorkerStatus.Offline} {
        row := row.(status := reported);
      }
      workers := workers[w := row.(lastHeartbeat := now)];
      r := Ok(());
    }

    method MarkOfflineWorkers(cutoff: int)
      modifies this
      ensures View() == Transactions.MarkOfflineWorkers(old(View()), cutoff)
    {
      workers := map w | w in workers ::
        if workers[w].status != WorkerStatus.Offline && workers[w].lastHeartbeat < cutoff
        then workers[w].(status := WorkerStatus.Offline) else workers[w];
    }

    /** `locked` is the answer of the SELECT ... FOR UPDATE SKIP LOCKED LIMIT workerCount. */
    method ReserveWorkersForTest(t: TestId, workerCount: int, rpsAllocations: seq<int>, locked: seq<WorkerId>, commits: bool)
      returns (r: Result<seq<ReservedWorker>>)
      requires IsSelection(View(), workerCount, locked)
      modifies this
      ensures match Transactions.ReserveWorkersForTest(old(View()), t, workerCount, rpsAllocations, locked)
        case Err(e) => r == Err(e) && View() == old(View())
        case Ok(db) => if commits then r.Ok? && View() == db else r == Err(ErrStorage) && View() == old(View())
      ensures r.Ok? ==> |r.value| == |locked| == workerCount
      ensures r.Ok? ==> forall i :: 0 <= i < |locked| ==>
        r.value[i].id == locked[i] && locked[i] in workers && r.value[i].row == workers[locked[i]]
    {
      var savedWorkers := workers;
      var workerIDs, reserved := ScanLocked(workerCount, locked);
      if |workerIDs| < workerCount {
        return Err(ErrInsufficientWorkers);
      }
      workers := map w | w in workers ::
        if w in workerIDs then workers[w].(status := WorkerStatus.Reserved) else workers[w];
      for i := 0 to |reserved|
        invariant |reserved| == |locked|
        invariant forall j :: 0 <= j < |locked| ==> reserved[j].id == locked[j]
        invariant forall j :: 0 <= j < i ==> reserved[j].row == workers[locked[j]]
        invariant forall j :: i <= j < |locked| ==> reserved[j].row == savedWorkers[locked[j]]
      {
        reserved := reserved[i := reserved[i].(row := reserved[i].row.(status := WorkerStatus.Reserved))];
      }
      if |rpsAllocations| != |reserved| {
        workers := savedWorkers;
        return Err(ErrAllocationMismatch);
      }
      var placeholders, values := BindParameters(t, workerIDs, rpsAllocations);
      if |placeholders| == 0 || t !in tests || exists w :: w in workerIDs && (t, w) in assignments {
        workers := savedWorkers;
        return Err(ErrStorage);
      }
      var rows := InsertBound(placeholders, values, t, workerIDs, rpsAllocations);
      if !commits {
        workers := savedWorkers;
        return Err(ErrStorage);
      }
      assignments := rows;
      r := Ok(reserved);
    }

    method ScanLocked(ghost n: int, locked: seq<WorkerId>) returns (ids: seq<WorkerId>, rows: seq<ReservedWorker>)
      requires IsSelection(View(), n, locked)
      ensures ids == locked && |rows| == |locked|
      ensures forall i :: 0 <= i < |locked| ==> locked[i] in workers && rows[i] == ReservedWorker(locked[i], workers[locked[i]])
    {
      ids, rows := [], [];
      for i := 0 to |locked|
        invariant ids == locked[..i] && |rows| == i
        invariant forall j :: 0 <= j < i ==> locked[j] in workers && rows[j] == ReservedWorker(locked[j], workers[locked[j]])
      {
        assert WorkerIs(View(), locked[i], WorkerStatus.Idle);
        ids := ids + [locked[i]];
        rows := rows + [ReservedWorker(locked[i], workers[locked[i]])];
      }
    }

    /** Evaluates the bound INSERT against the current table. */
    method InsertBound(placeholders: seq<Placeholder>, values: seq<Value>, ghost t: TestId, ghost ids: seq<WorkerId>, ghost shares: seq<int>)
      returns (rows: map<(TestId, WorkerId), Assignment>)
      requires |ids| == |shares| == |placeholders| && Bound(placeholders, values, t, ids, shares)
      ensures rows == InsertRows(assignments, t, ids, shares)
    {
      rows := assignments;
      for i := 0 to |placeholders|
        invariant rows == InsertRows(assignments, t, ids[..i], shares[..i])
      {
        var p := placeholders[i];
        rows := rows[(values[p.test - 1].id, values[p.worker - 1].id) :=
                     Assignment(AssignmentStatus.Reserved, values[p.share - 1].number)];
        assert ids[..i + 1][..i] == ids[..i] && shares[..i + 1][..i] == shares[..i];
      }
      assert ids[..|ids|] == ids && shares[..|shares|] == shares;
    }

    method ReleaseWorkersForTest(t: TestId, commits: bool) returns (r: Result<()>)
      modifies this
      ensures r == if commits then Ok(()) else Err(ErrStorage)
      ensures View() == if commits then Transactions.ReleaseWorkersForTest(old(View()), t) else old(View())
    {
      ghost var before := View();
      var savedWorkers, savedAssignments := workers, assignments;
      var workerIDs := set k | k in assignments && k.0 == t :: k.1;
      assert workerIDs == Assigned(View(), t);
      if |workerIDs| != 0 {
        workers := map w | w in workers ::
          if w in workerIDs && workers[w].status == WorkerStatus.Reserved
          then workers[w].(status := WorkerStatus.Idle) else workers[w];
        assignments := map k | k in assignments ::
          if k.0 == t && assignments[k].status in {AssignmentStatus.Reserved, AssignmentStatus.Running}
          then assignments[k].(status := AssignmentStatus.Completed) else assignments[k];
      }
      if !commits {
        workers, assignments := savedWorkers, savedAssignments;
        return Err(ErrStorage);
      }
      if |workerIDs| == 0 {
        NothingToRelease(before, t);
      } else {
        assert workers == Transactions.ReleaseWorkersForTest(before, t).workers;
        assert assignments == Transactions.ReleaseWorkersForTest(before, t).assignments;
      }
      r := Ok(());
    }

    method MarkAssignmentsFailedForOfflineWorkers(commits: bool) returns (r: Result<()>)
      modifies this
      ensures r == if commits then Ok(()) else Err(ErrStorage)
      ensures View() == if commits then Transactions.MarkAssignmentsFailedForOfflineWorkers(old(View())) else old(View())
    {
      var savedTests, savedAssignments := tests, assignments;
      ExecFailAssignments();
      ExecFailTests();
      if !commits {
        tests, assignments := savedTests, savedAssignments;
        return Err(ErrStorage);
      }
      r := Ok(());
    }

    /** The first statement of the sweep. */
    method ExecFailAssignments()
      modifies this
      ensures View() == FailRowsOfOfflineWorkers(old(View()))
    {
      assignments := map k | k in assignments ::
        if k.1 in workers && workers[k.1].status == WorkerStatus.Offline
           && assignments[k].status in {AssignmentStatus.Reserved, AssignmentStatus.Running}
        then assignments[k].(status := AssignmentStatus.Failed) else assignments[k];
      assert assignments == FailRowsOfOfflineWorkers(old(View())).assignments;
    }

    /** The second statement of the sweep. */
    method ExecFailTests()
      modifies this
      ensures View() == FailRunningTests(old(View()))
    {
      var failing := set k | k in assignments && assignments[k].status == AssignmentStatus.Failed :: k.0;
      FailingTests(View(), failing);
      tests := map t | t in tests ::
        if tests[t].status == TestStatus.Running && t in failing
        then tests[t].(status := TestStatus.Failed) else tests[t];
      assert tests == FailRunningTests(old(View())).tests;
    }

    method TerminateIdleWorkers(ids: seq<WorkerId>, commits: bool) returns (r: Result<set<WorkerId>>)
      modifies this
      ensures commits || ids == [] ==> r == Ok(Removable(old(View()), set w | w in ids))
      ensures commits || ids == [] ==> View() == Transactions.TerminateIdleWorkers(old(View()), set w | w in ids)
      ensures !commits && ids != [] ==> r == Err(ErrStorage) && View() == old(View())
    {
      ghost var before := View();
      if |ids| == 0 {
        assert Removable(before, set w | w in ids) == {};
        assert workers == Transactions.TerminateIdleWorkers(before, set w | w in ids).workers;
        return Ok({});
      }
      var removable := set w | w in ids && w in workers && workers[w].status == WorkerStatus.Idle;
      if !commits {
        return Err(ErrStorage);
      }
      assert removable == Removable(before, set w | w in ids);
      if removable != {} {
        workers := map w | w in workers ::
          if w in removable then workers[w].(status := WorkerStatus.Draining) else workers[w];
      }
      assert workers == Transactions.TerminateIdleWorkers(before, set w | w in ids).workers;
      r := Ok(removable);
    }

    // -------------------------------------------------------------- assignment.go

    /** Any one RESERVED row of the worker, joined with its test. */
    method GetReservedAssignment(w: WorkerId) returns (found: bool, test: TestId)
      ensures found ==> test in tests && RowIs(View(), test, w, AssignmentStatus.Reserved)
      ensures !found ==> forall t :: t in tests ==> !RowIs(View(), t, w, AssignmentStatus.Reserved)
    {
      var rows := set k | k in assignments && k.0 in tests && k.1 == w && assignments[k].status == AssignmentStatus.Reserved;
      if rows == {} {
        forall t | t in tests ensures !RowIs(View(), t, w, AssignmentStatus.Reserved) {
          assert (t, w) !in rows;
        }
        return false, 0;
      }
      var k :| k in rows;
      return true, k.0;
    }

    method MarkAssignmentRunning(t: TestId, w: WorkerId, commits: bool) returns (r: Result<()>)
      modifies this
      ensures match Transactions.MarkAssignmentRunning(old(View()), t, w)
        case Err(e) => r == Err(e) && View() == old(View())
        case Ok(db) => if commits then r.Ok? && View() == db else r == Err(ErrStorage) && View() == old(View())
    {
      var savedWorkers, savedAssignments := workers, assignments;
      if (t, w) !in assignments || assignments[(t, w)].status != AssignmentStatus.Reserved {
        return Err(ErrAssignmentNotFound);
      }
      assignments := assignments[(t, w) := assignments[(t, w)].(status := AssignmentStatus.Running)];
      if w in workers && workers[w].status == WorkerStatus.Reserved {
        workers := workers[w := workers[w].(status := WorkerStatus.Running)];
      }
      if !commits {
        workers, assignments := savedWorkers, savedAssignments;
        return Err(ErrStorage);
      }
      r := Ok(());
    }

    method MarkAssignmentCompleted(t: TestId, w: WorkerId, commits: bool) returns (r: Result<()>)
      modifies this
      ensures match Transactions.MarkAssignmentCompleted(old(View()), t, w)
        case Err(e) => r == Err(e) && View() == old(View())
        case Ok(db) => if commits then r.Ok? && View() == db else r == Err(ErrStorage) && View() == old(View())
    {
      var savedTests, savedWorkers, savedAssignments := tests, workers, assignments;
      if t !in tests {
        return Err(ErrTestNotFound);
      }
      if (t, w) !in assignments || assignments[(t, w)].status != AssignmentStatus.Running {
        return Err(ErrAssignmentNotFound);
      }
      assignments := assignments[(t, w) := assignments[(t, w)].(status := AssignmentStatus.Completed)];
      if w in workers && workers[w].status == WorkerStatus.Running {
        workers := workers[w := workers[w].(status := WorkerStatus.Idle)];
      }
      var hasIncompleteAssignments := exists k ::
        k in assignments && k.0 == t && assignments[k].status != AssignmentStatus.Completed;
      assert hasIncompleteAssignments <==> !AllCompleted(View(), t) by {
        if !AllCompleted(View(), t) {
          var v :| (t, v) in assignments && !assignments[(t, v)].status.Completed?;
        }
      }
      if !hasIncompleteAssignments {
        if tests[t].status == TestStatus.Running {
          tests := tests[t := tests[t].(status := TestStatus.Completed)];
        }
      }
      if !commits {
        tests, workers, assignments := savedTests, savedWorkers, savedAssignments;
        return Err(ErrStorage);
      }
      r := Ok(());
    }

    method MarkAssignmentFailed(t: TestId, w: WorkerId, commits: bool) returns (r: Result<()>)
      modifies this
      ensures match Transactions.MarkAssignmentFailed(old(View()), t, w)
        case Err(e) => r == Err(e) && View() == old(View())
        case Ok(db) => if commits then r.Ok? && View() == db else r == Err(ErrStorage) && View() == old(View())
    {
      var savedTests, savedAssignments := tests, assignments;
      if (t, w) !in assignments || assignments[(t, w)].status !in {AssignmentStatus.Reserved, AssignmentStatus.Running} {
        return Err(ErrAssignmentNotFound);
      }
      assignments := assignments[(t, w) := assignments[(t, w)].(status := AssignmentStatus.Failed)];
      if t in tests && tests[t].status == TestStatus.Running {
        tests := tests[t := tests[t].(status := TestStatus.Failed)];
      }
      if !commits {
        tests, assignments := savedTests, savedAssignments;
        return Err(ErrStorage);
      }
      r := Ok(());
    }
  }

  lemma NothingToRelease(db: Tables, t: TestId)
    requires Assigned(db, t) == {}
    ensures Transactions.ReleaseWorkersForTest(db, t) == db
  {
    var db' := Transactions.ReleaseWorkersForTest(db, t);
    assert forall w :: (t, w) !in db.assignments;
    assert db'.workers == db.workers && db'.assignments == db.assignments;
  }

  lemma FailingTests(db: Tables, failing: set<TestId>)
    requires failing == set k | k in db.assignments && db.assignments[k].status == AssignmentStatus.Failed :: k.0
    ensures forall t :: t in failing <==> HasFailedRow(db, t)
  {
    forall t | t in failing ensures HasFailedRow(db, t) {
      var k :| k in db.assignments && db.assignments[k].status == AssignmentStatus.Failed && k.0 == t;
      assert RowIs(db, t, k.1, AssignmentStatus.Failed);
    }
  }

  /** Every placeholder resolves to the test, to its own worker and to that worker's share. */
  ghost predicate Bound(placeholders: seq<Placeholder>, values: seq<Value>, t: TestId, ids: seq<WorkerId>, shares: seq<int>)
    requires |placeholders| == |ids| == |shares|
  {
    forall i :: 0 <= i < |ids| ==> ResolvesTo(placeholders[i], values, t, ids[i], shares[i])
  }

  ghost predicate ResolvesTo(p: Placeholder, values: seq<Value>, t: TestId, w: WorkerId, share: int) {
    && 1 <= p.test <= |values| && values[p.test - 1] == Id(t)
    && 1 <= p.worker <= |values| && values[p.worker - 1] == Id(w)
    && 1 <= p.share <= |values| && values[p.share - 1] == Number(share)
  }

  /** Builds the placeholder list and the value list of the bulk INSERT: the test first, then all
      worker ids, then all shares. */
  method BindParameters(t: TestId, ids: seq<WorkerId>, shares: seq<int>) returns (placeholders: seq<Placeholder>, values: seq<Value>)
    requires |ids| == |shares|
    ensures |placeholders| == |ids| && Bound(placeholders, values, t, ids, shares)
  {
    values := [Id(t)];
    placeholders := [];
    for i := 0 to |ids|
      invariant |values| == i + 1 && values[0] == Id(t) && |placeholders| == i
      invariant forall j :: 0 <= j < i ==> values[j + 1] == Id(ids[j])
      invariant forall j :: 0 <= j < i ==> placeholders[j] == Placeholder(1, j + 2, j + 2 + |ids|)
    {
      placeholders := placeholders + [Placeholder(1, i + 2, i + 2 + |ids|)];
      values := values + [Id(ids[i])];
    }
    for i := 0 to |shares|
      invariant |values| == |ids| + 1 + i && values[0] == Id(t)
      invariant forall j :: 0 <= j < |ids| ==> values[j + 1] == Id(ids[j])
      invariant forall j :: 0 <= j < i ==> values[j + 1 + |ids|] == Number(shares[j])
    {
      values := values + [Number(shares[i])];
    }
  }
}
