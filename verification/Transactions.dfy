/** What each repository transaction does to the committed tables, as functions from one committed
    state to the next (internal/repository). A transaction that returns an error leaves the tables
    as they were. The methods of module Repository are proved to compute exactly these functions. */
module Transactions {
  import opened Domain

  // ---------------------------------------------------------------- views

  /** The workers a test has assignment rows for. */
  ghost function Assigned(db: Tables, t: TestId): (ws: set<WorkerId>)
    ensures forall w :: w in ws <==> (t, w) in db.assignments
  {
    set k | k in db.assignments && k.0 == t :: k.1
  }

  /** The requests per second given to each worker of a test. */
  ghost function ShareTable(db: Tables, t: TestId): (m: map<WorkerId, int>)
    ensures m.Keys == Assigned(db, t)
    ensures forall w :: w in m ==> m[w] == db.assignments[(t, w)].rps
  {
    map w | w in Assigned(db, t) :: db.assignments[(t, w)].rps
  }

  ghost predicate HasStatus(db: Tables, t: TestId, st: TestStatus) {
    t in db.tests && db.tests[t].status == st
  }

  ghost predicate WorkerIs(db: Tables, w: WorkerId, st: WorkerStatus) {
    w in db.workers && db.workers[w].status == st
  }

  /** Worker w may still execute for test t. */
  ghost predicate LiveRow(db: Tables, t: TestId, w: WorkerId) {
    (t, w) in db.assignments && db.assignments[(t, w)].status.Live()
  }

  ghost predicate RowIs(db: Tables, t: TestId, w: WorkerId, st: AssignmentStatus) {
    (t, w) in db.assignments && db.assignments[(t, w)].status == st
  }

  // ---------------------------------------------------------------- row updates

  ghost function WithTestStatus(db: Tables, t: TestId, st: TestStatus): Tables
    requires t in db.tests
  {
    db.(tests := db.tests[t := db.tests[t].(status := st)])
  }

  ghost function WithWorkerStatus(db: Tables, w: WorkerId, st: WorkerStatus): Tables
    requires w in db.workers
  {
    db.(workers := db.workers[w := db.workers[w].(status := st)])
  }

  ghost function WithRowStatus(db: Tables, t: TestId, w: WorkerId, st: AssignmentStatus): Tables
    requires (t, w) in db.assignments
  {
    db.(assignments := db.assignments[(t, w) := db.assignments[(t, w)].(status := st)])
  }

  // ---------------------------------------------------------------- tests

  ghost function CreateTest(db: Tables, t: TestId, test: Test): Result<Tables> {
    if t in db.tests then Err(ErrStorage)
    else Ok(db.(tests := db.tests[t := test]))
  }

  /** Compare-and-set; the flag tells whether a row was changed. */
  ghost function TryTransitionStatus(db: Tables, t: TestId, from: TestStatus, to: TestStatus): (Tables, bool) {
    if HasStatus(db, t, from) then (WithTestStatus(db, t, to), true) else (db, false)
  }

  ghost function UpdateStatus(db: Tables, t: TestId, st: TestStatus): Result<Tables> {
    if t in db.tests then Ok(WithTestStatus(db, t, st)) else Err(ErrTestNotFound)
  }

  ghost function UpdateWorkerCount(db: Tables, t: TestId, n: int): Result<Tables> {
    if t in db.tests then Ok(db.(tests := db.tests[t := db.tests[t].(workerCount := n)]))
    else Err(ErrTestNotFound)
  }

  // ---------------------------------------------------------------- workers

  ghost function CreateWorker(db: Tables, w: WorkerId, worker: Worker): Result<Tables> {
    if w in db.workers then Err(ErrStorage)
    else Ok(db.(workers := db.workers[w := worker]))
  }

  /** RESERVED, DRAINING and OFFLINE belong to the control plane: a heartbeat only refreshes the clock. */
  predicate ServerOwned(st: WorkerStatus) { st.Reserved? || st.Draining? || st.Offline? }

  ghost function UpdateHeartbeat(db: Tables, w: WorkerId, reported: WorkerStatus, now: int): Result<Tables> {
    if w !in db.workers then Err(ErrWorkerNotFound)
    else
      var row := db.workers[w];
      var st := if ServerOwned(row.status) then row.status else reported;
      Ok(db.(workers := db.workers[w := row.(status := st, lastHeartbeat := now)]))
  }

  ghost function MarkOfflineWorkers(db: Tables, cutoff: int): Tables {
    db.(workers := map w | w in db.workers ::
      if !db.workers[w].status.Offline? && db.workers[w].lastHeartbeat < cutoff
      then db.workers[w].(status := WorkerStatus.Offline) else db.workers[w])
  }

  /** The workers a drain request still finds IDLE. */
  ghost function Removable(db: Tables, ids: set<WorkerId>): (ws: set<WorkerId>)
    ensures forall w :: w in ws <==> w in ids && WorkerIs(db, w, WorkerStatus.Idle)
  {
    set w | w in ids && WorkerIs(db, w, WorkerStatus.Idle)
  }

  ghost function TerminateIdleWorkers(db: Tables, ids: set<WorkerId>): Tables {
    db.(workers := map w | w in db.workers ::
      if w in Removable(db, ids) then db.workers[w].(status := WorkerStatus.Draining) else db.workers[w])
  }

  // ---------------------------------------------------------------- reservation and release

  /** An answer the locking SELECT may give: distinct IDLE workers, at most as many as asked for.
      SKIP LOCKED lets it leave out any worker another transaction holds. */
  ghost predicate IsSelection(db: Tables, n: int, picked: seq<WorkerId>) {
    Distinct(picked) && |picked| <= n && forall w :: w in picked ==> WorkerIs(db, w, WorkerStatus.Idle)
  }

  /** The bulk INSERT: worker i of the selection gets share i. */
  ghost function InsertRows(rows: map<(TestId, WorkerId), Assignment>, t: TestId, picked: seq<WorkerId>, shares: seq<int>)
    : (r: map<(TestId, WorkerId), Assignment>)
    requires |picked| == |shares|
  {
    if picked == [] then rows
    else
      var n := |picked| - 1;
      InsertRows(rows, t, picked[..n], shares[..n])[(t, picked[n]) := Assignment(AssignmentStatus.Reserved, shares[n])]
  }

  /** An INSERT without values is no SQL, and the keys must exist and be new. */
  ghost function ReserveWorkersForTest(db: Tables, t: TestId, n: int, shares: seq<int>, picked: seq<WorkerId>): Result<Tables>
    requires IsSelection(db, n, picked)
  {
    if |picked| < n then Err(ErrInsufficientWorkers)
    else if |shares| != |picked| then Err(ErrAllocationMismatch)
    else if picked == [] || t !in db.tests || exists w :: w in picked && (t, w) in db.assignments then Err(ErrStorage)
    else Ok(db.(
      workers := map w | w in db.workers ::
        if w in picked then db.workers[w].(status := WorkerStatus.Reserved) else db.workers[w],
      assignments := InsertRows(db.assignments, t, picked, shares)))
  }

  ghost function ReleaseWorkersForTest(db: Tables, t: TestId): Tables {
    db.(
      workers := map w | w in db.workers ::
        if (t, w) in db.assignments && db.workers[w].status.Reserved?
        then db.workers[w].(status := WorkerStatus.Idle) else db.workers[w],
      assignments := map k | k in db.assignments ::
        if k.0 == t && db.assignments[k].status.Live()
        then db.assignments[k].(status := AssignmentStatus.Completed) else db.assignments[k])
  }

  // ---------------------------------------------------------------- assignment reports

  ghost function MarkAssignmentRunning(db: Tables, t: TestId, w: WorkerId): Result<Tables> {
    if !RowIs(db, t, w, AssignmentStatus.Reserved) then Err(ErrAssignmentNotFound)
    else
      var db1 := WithRowStatus(db, t, w, AssignmentStatus.Running);
      Ok(if WorkerIs(db, w, WorkerStatus.Reserved) then WithWorkerStatus(db1, w, WorkerStatus.Running) else db1)
  }

  ghost predicate AllCompleted(db: Tables, t: TestId) {
    forall w :: (t, w) in db.assignments ==> db.assignments[(t, w)].status.Completed?
  }

  ghost function MarkAssignmentCompleted(db: Tables, t: TestId, w: WorkerId): Result<Tables> {
    if t !in db.tests then Err(ErrTestNotFound)
    else if !RowIs(db, t, w, AssignmentStatus.Running) then Err(ErrAssignmentNotFound)
    else
      var db1 := WithRowStatus(db, t, w, AssignmentStatus.Completed);
      var db2 := if WorkerIs(db, w, WorkerStatus.Running) then WithWorkerStatus(db1, w, WorkerStatus.Idle) else db1;
      Ok(if AllCompleted(db2, t) && HasStatus(db2, t, TestStatus.Running)
         then WithTestStatus(db2, t, TestStatus.Completed) else db2)
  }

  ghost function MarkAssignmentFailed(db: Tables, t: TestId, w: WorkerId): Result<Tables> {
    if !LiveRow(db, t, w) then Err(ErrAssignmentNotFound)
    else
      var db1 := WithRowStatus(db, t, w, AssignmentStatus.Failed);
      Ok(if HasStatus(db, t, TestStatus.Running) then WithTestStatus(db1, t, TestStatus.Failed) else db1)
  }

  ghost predicate HasFailedRow(db: Tables, t: TestId) {
    exists w :: RowIs(db, t, w, AssignmentStatus.Failed)
  }

  ghost function FailRowsOfOfflineWorkers(db: Tables): Tables {
    db.(assignments := map k | k in db.assignments ::
      if WorkerIs(db, k.1, WorkerStatus.Offline) && db.assignments[k].status.Live()
      then db.assignments[k].(status := AssignmentStatus.Failed) else db.assignments[k])
  }

  ghost function FailRunningTests(db: Tables): Tables {
    db.(tests := map t | t in db.tests ::
      if db.tests[t].status.Running? && HasFailedRow(db, t)
      then db.tests[t].(status := TestStatus.Failed) else db.tests[t])
  }

  /** First the live rows of OFFLINE workers fail, then every RUNNING test with a failed row. */
  ghost function MarkAssignmentsFailedForOfflineWorkers(db: Tables): Tables {
    FailRunningTests(FailRowsOfOfflineWorkers(db))
  }

  // ---------------------------------------------------------------- facts about the bulk insert

  lemma {:induction false} InsertRowsEffect(rows: map<(TestId, WorkerId), Assignment>, t: TestId, picked: seq<WorkerId>, shares: seq<int>)
    requires |picked| == |shares| && Distinct(picked)
    ensures var r := InsertRows(rows, t, picked, shares);
            && (forall k :: k in r <==> k in rows || (k.0 == t && k.1 in picked))
            && (forall k :: k in rows && !(k.0 == t && k.1 in picked) ==> r[k] == rows[k])
            && (forall i :: 0 <= i < |picked| ==> r[(t, picked[i])] == Assignment(AssignmentStatus.Reserved, shares[i]))
  {
    if picked != [] {
      var n := |picked| - 1;
      InsertRowsEffect(rows, t, picked[..n], shares[..n]);
      var before := InsertRows(rows, t, picked[..n], shares[..n]);
      InsertedStep(rows, t, picked, shares);
      hide InsertRows;
      assert forall w :: w in picked <==> w in picked[..n] || w == picked[n];
      forall i | 0 <= i < |picked| ensures InsertRows(rows, t, picked, shares)[(t, picked[i])] == Assignment(AssignmentStatus.Reserved, shares[i]) {
        if i < n {
          assert picked[..n][i] == picked[i] && shares[..n][i] == shares[i];
        }
      }
    }
  }

  lemma InsertedStep(rows: map<(TestId, WorkerId), Assignment>, t: TestId, picked: seq<WorkerId>, shares: seq<int>)
    requires |picked| == |shares| && picked != []
    ensures var n := |picked| - 1;
            InsertRows(rows, t, picked, shares)
              == InsertRows(rows, t, picked[..n], shares[..n])[(t, picked[n]) := Assignment(AssignmentStatus.Reserved, shares[n])]
  {
  }
}
