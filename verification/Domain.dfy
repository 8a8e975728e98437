/** The rows of the control plane's three tables and the statuses they move through.
    ULIDs are natural numbers here: only their equality is ever used. */
module Domain {

  type TestId = nat
  type WorkerId = nat

  /** The errors the services and repositories return. `ErrStorage` stands for any failure of the
      database or of the request context, which leaves the tables as they were. */
  datatype Error =
    | ErrValidation
    | ErrTestNotFound
    | ErrWorkerNotFound
    | ErrAssignmentNotFound
    | ErrInsufficientWorkers
    | ErrInvalidTestState
    | ErrAllocationMismatch
    | ErrStorage

  datatype Result<+T> = Ok(value: T) | Err(error: Error)

  datatype TestStatus = Created | Starting | Running | Stopping | Stopped | Completed | Failed

  datatype WorkerStatus = Idle | Reserved | Running | Draining | Offline

  datatype AssignmentStatus = Reserved | Running | Completed | Failed
  {
    /** A live assignment is one its worker may still execute. */
    predicate Live() { Reserved? || Running? }
  }

  datatype Test = Test(status: TestStatus, rps: int, workerCount: int)

  datatype Worker = Worker(hostname: string, status: WorkerStatus, lastHeartbeat: int)

  datatype Assignment = Assignment(status: AssignmentStatus, rps: int)

  /** One committed state of the database. The key of `assignments` is the primary key
      (test_id, worker_id) of table test_workers. */
  datatype Tables = Tables(
    tests: map<TestId, Test>,
    workers: map<WorkerId, Worker>,
    assignments: map<(TestId, WorkerId), Assignment>)

  const EmptyTables := Tables(map[], map[], map[])

  predicate Distinct<T(==)>(s: seq<T>) {
    forall i, j :: 0 <= i < j < |s| ==> s[i] != s[j]
  }
}
