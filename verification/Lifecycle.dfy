/** The control plane as a state machine. StartTest and StopTest are sequences of transactions, each
    with its own program counter; any number of them interleave with worker reports, heartbeats,
    drains and sweeps (internal/service/test_service.go). A disabled event changes nothing. */
module Lifecycle {
  import opened Domain
  import opened LoadShare
  import opened Transactions

  type CallId = nat

  /** Where a StartTest call stands. `Loaded`: the test row is read. `Claimed`: CREATED -> STARTING
      won. `Counted`: worker_count written. `Ready`: enough IDLE workers seen. `Allocated`: the
      reservation committed. `Won`: RUNNING written. `RollingBack`: about to undo the claim.
      `Refused`: returned an error without allocating. `Stranded`: the RUNNING write failed. */
  datatype StartPc = Loaded | Claimed | Counted | Ready | Allocated | Won | RollingBack | Refused | Stranded

  /** Where a StopTest call stands. `Seen`: the status is read and not closed. `Marked`: the move to
      STOPPING was tried. `Freed`: the workers are released. */
  datatype StopPc = Seen | Marked | Freed | Done | Aborted

  datatype Call =
    | StartCall(test: TestId, rps: int, required: int, at: StartPc)
    | StopCall(test: TestId, seen: TestStatus, next: StopPc)

  /** `calls` keeps finished calls, so that a state also tells the history of its calls. */
  datatype State = State(db: Tables, calls: map<CallId, Call>, capacity: int)

  datatype Event =
    | CreateTest(t: TestId, rps: int)
    | RegisterWorker(w: WorkerId, hostname: string, now: int)
    | Heartbeat(w: WorkerId, reported: WorkerStatus, now: int)
    | MarkOffline(cutoff: int)
    | SweepOffline
    | Drain(ids: set<WorkerId>)
    | StartAssignment(t: TestId, w: WorkerId)
    | CompleteAssignment(t: TestId, w: WorkerId)
    | FailAssignment(t: TestId, w: WorkerId)
    | BeginStart(c: CallId, t: TestId)
    | BeginStop(c: CallId, t: TestId)
    | Advance(c: CallId, ok: bool, picked: seq<WorkerId>)

  function Init(capacity: int): State { State(EmptyTables, map[], capacity) }

  predicate Closed(st: TestStatus) { st.Stopped? || st.Completed? || st.Failed? }

  // ---------------------------------------------------------------- steps

  ghost function Commit(s: State, r: Result<Tables>): State {
    if r.Ok? then s.(db := r.value) else s
  }

  /** The next repository call of a StartTest; `ok` is false when that call or the context fails. */
  ghost function StartStep(db: Tables, capacity: int, call: Call, ok: bool, picked: seq<WorkerId>): (Tables, Call)
    requires call.StartCall?
  {
    var t := call.test;
    match call.at
    case Loaded =>
      if !ok then (db, call.(at := Refused))
      else
        var (db', changed) := TryTransitionStatus(db, t, TestStatus.Created, TestStatus.Starting);
        (db', call.(at := if changed then Claimed else Refused))
    case Claimed =>
      var n := RequiredWorkers(call.rps, capacity);
      if n.Err? || !ok || UpdateWorkerCount(db, t, n.value).Err? then (db, call.(at := RollingBack))
      else (UpdateWorkerCount(db, t, n.value).value, call.(at := Counted, required := n.value))
    case Counted =>
      (db, call.(at := if ok then Ready else RollingBack))
    case Ready =>
      if !IsSelection(db, call.required, picked) then (db, call)
      else if !ok || call.rps <= 0 || call.required <= 0 then (db, call.(at := RollingBack))
      else
        var r := ReserveWorkersForTest(db, t, call.required, Shares(call.rps, call.required), picked);
        if r.Err? then (db, call.(at := RollingBack)) else (r.value, call.(at := Allocated))
    case Allocated =>
      var r := UpdateStatus(db, t, TestStatus.Running);
      if !ok || r.Err? then (db, call.(at := Stranded)) else (r.value, call.(at := Won))
    case RollingBack =>
      (if ok then TryTransitionStatus(db, t, TestStatus.Starting, TestStatus.Created).0 else db, call.(at := Refused))
    case _ => (db, call)
  }

  /** The next repository call of a StopTest. */
  ghost function StopStep(db: Tables, call: Call, ok: bool): (Tables, Call)
    requires call.StopCall?
  {
    var t := call.test;
    match call.next
    case Seen =>
      if !ok then (db, call.(next := Aborted))
      else (TryTransitionStatus(db, t, call.seen, TestStatus.Stopping).0, call.(next := Marked))
    case Marked =>
      if !ok then (db, call.(next := Aborted)) else (ReleaseWorkersForTest(db, t), call.(next := Freed))
    case Freed =>
      var r := UpdateStatus(db, t, TestStatus.Stopped);
      if !ok || r.Err? then (db, call.(next := Aborted)) else (r.value, call.(next := Done))
    case _ => (db, call)
  }

  ghost function CallStep(db: Tables, capacity: int, call: Call, ok: bool, picked: seq<WorkerId>): (Tables, Call) {
    if call.StartCall? then StartStep(db, capacity, call, ok, picked) else StopStep(db, call, ok)
  }

  ghost function Next(s: State, e: Event): State {
    match e
    case CreateTest(t, rps) =>
      var n := RequiredWorkers(rps, s.capacity);
      if n.Err? then s else Commit(s, Transactions.CreateTest(s.db, t, Test(TestStatus.Created, rps, n.value)))
    case RegisterWorker(w, hostname, now) =>
      Commit(s, CreateWorker(s.db, w, Worker(hostname, WorkerStatus.Idle, now)))
    case Heartbeat(w, reported, now) =>
      if reported.Offline? then s else Commit(s, UpdateHeartbeat(s.db, w, reported, now))
    case MarkOffline(cutoff) => s.(db := MarkOfflineWorkers(s.db, cutoff))
    case SweepOffline => s.(db := MarkAssignmentsFailedForOfflineWorkers(s.db))
    case Drain(ids) => s.(db := TerminateIdleWorkers(s.db, ids))
    case StartAssignment(t, w) => Commit(s, MarkAssignmentRunning(s.db, t, w))
    case CompleteAssignment(t, w) => Commit(s, MarkAssignmentCompleted(s.db, t, w))
    case FailAssignment(t, w) => Commit(s, MarkAssignmentFailed(s.db, t, w))
    case BeginStart(c, t) =>
      if c in s.calls || t !in s.db.tests then s
      else s.(calls := s.calls[c := StartCall(t, s.db.tests[t].rps, 0, Loaded)])
    case BeginStop(c, t) =>
      if c in s.calls || t !in s.db.tests then s
      else
        var st := s.db.tests[t].status;
        s.(calls := s.calls[c := StopCall(t, st, if Closed(st) then Done else Seen)])
    case Advance(c, ok, picked) =>
      if c !in s.calls then s
      else
        var (db', call') := CallStep(s.db, s.capacity, s.calls[c], ok, picked);
        s.(db := db', calls := s.calls[c := call'])
  }

  /** The state after a schedule of events, whatever it is. */
  ghost function Run(s: State, es: seq<Event>): State
    decreases |es|
  {
    if es == [] then s else Next(Run(s, es[..|es| - 1]), es[|es| - 1])
  }

  // ---------------------------------------------------------------- the invariant

  /** The call won the claim of its test, and has not given it back. */
  predicate Claims(call: Call) {
    call.StartCall? && !call.at.Loaded? && !call.at.Refused?
  }

  /** A claiming call that still has writes to make. */
  predicate InFlight(call: Call) {
    Claims(call) && !call.at.Won? && !call.at.Stranded?
  }

  /** A complete allocation: as many workers as the rate requires, each with a share it can carry,
      and the shares add up to the test's rate. */
  ghost predicate FullAllocation(shares: map<WorkerId, int>, rps: int, capacity: int) {
    && rps > 0 && capacity > 0
    && |shares| == Required(rps, capacity)
    && (forall w :: w in shares ==> 1 <= shares[w] <= capacity)
    && Sums.MapSum(shares) == rps
  }

  ghost predicate TestOk(db: Tables, capacity: int, t: TestId)
    requires t in db.tests
  {
    var test := db.tests[t];
    && test.rps > 0 && capacity > 0
    && (Assigned(db, t) == {} || FullAllocation(ShareTable(db, t), test.rps, capacity))
    && (test.status.Created? ==> Assigned(db, t) == {})
    && (test.status.Running? || test.status.Completed? || test.status.Failed? ==> Assigned(db, t) != {})
    && (test.status.Completed? ==> AllCompleted(db, t))
  }

  predicate Startable(st: TestStatus) { st.Starting? || st.Stopping? || st.Stopped? }

  ghost predicate CallOk(db: Tables, capacity: int, call: Call) {
    && call.test in db.tests
    && (call.StopCall? && call.next.Seen? ==> !Closed(call.seen))
    && (call.StartCall? ==>
      && call.rps == db.tests[call.test].rps
      && (InFlight(call) ==> Startable(db.tests[call.test].status))
      && (Claims(call) ==>
          (Assigned(db, call.test) != {} <==> call.at.Allocated? || call.at.Won? || call.at.Stranded?))
      && (call.at.Counted? || call.at.Ready? ==>
          capacity > 0 && call.rps > 0 && call.required == Required(call.rps, capacity)))
  }

  /** At most one call has ever claimed each test and kept the claim. */
  ghost predicate SingleClaim(calls: map<CallId, Call>) {
    forall c, c' :: c in calls && c' in calls && Claims(calls[c]) && Claims(calls[c']) && calls[c].test == calls[c'].test
      ==> c == c'
  }

  ghost predicate RowsRefer(db: Tables) {
    forall t, w :: (t, w) in db.assignments ==> t in db.tests && w in db.workers
  }

  ghost predicate TestsOk(db: Tables, capacity: int) {
    forall t :: t in db.tests ==> TestOk(db, capacity, t)
  }

  ghost predicate CallsOk(db: Tables, capacity: int, calls: map<CallId, Call>) {
    forall c :: c in calls ==> CallOk(db, capacity, calls[c])
  }

  ghost predicate Inv(s: State) {
    && RowsRefer(s.db)
    && TestsOk(s.db, s.capacity)
    && CallsOk(s.db, s.capacity, s.calls)
    && SingleClaim(s.calls)
  }

  // ---------------------------------------------------------------- how rows move

  predicate Progresses(a: AssignmentStatus, b: AssignmentStatus) {
    a == b || (a.Reserved? && !b.Reserved?) || (a.Running? && !b.Live())
  }

  /** No row appears, disappears or changes its share, and no row moves backwards. */
  ghost predicate RowsProgress(db: Tables, db': Tables) {
    && db'.assignments.Keys == db.assignments.Keys
    && forall k :: k in db.assignments ==>
         && db'.assignments[k].rps == db.assignments[k].rps
         && Progresses(db.assignments[k].status, db'.assignments[k].status)
  }

  lemma ProgressKeepsShares(db: Tables, db': Tables, t: TestId)
    requires RowsProgress(db, db')
    ensures Assigned(db', t) == Assigned(db, t)
    ensures ShareTable(db', t) == ShareTable(db, t)
    ensures AllCompleted(db, t) ==> AllCompleted(db', t)
  {
    assert forall w :: (t, w) in db.assignments <==> (t, w) in db'.assignments;
  }

  /** Tests keep their rate, and a status only moves where the calls in flight allow it. */
  ghost predicate TestsMove(db: Tables, db': Tables, t: TestId)
    requires t in db.tests
  {
    && t in db'.tests
    && db'.tests[t].rps == db.tests[t].rps
    && (var a, b := db.tests[t].status, db'.tests[t].status;
        || b == a
        || b.Stopping? || b.Stopped?
        || (a.Running? && b.Failed?)
        || (a.Running? && b.Completed? && AllCompleted(db', t)))
  }

  lemma MoveKeepsTest(db: Tables, db': Tables, capacity: int, t: TestId)
    requires t in db.tests && TestOk(db, capacity, t)
    requires RowsProgress(db, db') && TestsMove(db, db', t)
    ensures TestOk(db', capacity, t)
  {
    ProgressKeepsShares(db, db', t);
  }

  lemma MoveKeepsCall(db: Tables, db': Tables, capacity: int, call: Call)
    requires CallOk(db, capacity, call)
    requires RowsProgress(db, db') && TestsMove(db, db', call.test)
    ensures CallOk(db', capacity, call)
  {
    ProgressKeepsShares(db, db', call.test);
  }

  /** Whatever moves rows forward and tests along these edges. */
  ghost predicate Moves(db: Tables, db': Tables) {
    && RowsProgress(db, db')
    && db'.tests.Keys == db.tests.Keys
    && db.workers.Keys <= db'.workers.Keys
    && forall t :: t in db.tests ==> TestsMove(db, db', t)
  }

  lemma MoveKeepsInv(s: State, db': Tables)
    requires Inv(s) && Moves(s.db, db')
    ensures Inv(s.(db := db'))
  {
    forall t | t in db'.tests ensures TestOk(db', s.capacity, t) {
      MoveKeepsTest(s.db, db', s.capacity, t);
    }
    forall c | c in s.calls ensures CallOk(db', s.capacity, s.calls[c]) {
      MoveKeepsCall(s.db, db', s.capacity, s.calls[c]);
    }
    assert RowsRefer(db');
  }

  lemma RowReportMoves(db: Tables, t: TestId, w: WorkerId, r: Result<Tables>)
    requires RowsRefer(db)
    requires r == MarkAssignmentRunning(db, t, w) || r == MarkAssignmentCompleted(db, t, w) || r == MarkAssignmentFailed(db, t, w)
    requires r.Ok?
    ensures Moves(db, r.value)
  {
  }

  lemma SweepMoves(db: Tables)
    ensures Moves(db, MarkAssignmentsFailedForOfflineWorkers(db))
  {
  }

  lemma ReleaseMoves(db: Tables, t: TestId)
    ensures Moves(db, ReleaseWorkersForTest(db, t))
  {
  }

  // ---------------------------------------------------------------- every step keeps the invariant

  lemma CreateKeepsInv(s: State, t: TestId, rps: int)
    requires Inv(s)
    ensures Inv(Next(s, CreateTest(t, rps)))
  {
    var s' := Next(s, CreateTest(t, rps));
    if s' != s {
      assert Assigned(s'.db, t) == {};
      forall u | u in s.db.tests ensures TestOk(s'.db, s.capacity, u) {
        ProgressKeepsShares(s.db, s'.db, u);
        assert TestOk(s.db, s.capacity, u);
      }
      forall c | c in s.calls ensures CallOk(s'.db, s.capacity, s.calls[c]) {
        assert CallOk(s.db, s.capacity, s.calls[c]);
        ProgressKeepsShares(s.db, s'.db, s.calls[c].test);
      }
    }
  }

  /** A call record may be added or replaced when it is sound and makes no second claim. */
  lemma RecordKeepsSingleClaim(calls: map<CallId, Call>, c: CallId, call: Call)
    requires SingleClaim(calls)
    requires Claims(call) ==> c in calls && Claims(calls[c]) && calls[c].test == call.test
    ensures SingleClaim(calls[c := call])
  {
  }

  lemma RecordKeepsInv(s: State, c: CallId, call: Call)
    requires Inv(s) && CallOk(s.db, s.capacity, call)
    requires Claims(call) ==> c in s.calls && Claims(s.calls[c]) && s.calls[c].test == call.test
    ensures Inv(s.(calls := s.calls[c := call]))
  {
    RecordKeepsSingleClaim(s.calls, c, call);
  }

  lemma BeginKeepsInv(s: State, e: Event)
    requires Inv(s) && (e.BeginStart? || e.BeginStop?)
    ensures Inv(Next(s, e))
  {
    hide Inv, CallStep, TestOk;
    if e.c !in s.calls && e.t in s.db.tests {
      var call := Next(s, e).calls[e.c];
      assert Next(s, e) == s.(calls := s.calls[e.c := call]);
      assert CallOk(s.db, s.capacity, call);
      hide Next, CallOk;
      RecordKeepsInv(s, e.c, call);
    }
  }

  lemma StopStepMoves(db: Tables, capacity: int, call: Call, ok: bool, picked: seq<WorkerId>)
    requires call.StopCall? && CallOk(db, capacity, call)
    ensures var (db', call') := CallStep(db, capacity, call, ok, picked);
            Moves(db, db') && CallOk(db', capacity, call') && !Claims(call')
  {
    if call.next.Marked? {
      ReleaseMoves(db, call.test);
    }
  }

  lemma CallIsOk(s: State, c: CallId)
    requires Inv(s) && c in s.calls
    ensures CallOk(s.db, s.capacity, s.calls[c])
    ensures s.calls[c].test in s.db.tests && TestOk(s.db, s.capacity, s.calls[c].test)
  {
    assert CallOk(s.db, s.capacity, s.calls[c]);
  }

  lemma AdvanceIs(s: State, c: CallId, ok: bool, picked: seq<WorkerId>)
    requires c in s.calls
    ensures var (db', call') := CallStep(s.db, s.capacity, s.calls[c], ok, picked);
            Next(s, Advance(c, ok, picked)) == State(db', s.calls[c := call'], s.capacity)
  {
  }

  /** A step of a call that claims nothing new. */
  lemma CallMoveKeepsInv(s: State, c: CallId, db': Tables, call': Call)
    requires Inv(s) && Moves(s.db, db') && CallOk(db', s.capacity, call')
    requires Claims(call') ==> c in s.calls && Claims(s.calls[c]) && s.calls[c].test == call'.test
    ensures Inv(State(db', s.calls[c := call'], s.capacity))
  {
    MoveKeepsInv(s, db');
    RecordKeepsInv(s.(db := db'), c, call');
  }

  // ---------------------------------------------------------------- steps of StartTest

  /** Another call's record and another test's rows are untouched by a write to test t only. */
  ghost predicate OnlyTest(db: Tables, db': Tables, t: TestId) {
    && db'.tests.Keys == db.tests.Keys
    && db.workers.Keys <= db'.workers.Keys
    && (forall u :: u in db.tests && u != t ==> db'.tests[u] == db.tests[u])
    && (forall k :: k in db.assignments ==> k in db'.assignments && db'.assignments[k] == db.assignments[k])
    && (forall k :: k in db'.assignments && k !in db.assignments ==> k.0 == t && k.1 in db'.workers)
  }

  lemma OnlyTestKeepsViews(db: Tables, db': Tables, t: TestId, u: TestId)
    requires OnlyTest(db, db', t) && (u != t || db'.assignments == db.assignments)
    ensures Assigned(db', u) == Assigned(db, u)
    ensures ShareTable(db', u) == ShareTable(db, u)
    ensures AllCompleted(db', u) <==> AllCompleted(db, u)
  {
    assert forall w :: (u, w) in db.assignments <==> (u, w) in db'.assignments;
  }

  lemma OtherTestOk(db: Tables, db': Tables, capacity: int, t: TestId, u: TestId)
    requires OnlyTest(db, db', t) && u != t && u in db.tests && TestOk(db, capacity, u)
    ensures TestOk(db', capacity, u)
  {
    OnlyTestKeepsViews(db, db', t, u);
  }

  lemma OtherCallOk(db: Tables, db': Tables, capacity: int, t: TestId, call: Call)
    requires OnlyTest(db, db', t) && CallOk(db, capacity, call)
    requires t in db.tests && db'.tests[t].rps == db.tests[t].rps
    requires call.test == t ==> !Claims(call)
    ensures CallOk(db', capacity, call)
  {
    if call.test != t {
      OnlyTestKeepsViews(db, db', t, call.test);
    }
  }

  lemma AllTestsOk(db: Tables, db': Tables, capacity: int, t: TestId)
    requires OnlyTest(db, db', t) && TestsOk(db, capacity)
    requires t in db'.tests && TestOk(db', capacity, t)
    ensures TestsOk(db', capacity)
  {
    forall u | u in db'.tests && u != t ensures TestOk(db', capacity, u) {
      OtherTestOk(db, db', capacity, t, u);
    }
  }

  /** No call but c holds the claim of test t. */
  predicate OnlyHolder(calls: map<CallId, Call>, c: CallId, t: TestId) {
    forall d :: d in calls && d != c && calls[d].test == t ==> !Claims(calls[d])
  }

  lemma AllCallsOk(db: Tables, db': Tables, capacity: int, calls: map<CallId, Call>, c: CallId, call': Call)
    requires OnlyTest(db, db', call'.test) && CallsOk(db, capacity, calls) && OnlyHolder(calls, c, call'.test)
    requires call'.test in db.tests && db'.tests[call'.test].rps == db.tests[call'.test].rps
    requires CallOk(db', capacity, call')
    ensures CallsOk(db', capacity, calls[c := call'])
  {
    forall d | d in calls && d != c ensures CallOk(db', capacity, calls[d]) {
      OtherCallOk(db, db', capacity, call'.test, calls[d]);
    }
  }

  lemma HolderKeepsSingleClaim(calls: map<CallId, Call>, c: CallId, call': Call)
    requires SingleClaim(calls) && OnlyHolder(calls, c, call'.test)
    ensures SingleClaim(calls[c := call'])
  {
  }

  lemma OnlyTestKeepsReferences(db: Tables, db': Tables, t: TestId)
    requires OnlyTest(db, db', t) && t in db.tests && RowsRefer(db)
    ensures RowsRefer(db')
  {
    forall u, w | (u, w) in db'.assignments ensures u in db'.tests && w in db'.workers {
      assert (u, w) in db.assignments || u == t;
    }
  }

  /** The holder of the claim of test t, or a caller taking a free claim, writes to test t. */
  lemma HolderKeepsInv(s: State, c: CallId, db': Tables, call': Call)
    requires Inv(s) && OnlyTest(s.db, db', call'.test) && OnlyHolder(s.calls, c, call'.test)
    requires call'.test in s.db.tests && db'.tests[call'.test].rps == s.db.tests[call'.test].rps
    requires TestOk(db', s.capacity, call'.test) && CallOk(db', s.capacity, call')
    ensures Inv(State(db', s.calls[c := call'], s.capacity))
  {
    AllTestsOk(s.db, db', s.capacity, call'.test);
    AllCallsOk(s.db, db', s.capacity, s.calls, c, call');
    HolderKeepsSingleClaim(s.calls, c, call');
    OnlyTestKeepsReferences(s.db, db', call'.test);
  }

  lemma ClaimantIsOnlyHolder(s: State, c: CallId)
    requires Inv(s) && c in s.calls && Claims(s.calls[c])
    ensures OnlyHolder(s.calls, c, s.calls[c].test)
  {
  }

  /** A CREATED test is claimed by nobody. */
  lemma CreatedIsUnclaimed(s: State, c: CallId, t: TestId)
    requires Inv(s) && HasStatus(s.db, t, TestStatus.Created)
    ensures OnlyHolder(s.calls, c, t)
    ensures Assigned(s.db, t) == {}
  {
    assert TestOk(s.db, s.capacity, t);
    forall d | d in s.calls && s.calls[d].test == t ensures !Claims(s.calls[d]) {
      assert CallOk(s.db, s.capacity, s.calls[d]);
    }
  }

  /** The committed reservation is a full allocation: one row for each picked worker, carrying the
      share of the same position. */
  lemma ReservationIsFull(db: Tables, capacity: int, t: TestId, picked: seq<WorkerId>)
    requires t in db.tests && db.tests[t].rps > 0 && capacity > 0 && Assigned(db, t) == {}
    requires var n := Required(db.tests[t].rps, capacity);
             IsSelection(db, n, picked) && ReserveWorkersForTest(db, t, n, Shares(db.tests[t].rps, n), picked).Ok?
    ensures var rps := db.tests[t].rps; var n := Required(rps, capacity);
            var db' := ReserveWorkersForTest(db, t, n, Shares(rps, n), picked).value;
            && FullAllocation(ShareTable(db', t), rps, capacity)
            && Assigned(db', t) != {}
            && OnlyTest(db, db', t)
  {
    var rps := db.tests[t].rps;
    var n := Required(rps, capacity);
    var shares := Shares(rps, n);
    var db' := ReserveWorkersForTest(db, t, n, shares, picked).value;
    InsertRowsEffect(db.assignments, t, picked, shares);
    var m := ShareTable(db', t);
    assert forall w :: w in m <==> w in picked by {
      assert forall w :: (t, w) !in db.assignments;
    }
    assert forall i :: 0 <= i < n ==> m[picked[i]] == shares[i];
    SharesConserveRate(rps, n);
    Sums.MapSumEnumerated(m, picked, shares);
    forall w | w in m ensures 1 <= m[w] <= capacity {
      var i :| 0 <= i < n && picked[i] == w;
      SharesFitCapacity(rps, capacity, i);
    }
    assert picked[0] in Assigned(db', t);
    assert forall w :: w in picked ==> WorkerIs(db, w, WorkerStatus.Idle);
  }

  /** What one step of a StartTest call guarantees about its own test and about itself. */
  ghost predicate SoundStep(db: Tables, capacity: int, call: Call, db': Tables, call': Call)
    requires call.test in db.tests
  {
    && call'.test == call.test
    && OnlyTest(db, db', call.test)
    && db'.tests[call.test].rps == db.tests[call.test].rps
    && TestOk(db', capacity, call.test)
    && CallOk(db', capacity, call')
    && (!Claims(call) && Claims(call') ==> HasStatus(db, call.test, TestStatus.Created))
    && (!Claims(call) && !Claims(call') ==> db' == db)
  }

  /** A change of the test row alone that keeps its rate and moves to an acceptable status. */
  lemma SoundTestWrite(db: Tables, capacity: int, call: Call, test': Test, call': Call)
    requires call.test in db.tests && TestOk(db, capacity, call.test)
    requires call'.test == call.test && test'.rps == db.tests[call.test].rps
    requires var db' := db.(tests := db.tests[call.test := test']);
      && (test'.status.Created? ==> Assigned(db, call.test) == {})
      && (test'.status.Running? ==> Assigned(db, call.test) != {})
      && (test'.status == db.tests[call.test].status || test'.status.Created? || test'.status.Starting? || test'.status.Running?)
      && (Assigned(db', call.test) == Assigned(db, call.test) ==> CallOk(db', capacity, call'))
    requires !Claims(call) && Claims(call') ==> HasStatus(db, call.test, TestStatus.Created)
    requires Claims(call) || Claims(call')
    ensures SoundStep(db, capacity, call, db.(tests := db.tests[call.test := test']), call')
  {
    OnlyTestKeepsViews(db, db.(tests := db.tests[call.test := test']), call.test, call.test);
  }

  lemma ClaimStepSound(db: Tables, capacity: int, call: Call, ok: bool, picked: seq<WorkerId>)
    requires call.StartCall? && call.at.Loaded? && call.test in db.tests && CallOk(db, capacity, call) && TestOk(db, capacity, call.test)
    ensures var (db', call') := StartStep(db, capacity, call, ok, picked); SoundStep(db, capacity, call, db', call')
  {
    var (db', call') := StartStep(db, capacity, call, ok, picked);
    if Claims(call') {
      SoundTestWrite(db, capacity, call, db'.tests[call.test], call');
    }
  }

  lemma CountStepSound(db: Tables, capacity: int, call: Call, ok: bool, picked: seq<WorkerId>)
    requires call.StartCall? && call.at.Claimed? && call.test in db.tests && CallOk(db, capacity, call) && TestOk(db, capacity, call.test)
    ensures var (db', call') := StartStep(db, capacity, call, ok, picked); SoundStep(db, capacity, call, db', call')
  {
    var (db', call') := StartStep(db, capacity, call, ok, picked);
    if call'.at.Counted? {
      SoundTestWrite(db, capacity, call, db'.tests[call.test], call');
    }
  }

  lemma ReserveStepSound(db: Tables, capacity: int, call: Call, ok: bool, picked: seq<WorkerId>)
    requires call.StartCall? && call.at.Ready? && call.test in db.tests && CallOk(db, capacity, call) && TestOk(db, capacity, call.test)
    ensures var (db', call') := StartStep(db, capacity, call, ok, picked); SoundStep(db, capacity, call, db', call')
  {
    var (db', call') := StartStep(db, capacity, call, ok, picked);
    if call'.at.Allocated? {
      ReservationIsFull(db, capacity, call.test, picked);
    }
  }

  lemma FinishStepSound(db: Tables, capacity: int, call: Call, ok: bool, picked: seq<WorkerId>)
    requires call.StartCall? && !call.at.Loaded? && !call.at.Claimed? && !call.at.Ready?
    requires CallOk(db, capacity, call) && TestOk(db, capacity, call.test)
    ensures var (db', call') := StartStep(db, capacity, call, ok, picked); SoundStep(db, capacity, call, db', call')
  {
    var (db', call') := StartStep(db, capacity, call, ok, picked);
    if db' != db {
      SoundTestWrite(db, capacity, call, db'.tests[call.test], call');
    }
  }

  lemma StartKeepsInv(s: State, c: CallId, ok: bool, picked: seq<WorkerId>)
    requires Inv(s) && c in s.calls && s.calls[c].StartCall?
    ensures Inv(Next(s, Advance(c, ok, picked)))
  {
    hide *;
    CallIsOk(s, c);
    AdvanceIs(s, c, ok, picked);
    var (db', call') := CallStep(s.db, s.capacity, s.calls[c], ok, picked);
    StartStepSound(s.db, s.capacity, s.calls[c], ok, picked);
    SoundStepKeepsInv(s, c, db', call');
  }

  lemma StartStepSound(db: Tables, capacity: int, call: Call, ok: bool, picked: seq<WorkerId>)
    requires call.StartCall? && call.test in db.tests && CallOk(db, capacity, call) && TestOk(db, capacity, call.test)
    ensures var (db', call') := CallStep(db, capacity, call, ok, picked); SoundStep(db, capacity, call, db', call')
  {
    hide StartStep, SoundStep, TestOk, Assigned;
    match call.at {
      case Loaded => ClaimStepSound(db, capacity, call, ok, picked);
      case Claimed => CountStepSound(db, capacity, call, ok, picked);
      case Ready => ReserveStepSound(db, capacity, call, ok, picked);
      case _ => FinishStepSound(db, capacity, call, ok, picked);
    }
  }

  lemma SoundStepKeepsInv(s: State, c: CallId, db': Tables, call': Call)
    requires Inv(s) && c in s.calls && s.calls[c].test in s.db.tests
    requires SoundStep(s.db, s.capacity, s.calls[c], db', call')
    ensures Inv(State(db', s.calls[c := call'], s.capacity))
  {
    var call := s.calls[c];
    if Claims(call) {
      ClaimantIsOnlyHolder(s, c);
      HolderKeepsInv(s, c, db', call');
    } else if Claims(call') {
      CreatedIsUnclaimed(s, c, call.test);
      HolderKeepsInv(s, c, db', call');
    } else {
      RecordKeepsInv(s, c, call');
    }
  }

  // ---------------------------------------------------------------- all events

  lemma NextKeepsInv(s: State, e: Event)
    requires Inv(s)
    ensures Inv(Next(s, e))
  {
    match e
    case CreateTest(t, rps) => CreateKeepsInv(s, t, rps);
    case BeginStart(_, _) => BeginKeepsInv(s, e);
    case BeginStop(_, _) => BeginKeepsInv(s, e);
    case Advance(c, ok, picked) =>
      if c in s.calls {
        if s.calls[c].StartCall? {
          StartKeepsInv(s, c, ok, picked);
        } else {
          StopKeepsInv(s, c, ok, picked);
        }
      }
    case _ =>
      OtherEventMoves(s, e);
      MoveKeepsInv(s, Next(s, e).db);
  }

  lemma StopKeepsInv(s: State, c: CallId, ok: bool, picked: seq<WorkerId>)
    requires Inv(s) && c in s.calls && s.calls[c].StopCall?
    ensures Inv(Next(s, Advance(c, ok, picked)))
  {
    hide *;
    CallIsOk(s, c);
    AdvanceIs(s, c, ok, picked);
    var (db', call') := CallStep(s.db, s.capacity, s.calls[c], ok, picked);
    StopStepMoves(s.db, s.capacity, s.calls[c], ok, picked);
    CallMoveKeepsInv(s, c, db', call');
  }

  lemma OtherEventMoves(s: State, e: Event)
    requires RowsRefer(s.db)
    requires !e.CreateTest? && !e.BeginStart? && !e.BeginStop? && !e.Advance?
    ensures Moves(s.db, Next(s, e).db) && Next(s, e) == s.(db := Next(s, e).db)
  {
    match e
    case SweepOffline => SweepMoves(s.db);
    case StartAssignment(t, w) =>
      if MarkAssignmentRunning(s.db, t, w).Ok? { RowReportMoves(s.db, t, w, MarkAssignmentRunning(s.db, t, w)); }
    case CompleteAssignment(t, w) =>
      if MarkAssignmentCompleted(s.db, t, w).Ok? { RowReportMoves(s.db, t, w, MarkAssignmentCompleted(s.db, t, w)); }
    case FailAssignment(t, w) =>
      if MarkAssignmentFailed(s.db, t, w).Ok? { RowReportMoves(s.db, t, w, MarkAssignmentFailed(s.db, t, w)); }
    case _ =>
  }

  lemma {:induction false} RunKeepsInv(s: State, es: seq<Event>)
    requires Inv(s)
    ensures Inv(Run(s, es)) && Run(s, es).capacity == s.capacity
    decreases |es|
  {
    hide Inv, CallStep, TryTransitionStatus;
    if es != [] {
      RunKeepsInv(s, es[..|es| - 1]);
      NextKeepsInv(Run(s, es[..|es| - 1]), es[|es| - 1]);
    }
  }
}
