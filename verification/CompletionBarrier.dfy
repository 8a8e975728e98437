/** The completion barrier at the level of SQL statements. The transactions on one test run one
    statement at a time under READ COMMITTED: a statement sees the committed rows and its own
    transaction's writes, an UPDATE waits for a row another transaction has written, and nothing is
    visible to others before COMMIT (internal/repository/assignment.go, worker_repository.go).
    `lockFirst` tells whether a completion begins with SELECT ... FOR UPDATE on the test row. */
module CompletionBarrier {
  import opened Domain
  import Transactions

  type TxId = nat

  /** The committed state of one test and its rows. */
  datatype Committed = Committed(status: TestStatus, rows: map<WorkerId, AssignmentStatus>)

  datatype Kind =
    | Completing(w: WorkerId)
    | Failing(w: WorkerId)
    | Starting(w: WorkerId)
    | Sweeping(offline: set<WorkerId>)

  /** The statement a transaction executes next. */
  datatype Point = LockTest | UpdateRows | CheckRows | UpdateTest | Commit

  /** `writes` are the rows written and therefore locked, `testWrite` the pending status of the test. */
  datatype Tx = Tx(kind: Kind, at: Point, holdsTest: bool, writes: map<WorkerId, AssignmentStatus>,
                   incomplete: bool, testWrite: set<TestStatus>)

  datatype Fine = Fine(db: Committed, txs: map<TxId, Tx>, lockFirst: bool)

  datatype Move = Begin(x: TxId, kind: Kind) | Step(x: TxId) | LockRow(x: TxId, w: WorkerId) | Abort(x: TxId)

  // ---------------------------------------------------------------- the statements

  function First(kind: Kind, lockFirst: bool): Point {
    if kind.Completing? && lockFirst then LockTest else UpdateRows
  }

  ghost predicate TestFree(s: Fine, x: TxId) {
    forall y :: y in s.txs && y != x ==> !s.txs[y].holdsTest
  }

  ghost predicate RowFree(s: Fine, x: TxId, w: WorkerId) {
    forall y :: y in s.txs && y != x ==> w !in s.txs[y].writes
  }

  /** What a statement of the transaction sees: committed rows under its own writes. */
  function Sees(db: Committed, tx: Tx): map<WorkerId, AssignmentStatus> { db.rows + tx.writes }

  /** The WHERE clause of the transaction's row update. */
  predicate Matches(kind: Kind, st: AssignmentStatus) {
    match kind
    case Completing(_) => st.Running?
    case Starting(_) => st.Reserved?
    case _ => st.Live()
  }

  /** The status the row update sets. */
  function Target(kind: Kind): AssignmentStatus {
    match kind
    case Completing(_) => AssignmentStatus.Completed
    case Starting(_) => AssignmentStatus.Running
    case _ => AssignmentStatus.Failed
  }

  ghost predicate RowMatches(db: Committed, kind: Kind, w: WorkerId) {
    w in db.rows && Matches(kind, db.rows[w])
  }

  ghost predicate AllDone(rows: map<WorkerId, AssignmentStatus>) {
    forall w :: w in rows ==> rows[w].Completed?
  }

  ghost predicate AnyFailed(rows: map<WorkerId, AssignmentStatus>) {
    exists w :: w in rows && rows[w].Failed?
  }

  function After(kind: Kind): Point {
    match kind
    case Completing(_) => CheckRows
    case Starting(_) => Commit
    case _ => UpdateTest
  }

  /** The transaction wants to change the test: a completion if it saw no incomplete row, a failure
      always, a sweep if it sees a failed row. */
  ghost predicate WantsTest(db: Committed, tx: Tx) {
    match tx.kind
    case Completing(_) => !tx.incomplete
    case Failing(_) => true
    case Starting(_) => false
    case Sweeping(_) => AnyFailed(Sees(db, tx))
  }

  function TestTarget(kind: Kind): TestStatus {
    if kind.Completing? then TestStatus.Completed else TestStatus.Failed
  }

  ghost function Put(s: Fine, x: TxId, tx: Tx): Fine { s.(txs := s.txs[x := tx]) }

  ghost function End(s: Fine, x: TxId): Fine { s.(txs := s.txs - {x}) }

  ghost function Applied(db: Committed, tx: Tx): Committed {
    Committed(
      if tx.testWrite != {} then TestTarget(tx.kind) else db.status,
      map w | w in db.rows :: if w in tx.writes then tx.writes[w] else db.rows[w])
  }

  /** Executes the next statement; a statement that must wait changes nothing. */
  ghost function Execute(s: Fine, x: TxId): Fine
    requires x in s.txs
  {
    var tx := s.txs[x];
    match tx.at
    case LockTest => if TestFree(s, x) then Put(s, x, tx.(holdsTest := true, at := UpdateRows)) else s
    case UpdateRows =>
      if tx.kind.Sweeping? then
        if forall w :: w in tx.kind.offline && RowMatches(s.db, tx.kind, w) ==> w in tx.writes
        then Put(s, x, tx.(at := UpdateTest)) else s
      else if !RowMatches(s.db, tx.kind, tx.kind.w) then End(s, x)
      else if !RowFree(s, x, tx.kind.w) then s
      else Put(s, x, tx.(writes := map[tx.kind.w := Target(tx.kind)], at := After(tx.kind)))
    case CheckRows => Put(s, x, tx.(incomplete := !AllDone(Sees(s.db, tx)), at := UpdateTest))
    case UpdateTest =>
      if !WantsTest(s.db, tx) || !s.db.status.Running? then Put(s, x, tx.(at := Commit))
      else if !TestFree(s, x) then s
      else Put(s, x, tx.(holdsTest := true, testWrite := {TestTarget(tx.kind)}, at := Commit))
    case Commit => End(s.(db := Applied(s.db, tx)), x)
  }

  ghost function Next(s: Fine, m: Move): Fine {
    match m
    case Begin(x, kind) =>
      if x in s.txs then s else Put(s, x, Tx(kind, First(kind, s.lockFirst), false, map[], true, {}))
    case Step(x) => if x in s.txs then Execute(s, x) else s
    case LockRow(x, w) =>
      if x in s.txs && s.txs[x].kind.Sweeping? && s.txs[x].at.UpdateRows? && w in s.txs[x].kind.offline
         && RowMatches(s.db, s.txs[x].kind, w) && RowFree(s, x, w)
      then Put(s, x, s.txs[x].(writes := s.txs[x].writes[w := AssignmentStatus.Failed])) else s
    case Abort(x) => if x in s.txs then End(s, x) else s
  }

  ghost function Run(s: Fine, ms: seq<Move>): Fine
    decreases |ms|
  {
    if ms == [] then s else Next(Run(s, ms[..|ms| - 1]), ms[|ms| - 1])
  }

  // ---------------------------------------------------------------- the transactions as single steps

  /** The whole transaction applied to a committed state at once. */
  ghost function Atomic(db: Committed, kind: Kind): Committed {
    match kind
    case Completing(w) =>
      if !RowMatches(db, kind, w) then db
      else
        var rows := db.rows[w := AssignmentStatus.Completed];
        Committed(if AllDone(rows) && db.status.Running? then TestStatus.Completed else db.status, rows)
    case Failing(w) =>
      if !RowMatches(db, kind, w) then db
      else Committed(if db.status.Running? then TestStatus.Failed else db.status, db.rows[w := AssignmentStatus.Failed])
    case Starting(w) =>
      if !RowMatches(db, kind, w) then db else db.(rows := db.rows[w := AssignmentStatus.Running])
    case Sweeping(offline) =>
      var rows := map w | w in db.rows :: if w in offline && db.rows[w].Live() then AssignmentStatus.Failed else db.rows[w];
      Committed(if AnyFailed(rows) && db.status.Running? then TestStatus.Failed else db.status, rows)
  }

  // ---------------------------------------------------------------- the invariant

  /** What the locks a transaction holds let it rely on until it ends. */
  ghost predicate TxOk(db: Committed, tx: Tx) {
    && (forall w :: w in tx.writes ==> RowMatches(db, tx.kind, w) && tx.writes[w] == Target(tx.kind))
    && (tx.testWrite != {} ==> tx.holdsTest && db.status.Running? && tx.at.Commit?)
    && (tx.at.LockTest? ==> tx.kind.Completing?)
    && (tx.at.CheckRows? ==> tx.kind.Completing?)
    && (tx.kind.Sweeping? ==> SweepOk(db, tx))
    && (!tx.kind.Sweeping? ==> (tx.writes.Keys == if tx.at.LockTest? || tx.at.UpdateRows? then {} else {tx.kind.w}))
    && (tx.kind.Starting? ==> tx.testWrite == {} && !tx.at.UpdateTest?)
    && (tx.kind.Completing? ==> CompletionOk(db, tx))
    && (tx.kind.Failing? && tx.at.Commit? && tx.testWrite == {} ==> !db.status.Running?)
  }

  ghost predicate SweepOk(db: Committed, tx: Tx)
    requires tx.kind.Sweeping?
  {
    && tx.writes.Keys <= tx.kind.offline
    && (!tx.at.UpdateRows? ==> forall w :: w in tx.kind.offline && RowMatches(db, tx.kind, w) ==> w in tx.writes)
    && (tx.at.Commit? && tx.testWrite == {} && db.status.Running? ==> !AnyFailed(Sees(db, tx)))
    && (tx.at.Commit? && tx.testWrite != {} ==> AnyFailed(Sees(db, tx)))
  }

  ghost predicate OthersDone(db: Committed, w: WorkerId) {
    forall v :: v in db.rows && v != w ==> db.rows[v].Completed?
  }

  ghost predicate CompletionOk(db: Committed, tx: Tx)
    requires tx.kind.Completing?
  {
    && (!tx.at.LockTest? ==> tx.holdsTest)
    && (tx.at.UpdateTest? || tx.at.Commit? ==> (tx.incomplete <==> !OthersDone(db, tx.kind.w)))
    && (tx.at.Commit? ==> (tx.testWrite != {} <==> !tx.incomplete && db.status.Running?))
  }

  ghost predicate Locks(txs: map<TxId, Tx>) {
    && (forall x, y :: x in txs && y in txs && txs[x].holdsTest && txs[y].holdsTest ==> x == y)
    && (forall x, y, w :: x in txs && y in txs && w in txs[x].writes && w in txs[y].writes ==> x == y)
  }

  ghost predicate Inv(s: Fine) {
    && s.lockFirst
    && Locks(s.txs)
    && (forall x :: x in s.txs ==> TxOk(s.db, s.txs[x]))
  }

  // ---------------------------------------------------------------- commits are atomic transactions

  lemma OneMoreDone(rows: map<WorkerId, AssignmentStatus>, w: WorkerId)
    ensures AllDone(rows[w := AssignmentStatus.Completed]) <==> forall v :: v in rows && v != w ==> rows[v].Completed?
  {
    var rows' := rows[w := AssignmentStatus.Completed];
    assert forall v :: v in rows && v != w ==> v in rows' && rows'[v] == rows[v];
  }

  /** Refinement: when a transaction commits, the committed state becomes exactly what the whole
      transaction would have made of it in one step at that moment. */
  lemma CommitIsAtomic(s: Fine, x: TxId)
    requires Inv(s) && x in s.txs && s.txs[x].at.Commit?
    ensures Applied(s.db, s.txs[x]) == Atomic(s.db, s.txs[x].kind)
  {
    var tx := s.txs[x];
    assert TxOk(s.db, tx);
    var rows := Applied(s.db, tx).rows;
    if tx.kind.Completing? {
      assert rows == s.db.rows[tx.kind.w := AssignmentStatus.Completed];
      OneMoreDone(s.db.rows, tx.kind.w);
    } else if tx.kind.Sweeping? {
      assert rows == Sees(s.db, tx);
      assert rows == Atomic(s.db, tx.kind).rows;
    } else {
      assert rows == s.db.rows[tx.kind.w := Target(tx.kind)];
    }
  }

  // ---------------------------------------------------------------- one commit and another transaction

  /** Transactions x and y hold no lock in common. */
  ghost predicate Apart(x: Tx, y: Tx) {
    !(x.holdsTest && y.holdsTest) && x.writes.Keys !! y.writes.Keys
  }

  lemma CommitKeepsSweep(db: Committed, x: Tx, y: Tx)
    requires TxOk(db, x) && x.at.Commit? && TxOk(db, y) && Apart(x, y) && y.kind.Sweeping?
    ensures SweepOk(Applied(db, x), y)
  {
    var db' := Applied(db, x);
    assert forall w :: w in db'.rows && db'.rows[w].Live() ==> db.rows[w].Live();
    if AnyFailed(Sees(db', y)) && !AnyFailed(Sees(db, y)) {
      var w :| w in Sees(db', y) && Sees(db', y)[w].Failed?;
      assert w !in y.writes && w in x.writes && x.writes[w].Failed?;
      assert x.kind.Sweeping? ==> Sees(db, x)[w].Failed?;
    }
    if AnyFailed(Sees(db, y)) {
      var w :| w in Sees(db, y) && Sees(db, y)[w].Failed?;
      assert w in x.writes ==> RowMatches(db, x.kind, w);
      assert w in Sees(db', y) && Sees(db', y)[w].Failed?;
    }
  }

  lemma CommitKeepsCompletion(db: Committed, x: Tx, y: Tx)
    requires TxOk(db, x) && x.at.Commit? && TxOk(db, y) && Apart(x, y) && y.kind.Completing?
    ensures CompletionOk(Applied(db, x), y)
  {
    if y.holdsTest {
      var db' := Applied(db, x);
      assert forall w :: w in db.rows ==> (db'.rows[w].Completed? <==> db.rows[w].Completed?) by {
        assert forall w :: w in x.writes ==> RowMatches(db, x.kind, w);
      }
    }
  }

  lemma CommitKeepsOther(db: Committed, x: Tx, y: Tx)
    requires TxOk(db, x) && x.at.Commit? && TxOk(db, y) && Apart(x, y)
    ensures TxOk(Applied(db, x), y)
  {
    var db' := Applied(db, x);
    if y.kind.Sweeping? {
      CommitKeepsSweep(db, x, y);
    }
    if y.kind.Completing? {
      CommitKeepsCompletion(db, x, y);
    }
    assert forall w :: w in y.writes ==> RowMatches(db, y.kind, w) && w !in x.writes && db'.rows[w] == db.rows[w];
  }

  lemma CommitKeepsInv(s: Fine, x: TxId)
    requires Inv(s) && x in s.txs && s.txs[x].at.Commit?
    ensures Inv(Execute(s, x))
  {
    var s' := Execute(s, x);
    forall y | y in s'.txs ensures TxOk(s'.db, s'.txs[y]) {
      assert Apart(s.txs[x], s.txs[y]);
      CommitKeepsOther(s.db, s.txs[x], s.txs[y]);
    }
  }

  // ---------------------------------------------------------------- the other statements

  /** Replacing one transaction's record. */
  lemma PutKeepsInv(s: Fine, x: TxId, tx: Tx)
    requires Inv(s) && TxOk(s.db, tx)
    requires tx.holdsTest ==> TestFree(s, x)
    requires forall w :: w in tx.writes ==> RowFree(s, x, w)
    ensures Inv(Put(s, x, tx))
  {
  }

  lemma EndKeepsInv(s: Fine, x: TxId)
    requires Inv(s) && x in s.txs
    ensures Inv(End(s, x))
  {
  }

  lemma OwnLocksAreFree(s: Fine, x: TxId)
    requires Inv(s) && x in s.txs
    ensures TxOk(s.db, s.txs[x])
    ensures s.txs[x].holdsTest ==> TestFree(s, x)
    ensures forall w :: w in s.txs[x].writes ==> RowFree(s, x, w)
  {
  }

  lemma UpdateRowsSound(db: Committed, tx: Tx)
    requires TxOk(db, tx) && tx.at.UpdateRows? && !tx.kind.Sweeping? && RowMatches(db, tx.kind, tx.kind.w)
    ensures TxOk(db, tx.(writes := map[tx.kind.w := Target(tx.kind)], at := After(tx.kind)))
  {
  }

  lemma CheckRowsSound(db: Committed, tx: Tx)
    requires TxOk(db, tx) && tx.at.CheckRows?
    ensures TxOk(db, tx.(incomplete := !AllDone(Sees(db, tx)), at := UpdateTest))
  {
    assert Sees(db, tx) == db.rows[tx.kind.w := AssignmentStatus.Completed];
    OneMoreDone(db.rows, tx.kind.w);
  }

  lemma ExecuteKeepsInv(s: Fine, x: TxId)
    requires Inv(s) && x in s.txs
    ensures Inv(Execute(s, x))
  {
    var tx := s.txs[x];
    OwnLocksAreFree(s, x);
    match tx.at
    case Commit => CommitKeepsInv(s, x);
    case CheckRows =>
      CheckRowsSound(s.db, tx);
      PutKeepsInv(s, x, tx.(incomplete := !AllDone(Sees(s.db, tx)), at := UpdateTest));
    case _ =>
      hide Inv;
      if Execute(s, x) != s && Execute(s, x) != End(s, x) {
        if tx.at.UpdateRows? && !tx.kind.Sweeping? {
          UpdateRowsSound(s.db, tx);
        }
        PutKeepsInv(s, x, Execute(s, x).txs[x]);
      } else if Execute(s, x) == End(s, x) {
        EndKeepsInv(s, x);
      }
  }

  lemma NextKeepsInv(s: Fine, m: Move)
    requires Inv(s)
    ensures Inv(Next(s, m))
  {
    match m
    case Begin(x, kind) => if x !in s.txs { PutKeepsInv(s, x, Next(s, m).txs[x]); }
    case Step(x) => if x in s.txs { ExecuteKeepsInv(s, x); }
    case LockRow(x, w) =>
      if Next(s, m) != s {
        OwnLocksAreFree(s, x);
        PutKeepsInv(s, x, Next(s, m).txs[x]);
      }
    case Abort(x) => if x in s.txs { EndKeepsInv(s, x); }
  }

  // ---------------------------------------------------------------- whole runs

  function Quiet(db: Committed): Fine { Fine(db, map[], true) }

  lemma {:induction false} RunKeepsInv(s: Fine, ms: seq<Move>)
    requires Inv(s)
    ensures Inv(Run(s, ms))
    decreases |ms|
  {
    hide Inv, Next;
    if ms != [] {
      RunKeepsInv(s, ms[..|ms| - 1]);
      NextKeepsInv(Run(s, ms[..|ms| - 1]), ms[|ms| - 1]);
    }
  }

  /** The move is the COMMIT of a transaction. */
  predicate Commits(s: Fine, m: Move) { m.Step? && m.x in s.txs && s.txs[m.x].at.Commit? }

  /** The kinds of the transactions that commit, in commit order. */
  ghost function CommitOrder(s: Fine, ms: seq<Move>): seq<Kind>
    decreases |ms|
  {
    if ms == [] then []
    else
      var before := Run(s, ms[..|ms| - 1]);
      var m := ms[|ms| - 1];
      CommitOrder(s, ms[..|ms| - 1]) + (if Commits(before, m) then [before.txs[m.x].kind] else [])
  }

  ghost function AtomicRun(db: Committed, ks: seq<Kind>): Committed
    decreases |ks|
  {
    if ks == [] then db else Atomic(AtomicRun(db, ks[..|ks| - 1]), ks[|ks| - 1])
  }

  lemma OnlyCommitsWrite(s: Fine, m: Move)
    requires !Commits(s, m)
    ensures Next(s, m).db == s.db
  {
  }

  /** Serializability: whatever statements interleave, wait or abort, the committed state is the one
      that running the committed transactions one after another, in commit order, would give. */
  lemma {:induction false} RunsAreSerializable(db: Committed, ms: seq<Move>)
    ensures Run(Quiet(db), ms).db == AtomicRun(db, CommitOrder(Quiet(db), ms))
    decreases |ms|
  {
    if ms != [] {
      var n := |ms| - 1;
      RunsAreSerializable(db, ms[..n]);
      RunKeepsInv(Quiet(db), ms[..n]);
      SerializableStep(Run(Quiet(db), ms[..n]), ms[n], db, CommitOrder(Quiet(db), ms[..n]));
    }
  }

  lemma SerializableStep(s: Fine, m: Move, db: Committed, ks: seq<Kind>)
    requires Inv(s) && s.db == AtomicRun(db, ks)
    ensures Next(s, m).db == AtomicRun(db, ks + if Commits(s, m) then [s.txs[m.x].kind] else [])
  {
    hide Inv, Applied, Atomic;
    if Commits(s, m) {
      CommitIsAtomic(s, m.x);
      assert (ks + [s.txs[m.x].kind])[..|ks|] == ks;
    } else {
      OnlyCommitsWrite(s, m);
      assert ks + [] == ks;
    }
  }

  ghost predicate Unfinished(db: Committed) { db.status.Running? ==> !AllDone(db.rows) }

  lemma AtomicKeepsUnfinished(db: Committed, kind: Kind)
    requires Unfinished(db)
    ensures Unfinished(Atomic(db, kind))
  {
    var db' := Atomic(db, kind);
    if db.status.Running? && db'.status.Running? {
      var v :| v in db.rows && !db.rows[v].Completed?;
      assert v in db'.rows;
    }
  }

  lemma {:induction false} AtomicRunKeepsUnfinished(db: Committed, ks: seq<Kind>)
    requires Unfinished(db)
    ensures Unfinished(AtomicRun(db, ks))
    decreases |ks|
  {
    hide Unfinished, Atomic;
    if ks != [] {
      AtomicRunKeepsUnfinished(db, ks[..|ks| - 1]);
      AtomicKeepsUnfinished(AtomicRun(db, ks[..|ks| - 1]), ks[|ks| - 1]);
    }
  }

  /** The barrier: a test that is committed RUNNING keeps a row that is not COMPLETED through every
      interleaving and every abort, so it can always still be finished. */
  lemma BarrierHolds(db: Committed, ms: seq<Move>)
    requires Unfinished(db)
    ensures Unfinished(Run(Quiet(db), ms).db)
  {
    RunsAreSerializable(db, ms);
    AtomicRunKeepsUnfinished(db, CommitOrder(Quiet(db), ms));
  }

  /** The completion whose COMMIT leaves every row COMPLETED also leaves the test COMPLETED. */
  lemma LastCompleterFinishes(db: Committed, ms: seq<Move>, m: Move)
    ensures var s := Run(Quiet(db), ms);
            Commits(s, m) && s.txs[m.x].kind.Completing? && s.db.status.Running? && AllDone(Next(s, m).db.rows) ==>
              Next(s, m).db.status.Completed?
  {
    var s := Run(Quiet(db), ms);
    RunKeepsInv(Quiet(db), ms);
    hide Run, Inv;
    if Commits(s, m) && s.txs[m.x].kind.Completing? {
      CommitIsAtomic(s, m.x);
      CommittedRowMatches(s, m.x);
    }
  }

  lemma CommittedRowMatches(s: Fine, x: TxId)
    requires Inv(s) && x in s.txs && s.txs[x].at.Commit? && s.txs[x].kind.Completing?
    ensures RowMatches(s.db, s.txs[x].kind, s.txs[x].kind.w)
  {
    assert TxOk(s.db, s.txs[x]);
  }

  // ---------------------------------------------------------------- a transaction left alone commits

  /** Only transaction x is under way, nothing is committed yet, and the invariant holds. */
  ghost predicate AloneAt(s: Fine, db: Committed, x: TxId, kind: Kind, at: Point) {
    Inv(s) && s.db == db && s.txs.Keys == {x} && s.txs[x].kind == kind && s.txs[x].at == at
  }

  lemma AloneBegins(db: Committed, x: TxId, kind: Kind)
    ensures AloneAt(Next(Quiet(db), Begin(x, kind)), db, x, kind, First(kind, true))
  {
    QuietInv(db);
    NextKeepsInv(Quiet(db), Begin(x, kind));
    hide Inv;
  }

  lemma QuietInv(db: Committed)
    ensures Inv(Quiet(db))
  {
  }

  lemma AloneSteps(s: Fine, db: Committed, x: TxId, kind: Kind, at: Point)
    requires AloneAt(s, db, x, kind, at) && !at.Commit? && !kind.Sweeping? && RowMatches(db, kind, kind.w)
    ensures var s' := Next(s, Step(x));
      match at
      case LockTest => AloneAt(s', db, x, kind, UpdateRows)
      case UpdateRows => AloneAt(s', db, x, kind, After(kind))
      case CheckRows => AloneAt(s', db, x, kind, UpdateTest)
      case _ => AloneAt(s', db, x, kind, Commit)
  {
    NextKeepsInv(s, Step(x));
    hide Inv, AllDone, WantsTest;
  }

  lemma AloneRefused(s: Fine, db: Committed, x: TxId, kind: Kind)
    requires AloneAt(s, db, x, kind, UpdateRows) && !kind.Sweeping? && !RowMatches(db, kind, kind.w)
    ensures Next(s, Step(x)).db == db && Next(s, Step(x)).txs == map[]
  {
    hide Inv;
  }

  lemma AloneLocks(s: Fine, db: Committed, x: TxId, kind: Kind)
    requires AloneAt(s, db, x, kind, LockTest) && !kind.Sweeping?
    ensures AloneAt(Next(s, Step(x)), db, x, kind, UpdateRows)
  {
    NextKeepsInv(s, Step(x));
    hide Inv;
  }

  lemma AloneCommits(s: Fine, db: Committed, x: TxId, kind: Kind)
    requires AloneAt(s, db, x, kind, Commit)
    ensures Next(s, Step(x)).db == Atomic(db, kind) && Next(s, Step(x)).txs == map[]
  {
    CommitIsAtomic(s, x);
    hide Inv, Applied, Atomic;
  }

  /** The statements of a transaction, one after the other. */
  ghost function Steps(s: Fine, x: TxId, n: nat): Fine
    decreases n
  {
    if n == 0 then s else Steps(Next(s, Step(x)), x, n - 1)
  }

  lemma {:induction false} FinishedStays(s: Fine, x: TxId, n: nat)
    requires x !in s.txs
    ensures Steps(s, x, n) == s
  {
    if n > 0 {
      FinishedStays(s, x, n - 1);
    }
  }

  /** How many statements are left. */
  function Left(at: Point): nat {
    match at
    case LockTest => 5
    case UpdateRows => 4
    case CheckRows => 3
    case UpdateTest => 2
    case Commit => 1
  }

  lemma {:induction false} AloneRuns(s: Fine, db: Committed, x: TxId, kind: Kind, at: Point, n: nat)
    requires AloneAt(s, db, x, kind, at) && !kind.Sweeping? && n >= Left(at)
    requires at.LockTest? || at.UpdateRows? || RowMatches(db, kind, kind.w)
    ensures Steps(s, x, n).db == Atomic(db, kind) && Steps(s, x, n).txs == map[]
    decreases n
  {
    hide AloneAt, Next, Atomic, RowMatches;
    if at.Commit? {
      AloneCommits(s, db, x, kind);
      FinishedStays(Next(s, Step(x)), x, n - 1);
    } else if RowMatches(db, kind, kind.w) {
      AloneSteps(s, db, x, kind, at);
      var at' := match at case LockTest => UpdateRows case UpdateRows => After(kind) case CheckRows => UpdateTest case _ => Commit;
      AloneRuns(Next(s, Step(x)), db, x, kind, at', n - 1);
    } else if at.LockTest? {
      AloneLocks(s, db, x, kind);
      AloneRuns(Next(s, Step(x)), db, x, kind, UpdateRows, n - 1);
    } else {
      AloneRefused(s, db, x, kind);
      RefusedIsSame(db, kind);
      FinishedStays(Next(s, Step(x)), x, n - 1);
    }
  }

  lemma RefusedIsSame(db: Committed, kind: Kind)
    requires !kind.Sweeping? && !RowMatches(db, kind, kind.w)
    ensures Atomic(db, kind) == db
  {
  }

  /** A report transaction left alone runs to its end: it commits the whole of its effect and leaves no
      lock behind. So the results above are about transactions that do commit. */
  lemma ReportLeftAloneCommits(db: Committed, x: TxId, kind: Kind)
    requires !kind.Sweeping?
    ensures var s := Steps(Next(Quiet(db), Begin(x, kind)), x, 5); s.db == Atomic(db, kind) && s.txs == map[]
  {
    AloneBegins(db, x, kind);
    hide AloneAt, Next, Atomic, RowMatches;
    AloneRuns(Next(Quiet(db), Begin(x, kind)), db, x, kind, First(kind, true), 5);
  }

  /** A sweep locks the rows it updates one after the other. */
  ghost function LockRows(s: Fine, x: TxId, ws: seq<WorkerId>): Fine
    decreases |ws|
  {
    if ws == [] then s else LockRows(Next(s, LockRow(x, ws[0])), x, ws[1..])
  }

  ghost predicate Holds(s: Fine, x: TxId, kind: Kind, w: WorkerId) {
    x in s.txs && (kind.Sweeping? && w in kind.offline && RowMatches(s.db, kind, w) ==> w in s.txs[x].writes)
  }

  lemma AloneLocksRow(s: Fine, db: Committed, x: TxId, kind: Kind, w: WorkerId)
    requires AloneAt(s, db, x, kind, UpdateRows) && kind.Sweeping?
    ensures var s' := Next(s, LockRow(x, w));
      AloneAt(s', db, x, kind, UpdateRows) && Holds(s', x, kind, w) && forall v :: Holds(s, x, kind, v) ==> Holds(s', x, kind, v)
  {
    NextKeepsInv(s, LockRow(x, w));
    hide Inv, Execute;
  }

  lemma {:induction false} AloneLocksRows(s: Fine, db: Committed, x: TxId, kind: Kind, ws: seq<WorkerId>)
    requires AloneAt(s, db, x, kind, UpdateRows) && kind.Sweeping?
    ensures var s' := LockRows(s, x, ws);
      && AloneAt(s', db, x, kind, UpdateRows)
      && (forall v :: Holds(s, x, kind, v) ==> Holds(s', x, kind, v))
      && (forall w :: w in ws ==> Holds(s', x, kind, w))
    decreases |ws|
  {
    hide AloneAt, Next, Holds;
    if ws != [] {
      AloneLocksRow(s, db, x, kind, ws[0]);
      AloneLocksRows(Next(s, LockRow(x, ws[0])), db, x, kind, ws[1..]);
      assert forall w :: w in ws <==> w == ws[0] || w in ws[1..];
    }
  }

  lemma SweepSteps(s: Fine, db: Committed, x: TxId, kind: Kind, at: Point)
    requires AloneAt(s, db, x, kind, at) && kind.Sweeping? && (at.UpdateRows? || at.UpdateTest?)
    requires at.UpdateRows? ==> forall w :: w in kind.offline ==> Holds(s, x, kind, w)
    ensures AloneAt(Next(s, Step(x)), db, x, kind, if at.UpdateRows? then UpdateTest else Commit)
  {
    NextKeepsInv(s, Step(x));
    hide Inv, AnyFailed;
  }

  /** So does a sweep, once it has locked the rows of the OFFLINE workers, in whatever order. */
  lemma SweepLeftAloneCommits(db: Committed, x: TxId, offline: set<WorkerId>, ws: seq<WorkerId>)
    requires forall w :: w in offline ==> w in ws
    ensures var s := Steps(LockRows(Next(Quiet(db), Begin(x, Sweeping(offline))), x, ws), x, 3);
      s.db == Atomic(db, Sweeping(offline)) && s.txs == map[]
  {
    var kind := Sweeping(offline);
    AloneBegins(db, x, kind);
    var s0 := Next(Quiet(db), Begin(x, kind));
    hide AloneAt, Next, Atomic, Holds;
    AloneLocksRows(s0, db, x, kind, ws);
    var s1 := LockRows(s0, x, ws);
    SweepSteps(s1, db, x, kind, UpdateRows);
    SweepSteps(Next(s1, Step(x)), db, x, kind, UpdateTest);
    AloneCommits(Next(Next(s1, Step(x)), Step(x)), db, x, kind);
    StepsOfThree(s1, x);
  }

  lemma StepsOfThree(s: Fine, x: TxId)
    ensures Steps(s, x, 3) == Next(Next(Next(s, Step(x)), Step(x)), Step(x))
  {
    hide Next;
    assert Steps(s, x, 3) == Steps(Next(s, Step(x)), x, 2);
    assert Steps(Next(s, Step(x)), x, 2) == Steps(Next(Next(s, Step(x)), Step(x)), x, 1);
  }

  // ---------------------------------------------------------------- without the lock

  function TwoRunning(): Committed {
    Committed(TestStatus.Running, map[0 := AssignmentStatus.Running, 1 := AssignmentStatus.Running])
  }

  function Unlocked(a: Tx, b: Tx): Fine { Fine(TwoRunning(), map[0 := a, 1 := b], false) }

  function Racing(w: WorkerId, at: Point): Tx {
    Tx(Completing(w), at, false,
       if at.UpdateRows? then map[] else map[w := AssignmentStatus.Completed], true, {})
  }

  /** Both completions write their own row, then both look for incomplete rows, then both commit. */
  lemma WithoutTheLockBothMissTheEnd()
    ensures Unfinished(TwoRunning())
    ensures var s0 := Unlocked(Racing(0, UpdateRows), Racing(1, UpdateRows));
      s0 == Next(Next(Fine(TwoRunning(), map[], false), Begin(0, Completing(0))), Begin(1, Completing(1)))
    ensures var s0 := Unlocked(Racing(0, UpdateRows), Racing(1, UpdateRows));
      var s1 := Next(Next(s0, Step(0)), Step(1));
      var s2 := Next(Next(s1, Step(0)), Step(1));
      var s3 := Next(Next(s2, Step(0)), Step(1));
      var s4 := Next(Next(s3, Step(0)), Step(1));
      !Unfinished(s4.db)
  {
    var s0 := Unlocked(Racing(0, UpdateRows), Racing(1, UpdateRows));
    assert TwoRunning().rows[0].Running?;
    RaceUpdates(s0);
    var s1 := Next(Next(s0, Step(0)), Step(1));
    RaceChecks(s1);
    var s2 := Next(Next(s1, Step(0)), Step(1));
    var s3 := Next(Next(s2, Step(0)), Step(1));
    assert s3 == Unlocked(Racing(0, Commit), Racing(1, Commit));
    RaceCommits(s3);
  }

  lemma RaceUpdates(s: Fine)
    requires s == Unlocked(Racing(0, UpdateRows), Racing(1, UpdateRows))
    ensures Next(Next(s, Step(0)), Step(1)) == Unlocked(Racing(0, CheckRows), Racing(1, CheckRows))
  {
    assert Next(s, Step(0)) == Unlocked(Racing(0, CheckRows), Racing(1, UpdateRows));
  }

  lemma RaceChecks(s: Fine)
    requires s == Unlocked(Racing(0, CheckRows), Racing(1, CheckRows))
    ensures Next(Next(s, Step(0)), Step(1)) == Unlocked(Racing(0, UpdateTest), Racing(1, UpdateTest))
  {
    var a, b := Sees(s.db, s.txs[0]), Sees(s.db, s.txs[1]);
    assert 1 in a && a[1].Running? && 0 in b && b[0].Running?;
    assert Next(s, Step(0)) == Unlocked(Racing(0, UpdateTest), Racing(1, CheckRows));
  }

  lemma RaceCommits(s: Fine)
    requires s == Unlocked(Racing(0, Commit), Racing(1, Commit))
    ensures !Unfinished(Next(Next(s, Step(0)), Step(1)).db)
  {
    var s1 := Next(s, Step(0));
    assert s1.txs == map[1 := Racing(1, Commit)];
    assert s1.db.rows == map[0 := AssignmentStatus.Completed, 1 := AssignmentStatus.Running];
  }

  // ---------------------------------------------------------------- the same transactions on the tables

  /** One test of the tables as the statements above see it. */
  ghost function Project(db: Tables, t: TestId): Committed
    requires t in db.tests
  {
    Committed(db.tests[t].status, map w | w in Transactions.Assigned(db, t) :: db.assignments[(t, w)].status)
  }

  ghost function OrSame(db: Tables, r: Result<Tables>): Tables { if r.Ok? then r.value else db }

  lemma RowWriteProjects(db: Tables, t: TestId, w: WorkerId, st: AssignmentStatus)
    requires t in db.tests && (t, w) in db.assignments
    ensures Project(Transactions.WithRowStatus(db, t, w, st), t) == Project(db, t).(rows := Project(db, t).rows[w := st])
  {
    assert Project(Transactions.WithRowStatus(db, t, w, st), t).rows == Project(db, t).rows[w := st];
  }

  lemma SameProjection(db: Tables, db': Tables, t: TestId)
    requires t in db.tests && t in db'.tests && db'.assignments == db.assignments
    ensures Project(db', t).rows == Project(db, t).rows
  {
    assert Transactions.Assigned(db', t) == Transactions.Assigned(db, t);
  }

  lemma CompletionProjects(db: Tables, t: TestId, w: WorkerId)
    requires t in db.tests
    ensures Project(OrSame(db, Transactions.MarkAssignmentCompleted(db, t, w)), t) == Atomic(Project(db, t), Completing(w))
  {
    if Transactions.RowIs(db, t, w, AssignmentStatus.Running) {
      var db1 := Transactions.WithRowStatus(db, t, w, AssignmentStatus.Completed);
      RowWriteProjects(db, t, w, AssignmentStatus.Completed);
      assert AllDone(Project(db1, t).rows) <==> Transactions.AllCompleted(db1, t) by {
        assert forall v :: (t, v) in db1.assignments <==> v in Project(db1, t).rows;
      }
      SameProjection(db1, Transactions.MarkAssignmentCompleted(db, t, w).value, t);
    }
  }

  lemma FailureProjects(db: Tables, t: TestId, w: WorkerId)
    requires t in db.tests
    ensures Project(OrSame(db, Transactions.MarkAssignmentFailed(db, t, w)), t) == Atomic(Project(db, t), Failing(w))
  {
    if Transactions.LiveRow(db, t, w) {
      RowWriteProjects(db, t, w, AssignmentStatus.Failed);
      SameProjection(Transactions.WithRowStatus(db, t, w, AssignmentStatus.Failed), Transactions.MarkAssignmentFailed(db, t, w).value, t);
    }
  }

  lemma StartProjects(db: Tables, t: TestId, w: WorkerId)
    requires t in db.tests
    ensures Project(OrSame(db, Transactions.MarkAssignmentRunning(db, t, w)), t) == Atomic(Project(db, t), Kind.Starting(w))
  {
    if Transactions.RowIs(db, t, w, AssignmentStatus.Reserved) {
      RowWriteProjects(db, t, w, AssignmentStatus.Running);
      SameProjection(Transactions.WithRowStatus(db, t, w, AssignmentStatus.Running), Transactions.MarkAssignmentRunning(db, t, w).value, t);
    }
  }

  /** The single-step transactions of module Transactions, projected to the reported test, are the
      atomic transactions above. */
  lemma ReportsProject(db: Tables, t: TestId, w: WorkerId)
    requires t in db.tests
    ensures Project(OrSame(db, Transactions.MarkAssignmentCompleted(db, t, w)), t) == Atomic(Project(db, t), Completing(w))
    ensures Project(OrSame(db, Transactions.MarkAssignmentFailed(db, t, w)), t) == Atomic(Project(db, t), Failing(w))
    ensures Project(OrSame(db, Transactions.MarkAssignmentRunning(db, t, w)), t) == Atomic(Project(db, t), Kind.Starting(w))
  {
    hide *;
    CompletionProjects(db, t, w);
    FailureProjects(db, t, w);
    StartProjects(db, t, w);
  }

  lemma ProjectedFailures(db: Tables, t: TestId)
    requires t in db.tests
    ensures AnyFailed(Project(db, t).rows) <==> Transactions.HasFailedRow(db, t)
  {
    var rows := Project(db, t).rows;
    if AnyFailed(rows) {
      var w :| w in rows && rows[w].Failed?;
      assert Transactions.RowIs(db, t, w, AssignmentStatus.Failed);
    }
    if Transactions.HasFailedRow(db, t) {
      var w :| Transactions.RowIs(db, t, w, AssignmentStatus.Failed);
      assert w in rows && rows[w].Failed?;
    }
  }

  lemma SweepProjects(db: Tables, t: TestId)
    requires t in db.tests
    ensures var offline := set w | w in Transactions.Assigned(db, t) && Transactions.WorkerIs(db, w, WorkerStatus.Offline);
      Project(Transactions.MarkAssignmentsFailedForOfflineWorkers(db), t) == Atomic(Project(db, t), Sweeping(offline))
  {
    var offline := set w | w in Transactions.Assigned(db, t) && Transactions.WorkerIs(db, w, WorkerStatus.Offline);
    var db1 := Transactions.FailRowsOfOfflineWorkers(db);
    var rows := Project(db1, t).rows;
    assert rows == Atomic(Project(db, t), Sweeping(offline)).rows;
    ProjectedFailures(db1, t);
    hide AnyFailed, Transactions.HasFailedRow;
    assert Project(Transactions.FailRunningTests(db1), t).rows == rows;
  }
}
