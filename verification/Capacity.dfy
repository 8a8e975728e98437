/** The demand sums of the autoscaler (internal/autoscaler/capacity.go), and their agreement with the
    allocations the scheduler has made, in every state the control plane can reach. */
module Capacity {
  import opened Domain
  import opened Sums
  import opened LoadShare
  import opened Transactions
  import opened Lifecycle
  import opened LifecycleTheorems

  /** Which tests a sum counts: the active ones, or those created and not yet started. */
  datatype Which = Active | Pending

  predicate IsActiveTest(st: TestStatus) { st.Starting? || st.Running? }

  predicate CountsFor(which: Which, st: TestStatus) {
    match which
    case Active => IsActiveTest(st)
    case Pending => st.Created?
  }

  /** What one test adds to the sum. */
  function Need(which: Which, test: Test, capacity: int): nat {
    if CountsFor(which, test.status) && test.rps > 0 && capacity > 0 then Required(test.rps, capacity) else 0
  }

  function Needs(which: Which, rows: seq<Test>, capacity: int): (s: seq<int>)
    ensures |s| == |rows|
  {
    seq(|rows|, i requires 0 <= i < |rows| => Need(which, rows[i], capacity))
  }

  /** RequiredWorkers accepts every counted test. */
  ghost predicate Countable(which: Which, rows: seq<Test>, capacity: int) {
    forall i :: 0 <= i < |rows| && CountsFor(which, rows[i].status) ==> rows[i].rps > 0 && capacity > 0
  }

  lemma NeedsPrefix(which: Which, rows: seq<Test>, capacity: int, i: nat)
    requires i < |rows|
    ensures SeqSum(Needs(which, rows, capacity)[..i + 1])
         == SeqSum(Needs(which, rows, capacity)[..i]) + Need(which, rows[i], capacity)
  {
    var s := Needs(which, rows, capacity);
    assert s[..i + 1][..i] == s[..i];
  }

  method DesiredCapacity(rows: seq<Test>, capacity: int) returns (r: Result<int>)
    ensures r.Ok? <==> Countable(Active, rows, capacity)
    ensures r == if r.Ok? then Ok(SeqSum(Needs(Active, rows, capacity))) else Err(ErrValidation)
  {
    var desired := 0;
    for i := 0 to |rows|
      invariant desired == SeqSum(Needs(Active, rows, capacity)[..i])
      invariant Countable(Active, rows[..i], capacity)
    {
      NeedsPrefix(Active, rows, capacity, i);
      if !IsActiveTest(rows[i].status) {
        continue;
      }
      var required := RequiredWorkers(rows[i].rps, capacity);
      if required.Err? {
        return Err(ErrValidation);
      }
      desired := desired + required.value;
    }
    assert rows[..|rows|] == rows && Needs(Active, rows, capacity)[..|rows|] == Needs(Active, rows, capacity);
    r := Ok(desired);
  }

  method PendingCapacity(rows: seq<Test>, capacity: int) returns (r: Result<int>)
    ensures r.Ok? <==> Countable(Pending, rows, capacity)
    ensures r == if r.Ok? then Ok(SeqSum(Needs(Pending, rows, capacity))) else Err(ErrValidation)
  {
    var pending := 0;
    for i := 0 to |rows|
      invariant pending == SeqSum(Needs(Pending, rows, capacity)[..i])
      invariant Countable(Pending, rows[..i], capacity)
    {
      NeedsPrefix(Pending, rows, capacity, i);
      if rows[i].status != TestStatus.Created {
        continue;
      }
      var required := RequiredWorkers(rows[i].rps, capacity);
      if required.Err? {
        return Err(ErrValidation);
      }
      pending := pending + required.value;
    }
    assert rows[..|rows|] == rows && Needs(Pending, rows, capacity)[..|rows|] == Needs(Pending, rows, capacity);
    r := Ok(pending);
  }

  // ---------------------------------------------------------------- the sums do not depend on the row order

  ghost function NeedOfEach(which: Which, tests: map<TestId, Test>, capacity: int): map<TestId, int> {
    map t | t in tests :: Need(which, tests[t], capacity)
  }

  ghost function Demand(which: Which, tests: map<TestId, Test>, capacity: int): int {
    MapSum(NeedOfEach(which, tests, capacity))
  }

  /** The rows list the table: every test once. */
  ghost predicate RowsOfTable(tests: map<TestId, Test>, ids: seq<TestId>, rows: seq<Test>) {
    && Distinct(ids) && |ids| == |rows|
    && (forall t :: t in tests <==> t in ids)
    && (forall i :: 0 <= i < |ids| ==> tests[ids[i]] == rows[i])
  }

  lemma RowsSumToDemand(which: Which, tests: map<TestId, Test>, ids: seq<TestId>, rows: seq<Test>, capacity: int)
    requires RowsOfTable(tests, ids, rows)
    ensures SeqSum(Needs(which, rows, capacity)) == Demand(which, tests, capacity)
  {
    MapSumEnumerated(NeedOfEach(which, tests, capacity), ids, Needs(which, rows, capacity));
  }

  // ---------------------------------------------------------------- demand is allocation

  /** The rows a RUNNING test has, and the workers a STARTING test is about to get. */
  ghost function Commitment(db: Tables, t: TestId, capacity: int): int
    requires t in db.tests
  {
    if db.tests[t].status.Running? then |Assigned(db, t)|
    else if db.tests[t].status.Starting? && db.tests[t].rps > 0 && capacity > 0 then Required(db.tests[t].rps, capacity)
    else 0
  }

  ghost function Commitments(db: Tables, capacity: int): map<TestId, int> {
    map t | t in db.tests :: Commitment(db, t, capacity)
  }

  /** The rows some worker may still execute, of tests the demand counts. */
  ghost function LiveRowsOfActiveTests(db: Tables): (s: set<(TestId, WorkerId)>)
    ensures forall k :: k in s <==> k in db.assignments && db.assignments[k].status.Live() && k.0 in db.tests && IsActiveTest(db.tests[k.0].status)
  {
    set k | k in db.assignments && db.assignments[k].status.Live() && k.0 in db.tests && IsActiveTest(db.tests[k.0].status)
  }

  lemma CommitmentIsNeed(db: Tables, t: TestId, capacity: int)
    requires t in db.tests && TestOk(db, capacity, t)
    ensures Commitment(db, t, capacity) == Need(Active, db.tests[t], capacity)
    ensures IsActiveTest(db.tests[t].status) ==> |Assigned(db, t)| <= Commitment(db, t, capacity)
  {
    if Assigned(db, t) != {} {
      assert |ShareTable(db, t)| == |ShareTable(db, t).Keys|;
    }
  }

  function Column(s: set<(TestId, WorkerId)>, t: TestId): set<(TestId, WorkerId)> {
    set k | k in s && k.0 == t
  }

  lemma {:induction false} SubsetIsSmaller<T>(a: set<T>, b: set<T>)
    requires a <= b
    ensures |a| <= |b|
  {
    if a != {} {
      var x :| x in a;
      SubsetIsSmaller(a - {x}, b - {x});
    }
  }

  lemma {:induction false} ColumnIsSmall(s: set<(TestId, WorkerId)>, t: TestId, ws: set<WorkerId>)
    requires forall k :: k in s ==> k.0 == t && k.1 in ws
    ensures |s| <= |ws|
  {
    if s != {} {
      var k :| k in s;
      ColumnIsSmall(s - {k}, t, ws - {k.1});
    }
  }

  /** A set of rows is no larger than bounds on its columns together. */
  lemma {:induction false} ColumnsBound(s: set<(TestId, WorkerId)>, m: map<TestId, int>)
    requires forall k :: k in s ==> k.0 in m
    requires forall t :: t in m ==> |Column(s, t)| <= m[t]
    ensures |s| <= MapSum(m)
    decreases |m|
  {
    if m == map[] {
      assert s == {};
    } else {
      var t :| t in m;
      var rest := s - Column(s, t);
      forall u | u in m - {t} ensures |Column(rest, u)| <= m[u] {
        assert Column(rest, u) == Column(s, u);
      }
      ColumnsBound(rest, m - {t});
      MapSumRemove(m, t);
      assert s == rest + Column(s, t);
    }
  }

  lemma LiveRowsBound(db: Tables, capacity: int)
    requires TestsOk(db, capacity)
    ensures |LiveRowsOfActiveTests(db)| <= MapSum(Commitments(db, capacity))
  {
    var s := LiveRowsOfActiveTests(db);
    forall t | t in db.tests ensures |Column(s, t)| <= Commitment(db, t, capacity) {
      assert TestOk(db, capacity, t);
      CommitmentIsNeed(db, t, capacity);
      if IsActiveTest(db.tests[t].status) {
        ColumnIsSmall(Column(s, t), t, Assigned(db, t));
      } else {
        assert Column(s, t) == {};
      }
    }
    ColumnsBound(s, Commitments(db, capacity));
  }

  lemma CommitmentsAreNeeds(db: Tables, capacity: int)
    requires TestsOk(db, capacity)
    ensures MapSum(Commitments(db, capacity)) == Demand(Active, db.tests, capacity)
  {
    forall t | t in db.tests ensures Commitment(db, t, capacity) == Need(Active, db.tests[t], capacity) {
      assert TestOk(db, capacity, t);
      CommitmentIsNeed(db, t, capacity);
    }
    hide Commitment, Need;
    assert Commitments(db, capacity) == NeedOfEach(Active, db.tests, capacity);
  }

  lemma RowsAreCountable(db: Tables, capacity: int, which: Which, ids: seq<TestId>, rows: seq<Test>)
    requires TestsOk(db, capacity) && RowsOfTable(db.tests, ids, rows)
    ensures Countable(which, rows, capacity)
  {
    forall i | 0 <= i < |rows| ensures rows[i].rps > 0 && capacity > 0 {
      assert ids[i] in db.tests && TestOk(db, capacity, ids[i]);
    }
  }

  /** In every reachable state the active demand is the rows of the RUNNING tests plus what the
      STARTING tests require, it covers every row still being executed for them, and neither sum can
      fail, however the rows are listed. */
  lemma DemandAgreesWithAllocations(capacity: int, es: seq<Event>, ids: seq<TestId>, rows: seq<Test>)
    requires RowsOfTable(After(capacity, es).db.tests, ids, rows)
    ensures var db := After(capacity, es).db;
      && Countable(Active, rows, capacity) && Countable(Pending, rows, capacity)
      && SeqSum(Needs(Active, rows, capacity)) == MapSum(Commitments(db, capacity))
      && |LiveRowsOfActiveTests(db)| <= SeqSum(Needs(Active, rows, capacity))
  {
    AfterInv(capacity, es);
    var s := After(capacity, es);
    AllTestsSound(s);
    hide *;
    RowsAreCountable(s.db, capacity, Active, ids, rows);
    RowsAreCountable(s.db, capacity, Pending, ids, rows);
    RowsSumToDemand(Active, s.db.tests, ids, rows, capacity);
    CommitmentsAreNeeds(s.db, capacity);
    LiveRowsBound(s.db, capacity);
  }

  lemma AllTestsSound(s: State)
    requires Inv(s)
    ensures TestsOk(s.db, s.capacity)
  {
  }

  /** A CREATED test counts for the pending demand with exactly the workers it gets if it is ever given
      any, and no other test counts for it. */
  lemma PendingNeedIsTheAllocation(capacity: int, es: seq<Event>, more: seq<Event>, t: TestId)
    ensures var db, db' := After(capacity, es).db, After(capacity, es + more).db;
      && (HasStatus(db, t, TestStatus.Created) ==>
            Assigned(db, t) == {} && (Assigned(db', t) != {} ==> |Assigned(db', t)| == Need(Pending, db.tests[t], capacity)))
      && (t in db.tests && !HasStatus(db, t, TestStatus.Created) ==> Need(Pending, db.tests[t], capacity) == 0)
  {
    hide Inv, Next, Run;
    AfterInv(capacity, es);
    RunConcat(Init(capacity), es, more);
    AllocationIsAllOrNothing(capacity, es, t);
    AllocationIsAllOrNothing(capacity, es + more, t);
    var s := After(capacity, es);
    if t in s.db.tests {
      RunContinues(s, more, t);
      var db' := After(capacity, es + more).db;
      assert |ShareTable(db', t)| == |ShareTable(db', t).Keys|;
    }
  }
}
