/** Healing, withdrawal and termination: what sweeps, drains and reports achieve over whole runs. */
module ProgressTheorems {
  import opened Domain
  import opened Sums
  import opened LoadShare
  import opened Transactions
  import opened Lifecycle
  import opened LifecycleTheorems

  // ---------------------------------------------------------------- healing

  /** No OFFLINE worker holds a live row, and no RUNNING test has a FAILED one. */
  ghost predicate Healed(db: Tables) {
    && (forall t, w :: WorkerIs(db, w, WorkerStatus.Offline) ==> !LiveRow(db, t, w))
    && (forall t :: HasStatus(db, t, TestStatus.Running) ==> !HasFailedRow(db, t))
  }

  /** A sweep heals the tables, whatever state it finds. */
  lemma SweepHeals(s: State)
    ensures Healed(Next(s, SweepOffline).db)
  {
    var db1 := FailRowsOfOfflineWorkers(s.db);
    var db2 := FailRunningTests(db1);
    forall t | HasStatus(db2, t, TestStatus.Running) ensures !HasFailedRow(db2, t) {
      if HasFailedRow(db2, t) {
        var w :| RowIs(db2, t, w, AssignmentStatus.Failed);
        assert RowIs(db1, t, w, AssignmentStatus.Failed);
      }
    }
  }

  // ---------------------------------------------------------------- withdrawal

  ghost predicate Withdrawn(db: Tables, w: WorkerId) {
    WorkerIs(db, w, WorkerStatus.Draining) || WorkerIs(db, w, WorkerStatus.Offline)
  }

  /** The worker stays out of the fleet, OFFLINE stays OFFLINE, and no row for it appears or revives. */
  ghost predicate StaysOut(db: Tables, db': Tables, w: WorkerId) {
    && Withdrawn(db', w)
    && (WorkerIs(db, w, WorkerStatus.Offline) ==> WorkerIs(db', w, WorkerStatus.Offline))
    && (forall t :: (t, w) in db'.assignments ==> (t, w) in db.assignments)
    && (forall t :: LiveRow(db', t, w) ==> LiveRow(db, t, w))
  }

  lemma WithdrawnStep(s: State, e: Event, w: WorkerId)
    requires Withdrawn(s.db, w)
    ensures StaysOut(s.db, Next(s, e).db, w)
  {
    if e.Advance? && e.c in s.calls {
      hide Next;
      AdvanceIs(s, e.c, e.ok, e.picked);
      WithdrawnCallStep(s.db, s.capacity, s.calls[e.c], e.ok, e.picked, w);
    }
  }

  lemma WithdrawnCallStep(db: Tables, capacity: int, call: Call, ok: bool, picked: seq<WorkerId>, w: WorkerId)
    requires Withdrawn(db, w)
    ensures StaysOut(db, CallStep(db, capacity, call, ok, picked).0, w)
  {
    if call.StartCall? && call.at.Ready? && CallStep(db, capacity, call, ok, picked).1.at.Allocated? {
      InsertRowsEffect(db.assignments, call.test, picked, Shares(call.rps, call.required));
      assert w !in picked by {
        assert !WorkerIs(db, w, WorkerStatus.Idle);
      }
    }
  }

  lemma StaysOutCompose(a: Tables, b: Tables, c: Tables, w: WorkerId)
    requires StaysOut(a, b, w) && StaysOut(b, c, w)
    ensures StaysOut(a, c, w)
  {
  }

  lemma {:induction false} WithdrawnRun(s: State, more: seq<Event>, w: WorkerId)
    requires Withdrawn(s.db, w)
    ensures StaysOut(s.db, Run(s, more).db, w)
    decreases |more|
  {
    hide Next;
    if more != [] {
      var mid := Run(s, more[..|more| - 1]);
      WithdrawnRun(s, more[..|more| - 1], w);
      WithdrawnStep(mid, more[|more| - 1], w);
      StaysOutCompose(s.db, mid.db, Next(mid, more[|more| - 1]).db, w);
    }
  }

  /** Withdrawal is permanent: a DRAINING worker can only become OFFLINE, an OFFLINE one changes no
      more, and neither is ever reserved again. */
  lemma WithdrawalIsPermanent(capacity: int, es: seq<Event>, more: seq<Event>, w: WorkerId)
    ensures var db, db' := After(capacity, es).db, After(capacity, es + more).db;
            Withdrawn(db, w) ==> StaysOut(db, db', w)
  {
    RunConcat(Init(capacity), es, more);
    if Withdrawn(After(capacity, es).db, w) {
      WithdrawnRun(After(capacity, es), more, w);
    }
  }

  /** Every id a drain returns is withdrawn for good: from the drain on it gets no further row. */
  lemma DrainedNeverReserved(capacity: int, es: seq<Event>, ids: set<WorkerId>, more: seq<Event>, w: WorkerId)
    ensures var db, db' := After(capacity, es).db, After(capacity, es + [Drain(ids)] + more).db;
            w in Removable(db, ids) ==>
              Withdrawn(db', w) && forall t :: (t, w) in db'.assignments ==> (t, w) in db.assignments
  {
    var s := After(capacity, es);
    hide Run;
    assert After(capacity, es + [Drain(ids)]) == Next(s, Drain(ids)) by {
      AfterOneMore(capacity, es, Drain(ids));
    }
    WithdrawalIsPermanent(capacity, es + [Drain(ids)], more, w);
  }

  lemma AfterOneMore(capacity: int, es: seq<Event>, e: Event)
    ensures After(capacity, es + [e]) == Next(After(capacity, es), e)
  {
    hide Next;
    assert (es + [e])[..|es|] == es;
  }

  /** Once a sweep has run while a worker is OFFLINE, it never again holds a live assignment. */
  lemma SweptWorkerHoldsNothing(capacity: int, es: seq<Event>, more: seq<Event>, t: TestId, w: WorkerId)
    ensures var db, db' := After(capacity, es).db, After(capacity, es + [SweepOffline] + more).db;
            WorkerIs(db, w, WorkerStatus.Offline) ==> WorkerIs(db', w, WorkerStatus.Offline) && !LiveRow(db', t, w)
  {
    var s := After(capacity, es);
    hide Run;
    AfterOneMore(capacity, es, SweepOffline);
    WithdrawalIsPermanent(capacity, es + [SweepOffline], more, w);
  }

  /** One cycle of the health reconciler, mark then sweep, with anything in between: the tables are
      healed, and every worker whose heartbeat was stale at the mark is OFFLINE and holds no live row
      (internal/reconciler/worker_reconciler.go). */
  lemma HealthCycleHeals(s: State, cutoff: int, between: seq<Event>, w: WorkerId)
    ensures var db := Next(Run(Next(s, MarkOffline(cutoff)), between), SweepOffline).db;
      && Healed(db)
      && (w in s.db.workers && s.db.workers[w].lastHeartbeat < cutoff ==>
            WorkerIs(db, w, WorkerStatus.Offline) && forall t :: !LiveRow(db, t, w))
  {
    var s1 := Next(s, MarkOffline(cutoff));
    assert w in s.db.workers && s.db.workers[w].lastHeartbeat < cutoff ==> WorkerIs(s1.db, w, WorkerStatus.Offline);
    hide Next;
    if w in s.db.workers && s.db.workers[w].lastHeartbeat < cutoff {
      WithdrawnRun(s1, between, w);
      WithdrawnStep(Run(s1, between), SweepOffline, w);
    }
    SweepHeals(Run(s1, between));
  }

  // ---------------------------------------------------------------- termination of assignments

  function Weight(st: AssignmentStatus): nat {
    if st.Reserved? then 2 else if st.Running? then 1 else 0
  }

  ghost function WeightTable(db: Tables, t: TestId): (m: map<WorkerId, int>)
    ensures m.Keys == Assigned(db, t)
  {
    map w | w in Assigned(db, t) :: Weight(db.assignments[(t, w)].status)
  }

  /** Twice the RESERVED rows plus the RUNNING ones. */
  ghost function Potential(db: Tables, t: TestId): int { MapSum(WeightTable(db, t)) }

  /** The step changes the status of some row of test t. */
  ghost predicate Effective(db: Tables, db': Tables, t: TestId) {
    exists w :: (t, w) in db.assignments && (t, w) in db'.assignments
      && db'.assignments[(t, w)].status != db.assignments[(t, w)].status
  }

  /** Any successful transition of a row uses up potential, whoever reports it. */
  lemma EffectiveStepsUsePotential(db: Tables, db': Tables, t: TestId)
    requires t in db.tests && Assigned(db, t) != {} && Continues(db, db', t)
    ensures Assigned(db', t) == Assigned(db, t)
    ensures Potential(db', t) <= Potential(db, t)
    ensures Effective(db, db', t) ==> Potential(db', t) < Potential(db, t)
  {
    assert ShareTable(db', t).Keys == ShareTable(db, t).Keys;
    var m, m' := WeightTable(db, t), WeightTable(db', t);
    assert forall w :: w in m ==> m'[w] <= m[w] by {
      assert RowsKept(db, db', t);
    }
    MapSumMonotone(m, m');
    if Effective(db, db', t) {
      var w :| (t, w) in db.assignments && (t, w) in db'.assignments
        && db'.assignments[(t, w)].status != db.assignments[(t, w)].status;
      assert w in m && m'[w] < m[w];
    }
  }

  /** How many steps of a run change the status of a row of test t. */
  ghost function Transitions(s: State, es: seq<Event>, t: TestId): nat
    decreases |es|
  {
    if es == [] then 0
    else
      var before := Run(s, es[..|es| - 1]);
      Transitions(s, es[..|es| - 1], t) + (if Effective(before.db, Next(before, es[|es| - 1]).db, t) then 1 else 0)
  }

  lemma TransitionStep(s: State, e: Event, t: TestId, used: nat)
    requires Inv(s) && used + Potential(s.db, t) <= 2 * |Assigned(s.db, t)|
    ensures var n := used + (if Effective(s.db, Next(s, e).db, t) then 1 else 0);
            n + Potential(Next(s, e).db, t) <= 2 * |Assigned(Next(s, e).db, t)|
  {
    hide Next, TestsOk, CallsOk, SingleClaim;
    if Assigned(s.db, t) == {} {
      assert WeightTable(s.db, t) == map[];
      MapSumAtMostDouble(WeightTable(Next(s, e).db, t));
      assert forall w :: (t, w) !in s.db.assignments;
    } else {
      var w :| w in Assigned(s.db, t);
      assert t in s.db.tests;
      StepContinues(s, e, t);
      EffectiveStepsUsePotential(s.db, Next(s, e).db, t);
    }
  }

  lemma NoPotentialInitially(t: TestId)
    ensures Potential(EmptyTables, t) == 0
  {
    assert WeightTable(EmptyTables, t) == map[];
  }

  lemma {:induction false} TransitionsUsePotential(capacity: int, es: seq<Event>, t: TestId)
    ensures var db := After(capacity, es).db;
            Transitions(Init(capacity), es, t) + Potential(db, t) <= 2 * |Assigned(db, t)|
    decreases |es|
  {
    hide Inv, Next, Effective, Potential;
    if es == [] {
      NoPotentialInitially(t);
    } else {
      var n := |es| - 1;
      TransitionsUsePotential(capacity, es[..n], t);
      AfterInv(capacity, es[..n]);
      TransitionStep(After(capacity, es[..n]), es[n], t, Transitions(Init(capacity), es[..n], t));
    }
  }

  /** Over any whole run a test sees at most two row transitions for each worker its rate requires. */
  lemma TransitionsAreBounded(capacity: int, es: seq<Event>, t: TestId)
    ensures var db := After(capacity, es).db;
            t in db.tests && db.tests[t].rps > 0 && capacity > 0 ==>
              Transitions(Init(capacity), es, t) <= 2 * Required(db.tests[t].rps, capacity)
  {
    hide Inv, Next, Run;
    TransitionsUsePotential(capacity, es, t);
    AllocationIsAllOrNothing(capacity, es, t);
    MapSumAtMostDouble(WeightTable(After(capacity, es).db, t));
  }

  /** Reports are idempotent: repeating a start, completion or failure report changes nothing, and
      neither does any report on a row that is already COMPLETED or FAILED. */
  lemma LateReportsChangeNothing(s: State, e: Event)
    requires e.StartAssignment? || e.CompleteAssignment? || e.FailAssignment?
    ensures Next(Next(s, e), e) == Next(s, e)
    ensures !LiveRow(s.db, e.t, e.w) ==> Next(s, e) == s
  {
    var s1 := Next(s, e);
    assert s1 != s ==> RowIs(s1.db, e.t, e.w,
      if e.StartAssignment? then AssignmentStatus.Running
      else if e.CompleteAssignment? then AssignmentStatus.Completed
      else AssignmentStatus.Failed);
  }
}
