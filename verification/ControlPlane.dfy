/** TestService as it runs: StartTest, StopTest and ensureWorkersAvailable in the source's own order,
    with any other activity of the control plane between two of their repository calls
    (internal/service/test_service.go). `calls` holds the program counters of the calls in progress;
    each method is proved to be a run of the state machine of module Lifecycle. */
module ControlPlane {
  import opened Domain
  import opened LoadShare
  import opened Transactions
  import opened Repository
  import opened Lifecycle
  import opened LifecycleTheorems
  import opened TransactionEffects
  import opened StatusTheorems

  predicate ValidRequest(name: string, url: string, httpMethod: string, durationSec: int, rps: int, concurrency: int) {
    name != "" && url != "" && httpMethod in {"GET", "POST"} && durationSec > 0 && rps > 0 && concurrency > 0
  }

  /** No event of the schedule takes a step of call c, which is the caller's own. */
  predicate LeavesAlone(es: seq<Event>, c: CallId) {
    forall i :: 0 <= i < |es| ==> !(es[i].Advance? && es[i].c == c)
  }

  lemma StepKeepsOtherCall(s: State, e: Event, c: CallId)
    requires c in s.calls && !(e.Advance? && e.c == c)
    ensures c in Next(s, e).calls && Next(s, e).calls[c] == s.calls[c]
  {
  }

  lemma {:induction false} RunKeepsOtherCall(s: State, es: seq<Event>, c: CallId)
    requires c in s.calls && LeavesAlone(es, c)
    ensures c in Run(s, es).calls && Run(s, es).calls[c] == s.calls[c]
    decreases |es|
  {
    hide Next;
    if es != [] {
      RunKeepsOtherCall(s, es[..|es| - 1], c);
      StepKeepsOtherCall(Run(s, es[..|es| - 1]), es[|es| - 1], c);
    }
  }

  /** The reservation of a call that is Ready goes through. */
  ghost predicate CanReserve(db: Tables, call: Call, picked: seq<WorkerId>) {
    && call.StartCall? && call.rps > 0 && call.required > 0 && |picked| == call.required
    && call.test in db.tests && Assigned(db, call.test) == {}
  }

  ghost function IdleWorkers(db: Tables): (ws: set<WorkerId>)
    ensures forall w :: w in ws <==> WorkerIs(db, w, WorkerStatus.Idle)
  {
    set w | w in db.workers && db.workers[w].status.Idle?
  }

  /** What the surroundings do to one StartTest: which of its repository calls fail, which workers
      other transactions hold locked, what each poll of the fleet finds changed, and what others do
      between its calls. */
  datatype StartEnv = StartEnv(
    claimOk: bool, countOk: bool, reconcileOk: bool, reserveOk: bool, writeOk: bool, undoOk: bool,
    locked: set<WorkerId>, polls: seq<seq<Event>>,
    afterLoad: seq<Event>, afterClaim: seq<Event>, afterCount: seq<Event>, afterReady: seq<Event>,
    afterAllocation: seq<Event>, beforeUndo: seq<Event>)

  predicate EnvLeavesAlone(env: StartEnv, c: CallId) {
    && (forall i :: 0 <= i < |env.polls| ==> LeavesAlone(env.polls[i], c))
    && LeavesAlone(env.afterLoad, c) && LeavesAlone(env.afterClaim, c) && LeavesAlone(env.afterCount, c)
    && LeavesAlone(env.afterReady, c) && LeavesAlone(env.afterAllocation, c) && LeavesAlone(env.beforeUndo, c)
  }

  /** Nothing fails and nobody interferes. */
  predicate Smooth(env: StartEnv) {
    && env.claimOk && env.countOk && env.reconcileOk && env.reserveOk && env.writeOk && env.locked == {}
    && env.afterLoad == [] && env.afterClaim == [] && env.afterCount == [] && env.afterReady == [] && env.afterAllocation == []
  }

  /** Nobody interferes; what fails, fails, except the undo. */
  predicate Undisturbed(env: StartEnv) {
    && env.undoOk && (forall i :: 0 <= i < |env.polls| ==> env.polls[i] == [])
    && env.afterLoad == [] && env.afterClaim == [] && env.afterCount == [] && env.afterReady == []
    && env.afterAllocation == [] && env.beforeUndo == []
  }

  /** The test's status is what it was. */
  ghost predicate SameStatus(db: Tables, db': Tables, t: TestId) {
    t in db.tests ==> t in db'.tests && db'.tests[t].status == db.tests[t].status
  }

  /** The test is CREATED and the fleet has the workers it requires. */
  ghost predicate ReadyToStart(s: State, call: Call) {
    && call.StartCall? && HasStatus(s.db, call.test, TestStatus.Created) && Assigned(s.db, call.test) == {}
    && call.rps > 0 && s.capacity > 0 && |IdleWorkers(s.db)| >= Required(call.rps, s.capacity)
  }

  ghost predicate EnoughIdle(s: State, t: TestId) {
    && HasStatus(s.db, t, TestStatus.Created) && s.db.tests[t].rps > 0 && s.capacity > 0
    && |IdleWorkers(s.db)| >= Required(s.db.tests[t].rps, s.capacity)
  }

  ghost predicate SameWorkers(db: Tables, db': Tables) {
    db'.workers == db.workers && db'.assignments == db.assignments && db'.tests.Keys == db.tests.Keys
  }

  lemma ReservedRows(db: Tables, t: TestId, picked: seq<WorkerId>, shares: seq<int>)
    requires IsSelection(db, |picked|, picked) && Assigned(db, t) == {}
    requires ReserveWorkersForTest(db, t, |picked|, shares, picked).Ok?
    ensures Assigned(ReserveWorkersForTest(db, t, |picked|, shares, picked).value, t) == set w | w in picked
  {
    InsertRowsEffect(db.assignments, t, picked, shares);
    assert forall w :: (t, w) !in db.assignments;
  }

  /** Another program counter of the same StartTest call. */
  predicate SameCall(a: Call, b: Call) {
    a.StartCall? && b.StartCall? && a.test == b.test && a.rps == b.rps
  }

  lemma RunOfNothing(s: State)
    ensures Run(s, []) == s
  {
  }

  lemma ExtendRun(s0: State, trace: seq<Event>, s1: State, more: seq<Event>, s2: State)
    requires s1 == Run(s0, trace) && s2 == Run(s1, more)
    ensures s2 == Run(s0, trace + more)
  {
    RunConcat(s0, trace, more);
  }

  lemma ExtendStep(s0: State, trace: seq<Event>, s1: State, e: Event, s2: State)
    requires s1 == Run(s0, trace) && s2 == Next(s1, e)
    ensures s2 == Run(s0, trace + [e])
  {
    hide Next;
    assert (trace + [e])[..|trace|] == trace;
  }

  function Ids(reserved: seq<ReservedWorker>): set<WorkerId> { set r | r in reserved :: r.id }

  lemma ReadyCallFacts(s: State, c: CallId)
    requires Inv(s) && c in s.calls && s.calls[c].StartCall? && s.calls[c].at.Ready?
    ensures CanReserve(s.db, s.calls[c], seq(s.calls[c].required, i => 0)) && Assigned(s.db, s.calls[c].test) == {}
    ensures s.calls[c].required > 0
  {
    CallIsOk(s, c);
    hide Inv, TestOk, ShareTable;
  }

  lemma ReadyCallTest(s: State, c: CallId)
    requires Inv(s) && c in s.calls
    ensures s.calls[c].test in s.db.tests
    ensures s.calls[c].StartCall? && s.calls[c].at.Allocated? ==> Assigned(s.db, s.calls[c].test) != {}
  {
    CallIsOk(s, c);
  }

  lemma SameShareKeys(db: Tables, db': Tables, t: TestId)
    requires t in db.tests && Continues(db, db', t) && Assigned(db, t) != {}
    ensures Assigned(db', t) == Assigned(db, t)
  {
    assert ShareTable(db', t).Keys == ShareTable(db, t).Keys;
  }

  lemma OneStepRun(s: State, e: Event)
    ensures Run(s, [e]) == Next(s, e)
  {
    hide Next;
    assert [e][..0] == [];
  }

  lemma NothingBegun(s: State, c: CallId, t: TestId)
    requires t !in s.db.tests
    ensures Next(s, BeginStart(c, t)) == s
  {
  }

  lemma BegunCall(s: State, c: CallId, t: TestId)
    requires t in s.db.tests && c !in s.calls
    ensures var s' := Next(s, BeginStart(c, t));
      && s'.db == s.db && c in s'.calls && s'.calls[c] == StartCall(t, s.db.tests[t].rps, 0, Loaded)
  {
  }

  lemma TestFacts(s: State, t: TestId)
    requires Inv(s) && t in s.db.tests
    ensures s.db.tests[t].rps > 0 && s.capacity > 0
    ensures s.db.tests[t].status.Created? ==> Assigned(s.db, t) == {}
  {
    assert TestOk(s.db, s.capacity, t);
  }

  lemma CreatedHasNoRows(s: State, t: TestId)
    requires Inv(s)
    ensures HasStatus(s.db, t, TestStatus.Created) ==> Assigned(s.db, t) == {}
  {
    if HasStatus(s.db, t, TestStatus.Created) {
      TestFacts(s, t);
    }
  }

  lemma BegunStop(s: State, c: CallId, t: TestId)
    requires c !in s.calls
    ensures var s' := Next(s, BeginStop(c, t));
      && s'.db == s.db
      && (t in s.db.tests ==>
            c in s'.calls && s'.calls[c] == StopCall(t, s.db.tests[t].status, if Closed(s.db.tests[t].status) then Done else Seen))
  {
  }

  lemma TestStays(s: State, e: Event, t: TestId)
    requires t in s.db.tests
    ensures t in Next(s, e).db.tests
  {
    if e.Advance? && e.c in s.calls {
      AdvanceIs(s, e.c, e.ok, e.picked);
      CallStepKeepsTests(s.db, s.capacity, s.calls[e.c], e.ok, e.picked);
      hide Next, CallStep;
    } else {
      hide CallStep;
    }
  }

  lemma {:induction false} TestsStay(s: State, es: seq<Event>, t: TestId)
    requires t in s.db.tests
    ensures t in Run(s, es).db.tests
    decreases |es|
  {
    hide Next;
    if es != [] {
      TestsStay(s, es[..|es| - 1], t);
      TestStays(Run(s, es[..|es| - 1]), es[|es| - 1], t);
    }
  }

  lemma SameFleetFreed(a: Tables, b: Tables, c: Tables, t: TestId)
    ensures SameRows(a, b) && b.workers == a.workers && FreedBy(b, c, t) ==> FreedBy(a, c, t)
  {
  }

  lemma FreedThenUnchanged(a: Tables, b: Tables, c: Tables, t: TestId)
    ensures SameRows(b, c) && c.workers == b.workers && FreedBy(a, b, t) ==> FreedBy(a, c, t)
    ensures SameRows(b, c) && c.workers == b.workers && HoldsNobody(b, t) ==> HoldsNobody(c, t)
  {
  }

  class TestService {
    const capacity: int
    const db: Database
    var calls: map<CallId, Call>

    ghost function S(): State
      reads this, db
    {
      State(db.View(), calls, capacity)
    }

    constructor (capacity: int)
      ensures S() == Init(capacity) && fresh(db)
    {
      this.capacity := capacity;
      db := new Database();
      calls := map[];
    }

    // -------------------------------------------------------------- CreateTest

    /** The service validates, sizes the test and inserts it as CREATED. */
    method CreateTest(t: TestId, name: string, url: string, httpMethod: string, durationSec: int, rps: int, concurrency: int)
      returns (r: Result<()>)
      modifies this, db
      ensures r.Ok? ==> S() == Next(old(S()), Event.CreateTest(t, rps)) && HasStatus(db.View(), t, TestStatus.Created)
      ensures r.Err? ==> S() == old(S())
      ensures r.Ok? <==> ValidRequest(name, url, httpMethod, durationSec, rps, concurrency) && capacity > 0 && t !in old(db.tests)
    {
      if name == "" || url == "" {
        return Err(ErrValidation);
      }
      if httpMethod !in {"GET", "POST"} || durationSec <= 0 || rps <= 0 || concurrency <= 0 {
        return Err(ErrValidation);
      }
      var n := RequiredWorkers(rps, capacity);
      if n.Err? {
        return Err(n.error);
      }
      r := db.CreateTest(t, Test(TestStatus.Created, rps, n.value));
    }

    // -------------------------------------------------------------- the repository calls of StartTest

    /** GetTestByID of a StartTest call. */
    method LoadForStart(c: CallId, t: TestId) returns (r: Result<Test>)
      modifies `calls
      ensures S() == Next(old(S()), BeginStart(c, t))
      ensures r.Ok? <==> t in db.tests
      ensures r.Ok? ==> r.value == db.tests[t]
    {
      if t !in db.tests {
        return Err(ErrTestNotFound);
      }
      if c !in calls {
        calls := calls[c := StartCall(t, db.tests[t].rps, 0, Loaded)];
      }
      r := Ok(db.tests[t]);
    }

    /** CREATED -> STARTING. */
    method Claim(c: CallId, ok: bool) returns (r: Result<bool>)
      requires c in calls && calls[c].StartCall? && calls[c].at.Loaded?
      modifies this, db
      ensures S() == Next(old(S()), Advance(c, ok, []))
      ensures c in calls && SameCall(calls[c], old(calls[c])) && (r == Ok(true) <==> calls[c].at.Claimed?)
      ensures !(r == Ok(true)) ==> calls[c].at.Refused?
      ensures ok ==> r == Ok(HasStatus(old(db.View()), old(calls[c]).test, TestStatus.Created))
      ensures SameWorkers(old(db.View()), db.View())
      ensures if r == Ok(true) then HasStatus(db.View(), calls[c].test, TestStatus.Starting) else db.View() == old(db.View())
    {
      var call := calls[c];
      if !ok {
        calls := calls[c := call.(at := Refused)];
        return Err(ErrStorage);
      }
      var changed := db.TryTransitionStatus(call.test, TestStatus.Created, TestStatus.Starting);
      calls := calls[c := call.(at := if changed then Claimed else Refused)];
      r := Ok(changed);
    }

    /** RequiredWorkers and UpdateWorkerCount. */
    method Count(c: CallId, ok: bool) returns (r: Result<int>)
      requires c in calls && calls[c].StartCall? && calls[c].at.Claimed?
      modifies this, db
      ensures S() == Next(old(S()), Advance(c, ok, []))
      ensures c in calls && SameCall(calls[c], old(calls[c])) && (if r.Ok? then calls[c].at.Counted? && calls[c].required == r.value else calls[c].at.RollingBack?)
      ensures ok && old(calls[c]).test in old(db.tests) ==> r == RequiredWorkers(old(calls[c]).rps, capacity)
      ensures SameWorkers(old(db.View()), db.View()) && SameStatus(old(db.View()), db.View(), calls[c].test)
    {
      var call := calls[c];
      var n := RequiredWorkers(call.rps, capacity);
      if n.Err? || !ok {
        calls := calls[c := call.(at := RollingBack)];
        return Err(if n.Err? then n.error else ErrStorage);
      }
      var u := db.UpdateWorkerCount(call.test, n.value);
      if u.Err? {
        calls := calls[c := call.(at := RollingBack)];
        return Err(u.error);
      }
      calls := calls[c := call.(at := Counted, required := n.value)];
      r := n;
    }

    /** The end of ensureWorkersAvailable. */
    method NoteReady(c: CallId, ok: bool)
      requires c in calls && calls[c].StartCall? && calls[c].at.Counted?
      modifies `calls
      ensures S() == Next(old(S()), Advance(c, ok, []))
      ensures c in calls && SameCall(calls[c], old(calls[c])) && calls[c].required == old(calls[c]).required
      ensures calls[c].at == if ok then Ready else RollingBack
    {
      calls := calls[c := calls[c].(at := if ok then Ready else RollingBack)];
    }

    /** DistributeRPS and AllocateWorkers. */
    method Allocate(c: CallId, ok: bool, picked: seq<WorkerId>) returns (r: Result<seq<ReservedWorker>>)
      requires c in calls && calls[c].StartCall? && calls[c].at.Ready?
      requires IsSelection(db.View(), calls[c].required, picked)
      modifies this, db
      ensures S() == Next(old(S()), Advance(c, ok, picked))
      ensures c in calls && SameCall(calls[c], old(calls[c])) && calls[c].at == if r.Ok? then Allocated else RollingBack
      ensures r.Ok? ==> |r.value| == |picked| && forall i :: 0 <= i < |picked| ==> r.value[i].id == picked[i]
      ensures ok && CanReserve(old(db.View()), old(calls[c]), picked) ==> r.Ok?
      ensures r.Err? ==> db.View() == old(db.View())
      ensures r.Ok? && Assigned(old(db.View()), calls[c].test) == {} ==> Assigned(db.View(), calls[c].test) == set w | w in picked
    {
      var call := calls[c];
      ghost var before := db.View();
      var shares := DistributeRPS(call.rps, call.required);
      if shares.Err? {
        calls := calls[c := call.(at := RollingBack)];
        return Err(shares.error);
      }
      r := db.ReserveWorkersForTest(call.test, call.required, shares.value[..], picked, ok);
      calls := calls[c := call.(at := if r.Ok? then Allocated else RollingBack)];
      if r.Ok? && Assigned(before, call.test) == {} {
        ReservedRows(before, call.test, picked, shares.value[..]);
      }
    }

    /** The unconditional RUNNING write. */
    method WriteRunning(c: CallId, ok: bool) returns (r: Result<()>)
      requires c in calls && calls[c].StartCall? && calls[c].at.Allocated?
      modifies this, db
      ensures S() == Next(old(S()), Advance(c, ok, []))
      ensures c in calls && SameCall(calls[c], old(calls[c])) && calls[c].at == if r.Ok? then Won else Stranded
      ensures ok && old(calls[c]).test in old(db.tests) ==> r.Ok?
      ensures r.Ok? ==> HasStatus(db.View(), calls[c].test, TestStatus.Running)
    {
      var call := calls[c];
      if !ok {
        calls := calls[c := call.(at := Stranded)];
        return Err(ErrStorage);
      }
      r := db.UpdateStatus(call.test, TestStatus.Running);
      calls := calls[c := call.(at := if r.Ok? then Won else Stranded)];
    }

    /** STARTING -> CREATED, its outcome ignored. */
    method RollBack(c: CallId, ok: bool)
      requires c in calls && calls[c].StartCall? && calls[c].at.RollingBack?
      modifies this, db
      ensures S() == Next(old(S()), Advance(c, ok, []))
      ensures c in calls && SameCall(calls[c], old(calls[c])) && calls[c].at.Refused?
      ensures ok ==> !HasStatus(db.View(), calls[c].test, TestStatus.Starting)
      ensures ok && HasStatus(old(db.View()), calls[c].test, TestStatus.Starting) ==> HasStatus(db.View(), calls[c].test, TestStatus.Created)
    {
      var call := calls[c];
      if ok {
        var _ := db.TryTransitionStatus(call.test, TestStatus.Starting, TestStatus.Created);
      }
      calls := calls[c := call.(at := Refused)];
    }

    // -------------------------------------------------------------- the repository calls of StopTest

    method LoadForStop(c: CallId, t: TestId) returns (r: Result<TestStatus>)
      modifies `calls
      ensures S() == Next(old(S()), BeginStop(c, t))
      ensures r.Ok? <==> t in db.tests
      ensures r == if t in db.tests then Ok(db.tests[t].status) else Err(ErrTestNotFound)
    {
      if t !in db.tests {
        return Err(ErrTestNotFound);
      }
      var st := db.tests[t].status;
      if c !in calls {
        calls := calls[c := StopCall(t, st, if Closed(st) then Done else Seen)];
      }
      r := Ok(st);
    }

    /** One repository call of a stop: mark STOPPING, release the workers, write STOPPED. */
    method StopOnce(c: CallId, ok: bool) returns (r: Result<()>)
      requires c in calls && calls[c].StopCall? && !calls[c].next.Done? && !calls[c].next.Aborted?
      modifies this, db
      ensures S() == Next(old(S()), Advance(c, ok, []))
      ensures c in calls && calls[c].StopCall? && calls[c].test == old(calls[c].test)
      ensures r.Err? <==> calls[c].next.Aborted?
      ensures r.Ok? ==> calls[c].next == match old(calls[c].next) case Seen => Marked case Marked => Freed case _ => Done
      ensures r.Ok? && calls[c].next.Done? ==> HasStatus(db.View(), calls[c].test, TestStatus.Stopped)
      ensures db.View().tests.Keys == old(db.View()).tests.Keys
      ensures ok && calls[c].test in db.tests ==> r.Ok?
      ensures r.Ok? && old(calls[c].next).Marked? ==> FreedBy(old(db.View()), db.View(), calls[c].test) && HoldsNobody(db.View(), calls[c].test)
      ensures r.Ok? && !old(calls[c].next).Marked? ==> SameRows(old(db.View()), db.View()) && db.workers == old(db.workers)
    {
      var call := calls[c];
      if !ok {
        calls := calls[c := call.(next := Aborted)];
        return Err(ErrStorage);
      }
      match call.next {
        case Seen =>
          var _ := db.TryTransitionStatus(call.test, call.seen, TestStatus.Stopping);
          calls := calls[c := call.(next := Marked)];
          r := Ok(());
        case Marked =>
          ReleaseFreesWorkers(db.View(), call.test);
          r := db.ReleaseWorkersForTest(call.test, true);
          calls := calls[c := call.(next := Freed)];
        case Freed =>
          r := db.UpdateStatus(call.test, TestStatus.Stopped);
          calls := calls[c := call.(next := if r.Ok? then Done else Aborted)];
      }
    }

    // -------------------------------------------------------------- everything else that may happen

    /** Checks a proposed answer of the locking SELECT. */
    method IsSelectionNow(n: int, picked: seq<WorkerId>) returns (ok: bool)
      ensures ok <==> IsSelection(db.View(), n, picked)
    {
      ok := |picked| <= n
        && (forall i, j | 0 <= i < j < |picked| :: picked[i] != picked[j])
        && (forall i | 0 <= i < |picked| :: picked[i] in db.workers && db.workers[picked[i]].status.Idle?);
      if ok {
        forall w | w in picked ensures WorkerIs(db.View(), w, WorkerStatus.Idle) {
          var i :| 0 <= i < |picked| && picked[i] == w;
        }
      } else if IsSelection(db.View(), n, picked) {
        assert forall i :: 0 <= i < |picked| ==> WorkerIs(db.View(), picked[i], WorkerStatus.Idle);
      }
    }

    /** One repository call of some call in progress. */
    method AdvanceCall(c: CallId, ok: bool, picked: seq<WorkerId>)
      modifies this, db
      ensures S() == Next(old(S()), Advance(c, ok, picked))
    {
      if c in calls {
        var call := calls[c];
        if call.StopCall? {
          if !call.next.Done? && !call.next.Aborted? {
            var _ := StopOnce(c, ok);
          } else {
            calls := calls[c := call];
          }
        } else {
          match call.at {
            case Loaded => var _ := Claim(c, ok);
            case Claimed => var _ := Count(c, ok);
            case Counted => NoteReady(c, ok);
            case Ready =>
              var valid := IsSelectionNow(call.required, picked);
              if valid {
                var _ := Allocate(c, ok, picked);
              } else {
                calls := calls[c := call];
              }
            case Allocated => var _ := WriteRunning(c, ok);
            case RollingBack => RollBack(c, ok);
            case _ => calls := calls[c := call];
          }
        }
      }
    }

    /** Any single event of the control plane. */
    method Perform(e: Event)
      modifies this, db
      ensures S() == Next(old(S()), e)
    {
      match e {
        case CreateTest(t, rps) =>
          var n := RequiredWorkers(rps, capacity);
          if n.Ok? {
            var _ := db.CreateTest(t, Test(TestStatus.Created, rps, n.value));
          }
        case RegisterWorker(w, hostname, now) => var _ := db.CreateWorker(w, Worker(hostname, WorkerStatus.Idle, now));
        case Heartbeat(w, reported, now) =>
          if !reported.Offline? {
            var _ := db.UpdateHeartbeat(w, reported, now);
          }
        case MarkOffline(cutoff) => db.MarkOfflineWorkers(cutoff);
        case SweepOffline => var _ := db.MarkAssignmentsFailedForOfflineWorkers(true);
        case Drain(ids) => DrainSet(ids);
        case StartAssignment(t, w) => var _ := db.MarkAssignmentRunning(t, w, true);
        case CompleteAssignment(t, w) => var _ := db.MarkAssignmentCompleted(t, w, true);
        case FailAssignment(t, w) => var _ := db.MarkAssignmentFailed(t, w, true);
        case BeginStart(c, t) => var _ := LoadForStart(c, t);
        case BeginStop(c, t) => var _ := LoadForStop(c, t);
        case Advance(c, ok, picked) => AdvanceCall(c, ok, picked);
      }
    }

    method DrainSet(ids: set<WorkerId>)
      modifies db
      ensures db.View() == TerminateIdleWorkers(old(db.View()), ids)
    {
      var order: seq<WorkerId> := [];
      var left := ids;
      while left != {}
        invariant left <= ids && (forall w :: w in order <==> w in ids - left)
      {
        var w :| w in left;
        order := order + [w];
        left := left - {w};
      }
      assert (set w | w in order) == ids;
      var _ := db.TerminateIdleWorkers(order, true);
    }

    /** Whatever others do in the meantime. */
    method Others(es: seq<Event>)
      modifies this, db
      ensures S() == Run(old(S()), es)
    {
      for i := 0 to |es|
        invariant S() == Run(old(S()), es[..i])
      {
        assert es[..i + 1][..i] == es[..i];
        Perform(es[i]);
      }
      assert es[..|es|] == es;
    }

    // -------------------------------------------------------------- ensureWorkersAvailable

    method CountIdle() returns (idle: nat)
      ensures idle == |IdleWorkers(db.View())|
    {
      idle := 0;
      var left := db.workers.Keys;
      while left != {}
        invariant left <= db.workers.Keys
        invariant idle == |IdleAmong(db.workers, db.workers.Keys - left)|
      {
        var w :| w in left;
        IdleAmongOneMore(db.workers, db.workers.Keys - left, w);
        assert db.workers.Keys - left + {w} == db.workers.Keys - (left - {w});
        left := left - {w};
        if db.workers[w].status == WorkerStatus.Idle {
          idle := idle + 1;
        }
      }
      assert IdleAmong(db.workers, db.workers.Keys - {}) == IdleWorkers(db.View());
    }

    /** Counts the IDLE workers and, when they do not suffice, asks the reconciler for more and polls
        the fleet until they do or the waiting time is over. */
    method EnsureWorkersAvailable(ghost c: CallId, required: int, reconcileOk: bool, polls: seq<seq<Event>>)
      returns (r: Result<()>, ghost trace: seq<Event>)
      requires forall i :: 0 <= i < |polls| ==> LeavesAlone(polls[i], c)
      modifies this, db
      ensures S() == Run(old(S()), trace) && LeavesAlone(trace, c)
      ensures r.Ok? ==> |IdleWorkers(db.View())| >= required
      ensures |IdleWorkers(old(db.View()))| >= required ==> r.Ok? && trace == []
      ensures (forall i :: 0 <= i < |polls| ==> polls[i] == []) ==> S() == old(S())
    {
      trace := [];
      var idle := CountIdle();
      var missing := required - idle;
      if missing <= 0 {
        return Ok(()), trace;
      }
      if !reconcileOk {
        return Err(ErrStorage), trace;
      }
      for i := 0 to |polls|
        invariant S() == Run(old(S()), trace) && LeavesAlone(trace, c)
        invariant (forall j :: 0 <= j < |polls| ==> polls[j] == []) ==> S() == old(S())
      {
        ghost var before := S();
        Others(polls[i]);
        RunOfNothing(before);
        ExtendRun(old(S()), trace, before, polls[i], S());
        trace := trace + polls[i];
        idle := CountIdle();
        if idle >= required {
          return Ok(()), trace;
        }
      }
      r := Err(ErrStorage);
    }

    /** The locking SELECT: up to n IDLE workers, passing over those another transaction holds. */
    method SelectIdle(n: int, locked: set<WorkerId>) returns (picked: seq<WorkerId>)
      ensures n >= 0 ==> IsSelection(db.View(), n, picked)
      ensures 0 <= n <= |IdleWorkers(db.View()) - locked| ==> |picked| == n
    {
      picked := [];
      var left := (set w | w in db.workers && db.workers[w].status.Idle?) - locked;
      ghost var total := IdleWorkers(db.View()) - locked;
      assert left == total;
      while |picked| < n && left != {}
        invariant left <= total && |left| + |picked| == |total|
        invariant Distinct(picked) && (forall w :: w in picked ==> w in total && w !in left)
        invariant n >= 0 ==> |picked| <= n
        decreases |left|
      {
        var w :| w in left;
        picked := picked + [w];
        left := left - {w};
      }
    }

    // -------------------------------------------------------------- StartTest

    /** Others act, and the caller's own call is as it was. */
    method Interlude(ghost c: CallId, es: seq<Event>, ghost s0: State, ghost trace: seq<Event>) returns (ghost trace': seq<Event>)
      requires c in calls && LeavesAlone(es, c) && S() == Run(s0, trace)
      modifies this, db
      ensures S() == Run(s0, trace') && S() == Run(old(S()), es)
      ensures c in calls && calls[c] == old(calls[c])
      ensures es == [] ==> S() == old(S())
    {
      Others(es);
      RunKeepsOtherCall(old(S()), es, c);
      ExtendRun(s0, trace, old(S()), es, S());
      trace' := trace + es;
    }

    /** The rollback path of StartTest. */
    method Undo(c: CallId, env: StartEnv, ghost s0: State, ghost trace: seq<Event>) returns (ghost trace': seq<Event>)
      requires c in calls && calls[c].StartCall? && calls[c].at.RollingBack? && LeavesAlone(env.beforeUndo, c) && S() == Run(s0, trace)
      modifies this, db
      ensures S() == Run(s0, trace')
      ensures c in calls && SameCall(calls[c], old(calls[c])) && calls[c].at.Refused?
      ensures env.undoOk ==> !HasStatus(db.View(), calls[c].test, TestStatus.Starting)
      ensures Undisturbed(env) && HasStatus(old(db.View()), old(calls[c]).test, TestStatus.Starting) ==>
        HasStatus(db.View(), calls[c].test, TestStatus.Created)
    {
      hide Next, Run, Claims;
      trace' := Interlude(c, env.beforeUndo, s0, trace);
      ghost var before := S();
      RollBack(c, env.undoOk);
      ExtendStep(s0, trace', before, Advance(c, env.undoOk, []), S());
      trace' := trace' + [Advance(c, env.undoOk, [])];
    }

    /** The claim, after whatever others did since the test was loaded. */
    method TryClaim(c: CallId, env: StartEnv, ghost s0: State, ghost trace: seq<Event>) returns (r: Result<bool>, ghost trace': seq<Event>)
      requires c in calls && calls[c].StartCall? && calls[c].at.Loaded? && LeavesAlone(env.afterLoad, c) && S() == Run(s0, trace)
      modifies this, db
      ensures S() == Run(s0, trace') && c in calls && SameCall(calls[c], old(calls[c]))
      ensures calls[c].at == if r == Ok(true) then Claimed else Refused
      ensures r == Ok(true) ==> HasStatus(db.View(), calls[c].test, TestStatus.Starting)
      ensures r != Ok(true) && Undisturbed(env) ==> db.View() == old(db.View())
      ensures Smooth(env) ==> r == Ok(HasStatus(old(db.View()), old(calls[c]).test, TestStatus.Created)) && SameWorkers(old(db.View()), db.View())
    {
      hide Next, Run, Claims;
      trace' := Interlude(c, env.afterLoad, s0, trace);
      ghost var s1 := S();
      r := Claim(c, env.claimOk);
      ExtendStep(s0, trace', s1, Advance(c, env.claimOk, []), S());
      trace' := trace' + [Advance(c, env.claimOk, [])];
    }

    /** The worker count. */
    method TryCount(c: CallId, env: StartEnv, ghost s0: State, ghost trace: seq<Event>) returns (r: Result<int>, ghost trace': seq<Event>)
      requires c in calls && calls[c].StartCall? && calls[c].at.Claimed? && LeavesAlone(env.afterClaim, c) && S() == Run(s0, trace)
      modifies this, db
      ensures S() == Run(s0, trace') && c in calls && SameCall(calls[c], old(calls[c]))
      ensures if r.Ok? then calls[c].at.Counted? && calls[c].required == r.value else calls[c].at.RollingBack?
      ensures Smooth(env) && old(calls[c]).test in old(db.tests) ==>
        r == RequiredWorkers(old(calls[c]).rps, capacity) && SameWorkers(old(db.View()), db.View())
      ensures Undisturbed(env) ==> SameStatus(old(db.View()), db.View(), calls[c].test)
    {
      hide Next, Run, Claims;
      trace' := Interlude(c, env.afterClaim, s0, trace);
      ghost var s1 := S();
      r := Count(c, env.countOk);
      ExtendStep(s0, trace', s1, Advance(c, env.countOk, []), S());
      trace' := trace' + [Advance(c, env.countOk, [])];
    }

    /** The wait for workers. */
    method TryEnsure(c: CallId, env: StartEnv, required: int, ghost s0: State, ghost trace: seq<Event>) returns (r: Result<()>, ghost trace': seq<Event>)
      requires c in calls && calls[c].StartCall? && calls[c].at.Counted? && EnvLeavesAlone(env, c) && S() == Run(s0, trace)
      modifies this, db
      ensures S() == Run(s0, trace') && c in calls && SameCall(calls[c], old(calls[c])) && calls[c].required == old(calls[c]).required
      ensures calls[c].at == if r.Ok? then Ready else RollingBack
      ensures Smooth(env) && |IdleWorkers(old(db.View()))| >= required ==> r.Ok? && db.View() == old(db.View())
      ensures Undisturbed(env) ==> db.View() == old(db.View())
    {
      hide Next, Run, Claims;
      trace' := Interlude(c, env.afterCount, s0, trace);
      ghost var s1 := S();
      ghost var waited;
      r, waited := EnsureWorkersAvailable(c, required, env.reconcileOk, env.polls);
      RunKeepsOtherCall(s1, waited, c);
      ExtendRun(s0, trace', s1, waited, S());
      trace' := trace' + waited;
      RunOfNothing(s1);
      ghost var s2 := S();
      NoteReady(c, r.Ok?);
      ExtendStep(s0, trace', s2, Advance(c, r.Ok?, []), S());
      trace' := trace' + [Advance(c, r.Ok?, [])];
    }

    /** StartTest up to enough IDLE workers. */
    method PrepareStart(c: CallId, env: StartEnv, ghost s0: State, ghost trace: seq<Event>)
      returns (r: Result<int>, ghost trace': seq<Event>)
      requires c in calls && calls[c].StartCall? && calls[c].at.Loaded? && EnvLeavesAlone(env, c) && S() == Run(s0, trace)
      modifies this, db
      ensures S() == Run(s0, trace') && c in calls && SameCall(calls[c], old(calls[c]))
      ensures calls[c].at == if r.Ok? then Ready else Refused
      ensures r.Ok? ==> calls[c].required == r.value
      ensures Smooth(env) && ReadyToStart(old(S()), old(calls[c])) ==>
        r == RequiredWorkers(old(calls[c]).rps, capacity) && SameWorkers(old(db.View()), db.View())
      ensures Undisturbed(env) && HasStatus(old(db.View()), calls[c].test, TestStatus.Created) ==>
        HasStatus(db.View(), calls[c].test, if r.Ok? then TestStatus.Starting else TestStatus.Created)
    {
      hide Next, Run, Claims;
      var claimed;
      claimed, trace' := TryClaim(c, env, s0, trace);
      if claimed != Ok(true) {
        return Err(if claimed.Err? then claimed.error else ErrInvalidTestState), trace';
      }
      var n;
      n, trace' := TryCount(c, env, s0, trace');
      if n.Err? {
        trace' := Undo(c, env, s0, trace');
        return n, trace';
      }
      ghost var counted := db.View();
      var available;
      available, trace' := TryEnsure(c, env, n.value, s0, trace');
      assert counted.workers == old(db.View()).workers ==> IdleWorkers(counted) == IdleWorkers(old(db.View()));
      if available.Err? {
        trace' := Undo(c, env, s0, trace');
        return Err(available.error), trace';
      }
      r := n;
    }

    /** The reservation. */
    method TryAllocate(c: CallId, env: StartEnv, ghost s0: State, ghost trace: seq<Event>)
      returns (r: Result<seq<ReservedWorker>>, ghost trace': seq<Event>)
      requires c in calls && calls[c].StartCall? && calls[c].at.Ready? && LeavesAlone(env.afterReady, c) && S() == Run(s0, trace)
      requires Inv(S())
      modifies this, db
      ensures S() == Run(s0, trace') && c in calls && SameCall(calls[c], old(calls[c])) && Inv(S())
      ensures calls[c].at == if r.Ok? then Allocated else RollingBack
      ensures r.Ok? ==> calls[c].test in db.tests && Assigned(db.View(), calls[c].test) == Ids(r.value) != {}
      ensures Smooth(env) && |IdleWorkers(old(db.View()))| >= old(calls[c]).required ==> r.Ok?
      ensures Undisturbed(env) && r.Err? ==> SameStatus(old(db.View()), db.View(), calls[c].test)
    {
      hide Next, Run, Inv, Claims, IsSelection;
      trace' := Interlude(c, env.afterReady, s0, trace);
      ghost var s1 := S();
      RunKeepsInv(old(S()), env.afterReady);
      ReadyCallFacts(s1, c);
      var picked := SelectIdle(calls[c].required, env.locked);
      r := Allocate(c, env.reserveOk, picked);
      ExtendStep(s0, trace', s1, Advance(c, env.reserveOk, picked), S());
      trace' := trace' + [Advance(c, env.reserveOk, picked)];
      NextKeepsInv(s1, Advance(c, env.reserveOk, picked));
      ReadyCallTest(S(), c);
      assert r.Ok? ==> Ids(r.value) == set w | w in picked;
    }

    /** The final write. */
    method TryFinish(c: CallId, env: StartEnv, ghost s0: State, ghost trace: seq<Event>) returns (r: Result<()>, ghost trace': seq<Event>)
      requires c in calls && calls[c].StartCall? && calls[c].at.Allocated? && LeavesAlone(env.afterAllocation, c) && S() == Run(s0, trace)
      requires Inv(S()) && calls[c].test in db.tests && Assigned(db.View(), calls[c].test) != {}
      modifies this, db
      ensures S() == Run(s0, trace') && c in calls && SameCall(calls[c], old(calls[c]))
      ensures calls[c].at == if r.Ok? then Won else Stranded
      ensures r.Ok? ==> HasStatus(db.View(), calls[c].test, TestStatus.Running)
      ensures Assigned(db.View(), calls[c].test) == old(Assigned(db.View(), calls[c].test))
      ensures Smooth(env) ==> r.Ok?
    {
      hide Next, Run, Inv, Claims;
      var t := calls[c].test;
      trace' := Interlude(c, env.afterAllocation, s0, trace);
      ghost var s1 := S();
      RunContinues(old(S()), env.afterAllocation, t);
      r := WriteRunning(c, env.writeOk);
      ExtendStep(s0, trace', s1, Advance(c, env.writeOk, []), S());
      trace' := trace' + [Advance(c, env.writeOk, [])];
      StepContinues(s1, Advance(c, env.writeOk, []), t);
      SameShareKeys(old(S()).db, s1.db, t);
      SameShareKeys(s1.db, S().db, t);
    }

    /** StartTest. On success the call is the one that won the test: the test is RUNNING and its rows
        are exactly those of the returned workers, whatever happened in between. On failure the call
        has written nothing but a claim it took back, or it is stranded after its allocation. */
    method StartTest(c: CallId, t: TestId, env: StartEnv) returns (r: Result<seq<ReservedWorker>>, ghost trace: seq<Event>)
      requires Inv(S()) && c !in calls && EnvLeavesAlone(env, c)
      modifies this, db
      ensures S() == Run(old(S()), trace) && Inv(S())
      ensures t !in old(db.tests) <==> c !in calls
      ensures r.Ok? ==> WonBy(S(), c, t) && HasStatus(db.View(), t, TestStatus.Running) && Assigned(db.View(), t) == Ids(r.value)
      ensures c in calls && r.Err? ==> calls[c].StartCall? && (calls[c].at.Refused? || calls[c].at.Stranded?)
      ensures Smooth(env) && EnoughIdle(old(S()), t) ==> r.Ok?
      ensures Undisturbed(env) && HasStatus(old(db.View()), t, TestStatus.Created) && c in calls && calls[c].at.Refused? ==>
        HasStatus(db.View(), t, TestStatus.Created) && Assigned(db.View(), t) == {}
    {
      hide Next, Run, Inv, Claims, FullAllocation;
      var loaded := LoadForStart(c, t);
      trace := [BeginStart(c, t)];
      OneStepRun(old(S()), BeginStart(c, t));
      RunKeepsInv(old(S()), trace);
      if loaded.Err? {
        NothingBegun(old(S()), c, t);
        return Err(loaded.error), trace;
      }
      BegunCall(old(S()), c, t);
      TestFacts(old(S()), t);
      var required;
      required, trace := PrepareStart(c, env, old(S()), trace);
      RunKeepsInv(old(S()), trace);
      if required.Err? {
        CreatedHasNoRows(S(), t);
        return Err(required.error), trace;
      }
      r, trace := TryAllocate(c, env, old(S()), trace);
      if r.Err? {
        trace := Undo(c, env, old(S()), trace);
        RunKeepsInv(old(S()), trace);
        CreatedHasNoRows(S(), t);
        return r, trace;
      }
      var written;
      written, trace := TryFinish(c, env, old(S()), trace);
      RunKeepsInv(old(S()), trace);
      if written.Err? {
        return Err(written.error), trace;
      }
    }

    // -------------------------------------------------------------- StopTest

    /** StopTest. When it returns without error the test is closed; `freed` tells whether it got as
        far as releasing the workers. */
    method StopTest(c: CallId, t: TestId, oks: seq<bool>, between: seq<seq<Event>>) returns (r: Result<()>, ghost trace: seq<Event>)
      requires c !in calls && |oks| == |between| == 3 && forall i :: 0 <= i < 3 ==> LeavesAlone(between[i], c)
      modifies this, db
      ensures S() == Run(old(S()), trace)
      ensures r.Ok? ==> t in db.tests && Closed(db.tests[t].status)
      ensures r.Ok? && t in old(db.tests) && !Closed(old(db.tests)[t].status) ==> HasStatus(db.View(), t, TestStatus.Stopped)
      ensures t !in old(db.tests) ==> r == Err(ErrTestNotFound)
      ensures r.Ok? && t in old(db.tests) && !Closed(old(db.tests)[t].status) && between[2] == [] ==> HoldsNobody(db.View(), t)
      ensures r.Ok? && t in old(db.tests) && !Closed(old(db.tests)[t].status) && between == [[], [], []] ==> FreedBy(old(db.View()), db.View(), t)
      ensures oks == [true, true, true] && t in old(db.tests) ==> r.Ok?
    {
      hide Next, Run, HoldsNobody, FreedBy;
      var st := LoadForStop(c, t);
      trace := [BeginStop(c, t)];
      OneStepRun(old(S()), BeginStop(c, t));
      BegunStop(old(S()), c, t);
      if st.Err? {
        return Err(st.error), trace;
      }
      if st.value.Stopped? || st.value.Completed? || st.value.Failed? {
        return Ok(()), trace;
      }
      ghost var before := db.View();
      for i := 0 to 3
        invariant S() == Run(old(S()), trace)
        invariant c in calls && calls[c].StopCall? && calls[c].test == t && t in db.tests
        invariant calls[c].next == [Seen, Marked, Freed, Done][i]
        invariant i == 3 ==> HasStatus(db.View(), t, TestStatus.Stopped)
        invariant (i == 3 && between[2] == []) || i == 2 ==> HoldsNobody(db.View(), t)
        invariant i < 2 && between[0] == [] && between[1] == [] ==> SameRows(before, db.View()) && db.workers == before.workers
        invariant i >= 2 && between == [[], [], []] ==> FreedBy(before, db.View(), t)
      {
        ghost var s0 := S();
        trace := Interlude(c, between[i], old(S()), trace);
        TestsStay(s0, between[i], t);
        ghost var s1 := S();
        r := StopOnce(c, oks[i]);
        ExtendStep(old(S()), trace, s1, Advance(c, oks[i], []), S());
        trace := trace + [Advance(c, oks[i], [])];
        if r.Err? {
          return r, trace;
        }
        SameFleetFreed(before, s1.db, db.View(), t);
        FreedThenUnchanged(before, s1.db, db.View(), t);
      }
      r := Ok(());
    }
  }

  function IdleAmong(workers: map<WorkerId, Worker>, s: set<WorkerId>): set<WorkerId> {
    set w | w in s && w in workers && workers[w].status.Idle?
  }

  lemma IdleAmongOneMore(workers: map<WorkerId, Worker>, s: set<WorkerId>, w: WorkerId)
    requires w in workers && w !in s
    ensures |IdleAmong(workers, s + {w})| == |IdleAmong(workers, s)| + (if workers[w].status.Idle? then 1 else 0)
  {
    if workers[w].status.Idle? {
      assert IdleAmong(workers, s + {w}) == IdleAmong(workers, s) + {w};
    } else {
      assert IdleAmong(workers, s + {w}) == IdleAmong(workers, s);
    }
  }
}
