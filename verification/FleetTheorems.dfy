/** What the autoscaler's cycles guarantee, whatever happens between reading the fleet and draining it:
    drain safety, the fixed point on a quiet fleet, and how far two cycles may ask for too much
    (internal/autoscaler/reconciler.go). */
module FleetTheorems {
  import opened Domain
  import opened Sums
  import opened LoadShare
  import opened Transactions
  import opened Lifecycle
  import opened LifecycleTheorems
  import opened ProgressTheorems
  import opened Capacity
  import opened Autoscaler

  // ---------------------------------------------------------------- who counts

  /** The workers that can do work, by their statuses. */
  ghost function AtWork(db: Tables): set<WorkerId> {
    set w | w in db.workers && (db.workers[w].status.Idle? || db.workers[w].status.Reserved? || db.workers[w].status.Running?)
  }

  /** The idle workers the autoscaler has created, by status and hostname. */
  ghost function IdleManaged(db: Tables): set<WorkerId> {
    set w | w in db.workers && db.workers[w].status.Idle? && "vulcan-auto-worker-" <= db.workers[w].hostname
  }

  ghost function Limited(n: int, limit: int): int { if n <= 0 then 0 else if n < limit then n else limit }

  /** The whole decision by statuses: below the target a cycle asks for exactly the missing workers and
      drains nobody; above it, it asks for nobody and takes idle managed workers, as many as are over. */
  lemma DecisionByStatuses(target: int, drains: bool, o: Outcome)
    requires Decision(target, drains, o)
    ensures var n := |AtWork(o.atRead)|;
      && (n < target ==> o.asked == target - n && o.candidates == {} && o.drained == [])
      && (n >= target ==> o.asked == 0)
      && o.candidates <= IdleManaged(o.atRead) && |o.candidates| == Limited(n - target, |IdleManaged(o.atRead)|)
  {
    assert AtWork(o.atRead) == Usable(o.atRead);
    assert IdleManaged(o.atRead) == Eligible(o.atRead);
    ElementsCount(o.drained);
    if o.candidates == {} {
      SubsetIsSmaller(Elements(o.drained), {});
    }
  }

  /** The table without the workers that are OFFLINE or DRAINING. */
  ghost function WithoutGone(db: Tables): Tables {
    db.(workers := map w | w in db.workers && !WorkerIs(db, w, WorkerStatus.Offline) && !WorkerIs(db, w, WorkerStatus.Draining) :: db.workers[w])
  }

  /** OFFLINE and DRAINING workers do not count: deleting their rows changes neither how many workers a
      cycle asks for nor how many it would drain. */
  lemma GoneWorkersDoNotCount(target: int, drains: bool, o: Outcome, drains': bool, o': Outcome)
    requires Decision(target, drains, o) && Decision(target, drains', o') && o'.atRead == WithoutGone(o.atRead)
    ensures o'.asked == o.asked && |o'.candidates| == |o.candidates|
  {
    DecisionByStatuses(target, drains, o);
    DecisionByStatuses(target, drains', o');
    assert AtWork(o'.atRead) == AtWork(o.atRead);
    assert IdleManaged(o'.atRead) == IdleManaged(o.atRead);
  }

  /** A worker that dies is replaced: marking one OFFLINE, at or below the target, raises the number of
      workers asked for by one. */
  lemma DeadWorkerIsReplaced(target: int, drains: bool, o: Outcome, drains': bool, o': Outcome, w: WorkerId)
    requires Decision(target, drains, o) && Decision(target, drains', o')
    requires w in AtWork(o.atRead) && o'.atRead == WithWorkerStatus(o.atRead, w, WorkerStatus.Offline)
    requires |AtWork(o.atRead)| <= target
    ensures o'.asked == o.asked + 1
  {
    DecisionByStatuses(target, drains, o);
    DecisionByStatuses(target, drains', o');
    assert AtWork(o'.atRead) == AtWork(o.atRead) - {w};
  }

  /** The target is the larger of the two demands. */
  lemma TargetCoversBothDemands(tests: map<TestId, Test>, capacity: int)
    ensures Target(tests, capacity) >= Demand(Active, tests, capacity) && Target(tests, capacity) >= Demand(Pending, tests, capacity)
    ensures Target(tests, capacity) == Demand(Active, tests, capacity) || Target(tests, capacity) == Demand(Pending, tests, capacity)
  {
    hide Demand;
  }

  /** The autoscaler's own workers are told from others by their hostnames. */
  lemma ManagedHostnames(suffix: string)
    ensures IsManaged("vulcan-auto-worker-" + suffix) && IsManaged("vulcan-auto-worker-1")
    ensures !IsManaged("worker-compose-1") && !IsManaged("vulcan-auto-worker") && !IsManaged("")
  {
    assert "worker-compose-1"[0] == 'w';
    assert |"vulcan-auto-worker"| < |"vulcan-auto-worker-"|;
  }

  // ---------------------------------------------------------------- drain safety

  lemma {:induction false} SubsetCount(a: set<WorkerId>, b: set<WorkerId>)
    ensures |a| >= |b| - |b - a|
    ensures a <= b ==> |a| <= |b|
  {
    SubsetIsSmaller(b * a, a);
    assert b == b * a + (b - a);
    if a <= b {
      SubsetIsSmaller(a, b);
    }
  }

  lemma DrainedWereIdle(o: Outcome, w: WorkerId)
    requires DrainedOf(true, o) || DrainedOf(false, o)
    requires w in o.drained
    ensures w in o.candidates && WorkerIs(o.atDrain, w, WorkerStatus.Idle)
  {
    assert w in Elements(o.drained);
  }

  lemma UsableAfterDrain(o: Outcome)
    requires DrainedOf(true, o) || DrainedOf(false, o)
    ensures Usable(AfterDrain(o)) == Usable(o.atDrain) - Elements(o.drained)
  {
    var left := Usable(AfterDrain(o));
    forall w | w in Elements(o.drained) ensures w !in left && w in Usable(o.atDrain) {
      DrainedWereIdle(o, w);
    }
  }

  /** A drain takes only managed workers that are IDLE at that moment, never more than the excess, and
      what it leaves falls short of the target by at most the workers that left the fleet between
      the read and the drain. */
  lemma DrainIsSafe(target: int, drains: bool, o: Outcome)
    requires Decision(target, drains, o)
    ensures forall w :: w in o.drained ==>
      WorkerIs(o.atDrain, w, WorkerStatus.Idle) && w in o.atRead.workers && IsManaged(o.atRead.workers[w].hostname)
    ensures |o.drained| <= Max(|Usable(o.atRead)| - target, 0)
    ensures o.drained != [] ==> |Usable(AfterDrain(o))| >= target - |Usable(o.atRead) - Usable(o.atDrain)|
  {
    forall w | w in o.drained ensures WorkerIs(o.atDrain, w, WorkerStatus.Idle) && w in Eligible(o.atRead) {
      DrainedWereIdle(o, w);
    }
    ElementsCount(o.drained);
    SubsetIsSmaller(Elements(o.drained), o.candidates);
    UsableAfterDrain(o);
    SubsetCount(Usable(o.atDrain), Usable(o.atRead));
    SubsetIsSmaller(Elements(o.drained), Usable(o.atDrain));
    assert Usable(o.atDrain) == Usable(AfterDrain(o)) + Elements(o.drained);
  }

  /** The events that take no worker out of the fleet. */
  predicate Benign(e: Event) {
    !e.MarkOffline? && !e.Drain? && (e.Heartbeat? ==> !e.reported.Draining?)
  }

  lemma BenignCallStep(db: Tables, capacity: int, call: Call, ok: bool, picked: seq<WorkerId>)
    ensures Usable(db) <= Usable(CallStep(db, capacity, call, ok, picked).0)
  {
  }

  lemma BenignStep(s: State, e: Event)
    requires Benign(e)
    ensures Usable(s.db) <= Usable(Next(s, e).db)
  {
    if e.Advance? {
      if e.c in s.calls {
        AdvanceIs(s, e.c, e.ok, e.picked);
        hide Next;
        BenignCallStep(s.db, s.capacity, s.calls[e.c], e.ok, e.picked);
      }
    } else {
      hide CallStep, ReserveWorkersForTest, ReleaseWorkersForTest;
    }
  }

  lemma {:induction false} BenignRun(s: State, es: seq<Event>)
    requires forall i :: 0 <= i < |es| ==> Benign(es[i])
    ensures Usable(s.db) <= Usable(Run(s, es).db)
    decreases |es|
  {
    hide Next;
    if es != [] {
      BenignRun(s, es[..|es| - 1]);
      BenignStep(Run(s, es[..|es| - 1]), es[|es| - 1]);
    }
  }

  ghost predicate SameHost(db: Tables, db': Tables, w: WorkerId) {
    w in db.workers ==> w in db'.workers && db'.workers[w].hostname == db.workers[w].hostname
  }

  /** With only benign events between the read and the drain the fleet never sinks below the target,
      and every worker drained has the hostname under which it was read. */
  lemma DrainKeepsTarget(s: State, between: seq<Event>, target: int, drains: bool, o: Outcome)
    requires Decision(target, drains, o) && o.atRead == s.db && o.atDrain == Run(s, between).db
    requires forall i :: 0 <= i < |between| ==> Benign(between[i])
    ensures o.drained != [] ==> |Usable(AfterDrain(o))| >= target
    ensures forall w :: w in o.drained ==> w in s.db.workers && SameHost(s.db, o.atDrain, w)
  {
    BenignRun(s, between);
    DrainIsSafe(target, drains, o);
    assert Usable(o.atRead) - Usable(o.atDrain) == {};
    forall w | w in o.drained ensures w in s.db.workers && SameHost(s.db, o.atDrain, w) {
      HostnameIsFixed(s, between, w);
    }
  }

  lemma HostnameStep(s: State, e: Event, w: WorkerId)
    ensures SameHost(s.db, Next(s, e).db, w)
  {
    if e.Advance? {
      if e.c in s.calls {
        AdvanceIs(s, e.c, e.ok, e.picked);
        hide Next;
        HostnameCallStep(s.db, s.capacity, s.calls[e.c], e.ok, e.picked, w);
      }
    } else {
      hide CallStep, ReserveWorkersForTest, ReleaseWorkersForTest;
    }
  }

  lemma HostnameCallStep(db: Tables, capacity: int, call: Call, ok: bool, picked: seq<WorkerId>, w: WorkerId)
    ensures SameHost(db, CallStep(db, capacity, call, ok, picked).0, w)
  {
  }

  /** No event changes the hostname of a registered worker. */
  lemma {:induction false} HostnameIsFixed(s: State, es: seq<Event>, w: WorkerId)
    ensures SameHost(s.db, Run(s, es).db, w)
    decreases |es|
  {
    hide Next;
    if es != [] {
      HostnameIsFixed(s, es[..|es| - 1], w);
      HostnameStep(Run(s, es[..|es| - 1]), es[|es| - 1], w);
    }
  }

  /** No worker a cycle drained is ever given a row again. */
  lemma DrainedStayOut(s: State, o: Outcome, more: seq<Event>, w: WorkerId)
    requires s.db == AfterDrain(o) && (DrainedOf(true, o) || DrainedOf(false, o)) && w in o.drained
    ensures Withdrawn(Run(s, more).db, w)
    ensures forall t :: (t, w) in Run(s, more).db.assignments ==> (t, w) in s.db.assignments
  {
    DrainedWereIdle(o, w);
    assert w in Elements(o.drained);
    assert Withdrawn(s.db, w);
    WithdrawnRun(s, more, w);
  }

  // ---------------------------------------------------------------- registrations

  /** Registrations of fresh, different workers. */
  ghost predicate FreshRegistrations(db: Tables, es: seq<Event>) {
    && (forall i :: 0 <= i < |es| ==> es[i].RegisterWorker? && es[i].w !in db.workers)
    && (forall i, j :: 0 <= i < j < |es| ==> es[i].w != es[j].w)
  }

  lemma OneJoins(s: State, e: Event)
    requires e.RegisterWorker? && e.w !in s.db.workers
    ensures var db' := Next(s, e).db;
      && db'.workers.Keys == s.db.workers.Keys + {e.w} && |Usable(db')| == |Usable(s.db)| + 1 && db'.tests == s.db.tests
  {
    RegisteredTables(s, e);
    UsableJoins(s.db, e.w, Worker(e.hostname, WorkerStatus.Idle, e.now));
    hide *;
  }

  lemma UsableJoins(db: Tables, w: WorkerId, worker: Worker)
    requires w !in db.workers && worker.status.Idle?
    ensures var db' := db.(workers := db.workers[w := worker]);
      db'.workers.Keys == db.workers.Keys + {w} && |Usable(db')| == |Usable(db)| + 1
  {
    assert Usable(db.(workers := db.workers[w := worker])) == Usable(db) + {w};
  }

  lemma RegisteredTables(s: State, e: Event)
    requires e.RegisterWorker? && e.w !in s.db.workers
    ensures Next(s, e).db == s.db.(workers := s.db.workers[e.w := Worker(e.hostname, WorkerStatus.Idle, e.now)])
  {
  }

  /** The ids registered by a schedule of registrations. */
  ghost function Joined(es: seq<Event>): set<WorkerId> {
    set i | 0 <= i < |es| && es[i].RegisterWorker? :: es[i].w
  }

  lemma JoinedOneMore(db: Tables, es: seq<Event>)
    requires es != [] && FreshRegistrations(db, es)
    ensures var n := |es| - 1;
      && es[n].RegisterWorker? && Joined(es) == Joined(es[..n]) + {es[n].w}
      && es[n].w !in db.workers.Keys + Joined(es[..n]) && FreshRegistrations(db, es[..n])
  {
  }

  lemma {:induction false} RegistrationsJoin(s: State, es: seq<Event>)
    requires FreshRegistrations(s.db, es)
    ensures |Usable(Run(s, es).db)| == |Usable(s.db)| + |es|
    ensures Run(s, es).db.tests == s.db.tests
    ensures Run(s, es).db.workers.Keys == s.db.workers.Keys + Joined(es)
    decreases |es|
  {
    hide Next;
    if es == [] {
      assert Joined(es) == {};
    } else {
      var n := |es| - 1;
      JoinedOneMore(s.db, es);
      RegistrationsJoin(s, es[..n]);
      hide Joined, FreshRegistrations, Usable;
      OneJoins(Run(s, es[..n]), es[n]);
    }
  }

  // ---------------------------------------------------------------- cycles one after another

  /** At the target, or above it with nothing left that may be drained. */
  ghost predicate Settled(target: int, db: Tables) {
    |Usable(db)| == target || (|Usable(db)| > target && Eligible(db) == {})
  }

  lemma SettledDecides(target: int, drains: bool, o: Outcome)
    requires Settled(target, o.atRead) && Decision(target, drains, o)
    ensures o.asked == 0 && o.candidates == {} && o.drained == []
  {
    ElementsCount(o.drained);
    SubsetIsSmaller(Elements(o.drained), {});
  }

  lemma DrainSettles(target: int, o: Outcome)
    requires Decision(target, true, o) && o.atDrain == o.atRead
    requires |Usable(o.atRead)| >= target
    ensures Settled(target, AfterDrain(o))
  {
    var db, e := o.atRead, Eligible(o.atRead);
    assert Elements(o.drained) == o.candidates;
    UsableAfterDrain(o);
    SubsetIsSmaller(o.candidates, Usable(db));
    assert Usable(db) == Usable(AfterDrain(o)) + o.candidates;
    if |o.candidates| == |e| {
      SameSizeSubset(o.candidates, e);
      assert Eligible(AfterDrain(o)) <= e - o.candidates;
    }
  }

  lemma SameSizeSubset(a: set<WorkerId>, b: set<WorkerId>)
    requires a <= b && |a| == |b|
    ensures a == b
  {
    assert b == a + (b - a);
    assert |b| == |a| + |b - a|;
  }

  /** On a quiet fleet two cycles suffice: once the workers the first one asked for have registered,
      the fleet is settled and the second one asks for nothing and drains nothing. */
  lemma CyclesReachAFixedPoint(s: State, capacity: int, o: Outcome, joined: seq<Event>, o': Outcome, drains: bool)
    requires Decision(Target(s.db.tests, capacity), true, o) && o.atRead == s.db && o.atDrain == s.db
    requires FreshRegistrations(AfterDrain(o), joined) && |joined| == o.asked
    requires var after := Run(s.(db := AfterDrain(o)), joined);
             o'.atRead == after.db && Decision(Target(after.db.tests, capacity), drains, o')
    ensures Settled(Target(s.db.tests, capacity), o'.atRead)
    ensures o'.asked == 0 && o'.candidates == {} && o'.drained == []
  {
    var target := Target(s.db.tests, capacity);
    var drained := s.(db := AfterDrain(o));
    RegistrationsJoin(drained, joined);
    hide Target;
    if o.asked == 0 {
      assert Run(drained, joined) == drained;
      DrainSettles(target, o);
    } else {
      UsableAfterDrain(o);
      ElementsCount(o.drained);
    }
    SettledDecides(target, drains, o');
  }

  /** A cycle counts registered workers only. When a second one runs with `joined` of the workers
      asked for registered, together they ask for exactly what is missing if and only if all of them
      are; otherwise the fleet ends up above the target by the number still under way. */
  lemma SecondCycleAsksAgain(s: State, capacity: int, o: Outcome, joined: seq<Event>, o': Outcome, drains: bool, drains': bool)
    requires Decision(Target(s.db.tests, capacity), drains, o) && o.atRead == s.db && o.asked > 0
    requires FreshRegistrations(s.db, joined) && |joined| <= o.asked
    requires var after := Run(s, joined);
             o'.atRead == after.db && Decision(Target(after.db.tests, capacity), drains', o')
    ensures o'.asked == o.asked - |joined|
    ensures o.asked + o'.asked == Target(s.db.tests, capacity) - |Usable(s.db)| <==> |joined| == o.asked
    ensures |Usable(s.db)| + o.asked + o'.asked == Target(s.db.tests, capacity) + (o.asked - |joined|)
  {
    RegistrationsJoin(s, joined);
    hide Target;
  }
}
