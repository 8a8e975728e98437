/** The fleet autoscaler (internal/autoscaler/reconciler.go). The fleet is read in one step and drained
    in a later one, with anything the control plane does in between. `provisionCalls` and
    `terminateCalls` are the requests made to the provisioner. */
module Autoscaler {
  import opened Domain
  import opened Sums
  import opened LoadShare
  import opened Transactions
  import opened Repository
  import opened Lifecycle
  import opened LifecycleTheorems
  import opened Capacity
  import opened ControlPlane

  const MANAGED_PREFIX := "vulcan-auto-worker-"

  predicate IsManaged(hostname: string) { MANAGED_PREFIX <= hostname }

  /** OFFLINE workers are dead and DRAINING ones are leaving. */
  predicate IsUsable(st: WorkerStatus) { st.Idle? || st.Reserved? || st.Running? }

  datatype WorkerRow = WorkerRow(id: WorkerId, row: Worker)

  // ---------------------------------------------------------------- lists of rows

  function Filter<T(!new)>(s: seq<T>, p: T -> bool): (r: seq<T>)
    ensures forall x :: x in r <==> x in s && p(x)
  {
    if s == [] then []
    else
      var n := |s| - 1;
      assert s == s[..n] + [s[n]];
      Filter(s[..n], p) + (if p(s[n]) then [s[n]] else [])
  }

  lemma {:induction false} FilterDistinct<T(!new)>(s: seq<T>, p: T -> bool)
    requires Distinct(s)
    ensures Distinct(Filter(s, p))
  {
    if s != [] {
      var n := |s| - 1;
      assert s == s[..n] + [s[n]];
      FilterDistinct(s[..n], p);
      assert s[n] !in s[..n];
    }
  }

  lemma FilterOneMore<T(!new)>(s: seq<T>, p: T -> bool, i: nat)
    requires i < |s|
    ensures Filter(s[..i + 1], p) == Filter(s[..i], p) + (if p(s[i]) then [s[i]] else [])
  {
    assert s[..i + 1][..i] == s[..i];
  }

  lemma DistinctOneMore<T>(s: seq<T>, x: T)
    requires Distinct(s) && x !in s
    ensures Distinct(s + [x])
  {
  }

  /** The rows list the table, every worker once. */
  ghost predicate RowsOfFleet(workers: map<WorkerId, Worker>, rows: seq<WorkerRow>) {
    Distinct(rows) && forall r :: r in rows <==> r.id in workers && workers[r.id] == r.row
  }

  lemma {:induction false} RowsAreIds(workers: map<WorkerId, Worker>, rows: seq<WorkerRow>)
    requires Distinct(rows) && forall r :: r in rows ==> r.id in workers && workers[r.id] == r.row
    ensures |set r | r in rows :: r.id| == |rows|
    ensures forall i, j :: 0 <= i < j < |rows| ==> rows[i].id != rows[j].id
  {
    if rows != [] {
      var n := |rows| - 1;
      assert rows == rows[..n] + [rows[n]];
      assert forall r :: r in rows[..n] ==> r in rows;
      RowsAreIds(workers, rows[..n]);
      LastIdIsNew(workers, rows);
      assert (set r | r in rows :: r.id) == (set r | r in rows[..n] :: r.id) + {rows[n].id};
    }
  }

  lemma LastIdIsNew(workers: map<WorkerId, Worker>, rows: seq<WorkerRow>)
    requires rows != [] && Distinct(rows) && forall r :: r in rows ==> r.id in workers && workers[r.id] == r.row
    ensures var n := |rows| - 1;
      rows[n].id !in (set r | r in rows[..n] :: r.id) && forall i :: 0 <= i < n ==> rows[i].id != rows[n].id
  {
    var n := |rows| - 1;
    forall i | 0 <= i < n ensures rows[i].id != rows[n].id {
      assert rows[i] in rows && rows[n] in rows;
    }
  }

  // ---------------------------------------------------------------- what a cycle decides

  ghost function Usable(db: Tables): (ws: set<WorkerId>)
    ensures forall w :: w in ws <==> w in db.workers && IsUsable(db.workers[w].status)
  {
    set w | w in db.workers && IsUsable(db.workers[w].status)
  }

  /** The workers a scale-down may take. */
  ghost function Eligible(db: Tables): (ws: set<WorkerId>)
    ensures forall w :: w in ws <==> WorkerIs(db, w, WorkerStatus.Idle) && IsManaged(db.workers[w].hostname)
  {
    set w | w in db.workers && db.workers[w].status.Idle? && IsManaged(db.workers[w].hostname)
  }

  function Max(a: int, b: int): int { if b > a then b else a }

  function Min(a: int, b: int): int { if b < a then b else a }

  /** The fleet must be large enough for the active or for the pending demand, whichever is larger. */
  ghost function Target(tests: map<TestId, Test>, capacity: int): int {
    Max(Demand(Active, tests, capacity), Demand(Pending, tests, capacity))
  }

  /** What one cycle did: the committed states when it read the workers and when it drained them, the
      number of workers it asked for, its candidates, and the drained ids in the order returned. */
  datatype Outcome = Outcome(atRead: Tables, atDrain: Tables, asked: nat, candidates: set<WorkerId>, drained: seq<WorkerId>)

  function Elements(ids: seq<WorkerId>): set<WorkerId> { set w | w in ids }

  /** The candidates still IDLE at the drain are drained, if it commits. */
  ghost predicate DrainedOf(drains: bool, o: Outcome) {
    Distinct(o.drained) && Elements(o.drained) == if drains then Removable(o.atDrain, o.candidates) else {}
  }

  /** The decision of a cycle with the given target. `drains` tells whether the drain committed. */
  ghost predicate Decision(target: int, drains: bool, o: Outcome) {
    var actual := |Usable(o.atRead)|;
    && o.asked == Max(target - actual, 0)
    && o.candidates <= Eligible(o.atRead)
    && |o.candidates| == Min(Max(actual - target, 0), |Eligible(o.atRead)|)
    && DrainedOf(drains, o)
  }

  ghost function AfterDrain(o: Outcome): Tables {
    TerminateIdleWorkers(o.atDrain, Elements(o.drained))
  }

  /** The hostnames of the drained workers, as read before the drain. */
  ghost predicate HostsOf(o: Outcome, hostnames: seq<string>) {
    |hostnames| == |o.drained| && forall i :: 0 <= i < |hostnames| ==>
      o.drained[i] in o.atRead.workers && hostnames[i] == o.atRead.workers[o.drained[i]].hostname
  }

  /** How the repositories and the provisioner answer one cycle, and what others do after the tests
      and after the workers are read. */
  datatype CycleEnv = CycleEnv(
    testsOk: bool, workersOk: bool, provisionOk: bool, drainOk: bool, terminateOk: bool,
    afterTests: seq<Event>, afterWorkers: seq<Event>)

  ghost predicate Computable(tests: map<TestId, Test>, capacity: int) {
    forall t :: t in tests && (IsActiveTest(tests[t].status) || tests[t].status.Created?) ==> tests[t].rps > 0 && capacity > 0
  }

  lemma ComputableRows(tests: map<TestId, Test>, ids: seq<TestId>, rows: seq<Test>, capacity: int)
    requires RowsOfTable(tests, ids, rows)
    ensures Computable(tests, capacity) <==> Countable(Active, rows, capacity) && Countable(Pending, rows, capacity)
  {
    if Countable(Active, rows, capacity) && Countable(Pending, rows, capacity) {
      forall t | t in tests && (IsActiveTest(tests[t].status) || tests[t].status.Created?) ensures tests[t].rps > 0 && capacity > 0 {
        var i :| 0 <= i < |ids| && ids[i] == t;
        assert CountsFor(Active, rows[i].status) || CountsFor(Pending, rows[i].status);
      }
    } else {
      if !Countable(Active, rows, capacity) {
        var i :| 0 <= i < |rows| && CountsFor(Active, rows[i].status) && !(rows[i].rps > 0 && capacity > 0);
        assert ids[i] in tests;
      } else {
        var i :| 0 <= i < |rows| && CountsFor(Pending, rows[i].status) && !(rows[i].rps > 0 && capacity > 0);
        assert ids[i] in tests;
      }
    }
  }

  predicate RowIsUsable(r: WorkerRow) { IsUsable(r.row.status) }

  predicate RowIsGone(r: WorkerRow) { r.row.status.Draining? || r.row.status.Offline? }

  predicate RowIsIdle(r: WorkerRow) { r.row.status.Idle? }

  predicate RowIsManaged(r: WorkerRow) { IsManaged(r.row.hostname) }

  lemma {:induction false} UsableOrGone(rows: seq<WorkerRow>)
    ensures |Filter(rows, RowIsUsable)| + |Filter(rows, RowIsGone)| == |rows|
  {
    if rows != [] {
      UsableOrGone(rows[..|rows| - 1]);
    }
  }

  lemma CountsOfFleet(db: Tables, rows: seq<WorkerRow>)
    requires RowsOfFleet(db.workers, rows)
    ensures |Filter(rows, RowIsUsable)| == |Usable(db)|
  {
    var usable := Filter(rows, RowIsUsable);
    FilterDistinct(rows, RowIsUsable);
    RowsAreIds(db.workers, usable);
    forall w | w in Usable(db) ensures w in set r | r in usable :: r.id {
      assert WorkerRow(w, db.workers[w]) in usable;
    }
    assert (set r | r in usable :: r.id) == Usable(db);
  }

  lemma EligibleOfFleet(db: Tables, rows: seq<WorkerRow>)
    requires RowsOfFleet(db.workers, rows)
    ensures var e := Filter(Filter(rows, RowIsIdle), RowIsManaged);
      Distinct(e) && |e| == |Eligible(db)| && forall r :: r in e ==> r.id in Eligible(db) && db.workers[r.id] == r.row
  {
    var idle := Filter(rows, RowIsIdle);
    var e := Filter(idle, RowIsManaged);
    FilterDistinct(rows, RowIsIdle);
    FilterDistinct(idle, RowIsManaged);
    RowsAreIds(db.workers, e);
    forall w | w in Eligible(db) ensures w in set r | r in e :: r.id {
      assert WorkerRow(w, db.workers[w]) in rows;
      assert WorkerRow(w, db.workers[w]) in e;
    }
    assert (set r | r in e :: r.id) == Eligible(db);
  }

  class Reconciler {
    const service: TestService
    const workerCapacity: int
    var provisionCalls: seq<int>
    var terminateCalls: seq<seq<string>>

    constructor (service: TestService, workerCapacity: int)
      ensures this.service == service && this.workerCapacity == workerCapacity
      ensures provisionCalls == [] && terminateCalls == []
    {
      this.service, this.workerCapacity := service, workerCapacity;
      provisionCalls, terminateCalls := [], [];
    }

    method GetTests() returns (rows: seq<Test>, ghost ids: seq<TestId>)
      ensures RowsOfTable(service.db.tests, ids, rows)
    {
      var tests := service.db.tests;
      rows, ids := [], [];
      var left := tests.Keys;
      while left != {}
        invariant left <= tests.Keys && Distinct(ids) && |ids| == |rows|
        invariant forall t :: t in ids <==> t in tests.Keys - left
        invariant forall i :: 0 <= i < |ids| ==> ids[i] in tests && tests[ids[i]] == rows[i]
      {
        var t :| t in left;
        DistinctOneMore(ids, t);
        left := left - {t};
        rows, ids := rows + [tests[t]], ids + [t];
      }
    }

    method GetWorkers() returns (rows: seq<WorkerRow>)
      ensures RowsOfFleet(service.db.workers, rows)
    {
      var workers := service.db.workers;
      rows := [];
      var left := workers.Keys;
      while left != {}
        invariant left <= workers.Keys && Distinct(rows)
        invariant forall r :: r in rows <==> r.id in workers && r.id !in left && workers[r.id] == r.row
      {
        var w :| w in left;
        left := left - {w};
        rows := rows + [WorkerRow(w, workers[w])];
      }
    }

    /** Counts the usable workers and collects the idle ones. */
    method SurveyFleet(workers: seq<WorkerRow>) returns (actual: int, idle: seq<WorkerRow>)
      ensures actual == |Filter(workers, RowIsUsable)| && idle == Filter(workers, RowIsIdle)
      ensures actual + |Filter(workers, RowIsGone)| == |workers|
    {
      actual, idle := 0, [];
      for i := 0 to |workers|
        invariant actual == |Filter(workers[..i], RowIsUsable)| && idle == Filter(workers[..i], RowIsIdle)
      {
        FilterOneMore(workers, RowIsUsable, i);
        FilterOneMore(workers, RowIsIdle, i);
        match workers[i].row.status {
          case Idle =>
            actual := actual + 1;
            idle := idle + [workers[i]];
          case Reserved => actual := actual + 1;
          case Running => actual := actual + 1;
          case _ =>
        }
      }
      assert workers[..|workers|] == workers;
      UsableOrGone(workers);
    }

    method SelectManaged(idle: seq<WorkerRow>) returns (eligible: seq<WorkerRow>)
      ensures eligible == Filter(idle, RowIsManaged)
    {
      eligible := [];
      for i := 0 to |idle|
        invariant eligible == Filter(idle[..i], RowIsManaged)
      {
        FilterOneMore(idle, RowIsManaged, i);
        if IsManaged(idle[i].row.hostname) {
          eligible := eligible + [idle[i]];
        }
      }
      assert idle[..|idle|] == idle;
    }

    /** The ids of the candidates and their hostnames by id. */
    method IndexHosts(candidates: seq<WorkerRow>) returns (ids: seq<WorkerId>, hostnameByID: map<WorkerId, string>)
      requires forall i, j :: 0 <= i < j < |candidates| ==> candidates[i].id != candidates[j].id
      ensures |ids| == |candidates| && forall i :: 0 <= i < |ids| ==> ids[i] == candidates[i].id
      ensures forall w :: w in hostnameByID <==> w in ids
      ensures forall i :: 0 <= i < |ids| ==> hostnameByID[ids[i]] == candidates[i].row.hostname
    {
      ids, hostnameByID := [], map[];
      for i := 0 to |candidates|
        invariant |ids| == i && (forall j :: 0 <= j < i ==> ids[j] == candidates[j].id)
        invariant forall w :: w in hostnameByID <==> w in ids
        invariant forall j :: 0 <= j < i ==> hostnameByID[ids[j]] == candidates[j].row.hostname
      {
        ids := ids + [candidates[i].id];
        hostnameByID := hostnameByID[candidates[i].id := candidates[i].row.hostname];
      }
    }

    method HostnamesOf(draining: seq<WorkerId>, hostnameByID: map<WorkerId, string>) returns (hostnames: seq<string>)
      ensures (forall w :: w in draining ==> w in hostnameByID) ==>
        |hostnames| == |draining| && forall i :: 0 <= i < |draining| ==> hostnames[i] == hostnameByID[draining[i]]
    {
      hostnames := [];
      for i := 0 to |draining|
        invariant (forall w :: w in draining ==> w in hostnameByID) ==>
          |hostnames| == i && forall j :: 0 <= j < i ==> hostnames[j] == hostnameByID[draining[j]]
      {
        if draining[i] !in hostnameByID {
          continue;
        }
        hostnames := hostnames + [hostnameByID[draining[i]]];
      }
    }

    method ScaleUp(count: int, provisionOk: bool) returns (r: Result<()>)
      modifies `provisionCalls
      ensures provisionCalls == old(provisionCalls) + (if count > 0 then [count] else [])
      ensures r == if count > 0 && !provisionOk then Err(ErrStorage) else Ok(())
    {
      if count <= 0 {
        return Ok(());
      }
      provisionCalls := provisionCalls + [count];
      r := if provisionOk then Ok(()) else Err(ErrStorage);
    }

    /** TerminateIdleWorkers, its answer in some order. */
    method Drain(ids: seq<WorkerId>, commits: bool) returns (r: Result<seq<WorkerId>>)
      modifies service.db
      ensures r.Ok? <==> commits || ids == []
      ensures r.Ok? ==> Distinct(r.value) && Elements(r.value) == Removable(old(service.db.View()), Elements(ids))
      ensures service.db.View() == if r.Ok? then TerminateIdleWorkers(old(service.db.View()), Elements(ids)) else old(service.db.View())
    {
      hide Removable, TerminateIdleWorkers;
      var removed := service.db.TerminateIdleWorkers(ids, commits);
      assert (set w | w in ids) == Elements(ids);
      if removed.Err? {
        return Err(removed.error);
      }
      var order := ListOf(removed.value);
      r := Ok(order);
    }

    /** The elements of a set in some order. */
    method ListOf(ids: set<WorkerId>) returns (order: seq<WorkerId>)
      ensures Distinct(order) && Elements(order) == ids
    {
      order := [];
      var left := ids;
      while left != {}
        invariant left <= ids && Distinct(order) && forall w :: w in order <==> w in ids - left
      {
        var w :| w in left;
        DistinctOneMore(order, w);
        left := left - {w};
        order := order + [w];
      }
      assert Elements(order) == ids;
    }

    /** Marks the candidates that are still IDLE and has their processes terminated. */
    method DrainCandidates(candidates: seq<WorkerRow>, env: CycleEnv, ghost atRead: Tables)
      returns (r: Result<()>, ghost o: Outcome, ghost trace: seq<Event>)
      requires forall c :: c in candidates ==> c.id in Eligible(atRead) && atRead.workers[c.id] == c.row
      requires forall i, j :: 0 <= i < j < |candidates| ==> candidates[i].id != candidates[j].id
      modifies this, service, service.db
      ensures provisionCalls == old(provisionCalls)
      ensures service.S() == Run(old(service.S()), trace)
      ensures o.asked == 0 && o.candidates <= Eligible(atRead) && |o.candidates| == |candidates|
      ensures DrainedOf(env.drainOk || candidates == [], o)
      ensures o.atRead == atRead && o.atDrain == Run(old(service.S()), env.afterWorkers).db
      ensures service.db.View() == AfterDrain(o)
      ensures TerminationRequested(old(terminateCalls), terminateCalls, o)
      ensures r.Ok? <==> Succeeds(env, o)
    {
      hide Run, Filter, Next, Removable, TerminateIdleWorkers;
      var ids, hostnameByID := IndexHosts(candidates);
      CandidatesAreEligible(atRead, candidates, ids);
      service.Others(env.afterWorkers);
      ghost var atDrain := service.S();
      var draining := Drain(ids, env.drainOk);
      if draining.Err? {
        o, trace := Outcome(atRead, atDrain.db, 0, Elements(ids), []), env.afterWorkers;
        NothingToDrain(atDrain.db);
        return Err(draining.error), o, trace;
      }
      o := Outcome(atRead, atDrain.db, 0, Elements(ids), draining.value);
      DrainOnlyRemovable(atDrain.db, Elements(ids));
      DrainIsStep(atDrain, Elements(ids));
      ExtendStep(old(service.S()), env.afterWorkers, atDrain, Event.Drain(Elements(ids)), service.S());
      trace := env.afterWorkers + [Event.Drain(Elements(ids))];
      if |draining.value| == 0 {
        return Ok(()), o, trace;
      }
      DrainedAreCandidates(o, ids);
      var hostnames := HostnamesOf(draining.value, hostnameByID);
      HostsAreRead(o, candidates, ids, hostnameByID, hostnames);
      terminateCalls := terminateCalls + [hostnames];
      r := if env.terminateOk then Ok(()) else Err(ErrStorage);
    }

    /** Drains at most the excess over the target among the idle workers it was given, whatever
        happened since they were read. */
    method ScaleDown(excess: int, idle: seq<WorkerRow>, env: CycleEnv, ghost target: int, ghost rows: seq<WorkerRow>, ghost atRead: Tables)
      returns (r: Result<()>, ghost o: Outcome, ghost trace: seq<Event>)
      requires RowsOfFleet(atRead.workers, rows) && idle == Filter(rows, RowIsIdle)
      requires excess == |Usable(atRead)| - target > 0
      modifies this, service, service.db
      ensures provisionCalls == old(provisionCalls)
      ensures service.S() == Run(old(service.S()), trace)
      ensures Decision(target, env.drainOk, o) && o.atRead == atRead
      ensures o.atDrain == if o.candidates == {} then old(service.db.View()) else Run(old(service.S()), env.afterWorkers).db
      ensures service.db.View() == AfterDrain(o)
      ensures TerminationRequested(old(terminateCalls), terminateCalls, o)
      ensures r.Ok? <==> Succeeds(env, o)
    {
      hide Run, Filter, Next;
      EligibleOfFleet(atRead, rows);
      var eligible := SelectManaged(idle);
      if |eligible| == 0 {
        o, trace := Outcome(atRead, service.db.View(), 0, {}, []), [];
        NothingToDrain(o.atDrain);
        RunOfNothing(service.S());
        return Ok(()), o, trace;
      }
      var candidates := eligible;
      if |candidates| > excess {
        candidates := candidates[..excess];
      }
      assert forall c :: c in candidates ==> c in eligible;
      RowsAreIds(atRead.workers, candidates);
      r, o, trace := DrainCandidates(candidates, env, atRead);
    }

    /** One reconciliation cycle. It reads the tests, then the workers, and then either asks for the
        workers missing to the target or drains idle managed ones above it. */
    method Reconcile(env: CycleEnv) returns (r: Result<()>, ghost o: Outcome, ghost trace: seq<Event>)
      modifies this, service, service.db
      ensures service.S() == Run(old(service.S()), trace)
      ensures !Goes(env, old(service.db.tests), workerCapacity) ==>
        r.Err? && provisionCalls == old(provisionCalls) && terminateCalls == old(terminateCalls)
      ensures Goes(env, old(service.db.tests), workerCapacity) ==>
        && o.atRead == Run(old(service.S()), env.afterTests).db
        && Decision(Target(old(service.db.tests), workerCapacity), env.drainOk, o)
        && (o.candidates == {} ==> o.atDrain == o.atRead)
        && (o.candidates != {} ==> o.atDrain == Run(Run(old(service.S()), env.afterTests), env.afterWorkers).db)
        && service.db.View() == AfterDrain(o)
        && provisionCalls == old(provisionCalls) + (if o.asked > 0 then [o.asked] else [])
        && TerminationRequested(old(terminateCalls), terminateCalls, o)
        && (r.Ok? <==> Succeeds(env, o))
    {
      hide Run, Next, Filter, Demand, Needs, Countable;
      o, trace := Outcome(service.db.View(), service.db.View(), 0, {}, []), [];
      RunOfNothing(service.S());
      if !env.testsOk {
        return Err(ErrStorage), o, trace;
      }
      ghost var tests := service.db.tests;
      var rows, ids := GetTests();
      var desired := DesiredCapacity(rows, workerCapacity);
      ComputableRows(tests, ids, rows, workerCapacity);
      if desired.Err? {
        return Err(desired.error), o, trace;
      }
      var pending := PendingCapacity(rows, workerCapacity);
      if pending.Err? {
        return Err(pending.error), o, trace;
      }
      RowsSumToDemand(Active, tests, ids, rows, workerCapacity);
      RowsSumToDemand(Pending, tests, ids, rows, workerCapacity);
      service.Others(env.afterTests);
      trace := env.afterTests;
      if !env.workersOk {
        return Err(ErrStorage), o, trace;
      }
      ghost var atRead := service.S();
      var workers := GetWorkers();
      var actual, idle := SurveyFleet(workers);
      CountsOfFleet(atRead.db, workers);
      var target := desired.value;
      if pending.value > target {
        target := pending.value;
      }
      if actual > target {
        ghost var rest;
        r, o, rest := ScaleDown(actual - target, idle, env, target, workers, atRead.db);
        ExtendRun(old(service.S()), env.afterTests, atRead, rest, service.S());
        trace := env.afterTests + rest;
      } else {
        o := Outcome(atRead.db, atRead.db, Max(target - actual, 0), {}, []);
        NothingToDrain(atRead.db);
        if actual < target {
          r := ScaleUp(target - actual, env.provisionOk);
        } else {
          r := Ok(());
        }
      }
    }
  }

  /** The reads succeed and RequiredWorkers accepts every counted test. */
  ghost predicate Goes(env: CycleEnv, tests: map<TestId, Test>, capacity: int) {
    env.testsOk && env.workersOk && Computable(tests, capacity)
  }

  /** The hostnames of the drained workers, and no others, go to the provisioner in one request. */
  ghost predicate TerminationRequested(before: seq<seq<string>>, after: seq<seq<string>>, o: Outcome) {
    if o.drained == [] then after == before
    else |after| == |before| + 1 && after[..|before|] == before && HostsOf(o, after[|before|])
  }

  ghost predicate Succeeds(env: CycleEnv, o: Outcome) {
    && (o.asked > 0 ==> env.provisionOk)
    && (o.candidates != {} ==> env.drainOk)
    && (o.drained != [] ==> env.terminateOk)
  }

  lemma NothingToDrain(db: Tables)
    ensures TerminateIdleWorkers(db, {}) == db && Elements([]) == {}
  {
    assert TerminateIdleWorkers(db, {}).workers == db.workers;
  }

  lemma DrainOnlyRemovable(db: Tables, ids: set<WorkerId>)
    ensures TerminateIdleWorkers(db, Removable(db, ids)) == TerminateIdleWorkers(db, ids)
  {
    assert Removable(db, Removable(db, ids)) == Removable(db, ids);
  }

  lemma DrainIsStep(s: State, ids: set<WorkerId>)
    ensures Next(s, Event.Drain(ids)) == s.(db := TerminateIdleWorkers(s.db, ids))
  {
  }

  lemma CandidatesAreEligible(atRead: Tables, candidates: seq<WorkerRow>, ids: seq<WorkerId>)
    requires forall c :: c in candidates ==> c.id in Eligible(atRead)
    requires forall i, j :: 0 <= i < j < |candidates| ==> candidates[i].id != candidates[j].id
    requires |ids| == |candidates| && forall i :: 0 <= i < |ids| ==> ids[i] == candidates[i].id
    ensures Elements(ids) <= Eligible(atRead) && |Elements(ids)| == |candidates|
  {
    forall w | w in Elements(ids) ensures w in Eligible(atRead) {
      var i :| 0 <= i < |ids| && ids[i] == w;
      assert candidates[i] in candidates;
    }
    ElementsCount(ids);
  }

  lemma {:induction false} ElementsCount(ids: seq<WorkerId>)
    requires Distinct(ids)
    ensures |Elements(ids)| == |ids|
  {
    if ids != [] {
      var n := |ids| - 1;
      assert ids == ids[..n] + [ids[n]];
      ElementsCount(ids[..n]);
      assert Elements(ids) == Elements(ids[..n]) + {ids[n]};
    }
  }

  lemma DrainedAreCandidates(o: Outcome, ids: seq<WorkerId>)
    requires Elements(o.drained) == Removable(o.atDrain, Elements(ids))
    ensures forall w :: w in o.drained ==> w in ids
  {
    forall w | w in o.drained ensures w in ids {
      assert w in Elements(o.drained);
    }
  }

  lemma HostsAreRead(o: Outcome, candidates: seq<WorkerRow>, ids: seq<WorkerId>, hostnameByID: map<WorkerId, string>, hostnames: seq<string>)
    requires |ids| == |candidates| && forall i :: 0 <= i < |ids| ==> ids[i] == candidates[i].id && ids[i] in hostnameByID
    requires forall i :: 0 <= i < |ids| ==> hostnameByID[ids[i]] == candidates[i].row.hostname
    requires forall c :: c in candidates ==> c.id in o.atRead.workers && o.atRead.workers[c.id] == c.row
    requires forall w :: w in o.drained ==> w in ids && w in hostnameByID
    requires |hostnames| == |o.drained| && forall i :: 0 <= i < |hostnames| ==> hostnames[i] == hostnameByID[o.drained[i]]
    ensures HostsOf(o, hostnames)
  {
    forall i | 0 <= i < |hostnames|
      ensures o.drained[i] in o.atRead.workers && hostnames[i] == o.atRead.workers[o.drained[i]].hostname
    {
      assert o.drained[i] in o.drained;
      var j :| 0 <= j < |ids| && ids[j] == o.drained[i];
      assert candidates[j] in candidates;
    }
  }
}
