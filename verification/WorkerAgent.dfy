/** The worker process (internal/worker/worker.go, internal/worker/polling.go) against the control
    plane: it polls for an assignment, reports its start, executes it, reports its end, and sends its
    local status as heartbeats. Requests may be lost before or after they take effect, and anything
    may happen in between. */
module WorkerAgent {
  import opened Domain
  import opened Transactions
  import opened Repository
  import opened Lifecycle
  import opened LifecycleTheorems
  import opened TransactionEffects
  import opened Ownership
  import opened ControlPlane
  import Execution

  /** What becomes of a request: answered, lost before it took effect, or its answer lost. */
  datatype Delivery = Answered | LostBefore | LostAfter

  /** The errors execute returns. The sentinel of package apierrors and the one of package worker are
      different values. */
  datatype Failure = ApiAssignmentStopped | WorkerAssignmentStopped | ContextError | EngineError

  datatype Execute = Succeeded | FailedWith(failure: Failure)

  /** internal/worker/executor.go returns the apierrors sentinel when a stop was detected. */
  function ExecuteResult(o: Execution.Outcome): Execute {
    match o
    case Cancelled => FailedWith(ContextError)
    case StopSeen => FailedWith(ApiAssignmentStopped)
    case EngineFailed => FailedWith(EngineError)
    case Finished => Succeeded
  }

  /** `parentDone` tells whether the worker is shutting down when the execution returns. */
  datatype AgentEnv = AgentEnv(
    start: Delivery, outcome: Execution.Outcome, parentDone: bool, report: Delivery,
    beforeStart: seq<Event>, during: seq<Event>, beforeReport: seq<Event>)

  /** The control plane accepts the report. */
  ghost predicate Accepted(db: Tables, e: Event) {
    match e
    case StartAssignment(t, w) => MarkAssignmentRunning(db, t, w).Ok?
    case CompleteAssignment(t, w) => MarkAssignmentCompleted(db, t, w).Ok?
    case FailAssignment(t, w) => MarkAssignmentFailed(db, t, w).Ok?
    case _ => true
  }

  /** The reports one assignment leads to, given whether the start was acknowledged. */
  function Reports(t: TestId, w: WorkerId, started: bool, o: Execution.Outcome, parentDone: bool): seq<Event> {
    [StartAssignment(t, w)] +
    if !started then []
    else if o.Finished? then [CompleteAssignment(t, w)]
    else if parentDone then []
    else [FailAssignment(t, w)]
  }

  ghost predicate NothingReserved(db: Tables, w: WorkerId) {
    forall t :: !RowIs(db, t, w, AssignmentStatus.Reserved)
  }

  /** The reports sent are those for some test with a RESERVED row of this worker. */
  ghost predicate AnsweredAssignment(db: Tables, w: WorkerId, before: seq<Event>, after: seq<Event>, env: AgentEnv) {
    exists t, started :: RowIs(db, t, w, AssignmentStatus.Reserved)
      && after == before + Reports(t, w, started, env.outcome, env.parentDone)
  }

  lemma RowsReferThen(s: State)
    requires Inv(s)
    ensures RowsRefer(s.db)
  {
  }

  ghost predicate RowHasStarted(db: Tables, t: TestId, w: WorkerId) {
    (t, w) in db.assignments && !db.assignments[(t, w)].status.Reserved?
  }

  lemma RowStaysStarted(s: State, more: seq<Event>, t: TestId, w: WorkerId)
    requires Inv(s) && RowHasStarted(s.db, t, w)
    ensures RowHasStarted(Run(s, more).db, t, w) && t in Run(s, more).db.tests
  {
    hide Run, Next, CallsOk, TestsOk, SingleClaim;
    RunContinues(s, more, t);
  }

  /** After a final report of a row that has left RESERVED, the row is not live. */
  lemma FinalReportEndsRow(s: State, e: Event)
    requires (e.CompleteAssignment? || e.FailAssignment?) && e.t in s.db.tests && RowHasStarted(s.db, e.t, e.w)
    ensures !LiveRow(Next(s, e).db, e.t, e.w)
  {
  }

  lemma StartLeavesReserved(s: State, t: TestId, w: WorkerId)
    requires Accepted(s.db, StartAssignment(t, w))
    ensures RowHasStarted(Next(s, StartAssignment(t, w)).db, t, w)
    ensures RowIs(Next(s, StartAssignment(t, w)).db, t, w, AssignmentStatus.Running)
    ensures Next(s, StartAssignment(t, w)).db.tests == s.db.tests && Assigned(Next(s, StartAssignment(t, w)).db, t) == Assigned(s.db, t)
    ensures WorkerIs(s.db, w, WorkerStatus.Reserved) ==> WorkerIs(Next(s, StartAssignment(t, w)).db, w, WorkerStatus.Running)
  {
  }

  /** What the final report e does to the row it is about, given the tables it reaches. A completion of
      a RUNNING row completes it, frees its worker, and completes a RUNNING test of which it is the last
      row; a failure of a live row fails it, and its test if that is RUNNING. */
  ghost predicate ReportTakesEffect(db: Tables, db': Tables, e: Event)
    requires e.CompleteAssignment? || e.FailAssignment?
  {
    var t, w := e.t, e.w;
    if e.CompleteAssignment? then
      RowIs(db, t, w, AssignmentStatus.Running) ==>
        && RowIs(db', t, w, AssignmentStatus.Completed)
        && (WorkerIs(db, w, WorkerStatus.Running) ==> WorkerIs(db', w, WorkerStatus.Idle))
        && (HasStatus(db, t, TestStatus.Running) && Assigned(db, t) == {w} ==> HasStatus(db', t, TestStatus.Completed))
    else
      LiveRow(db, t, w) ==>
        && RowIs(db', t, w, AssignmentStatus.Failed)
        && (HasStatus(db, t, TestStatus.Running) ==> HasStatus(db', t, TestStatus.Failed))
  }

  lemma FinalReportEffect(s: State, e: Event)
    requires (e.CompleteAssignment? || e.FailAssignment?) && e.t in s.db.tests
    ensures ReportTakesEffect(s.db, Next(s, e).db, e)
  {
    if e.CompleteAssignment? {
      CompletionEffect(s.db, e.t, e.w);
      if Assigned(s.db, e.t) == {e.w} {
        forall v | v != e.w ensures (e.t, v) !in s.db.assignments {
          assert v !in Assigned(s.db, e.t);
        }
        assert !OthersUnfinished(s.db, e.t, e.w);
      }
    } else {
      FailureEffect(s.db, e.t, e.w);
    }
    hide AllCompleted, OnlyRow, OnlyWorker, OnlyTestStatus, OthersUnfinished;
  }

  /** Once the final report of its only live row has taken effect, the IDLE heartbeats this worker
      sends are the harmless ones of module Ownership. */
  lemma FinalReportMakesIdleSafe(s: State, e: Event)
    requires Owned(s.db) && (e.CompleteAssignment? || e.FailAssignment?) && e.t in s.db.tests
    requires RowIs(s.db, e.t, e.w, AssignmentStatus.Running)
    ensures SafeReport(Next(s, e).db, e.w, WorkerStatus.Idle)
  {
    var db' := Next(s, e).db;
    FinalReportEndsRow(s, e);
    forall t | RowIs(db', t, e.w, AssignmentStatus.Running) ensures false {
      RunningBefore(s, e, t);
    }
  }

  lemma RunningBefore(s: State, e: Event, t: TestId)
    requires Owned(s.db) && (e.CompleteAssignment? || e.FailAssignment?) && e.t in s.db.tests
    requires RowIs(s.db, e.t, e.w, AssignmentStatus.Running)
    ensures !RowIs(Next(s, e).db, t, e.w, AssignmentStatus.Running)
  {
    assert LiveRow(s.db, e.t, e.w);
    assert t != e.t ==> !LiveRow(s.db, t, e.w);
  }

  /** Until then they are not: with the row RUNNING, an IDLE heartbeat breaks ownership, so a lost
      final report or a shutdown leaves the worker one heartbeat away from it. */
  lemma IdleWhileRunningIsUnsafe(s: State, t: TestId, w: WorkerId, now: int)
    requires Owned(s.db) && RowIs(s.db, t, w, AssignmentStatus.Running) && WorkerIs(s.db, w, WorkerStatus.Running)
    ensures !Owned(Next(s, Heartbeat(w, WorkerStatus.Idle, now)).db)
    ensures Owned(Next(s, Heartbeat(w, WorkerStatus.Running, now)).db)
  {
    HeartbeatOwned(s, w, WorkerStatus.Idle, now);
    HeartbeatOwned(s, w, WorkerStatus.Running, now);
  }

  /** What the failure report of a stopped run does depends on who comes first: before the release
      the row ends FAILED, after it the row is COMPLETED and the report is refused. The test goes on
      stopping either way. */
  lemma StopRaceDecidesTheRow(db: Tables, t: TestId, w: WorkerId)
    requires HasStatus(db, t, TestStatus.Stopping) && LiveRow(db, t, w)
    ensures var reported := MarkAssignmentFailed(db, t, w); var released := ReleaseWorkersForTest(db, t);
      && reported.Ok? && RowIs(ReleaseWorkersForTest(reported.value, t), t, w, AssignmentStatus.Failed)
      && RowIs(released, t, w, AssignmentStatus.Completed) && MarkAssignmentFailed(released, t, w) == Err(ErrAssignmentNotFound)
      && HasStatus(reported.value, t, TestStatus.Stopping) && HasStatus(released, t, TestStatus.Stopping)
  {
  }

  /** After an acknowledged start the test is as it was, and its RESERVED worker RUNNING. */
  ghost predicate StartedIn(db: Tables, db': Tables, t: TestId, w: WorkerId, started: bool) {
    started ==>
      && db'.tests == db.tests && Assigned(db', t) == Assigned(db, t)
      && (WorkerIs(db, w, WorkerStatus.Reserved) ==> WorkerIs(db', w, WorkerStatus.Running))
  }

  /** An undisturbed successful run: the row is COMPLETED, its worker IDLE again, and the test is
      COMPLETED if it was RUNNING and had no other worker. */
  ghost predicate RanAlone(db: Tables, db': Tables, t: TestId, w: WorkerId) {
    && RowIs(db', t, w, AssignmentStatus.Completed)
    && (WorkerIs(db, w, WorkerStatus.Reserved) ==> WorkerIs(db', w, WorkerStatus.Idle))
    && (HasStatus(db, t, TestStatus.Running) && Assigned(db, t) == {w} ==> HasStatus(db', t, TestStatus.Completed))
  }

  ghost predicate RunningSince(first: Tables, db: Tables, t: TestId, w: WorkerId) {
    RowIs(db, t, w, AssignmentStatus.Running) && StartedIn(first, db, t, w, true)
  }

  lemma FailureTookEffect(db: Tables, db': Tables, t: TestId, w: WorkerId)
    ensures ReportTakesEffect(db, db', FailAssignment(t, w)) && LiveRow(db, t, w) ==> RowIs(db', t, w, AssignmentStatus.Failed)
  {
  }

  lemma CompletionTookEffect(first: Tables, db: Tables, db': Tables, t: TestId, w: WorkerId)
    ensures ReportTakesEffect(db, db', CompleteAssignment(t, w)) && RowIs(db, t, w, AssignmentStatus.Running) ==>
      RowIs(db', t, w, AssignmentStatus.Completed)
    ensures ReportTakesEffect(db, db', CompleteAssignment(t, w)) && RunningSince(first, db, t, w) ==> RanAlone(first, db', t, w)
  {
  }

  predicate Alone(env: AgentEnv) { env.beforeStart == [] && env.during == [] && env.beforeReport == [] }

  class Worker {
    const service: TestService
    var id: WorkerId
    var status: WorkerStatus
    /** The reports sent, in order. */
    var sent: seq<Event>

    constructor (service: TestService)
      ensures this.service == service && status.Idle? && sent == []
    {
      this.service := service;
      id, status, sent := 0, WorkerStatus.Idle, [];
    }

    /** RegisterWorker: validation, then an IDLE row under the fresh id w. */
    method Register(w: WorkerId, hostname: string, version: string, cpuCount: int, memoryMB: int, now: int) returns (r: Result<()>)
      modifies this, service, service.db
      ensures r.Ok? <==> hostname != "" && version != "" && cpuCount > 0 && memoryMB > 0 && w !in old(service.db.workers)
      ensures r.Ok? ==> id == w && status.Idle? && WorkerIs(service.db.View(), w, WorkerStatus.Idle)
      ensures r.Ok? ==> service.S() == Next(old(service.S()), RegisterWorker(w, hostname, now))
      ensures r.Err? ==> service.S() == old(service.S()) && id == old(id) && status == old(status)
    {
      if hostname == "" || version == "" || cpuCount <= 0 || memoryMB <= 0 {
        return Err(ErrValidation);
      }
      r := service.db.CreateWorker(w, Domain.Worker(hostname, WorkerStatus.Idle, now));
      if r.Ok? {
        id, status := w, WorkerStatus.Idle;
      }
    }

    /** The heartbeat carries the local status. */
    method SendHeartbeat(now: int)
      modifies service, service.db
      ensures service.S() == Next(old(service.S()), Heartbeat(id, status, now))
    {
      service.Perform(Heartbeat(id, status, now));
    }

    /** One report to the control plane. */
    method Send(e: Event, d: Delivery) returns (ok: bool)
      requires e.StartAssignment? || e.CompleteAssignment? || e.FailAssignment?
      modifies `sent, service, service.db
      ensures sent == old(sent) + [e]
      ensures service.S() == if d.LostBefore? then old(service.S()) else Next(old(service.S()), e)
      ensures ok <==> d.Answered? && Accepted(old(service.S()).db, e)
    {
      sent := sent + [e];
      if d.LostBefore? {
        return false;
      }
      var r;
      match e {
        case StartAssignment(t, w) => r := service.db.MarkAssignmentRunning(t, w, true);
        case CompleteAssignment(t, w) => r := service.db.MarkAssignmentCompleted(t, w, true);
        case FailAssignment(t, w) => r := service.db.MarkAssignmentFailed(t, w, true);
      }
      ok := r.Ok? && d.Answered?;
    }

    /** The last report of an assignment, after whatever others did. */
    method SendFinal(e: Event, env: AgentEnv, ghost s0: State, ghost trace: seq<Event>) returns (ok: bool, ghost trace': seq<Event>)
      requires e.CompleteAssignment? || e.FailAssignment?
      requires Inv(service.S()) && service.S() == Run(s0, trace) && RowHasStarted(service.db.View(), e.t, e.w)
      modifies `sent, service, service.db
      ensures service.S() == Run(s0, trace') && trace + env.beforeReport <= trace' && sent == old(sent) + [e]
      ensures ok ==> env.report.Answered?
      ensures !env.report.LostBefore? ==> !LiveRow(service.db.View(), e.t, e.w)
      ensures !env.report.LostBefore? ==> ReportTakesEffect(Run(old(service.S()), env.beforeReport).db, service.db.View(), e)
      ensures env.report.LostBefore? ==> service.S() == Run(old(service.S()), env.beforeReport)
    {
      hide Run, Next, Inv, Accepted, LiveRow, ReportTakesEffect;
      ghost var before := service.S();
      service.Others(env.beforeReport);
      ghost var s1 := service.S();
      ExtendRun(s0, trace, before, env.beforeReport, s1);
      RunKeepsInv(before, env.beforeReport);
      RowStaysStarted(before, env.beforeReport, e.t, e.w);
      FinalReportEndsRow(s1, e);
      FinalReportEffect(s1, e);
      ok := Send(e, env.report);
      trace' := trace + env.beforeReport;
      if !env.report.LostBefore? {
        ExtendStep(s0, trace', s1, e, service.S());
        trace' := trace' + [e];
      }
    }

    /** The report of the start, after whatever others did. */
    method SendStart(t: TestId, env: AgentEnv) returns (started: bool, ghost trace: seq<Event>)
      requires Inv(service.S())
      modifies `sent, service, service.db
      ensures service.S() == Run(old(service.S()), trace) && Inv(service.S())
      ensures sent == old(sent) + [StartAssignment(t, id)]
      ensures started ==> env.start.Answered? && RowHasStarted(service.db.View(), t, id)
      ensures started ==> RowIs(service.db.View(), t, id, AssignmentStatus.Running)
      ensures env.beforeStart == [] ==> StartedIn(old(service.db.View()), service.db.View(), t, id, started)
    {
      hide Run, Next, Inv, Accepted;
      RunOfNothing(old(service.S()));
      service.Others(env.beforeStart);
      trace := env.beforeStart;
      ghost var s1 := service.S();
      RunKeepsInv(old(service.S()), trace);
      started := Send(StartAssignment(t, id), env.start);
      if !env.start.LostBefore? {
        ExtendStep(old(service.S()), trace, s1, StartAssignment(t, id), service.S());
        trace := trace + [StartAssignment(t, id)];
        NextKeepsInv(s1, StartAssignment(t, id));
      }
      if started {
        StartLeavesReserved(s1, t, id);
      }
    }

    /** Asks for a reserved assignment and processes it. */
    method Poll(env: AgentEnv) returns (r: Result<()>, ghost trace: seq<Event>)
      requires Inv(service.S()) && status.Idle?
      modifies this, service, service.db
      ensures service.S() == Run(old(service.S()), trace) && status.Idle? && id == old(id)
      ensures if NothingReserved(old(service.db.View()), id) then r.Ok? && sent == old(sent) && service.S() == old(service.S())
              else AnsweredAssignment(old(service.db.View()), id, old(sent), sent, env)
    {
      RunOfNothing(service.S());
      var found, t := service.db.GetReservedAssignment(id);
      RowsReferThen(service.S());
      if !found {
        return Ok(()), [];
      }
      var started;
      ghost var atReport;
      r, started, trace, atReport := ProcessAssignment(t, env);
    }

    /** Reports the start, executes, reports the end. Locally the worker is RUNNING from beginning to
        end and IDLE afterwards. When the start is acknowledged and the final report takes effect, the
        row is not live any more at that moment: a finished execution completes a row that is RUNNING
        when the report arrives, any other outcome fails a row that is live then, and a shutdown leaves
        the row to the sweep. A detected stop is reported as a failure. */
    method ProcessAssignment(t: TestId, env: AgentEnv) returns (r: Result<()>, started: bool, ghost trace: seq<Event>, ghost atReport: Tables)
      requires Inv(service.S())
      modifies this, service, service.db
      ensures service.S() == Run(old(service.S()), trace) && status.Idle? && id == old(id)
      ensures sent == old(sent) + Reports(t, id, started, env.outcome, env.parentDone)
      ensures started ==> env.start.Answered?
      ensures started && (env.outcome.Finished? || !env.parentDone) && !env.report.LostBefore? ==> !LiveRow(service.db.View(), t, id)
      ensures r.Ok? ==> started && env.outcome.Finished? && env.report.Answered?
      ensures started && env.outcome.Finished? && !env.report.LostBefore? && RowIs(atReport, t, id, AssignmentStatus.Running) ==>
        RowIs(service.db.View(), t, id, AssignmentStatus.Completed)
      ensures started && !env.outcome.Finished? && !env.parentDone && !env.report.LostBefore? && LiveRow(atReport, t, id) ==>
        RowIs(service.db.View(), t, id, AssignmentStatus.Failed)
      ensures started && ((!env.outcome.Finished? && env.parentDone) || env.report.LostBefore?) ==> service.db.View() == atReport
      ensures started && env.during == [] && env.beforeReport == [] ==> RowIs(atReport, t, id, AssignmentStatus.Running)
      ensures exists before: seq<Event> :: before <= trace && atReport == Run(old(service.S()), before).db
      ensures started && Alone(env) && env.outcome.Finished? && !env.report.LostBefore? ==>
        RanAlone(old(service.db.View()), service.db.View(), t, id)
    {
      hide Run, Next, Inv, LiveRow, ReportTakesEffect, RanAlone;
      status := WorkerStatus.Running;
      started, trace := SendStart(t, env);
      atReport := service.db.View();
      if !started {
        status := WorkerStatus.Idle;
        return Err(ErrStorage), false, trace, atReport;
      }
      ghost var s2 := service.S();
      RunOfNothing(s2);
      service.Others(env.during);
      ExtendRun(old(service.S()), trace, s2, env.during, service.S());
      trace := trace + env.during;
      RunKeepsInv(s2, env.during);
      RowStaysStarted(s2, env.during, t, id);
      ghost var s3 := service.S();
      RunOfNothing(s3);
      atReport := s3.db;
      ghost var before := trace;
      var result := ExecuteResult(env.outcome);
      if result.FailedWith? {
        // The worker compares with its own sentinel, which execute never returns.
        if result.failure == WorkerAssignmentStopped {
          assert false;
        }
        if !env.parentDone {
          var _, failTrace := SendFinal(FailAssignment(t, id), env, old(service.S()), trace);
          trace := failTrace;
          ExtendRun(old(service.S()), before, s3, env.beforeReport, Run(s3, env.beforeReport));
          before := before + env.beforeReport;
          atReport := Run(s3, env.beforeReport).db;
          FailureTookEffect(atReport, service.db.View(), t, id);
        }
        status := WorkerStatus.Idle;
        return Err(ErrStorage), true, trace, atReport;
      }
      var completed;
      completed, trace := SendFinal(CompleteAssignment(t, id), env, old(service.S()), trace);
      ExtendRun(old(service.S()), before, s3, env.beforeReport, Run(s3, env.beforeReport));
      before := before + env.beforeReport;
      atReport := Run(s3, env.beforeReport).db;
      CompletionTookEffect(old(service.db.View()), atReport, service.db.View(), t, id);
      status := WorkerStatus.Idle;
      r := if completed then Ok(()) else Err(ErrStorage);
    }
  }
}
