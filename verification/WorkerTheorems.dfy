/** What the statuses of workers say over whole runs: when RESERVED means that a test is waiting for
    the worker, and when exactly a worker is declared OFFLINE. */
module WorkerTheorems {
  import opened Domain
  import opened LoadShare
  import opened Transactions
  import opened TransactionEffects
  import opened Lifecycle
  import opened LifecycleTheorems

  // ---------------------------------------------------------------- RESERVED workers are awaited

  ghost predicate Awaited(db: Tables, w: WorkerId) {
    exists t :: RowIs(db, t, w, AssignmentStatus.Reserved)
  }

  /** A RESERVED worker has a RESERVED row: some test can still start on it. */
  ghost predicate ReservedIsAwaited(db: Tables, w: WorkerId) {
    WorkerIs(db, w, WorkerStatus.Reserved) ==> Awaited(db, w)
  }

  /** No row but the one of t is RESERVED for the worker. */
  ghost predicate OnlyAwaitedBy(db: Tables, t: TestId, w: WorkerId) {
    forall u :: RowIs(db, u, w, AssignmentStatus.Reserved) ==> u == t
  }

  /** A worker that no test waits for reports itself RESERVED. */
  ghost predicate FalseReport(db: Tables, e: Event, w: WorkerId) {
    && e.Heartbeat? && e.w == w && e.reported.Reserved? && !Awaited(db, w)
    && (WorkerIs(db, w, WorkerStatus.Idle) || WorkerIs(db, w, WorkerStatus.Running))
  }

  /** The row a RESERVED worker is waiting under fails before it was started. */
  ghost predicate FailedBeforeStart(db: Tables, e: Event, w: WorkerId) {
    && e.FailAssignment? && e.w == w && RowIs(db, e.t, w, AssignmentStatus.Reserved)
    && WorkerIs(db, w, WorkerStatus.Reserved) && OnlyAwaitedBy(db, e.t, w)
  }

  ghost predicate Leaks(db: Tables, e: Event, w: WorkerId) {
    FalseReport(db, e, w) || FailedBeforeStart(db, e, w)
  }

  /** The RESERVED rows of the worker are the same before and after. */
  ghost predicate SameAwaiting(db: Tables, db': Tables, w: WorkerId) {
    forall t :: RowIs(db', t, w, AssignmentStatus.Reserved) <==> RowIs(db, t, w, AssignmentStatus.Reserved)
  }

  lemma SameAwaited(db: Tables, db': Tables, w: WorkerId)
    requires SameAwaiting(db, db', w)
    ensures Awaited(db', w) <==> Awaited(db, w)
  {
    if Awaited(db, w) {
      var t :| RowIs(db, t, w, AssignmentStatus.Reserved);
      assert RowIs(db', t, w, AssignmentStatus.Reserved);
    }
    if Awaited(db', w) {
      var t :| RowIs(db', t, w, AssignmentStatus.Reserved);
      assert RowIs(db, t, w, AssignmentStatus.Reserved);
    }
  }

  lemma SameRowsSameAwaiting(db: Tables, db': Tables, w: WorkerId)
    requires db'.assignments == db.assignments
    ensures SameAwaiting(db, db', w)
  {
  }

  lemma HeartbeatAwaited(db: Tables, w: WorkerId, v: WorkerId, reported: WorkerStatus, now: int)
    requires ReservedIsAwaited(db, w) && v in db.workers && !reported.Offline?
    ensures ReservedIsAwaited(UpdateHeartbeat(db, v, reported, now).value, w) <==> !Leaks(db, Heartbeat(v, reported, now), w)
  {
    var db' := UpdateHeartbeat(db, v, reported, now).value;
    HeartbeatEffect(db, v, reported, now);
    SameRowsSameAwaiting(db, db', w);
    SameAwaited(db, db', w);
    hide UpdateHeartbeat, Awaited;
  }

  lemma StartReportAwaited(db: Tables, t: TestId, v: WorkerId, w: WorkerId)
    requires ReservedIsAwaited(db, w) && RowIs(db, t, v, AssignmentStatus.Reserved)
    ensures ReservedIsAwaited(MarkAssignmentRunning(db, t, v).value, w)
  {
    var db' := MarkAssignmentRunning(db, t, v).value;
    StartEffect(db, t, v);
    hide MarkAssignmentRunning;
    if v != w && WorkerIs(db', w, WorkerStatus.Reserved) {
      var u :| RowIs(db, u, w, AssignmentStatus.Reserved);
      assert RowIs(db', u, w, AssignmentStatus.Reserved);
    }
  }

  lemma CompleteReportAwaited(db: Tables, t: TestId, v: WorkerId, w: WorkerId)
    requires ReservedIsAwaited(db, w) && t in db.tests && RowIs(db, t, v, AssignmentStatus.Running)
    ensures ReservedIsAwaited(MarkAssignmentCompleted(db, t, v).value, w)
  {
    var db' := MarkAssignmentCompleted(db, t, v).value;
    CompletionEffect(db, t, v);
    hide MarkAssignmentCompleted;
    if WorkerIs(db', w, WorkerStatus.Reserved) {
      var u :| RowIs(db, u, w, AssignmentStatus.Reserved);
      assert RowIs(db', u, w, AssignmentStatus.Reserved);
    }
  }

  lemma FailReportAwaited(db: Tables, t: TestId, v: WorkerId, w: WorkerId)
    requires ReservedIsAwaited(db, w) && LiveRow(db, t, v)
    ensures ReservedIsAwaited(MarkAssignmentFailed(db, t, v).value, w) <==> !Leaks(db, FailAssignment(t, v), w)
  {
    var db' := MarkAssignmentFailed(db, t, v).value;
    FailureEffect(db, t, v);
    hide MarkAssignmentFailed;
    if WorkerIs(db, w, WorkerStatus.Reserved) {
      if Leaks(db, FailAssignment(t, v), w) {
        forall u ensures !RowIs(db', u, w, AssignmentStatus.Reserved) {
          assert RowIs(db', u, w, AssignmentStatus.Reserved) ==> RowIs(db, u, w, AssignmentStatus.Reserved);
        }
      } else {
        var u :| RowIs(db, u, w, AssignmentStatus.Reserved) && (v == w ==> u != t || !RowIs(db, t, w, AssignmentStatus.Reserved));
        assert RowIs(db', u, w, AssignmentStatus.Reserved);
      }
    }
  }

  lemma ReleaseAwaited(db: Tables, t: TestId, w: WorkerId)
    requires ReservedIsAwaited(db, w)
    ensures ReservedIsAwaited(ReleaseWorkersForTest(db, t), w)
  {
    var db' := ReleaseWorkersForTest(db, t);
    ReleaseFreesWorkers(db, t);
    hide ReleaseWorkersForTest;
    if WorkerIs(db', w, WorkerStatus.Reserved) {
      assert WorkerFreed(db, db', t, w);
      var u :| RowIs(db, u, w, AssignmentStatus.Reserved);
      assert RowReleased(db, db', t, (u, w));
      assert RowIs(db', u, w, AssignmentStatus.Reserved);
    }
  }

  lemma ReservationAwaited(db: Tables, t: TestId, n: int, shares: seq<int>, picked: seq<WorkerId>, w: WorkerId)
    requires ReservedIsAwaited(db, w) && IsSelection(db, n, picked) && ReserveWorkersForTest(db, t, n, shares, picked).Ok?
    ensures ReservedIsAwaited(ReserveWorkersForTest(db, t, n, shares, picked).value, w)
  {
    var db' := ReserveWorkersForTest(db, t, n, shares, picked).value;
    ReservationEffect(db, t, n, shares, picked);
    hide ReserveWorkersForTest;
    if WorkerIs(db', w, WorkerStatus.Reserved) {
      if w in picked {
        var i :| 0 <= i < |picked| && picked[i] == w;
        assert RowIs(db', t, picked[i], AssignmentStatus.Reserved);
      } else {
        var u :| RowIs(db, u, w, AssignmentStatus.Reserved);
        assert RowIs(db', u, w, AssignmentStatus.Reserved);
      }
    }
  }

  lemma SweepAwaited(db: Tables, w: WorkerId)
    requires ReservedIsAwaited(db, w)
    ensures ReservedIsAwaited(MarkAssignmentsFailedForOfflineWorkers(db), w)
  {
    var db' := MarkAssignmentsFailedForOfflineWorkers(db);
    SweepEffect(db);
    hide MarkAssignmentsFailedForOfflineWorkers;
    if WorkerIs(db', w, WorkerStatus.Reserved) {
      var u :| RowIs(db, u, w, AssignmentStatus.Reserved);
      assert RowSwept(db, db', (u, w));
      assert RowIs(db', u, w, AssignmentStatus.Reserved);
    }
  }

  /** Events that change no row and make nobody RESERVED. */
  lemma PlainEventAwaited(s: State, e: Event, w: WorkerId)
    requires ReservedIsAwaited(s.db, w)
    requires e.CreateTest? || e.RegisterWorker? || e.MarkOffline? || e.Drain? || e.BeginStart? || e.BeginStop?
    ensures ReservedIsAwaited(Next(s, e).db, w)
  {
    hide CallStep, Awaited;
    SameRowsSameAwaiting(s.db, Next(s, e).db, w);
    SameAwaited(s.db, Next(s, e).db, w);
  }

  lemma CallStepAwaited(db: Tables, capacity: int, call: Call, ok: bool, picked: seq<WorkerId>, w: WorkerId)
    requires ReservedIsAwaited(db, w)
    ensures ReservedIsAwaited(CallStep(db, capacity, call, ok, picked).0, w)
  {
    var db' := CallStep(db, capacity, call, ok, picked).0;
    if call.StartCall? && call.at.Ready? {
      if db' != db {
        ReservationAwaited(db, call.test, call.required, Shares(call.rps, call.required), picked, w);
      }
    } else if call.StopCall? && call.next.Marked? {
      ReleaseAwaited(db, call.test, w);
    } else {
      hide Awaited;
      SameRowsSameAwaiting(db, db', w);
      SameAwaited(db, db', w);
    }
  }

  /** A step leaves a RESERVED worker that no test waits for if and only if the worker says so itself
      without being asked, or its only waiting row is reported failed before it was started. In
      particular releases, completions, sweeps and reservations never lose a worker. */
  lemma ReservedIsAwaitedExactlyWhen(s: State, e: Event, w: WorkerId)
    requires Inv(s) && ReservedIsAwaited(s.db, w)
    ensures ReservedIsAwaited(Next(s, e).db, w) <==> !Leaks(s.db, e, w)
  {
    hide ReservedIsAwaited, Awaited, CallStep, Inv, TestOk;
    match e
    case Heartbeat(v, reported, now) =>
      if v in s.db.workers && !reported.Offline? {
        HeartbeatAwaited(s.db, w, v, reported, now);
      }
    case StartAssignment(t, v) =>
      StartEffect(s.db, t, v);
      if RowIs(s.db, t, v, AssignmentStatus.Reserved) {
        StartReportAwaited(s.db, t, v, w);
      }
    case CompleteAssignment(t, v) => CompletionStepAwaited(s, t, v, w);
    case FailAssignment(t, v) =>
      FailureEffect(s.db, t, v);
      if LiveRow(s.db, t, v) {
        FailReportAwaited(s.db, t, v, w);
      }
    case SweepOffline => SweepAwaited(s.db, w);
    case Advance(c, ok, picked) =>
      if c in s.calls {
        AdvanceIs(s, c, ok, picked);
        hide Next;
        CallStepAwaited(s.db, s.capacity, s.calls[c], ok, picked, w);
      }
    case _ => PlainEventAwaited(s, e, w);
  }

  lemma CompletionStepAwaited(s: State, t: TestId, v: WorkerId, w: WorkerId)
    requires ReservedIsAwaited(s.db, w)
    ensures ReservedIsAwaited(Next(s, CompleteAssignment(t, v)).db, w)
  {
    hide ReservedIsAwaited;
    if t in s.db.tests {
      CompletionEffect(s.db, t, v);
      if RowIs(s.db, t, v, AssignmentStatus.Running) {
        CompleteReportAwaited(s.db, t, v, w);
      }
    }
    hide AllCompleted;
  }

  ghost predicate AlwaysAwaited(capacity: int, es: seq<Event>, w: WorkerId) {
    forall i :: 0 <= i <= |es| ==> ReservedIsAwaited(After(capacity, es[..i]).db, w)
  }

  ghost predicate NeverLeaked(capacity: int, es: seq<Event>, w: WorkerId) {
    forall i :: 0 <= i < |es| ==> !Leaks(After(capacity, es[..i]).db, es[i], w)
  }

  lemma AwaitedRunStep(capacity: int, es: seq<Event>, i: nat, w: WorkerId)
    requires i < |es| && ReservedIsAwaited(After(capacity, es[..i]).db, w)
    ensures ReservedIsAwaited(After(capacity, es[..i + 1]).db, w) <==> !Leaks(After(capacity, es[..i]).db, es[i], w)
  {
    hide Next, Inv, ReservedIsAwaited, Leaks;
    AfterInv(capacity, es[..i]);
    assert es[..i + 1][..i] == es[..i];
    ReservedIsAwaitedExactlyWhen(After(capacity, es[..i]), es[i], w);
  }

  lemma {:induction false} NeverLeakedPrefix(capacity: int, es: seq<Event>, i: nat, w: WorkerId)
    requires i <= |es| && NeverLeaked(capacity, es, w)
    ensures ReservedIsAwaited(After(capacity, es[..i]).db, w)
  {
    hide Run, Leaks;
    if i == 0 {
      assert es[..0] == [];
      NobodyAtFirst(capacity, w);
    } else {
      NeverLeakedPrefix(capacity, es, i - 1, w);
      AwaitedRunStep(capacity, es, i - 1, w);
    }
  }

  lemma NobodyAtFirst(capacity: int, w: WorkerId)
    ensures ReservedIsAwaited(After(capacity, []).db, w)
  {
  }

  /** Over whole runs: a worker that is RESERVED has a test waiting for it in every state if and only
      if neither of the two events ever happens to it. */
  lemma ReservedIsAwaitedOverRuns(capacity: int, es: seq<Event>, w: WorkerId)
    ensures AlwaysAwaited(capacity, es, w) <==> NeverLeaked(capacity, es, w)
  {
    hide Run, ReservedIsAwaited, Leaks;
    if NeverLeaked(capacity, es, w) {
      forall i | 0 <= i <= |es| ensures ReservedIsAwaited(After(capacity, es[..i]).db, w) {
        NeverLeakedPrefix(capacity, es, i, w);
      }
    }
    if AlwaysAwaited(capacity, es, w) {
      forall i | 0 <= i < |es| ensures !Leaks(After(capacity, es[..i]).db, es[i], w) {
        AwaitedRunStep(capacity, es, i, w);
      }
    }
  }

  // ---------------------------------------------------------------- OFFLINE workers are silent ones

  /** The time of the worker's last accepted sign of life in a schedule; none before it registers. */
  function LastSeen(es: seq<Event>, w: WorkerId): set<int> {
    if es == [] then {}
    else
      var before := LastSeen(es[..|es| - 1], w);
      match es[|es| - 1]
      case RegisterWorker(v, _, now) => if v == w && before == {} then {now} else before
      case Heartbeat(v, reported, now) => if v == w && before != {} && !reported.Offline? then {now} else before
      case _ => before
  }

  ghost predicate SeenAt(db: Tables, w: WorkerId, seen: set<int>) {
    if w in db.workers then seen == {db.workers[w].lastHeartbeat} else seen == {}
  }

  lemma CallStepKeepsClocks(db: Tables, capacity: int, call: Call, ok: bool, picked: seq<WorkerId>)
    ensures var db' := CallStep(db, capacity, call, ok, picked).0;
      db'.workers.Keys == db.workers.Keys && forall w :: w in db.workers ==> db'.workers[w].lastHeartbeat == db.workers[w].lastHeartbeat
  {
  }

  lemma SeenStep(s: State, e: Event, w: WorkerId)
    requires !e.RegisterWorker? && !e.Heartbeat?
    ensures (w in Next(s, e).db.workers <==> w in s.db.workers)
    ensures w in s.db.workers ==> Next(s, e).db.workers[w].lastHeartbeat == s.db.workers[w].lastHeartbeat
  {
    if e.Advance? && e.c in s.calls {
      AdvanceIs(s, e.c, e.ok, e.picked);
      CallStepKeepsClocks(s.db, s.capacity, s.calls[e.c], e.ok, e.picked);
      hide Next, CallStep;
    } else {
      hide CallStep, AllCompleted, HasFailedRow;
    }
  }

  lemma SignOfLife(s: State, e: Event, w: WorkerId)
    requires e.RegisterWorker? || e.Heartbeat?
    ensures w in Next(s, e).db.workers <==> w in s.db.workers || (e.RegisterWorker? && e.w == w)
    ensures w in Next(s, e).db.workers && SignAccepted(s.db, e, w) ==> Next(s, e).db.workers[w].lastHeartbeat == e.now
    ensures w in s.db.workers && !SignAccepted(s.db, e, w) ==> Next(s, e).db.workers[w].lastHeartbeat == s.db.workers[w].lastHeartbeat
  {
    hide CallStep;
  }

  ghost predicate SignAccepted(db: Tables, e: Event, w: WorkerId) {
    || (e.RegisterWorker? && e.w == w && w !in db.workers)
    || (e.Heartbeat? && e.w == w && !e.reported.Offline?)
  }

  lemma {:induction false} RunSeen(capacity: int, es: seq<Event>, w: WorkerId)
    ensures SeenAt(After(capacity, es).db, w, LastSeen(es, w))
    decreases |es|
  {
    hide Next;
    if es != [] {
      var n := |es| - 1;
      RunSeen(capacity, es[..n], w);
      var s := After(capacity, es[..n]);
      if es[n].RegisterWorker? || es[n].Heartbeat? {
        SignOfLife(s, es[n], w);
      } else {
        SeenStep(s, es[n], w);
      }
    }
  }

  /** In every run: marking with a cutoff declares OFFLINE exactly the registered workers last seen
      before it, next to those that are OFFLINE already, and leaves the status of all others alone. */
  lemma OfflineExactlyWhenSilent(capacity: int, es: seq<Event>, cutoff: int, w: WorkerId)
    ensures var db, db' := After(capacity, es).db, Next(After(capacity, es), MarkOffline(cutoff)).db;
      && (w in db.workers <==> LastSeen(es, w) != {})
      && (w in db.workers ==>
            && w in db'.workers
            && (WorkerIs(db', w, WorkerStatus.Offline) <==> WorkerIs(db, w, WorkerStatus.Offline) || forall seen :: seen in LastSeen(es, w) ==> seen < cutoff)
            && (!WorkerIs(db', w, WorkerStatus.Offline) ==> db'.workers[w] == db.workers[w]))
  {
    RunSeen(capacity, es, w);
    hide Run, LastSeen;
  }

  /** A worker heard from at or after the cutoff survives the marking. */
  lemma FreshWorkerSurvives(s: State, w: WorkerId, reported: WorkerStatus, now: int, cutoff: int)
    requires w in s.db.workers && !WorkerIs(s.db, w, WorkerStatus.Offline) && !reported.Offline? && cutoff <= now
    ensures var heard := Next(s, Heartbeat(w, reported, now)); var marked := Next(heard, MarkOffline(cutoff));
      w in heard.db.workers && w in marked.db.workers && marked.db.workers[w] == heard.db.workers[w]
      && !WorkerIs(marked.db, w, WorkerStatus.Offline)
  {
    HeartbeatEffect(s.db, w, reported, now);
    hide UpdateHeartbeat;
  }
}
