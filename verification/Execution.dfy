/** One assignment's execution on a worker: the paced scheduler with its semaphore and wait group
    (internal/execution/scheduler.go), the request goroutines it starts, and the loop that flushes the
    collector, polls for a stop and returns (internal/worker/executor.go). All of them interleave; an
    event that cannot happen changes nothing. */
module Execution {
  import opened Domain
  import opened Sums
  import opened Metrics

  datatype Config = Config(rps: int, concurrency: int, duration: int)

  predicate ValidConfig(cfg: Config) { cfg.rps > 0 && cfg.concurrency > 0 && cfg.duration > 0 }

  /** A request goroutine: executing, its result recorded, its semaphore slot given back, and gone
      from the wait group. The deferred calls run in this order. */
  datatype Phase = Executing | Recorded | Released | Gone

  /** The scheduler: in its select loop, in wg.Wait, or returned. */
  datatype Engine = Looping | Waiting | Returned(failed: bool)

  /** How the execution returned to its caller. */
  datatype Outcome = Cancelled | StopSeen | EngineFailed | Finished

  datatype Loop = Selecting | Over(outcome: Outcome)

  /** The answer to the stop poll. */
  datatype Poll = PollFailed | PollSays(status: TestStatus)

  /** `recorded` lists every result ever recorded, `published` every bucket handed to Publish. */
  datatype State = State(
    cfg: Config, engine: Engine, runDone: bool, parentDone: bool,
    ticks: nat, dropped: nat, slots: int, group: int, phases: seq<Phase>,
    tally: Tally, start: int, recorded: seq<RequestResult>, published: seq<Bucket>,
    stopped: bool, loop: Loop)

  datatype Event =
    | Tick
    | Expire
    | NoticeDone
    | WaitOver
    | Record(i: nat, result: RequestResult)
    | Release(i: nat)
    | Leave(i: nat)
    | CancelParent
    | LoopCancelled
    | FlushTick(poll: Poll, now: int)
    | EngineReturned(now: int)

  function Begin(cfg: Config, now: int): State {
    State(cfg, if ValidConfig(cfg) then Looping else Returned(true), false, false,
          0, 0, 0, 0, [], NO_TALLY, now, [], [], false, Selecting)
  }

  predicate SaysStop(poll: Poll) { poll.PollSays? && (poll.status.Stopping? || poll.status.Stopped?) }

  /** Flushes the collector and publishes the bucket unless it is empty. */
  function Flushed(s: State, t: TestId, w: WorkerId, now: int): State {
    var bucket := BucketOf(t, w, s.start, now, s.tally);
    s.(tally := NO_TALLY, start := now,
       published := if s.tally.counts.requests == 0 then s.published else s.published + [bucket])
  }

  function OutcomeOf(s: State): Outcome
    requires s.engine.Returned?
  {
    if s.stopped then StopSeen else if s.engine.failed then EngineFailed else Finished
  }

  function Next(s: State, t: TestId, w: WorkerId, e: Event): State {
    match e
    case Tick =>
      if !s.engine.Looping? then s
      else if s.slots < s.cfg.concurrency then
        s.(ticks := s.ticks + 1, slots := s.slots + 1, group := s.group + 1, phases := s.phases + [Executing])
      else s.(ticks := s.ticks + 1, dropped := s.dropped + 1)
    case Expire => s.(runDone := true)
    case NoticeDone => if s.engine.Looping? && s.runDone then s.(engine := Waiting) else s
    case WaitOver => if s.engine.Waiting? && s.group == 0 then s.(engine := Returned(false)) else s
    case Record(i, r) =>
      if i < |s.phases| && s.phases[i].Executing? then
        s.(phases := s.phases[i := Phase.Recorded], tally := Metrics.Recorded(s.tally, r), recorded := s.recorded + [r])
      else s
    case Release(i) =>
      if i < |s.phases| && s.phases[i].Recorded? then s.(phases := s.phases[i := Released], slots := s.slots - 1) else s
    case Leave(i) =>
      if i < |s.phases| && s.phases[i].Released? then s.(phases := s.phases[i := Gone], group := s.group - 1) else s
    case CancelParent => s.(parentDone := true, runDone := true)
    case LoopCancelled => if s.loop.Selecting? && s.parentDone then s.(loop := Over(Cancelled), runDone := true) else s
    case FlushTick(poll, now) =>
      if !s.loop.Selecting? then s
      else
        var stop := !s.stopped && SaysStop(poll);
        Flushed(s.(stopped := s.stopped || stop, runDone := s.runDone || stop), t, w, now)
    case EngineReturned(now) =>
      if s.loop.Selecting? && s.engine.Returned? then Flushed(s, t, w, now).(loop := Over(OutcomeOf(s)), runDone := true) else s
  }

  function Run(cfg: Config, began: int, t: TestId, w: WorkerId, es: seq<Event>): State
    decreases |es|
  {
    if es == [] then Begin(cfg, began) else Next(Run(cfg, began, t, w, es[..|es| - 1]), t, w, es[|es| - 1])
  }

  // ---------------------------------------------------------------- the program

  /** The variables of Run and execute. Each method is one atomic step of one of the goroutines. */
  class Assignment {
    const testID: TestId
    const workerID: WorkerId
    const cfg: Config
    const collector: Collector
    var engine: Engine
    var runDone: bool
    var parentDone: bool
    var sem: int
    var wg: int
    var goroutines: seq<Phase>
    var stopped: bool
    var publishedBuckets: seq<Bucket>
    var loop: Loop
    var ticks: nat
    var dropped: nat
    ghost var results: seq<RequestResult>

    ghost function View(): State
      reads this, collector
    {
      State(cfg, engine, runDone, parentDone, ticks, dropped, sem, wg, goroutines,
            collector.View(), collector.windowStart, results, publishedBuckets, stopped, loop)
    }

    ghost predicate Valid()
      reads collector
    {
      collector.testID == testID && collector.workerID == workerID
    }

    constructor (testID: TestId, workerID: WorkerId, cfg: Config, now: int)
      ensures Valid() && fresh(collector) && this.testID == testID && this.workerID == workerID
      ensures View() == Begin(cfg, now)
    {
      this.testID, this.workerID, this.cfg := testID, workerID, cfg;
      collector := new Collector(testID, workerID, now);
      engine := if cfg.rps <= 0 || cfg.concurrency <= 0 || cfg.duration <= 0 then Returned(true) else Looping;
      runDone, parentDone, stopped := false, false, false;
      sem, wg, ticks, dropped := 0, 0, 0, 0;
      goroutines, publishedBuckets, results := [], [], [];
      loop := Selecting;
    }

    /** The ticker case of the scheduler: never blocks, drops the slot when the semaphore is full. */
    method OnTick()
      requires engine.Looping?
      modifies this
      ensures View() == Next(old(View()), testID, workerID, Tick)
    {
      ticks := ticks + 1;
      if sem < cfg.concurrency {
        sem := sem + 1;
        wg := wg + 1;
        goroutines := goroutines + [Executing];
      } else {
        dropped := dropped + 1;
      }
    }

    /** The Done case of the scheduler's select. */
    method OnRunDone()
      requires engine.Looping? && runDone
      modifies this
      ensures View() == Next(old(View()), testID, workerID, NoticeDone)
    {
      engine := Waiting;
    }

    method OnWaitOver()
      requires engine.Waiting? && wg == 0
      modifies this
      ensures View() == Next(old(View()), testID, workerID, WaitOver)
    {
      engine := Returned(false);
    }

    /** A goroutine's execution ends and its result is recorded. */
    method OnResult(i: nat, result: RequestResult)
      requires Valid() && i < |goroutines| && goroutines[i].Executing?
      modifies this, collector
      ensures Valid() && View() == Next(old(View()), testID, workerID, Record(i, result))
    {
      collector.Record(result);
      goroutines := goroutines[i := Phase.Recorded];
      results := results + [result];
    }

    method OnRelease(i: nat)
      requires i < |goroutines| && goroutines[i].Recorded?
      modifies this
      ensures View() == Next(old(View()), testID, workerID, Release(i))
    {
      sem := sem - 1;
      goroutines := goroutines[i := Released];
    }

    method OnLeave(i: nat)
      requires i < |goroutines| && goroutines[i].Released?
      modifies this
      ensures View() == Next(old(View()), testID, workerID, Leave(i))
    {
      wg := wg - 1;
      goroutines := goroutines[i := Gone];
    }

    method OnParentDone()
      requires loop.Selecting? && parentDone
      modifies this
      ensures View() == Next(old(View()), testID, workerID, LoopCancelled)
    {
      loop := Over(Cancelled);
      runDone := true;
    }

    /** The flush case: poll for a stop, flush, publish. */
    method OnFlushTick(poll: Poll, now: int)
      requires Valid() && loop.Selecting?
      modifies this, collector
      ensures Valid() && View() == Next(old(View()), testID, workerID, FlushTick(poll, now))
    {
      if !stopped {
        if poll.PollSays? && (poll.status == TestStatus.Stopping || poll.status == TestStatus.Stopped) {
          stopped := true;
          runDone := true;
        }
      }
      var bucket := collector.Flush(now);
      if bucket.counts.requests == 0 {
        return;
      }
      publishedBuckets := publishedBuckets + [bucket];
    }

    /** The case in which the engine has returned: a final flush, then the outcome. */
    method OnEngineReturned(now: int)
      requires Valid() && loop.Selecting? && engine.Returned?
      modifies this, collector
      ensures Valid() && View() == Next(old(View()), testID, workerID, EngineReturned(now))
    {
      var bucket := collector.Flush(now);
      if bucket.counts.requests != 0 {
        publishedBuckets := publishedBuckets + [bucket];
      }
      runDone := true;
      if stopped {
        loop := Over(StopSeen);
        return;
      }
      if engine.failed {
        loop := Over(EngineFailed);
        return;
      }
      loop := Over(Finished);
    }
  }

  // ---------------------------------------------------------------- the account of the executions

  function HoldsSlot(p: Phase): int { if p.Executing? || p.Recorded? then 1 else 0 }

  function InGroup(p: Phase): int { if p.Gone? then 0 else 1 }

  function IsExecuting(p: Phase): int { if p.Executing? then 1 else 0 }

  function PublishedCounts(buckets: seq<Bucket>): Counts {
    if buckets == [] then ZERO else Plus(PublishedCounts(buckets[..|buckets| - 1]), buckets[|buckets| - 1].counts)
  }

  predicate EmptyTallyIsZero(tally: Tally) {
    tally.counts.requests >= 0 && (tally.counts.requests == 0 ==> tally == NO_TALLY)
  }

  /** The semaphore, the wait group and the ticks agree with the goroutines. */
  ghost predicate Paced(s: State) {
    && s.slots == Weigh(s.phases, HoldsSlot) && (ValidConfig(s.cfg) ==> s.slots <= s.cfg.concurrency)
    && s.group == Weigh(s.phases, InGroup)
    && s.ticks == |s.phases| + s.dropped
    && |s.recorded| + Weigh(s.phases, IsExecuting) == |s.phases|
    && (s.engine.Returned? ==> s.group == 0)
    && (!ValidConfig(s.cfg) ==> s.engine.Returned? && s.phases == [])
  }

  /** What is published and what is still collected add up to what was recorded. */
  ghost predicate Balance(published: seq<Bucket>, collected: Counts, recorded: seq<RequestResult>) {
    Plus(PublishedCounts(published), collected) == CountsOf(recorded)
  }

  ghost predicate Accounted(s: State) {
    Balance(s.published, s.tally.counts, s.recorded) && EmptyTallyIsZero(s.tally)
  }

  ghost predicate LoopOk(s: State) {
    && (s.engine.Returned? ==> s.engine.failed == !ValidConfig(s.cfg))
    && (s.stopped ==> s.runDone)
    && (s.loop.Over? && !s.loop.outcome.Cancelled? ==>
          s.engine.Returned? && s.tally == NO_TALLY && s.loop.outcome == OutcomeOf(s))
  }

  ghost predicate Inv(s: State) {
    Paced(s) && Accounted(s) && LoopOk(s)
  }

  lemma PhaseChange(s: State, i: nat, p: Phase)
    requires i < |s.phases|
    ensures Weigh(s.phases[i := p], HoldsSlot) == Weigh(s.phases, HoldsSlot) - HoldsSlot(s.phases[i]) + HoldsSlot(p)
    ensures Weigh(s.phases[i := p], InGroup) == Weigh(s.phases, InGroup) - InGroup(s.phases[i]) + InGroup(p)
    ensures Weigh(s.phases[i := p], IsExecuting) == Weigh(s.phases, IsExecuting) - IsExecuting(s.phases[i]) + IsExecuting(p)
  {
    WeighUpdate(s.phases, i, p, HoldsSlot);
    WeighUpdate(s.phases, i, p, InGroup);
    WeighUpdate(s.phases, i, p, IsExecuting);
  }

  lemma PhaseAdded(phases: seq<Phase>)
    ensures Weigh(phases + [Executing], HoldsSlot) == Weigh(phases, HoldsSlot) + 1
    ensures Weigh(phases + [Executing], InGroup) == Weigh(phases, InGroup) + 1
    ensures Weigh(phases + [Executing], IsExecuting) == Weigh(phases, IsExecuting) + 1
  {
    assert (phases + [Executing])[..|phases|] == phases;
  }

  /** Nobody is left in the group: every goroutine has recorded and gone. */
  lemma EmptyGroup(phases: seq<Phase>)
    requires Weigh(phases, InGroup) == 0
    ensures forall i :: 0 <= i < |phases| ==> phases[i].Gone?
    ensures Weigh(phases, IsExecuting) == 0
  {
    WeighNonNegative(phases, InGroup);
    assert forall i :: 0 <= i < |phases| ==> InGroup(phases[i]) == 0;
    WeighNonNegative(phases, IsExecuting);
  }

  lemma RecordedOneMore(recorded: seq<RequestResult>, r: RequestResult)
    ensures CountsOf(recorded + [r]) == Plus(CountsOf(recorded), One(r))
  {
    assert (recorded + [r])[..|recorded|] == recorded;
  }

  lemma NextPaced(s: State, t: TestId, w: WorkerId, e: Event)
    requires Paced(s)
    ensures Paced(Next(s, t, w, e))
  {
    hide BucketOf, CountsOf, Weigh, Flushed;
    match e
    case Tick => PhaseAdded(s.phases);
    case Record(i, _) => GoroutinePaced(s, t, w, e);
    case Release(i) => GoroutinePaced(s, t, w, e);
    case Leave(i) => GoroutinePaced(s, t, w, e);
    case FlushTick(poll, now) => FlushPaced(s, t, w, e);
    case EngineReturned(now) => FlushPaced(s, t, w, e);
    case _ =>
  }

  lemma FlushPaced(s: State, t: TestId, w: WorkerId, e: Event)
    requires Paced(s) && (e.FlushTick? || e.EngineReturned?)
    ensures Paced(Next(s, t, w, e))
  {
    hide BucketOf, Weigh;
  }

  lemma GoroutinePaced(s: State, t: TestId, w: WorkerId, e: Event)
    requires Paced(s) && (e.Record? || e.Release? || e.Leave?)
    ensures Paced(Next(s, t, w, e))
  {
    hide Weigh;
    if e.i < |s.phases| {
      PhaseChange(s, e.i, Next(s, t, w, e).phases[e.i]);
      if s.engine.Returned? {
        EmptyGroup(s.phases);
      } else {
        hide Flushed, Metrics.Recorded;
      }
    }
  }

  lemma PublishedOneMore(buckets: seq<Bucket>, b: Bucket)
    ensures PublishedCounts(buckets + [b]) == Plus(PublishedCounts(buckets), b.counts)
  {
    assert (buckets + [b])[..|buckets|] == buckets;
  }

  lemma CountsAlgebra(a: Counts, b: Counts, c: Counts)
    ensures Plus(a, ZERO) == a && Plus(Plus(a, b), c) == Plus(a, Plus(b, c))
  {
  }

  lemma BalanceStarts()
    ensures Balance([], ZERO, [])
  {
  }

  lemma BalanceRecords(published: seq<Bucket>, collected: Counts, recorded: seq<RequestResult>, r: RequestResult)
    requires Balance(published, collected, recorded)
    ensures Balance(published, Plus(collected, One(r)), recorded + [r])
  {
    RecordedOneMore(recorded, r);
    CountsAlgebra(PublishedCounts(published), collected, One(r));
    hide PublishedCounts, CountsOf, Plus;
  }

  lemma BalancePublishes(published: seq<Bucket>, collected: Counts, recorded: seq<RequestResult>, b: Bucket)
    requires Balance(published, collected, recorded) && b.counts == collected
    ensures Balance(published + [b], ZERO, recorded)
  {
    PublishedOneMore(published, b);
    CountsAlgebra(Plus(PublishedCounts(published), collected), ZERO, ZERO);
    hide PublishedCounts, CountsOf, Plus;
  }

  /** In numbers of requests. */
  lemma BalanceInRequests(published: seq<Bucket>, collected: Counts, recorded: seq<RequestResult>)
    requires Balance(published, collected, recorded)
    ensures PublishedCounts(published).requests + collected.requests == |recorded|
    ensures collected == ZERO ==> PublishedCounts(published) == CountsOf(recorded)
  {
    TallyIsPlain(recorded);
    CountsAlgebra(PublishedCounts(published), ZERO, ZERO);
    assert CountsOf(recorded).requests == |recorded|;
    hide PublishedCounts, CountsOf;
  }

  lemma FlushAccounted(s: State, t: TestId, w: WorkerId, now: int)
    requires Accounted(s)
    ensures Accounted(Flushed(s, t, w, now))
  {
    var bucket := BucketOf(t, w, s.start, now, s.tally);
    assert bucket.counts == s.tally.counts;
    BalancePublishes(s.published, s.tally.counts, s.recorded, bucket);
    hide Balance, BucketOf;
  }

  lemma NextAccounted(s: State, t: TestId, w: WorkerId, e: Event)
    requires Accounted(s)
    ensures Accounted(Next(s, t, w, e))
  {
    hide Balance, Flushed;
    match e
    case Record(i, r) => BalanceRecords(s.published, s.tally.counts, s.recorded, r);
    case FlushTick(poll, now) =>
      var stop := !s.stopped && SaysStop(poll);
      FlushAccounted(s.(stopped := s.stopped || stop, runDone := s.runDone || stop), t, w, now);
    case EngineReturned(now) => FlushAccounted(s, t, w, now);
    case _ =>
  }

  lemma NextLoopOk(s: State, t: TestId, w: WorkerId, e: Event)
    requires Paced(s) && LoopOk(s)
    ensures LoopOk(Next(s, t, w, e))
  {
    hide BucketOf, Weigh;
    if s.engine.Returned? {
      EmptyGroup(s.phases);
    }
  }

  lemma NextKeepsInv(s: State, t: TestId, w: WorkerId, e: Event)
    requires Inv(s)
    ensures Inv(Next(s, t, w, e))
  {
    hide Next, Paced, Accounted, LoopOk;
    NextPaced(s, t, w, e);
    NextAccounted(s, t, w, e);
    NextLoopOk(s, t, w, e);
  }

  lemma BeginKeepsInv(cfg: Config, now: int)
    ensures Inv(Begin(cfg, now))
  {
    BalanceStarts();
    hide Balance;
  }

  lemma ConfigIsFixed(s: State, t: TestId, w: WorkerId, e: Event)
    ensures Next(s, t, w, e).cfg == s.cfg
  {
    hide BucketOf;
  }

  lemma {:induction false} RunKeepsInv(cfg: Config, began: int, t: TestId, w: WorkerId, es: seq<Event>)
    ensures Inv(Run(cfg, began, t, w, es)) && Run(cfg, began, t, w, es).cfg == cfg
    decreases |es|
  {
    hide Inv, Next;
    if es == [] {
      BeginKeepsInv(cfg, began);
    } else {
      RunKeepsInv(cfg, began, t, w, es[..|es| - 1]);
      NextKeepsInv(Run(cfg, began, t, w, es[..|es| - 1]), t, w, es[|es| - 1]);
      ConfigIsFixed(Run(cfg, began, t, w, es[..|es| - 1]), t, w, es[|es| - 1]);
    }
  }

  // ---------------------------------------------------------------- what every execution guarantees

  /** The executions holding a slot never exceed the concurrency, each tick admits one or is dropped,
      and at any time the executions admitted are those published, those in the collector and those
      still executing. */
  lemma ExecutionsAreAccountedFor(cfg: Config, began: int, t: TestId, w: WorkerId, es: seq<Event>)
    ensures var s := Run(cfg, began, t, w, es);
      && (ValidConfig(cfg) ==> Weigh(s.phases, HoldsSlot) <= cfg.concurrency)
      && s.ticks == |s.phases| + s.dropped
      && PublishedCounts(s.published).requests + s.tally.counts.requests + Weigh(s.phases, IsExecuting) == |s.phases|
  {
    RunKeepsInv(cfg, began, t, w, es);
    var s := Run(cfg, began, t, w, es);
    hide Run, PublishedCounts, Weigh, Balance;
    BalanceInRequests(s.published, s.tally.counts, s.recorded);
  }

  /** The engine returns only when every admitted execution has been recorded, once. */
  lemma EngineWaitsForAll(cfg: Config, began: int, t: TestId, w: WorkerId, es: seq<Event>)
    ensures var s := Run(cfg, began, t, w, es);
      s.engine.Returned? ==> |s.recorded| == |s.phases| && forall i :: 0 <= i < |s.phases| ==> s.phases[i].Gone?
  {
    RunKeepsInv(cfg, began, t, w, es);
    var s := Run(cfg, began, t, w, es);
    hide Run, Weigh, Balance;
    if s.engine.Returned? {
      EmptyGroup(s.phases);
    }
  }

  /** When the execution returns by any path but the cancellation of its context, the buckets handed to
      Publish carry exactly what all admitted executions recorded, and their requests add up to the
      number of admitted executions. */
  lemma NothingIsLeftBehind(cfg: Config, began: int, t: TestId, w: WorkerId, es: seq<Event>)
    ensures var s := Run(cfg, began, t, w, es);
      s.loop.Over? && !s.loop.outcome.Cancelled? ==>
        && PublishedCounts(s.published) == CountsOf(s.recorded)
        && PublishedCounts(s.published).requests == |s.recorded| == |s.phases|
        && (s.loop.outcome.StopSeen? <==> s.stopped)
        && (s.loop.outcome.EngineFailed? ==> s.phases == [] && !ValidConfig(cfg))
  {
    RunKeepsInv(cfg, began, t, w, es);
    var s := Run(cfg, began, t, w, es);
    EngineWaitsForAll(cfg, began, t, w, es);
    hide Run, PublishedCounts, CountsOf, Weigh, Balance;
    BalanceInRequests(s.published, s.tally.counts, s.recorded);
  }

  /** A stop is seen exactly if some poll answered STOPPING or STOPPED while the loop was running. */
  lemma {:induction false} StopIsSeenExactlyWhen(cfg: Config, began: int, t: TestId, w: WorkerId, es: seq<Event>)
    ensures Run(cfg, began, t, w, es).stopped <==> exists i :: PollSawStop(cfg, began, t, w, es, i)
    decreases |es|
  {
    if es != [] {
      var n := |es| - 1;
      StopIsSeenExactlyWhen(cfg, began, t, w, es[..n]);
      StoppedStep(Run(cfg, began, t, w, es[..n]), t, w, es[n]);
      hide Next;
      forall i ensures PollSawStop(cfg, began, t, w, es[..n], i) <==> PollSawStop(cfg, began, t, w, es, i) && i < n {
        if 0 <= i < n {
          assert es[..n][i] == es[i] && es[..n][..i] == es[..i];
        }
      }
      assert PollSawStop(cfg, began, t, w, es, n) <==> es[n].FlushTick? && SaysStop(es[n].poll) && Run(cfg, began, t, w, es[..n]).loop.Selecting?;
    }
  }

  predicate PollSawStop(cfg: Config, began: int, t: TestId, w: WorkerId, es: seq<Event>, i: int) {
    0 <= i < |es| && es[i].FlushTick? && SaysStop(es[i].poll) && Run(cfg, began, t, w, es[..i]).loop.Selecting?
  }

  lemma StoppedStep(s: State, t: TestId, w: WorkerId, e: Event)
    ensures Next(s, t, w, e).stopped <==> s.stopped || (e.FlushTick? && SaysStop(e.poll) && s.loop.Selecting?)
    ensures Next(s, t, w, e).stopped && !s.stopped ==> Next(s, t, w, e).runDone
  {
    hide BucketOf;
  }

  /** The answers that stop an execution. */
  lemma StoppingAnswers(poll: Poll)
    ensures SaysStop(poll) <==> poll == PollSays(TestStatus.Stopping) || poll == PollSays(TestStatus.Stopped)
  {
  }

  /** The steps from a state on. */
  function Continue(s: State, t: TestId, w: WorkerId, more: seq<Event>): State
    decreases |more|
  {
    if more == [] then s else Next(Continue(s, t, w, more[..|more| - 1]), t, w, more[|more| - 1])
  }

  /** Once the end is signalled the scheduler can take notice at any moment, and from then on nothing is
      admitted and no tick counts. */
  lemma {:induction false} NothingIsAdmittedAfterTheEnd(s: State, t: TestId, w: WorkerId, more: seq<Event>)
    requires s.engine.Looping? && s.runDone
    ensures var s' := Continue(Next(s, t, w, NoticeDone), t, w, more);
      |s'.phases| == |s.phases| && s'.ticks == s.ticks && s'.dropped == s.dropped && !s'.engine.Looping?
    decreases |more|
  {
    if more != [] {
      NothingIsAdmittedAfterTheEnd(s, t, w, more[..|more| - 1]);
      NotLoopingAdmitsNothing(Continue(Next(s, t, w, NoticeDone), t, w, more[..|more| - 1]), t, w, more[|more| - 1]);
    }
  }

  lemma NotLoopingAdmitsNothing(s: State, t: TestId, w: WorkerId, e: Event)
    requires !s.engine.Looping?
    ensures var s' := Next(s, t, w, e);
      |s'.phases| == |s.phases| && s'.ticks == s.ticks && s'.dropped == s.dropped && !s'.engine.Looping?
  {
    hide BucketOf;
  }

  /** A tick of a running scheduler is dropped exactly when as many executions hold a slot as the
      concurrency allows; otherwise it admits one execution. An invalid configuration never executes. */
  lemma TickIsDroppedExactlyWhenFull(cfg: Config, began: int, t: TestId, w: WorkerId, es: seq<Event>)
    ensures var s := Run(cfg, began, t, w, es); var s' := Next(s, t, w, Tick);
      && (s.engine.Looping? ==>
            if Weigh(s.phases, HoldsSlot) == cfg.concurrency then s'.phases == s.phases && s'.dropped == s.dropped + 1
            else s'.phases == s.phases + [Executing] && s'.dropped == s.dropped)
      && (cfg.rps <= 0 || cfg.concurrency <= 0 || cfg.duration <= 0 ==> s.phases == [] && s.engine == Returned(true))
      && (es == [] && cfg.rps > 0 && cfg.concurrency > 0 && cfg.duration > 0 ==> s'.phases == [Executing])
  {
    RunKeepsInv(cfg, began, t, w, es);
    hide Weigh, Balance;
    if es != [] {
      hide Run;
    }
  }

  /** After a flush tick everything recorded so far has been handed to Publish. */
  lemma FlushPublishesAll(cfg: Config, began: int, t: TestId, w: WorkerId, es: seq<Event>, poll: Poll, now: int)
    ensures var s := Run(cfg, began, t, w, es); var s' := Next(s, t, w, FlushTick(poll, now));
      s.loop.Selecting? ==> PublishedCounts(s'.published) == CountsOf(s.recorded) && s'.tally == NO_TALLY && s'.recorded == s.recorded
  {
    RunKeepsInv(cfg, began, t, w, es);
    var s := Run(cfg, began, t, w, es);
    hide Run, PublishedCounts, CountsOf, Paced, Balance, LoopOk;
    if s.loop.Selecting? {
      FlushEmpties(s, t, w, poll, now);
      var s' := Next(s, t, w, FlushTick(poll, now));
      NextAccounted(s, t, w, FlushTick(poll, now));
      hide Next;
      BalanceInRequests(s'.published, s'.tally.counts, s'.recorded);
    }
  }

  lemma FlushEmpties(s: State, t: TestId, w: WorkerId, poll: Poll, now: int)
    requires s.loop.Selecting?
    ensures var s' := Next(s, t, w, FlushTick(poll, now)); s'.tally == NO_TALLY && s'.recorded == s.recorded
  {
    hide BucketOf;
  }

  // ---------------------------------------------------------------- an execution can always finish

  lemma {:induction false} ContinueConcat(s: State, t: TestId, w: WorkerId, a: seq<Event>, b: seq<Event>)
    ensures Continue(s, t, w, a + b) == Continue(Continue(s, t, w, a), t, w, b)
    decreases |b|
  {
    hide Next;
    if b == [] {
      assert a + b == a;
    } else {
      var n := |b| - 1;
      assert (a + b)[..|a + b| - 1] == a + b[..n];
      ContinueConcat(s, t, w, a, b[..n]);
    }
  }

  lemma ContinueOne(s: State, t: TestId, w: WorkerId, e: Event)
    ensures Continue(s, t, w, [e]) == Next(s, t, w, e)
  {
    hide Next;
    assert [e][..0] == [];
  }

  /** The scheduler has left its select loop and the flush loop has not returned. */
  ghost predicate Ending(s: State) { Inv(s) && !s.engine.Looping? && s.loop.Selecting? }

  lemma EndingStep(s: State, t: TestId, w: WorkerId, e: Event)
    requires Ending(s) && (e.Record? || e.Release? || e.Leave?)
    ensures var s' := Next(s, t, w, e);
      && Ending(s') && |s'.phases| == |s.phases|
      && (e.i < |s.phases| ==> s'.phases == s.phases[e.i := s'.phases[e.i]])
      && (e.i < |s.phases| && s.phases[e.i].Gone? ==> s'.phases[e.i].Gone?)
  {
    NextKeepsInv(s, t, w, e);
    hide Inv, Metrics.Recorded, Flushed;
  }

  function Ends(i: nat, r: RequestResult): seq<Event> { [Record(i, r)] + [Release(i)] + [Leave(i)] }

  /** A goroutine, wherever it stands, records, gives back its slot and leaves. */
  lemma GoroutineCanEnd(s: State, t: TestId, w: WorkerId, i: nat, r: RequestResult)
    requires Ending(s) && i < |s.phases|
    ensures var s' := Continue(s, t, w, Ends(i, r)); Ending(s') && s'.phases == s.phases[i := Gone]
  {
    ContinueOne(s, t, w, Record(i, r));
    ContinueConcat(s, t, w, [Record(i, r)], [Release(i)]);
    ContinueConcat(s, t, w, [Record(i, r)] + [Release(i)], [Leave(i)]);
    var s1 := Next(s, t, w, Record(i, r));
    var s2 := Next(s1, t, w, Release(i));
    ContinueOne(s1, t, w, Release(i));
    ContinueOne(s2, t, w, Leave(i));
    EndingStep(s, t, w, Record(i, r));
    EndingStep(s1, t, w, Release(i));
    EndingStep(s2, t, w, Leave(i));
    hide Ending, Continue, Metrics.Recorded, Flushed;
    assert !s1.phases[i].Executing?;
    assert s2.phases[i].Released? || s2.phases[i].Gone?;
  }

  lemma {:induction false} AllCanEnd(s: State, t: TestId, w: WorkerId, i: nat, r: RequestResult) returns (more: seq<Event>)
    requires Ending(s) && i <= |s.phases| && forall j :: 0 <= j < i ==> s.phases[j].Gone?
    ensures var s' := Continue(s, t, w, more); Ending(s') && forall j :: 0 <= j < |s'.phases| ==> s'.phases[j].Gone?
    decreases |s.phases| - i
  {
    if i == |s.phases| {
      more := [];
    } else {
      hide Ending;
      GoroutineCanEnd(s, t, w, i, r);
      var rest := AllCanEnd(Continue(s, t, w, Ends(i, r)), t, w, i + 1, r);
      more := Ends(i, r) + rest;
      ContinueConcat(s, t, w, Ends(i, r), rest);
    }
  }

  lemma {:induction false} GoneMeansEmpty(phases: seq<Phase>)
    requires forall j :: 0 <= j < |phases| ==> phases[j].Gone?
    ensures Weigh(phases, InGroup) == 0
  {
    if phases != [] {
      GoneMeansEmpty(phases[..|phases| - 1]);
    }
  }

  lemma EngineCanReturn(s: State, t: TestId, w: WorkerId, now: int)
    requires Ending(s) && forall j :: 0 <= j < |s.phases| ==> s.phases[j].Gone?
    ensures var s' := Continue(s, t, w, [WaitOver] + [EngineReturned(now)]); s'.loop.Over? && !s'.loop.outcome.Cancelled?
  {
    ContinueOne(s, t, w, WaitOver);
    ContinueConcat(s, t, w, [WaitOver], [EngineReturned(now)]);
    ContinueOne(Next(s, t, w, WaitOver), t, w, EngineReturned(now));
    GoneMeansEmpty(s.phases);
    hide Continue, Weigh, Balance, Flushed;
    var s1 := Next(s, t, w, WaitOver);
    assert s1.engine.Returned? && s1.loop.Selecting?;
    FlushLeavesLoop(s1, t, w, now);
  }

  lemma FlushLeavesLoop(s: State, t: TestId, w: WorkerId, now: int)
    requires s.loop.Selecting? && s.engine.Returned?
    ensures Next(s, t, w, EngineReturned(now)).loop == Over(OutcomeOf(s))
  {
    hide BucketOf;
  }

  lemma EndCanBegin(s: State, t: TestId, w: WorkerId)
    requires Inv(s) && s.loop.Selecting?
    ensures Ending(Continue(s, t, w, [Expire] + [NoticeDone]))
  {
    ContinueOne(s, t, w, Expire);
    ContinueConcat(s, t, w, [Expire], [NoticeDone]);
    var s1 := Next(s, t, w, Expire);
    ContinueOne(s1, t, w, NoticeDone);
    NextKeepsInv(s, t, w, Expire);
    NextKeepsInv(s1, t, w, NoticeDone);
    hide Inv, Continue;
  }

  /** No execution can get stuck: from every state of every run whose flush loop has not returned there
      is a way for it to return without being cancelled, and by NothingIsLeftBehind nothing is lost then. */
  lemma ExecutionCanFinish(cfg: Config, began: int, t: TestId, w: WorkerId, es: seq<Event>, r: RequestResult, now: int)
    ensures var s := Run(cfg, began, t, w, es);
      s.loop.Selecting? ==> exists more :: ReturnsBy(s, t, w, more)
  {
    RunKeepsInv(cfg, began, t, w, es);
    var s := Run(cfg, began, t, w, es);
    hide Run, Inv, Ending, Next;
    if s.loop.Selecting? {
      var begin := [Expire] + [NoticeDone];
      EndCanBegin(s, t, w);
      var s1 := Continue(s, t, w, begin);
      var ends := AllCanEnd(s1, t, w, 0, r);
      var s2 := Continue(s1, t, w, ends);
      var back := [WaitOver] + [EngineReturned(now)];
      EngineCanReturn(s2, t, w, now);
      ContinueConcat(s, t, w, begin, ends);
      ContinueConcat(s, t, w, begin + ends, back);
      assert ReturnsBy(s, t, w, begin + ends + back);
    }
  }

  ghost predicate ReturnsBy(s: State, t: TestId, w: WorkerId, more: seq<Event>) {
    var s' := Continue(s, t, w, more);
    s'.loop.Over? && !s'.loop.outcome.Cancelled?
  }
}
