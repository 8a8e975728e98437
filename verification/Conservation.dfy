/** Nothing is lost or counted twice between a recorded result and the reports. The account is kept
    for an arbitrary weight of results: a weight of 1 for one particular result says that this result
    stands in exactly as many places as it was recorded, and the weights of module Metrics say that
    the counters add up. */
module Conservation {
  import opened Domain
  import opened Sums
  import opened Metrics
  import opened Aggregation
  import opened Pipeline

  type Weight = RequestResult -> int

  // ---------------------------------------------------------------- where results are

  function CellPart(c: Cell, t: TestId, f: Weight): int {
    if c.testId == t then Weigh(c.raw, f) else 0
  }

  function ParcelPart(p: Parcel, t: TestId, f: Weight): int {
    if p.bucket.testId == t then Weigh(p.raw, f) else 0
  }

  function LinePart(l: Line, t: TestId, f: Weight): int {
    if l.snapshot.testId == t then Weigh(Flatten(l.batches), f) else 0
  }

  function InCells(cells: seq<Cell>, t: TestId, f: Weight): int {
    if cells == [] then 0 else InCells(cells[..|cells| - 1], t, f) + CellPart(cells[|cells| - 1], t, f)
  }

  function InParcels(ps: seq<Parcel>, t: TestId, f: Weight): int {
    if ps == [] then 0 else InParcels(ps[..|ps| - 1], t, f) + ParcelPart(ps[|ps| - 1], t, f)
  }

  function InWindow(windows: map<TestId, Live>, t: TestId, f: Weight): int {
    if t in windows then Weigh(Flatten(windows[t].batches), f) else 0
  }

  function InLines(lines: seq<Line>, t: TestId, f: Weight): int {
    if lines == [] then 0 else InLines(lines[..|lines| - 1], t, f) + LinePart(lines[|lines| - 1], t, f)
  }

  function Everything(s: State, t: TestId, f: Weight): int {
    InCells(s.cells, t, f) + InParcels(s.inFlight, t, f) + InParcels(s.undelivered, t, f)
    + InWindow(s.windows, t, f) + InLines(s.emitted, t, f)
  }

  /** The results recorded for one test, in order. */
  function RecordedFor(recorded: seq<(TestId, RequestResult)>, t: TestId): seq<RequestResult> {
    if recorded == [] then []
    else
      var last := recorded[|recorded| - 1];
      RecordedFor(recorded[..|recorded| - 1], t) + (if last.0 == t then [last.1] else [])
  }

  // ---------------------------------------------------------------- how the places change

  lemma {:induction false} CellsUpdate(cells: seq<Cell>, i: nat, c: Cell, t: TestId, f: Weight)
    requires i < |cells|
    ensures InCells(cells[i := c], t, f) == InCells(cells, t, f) - CellPart(cells[i], t, f) + CellPart(c, t, f)
  {
    var n := |cells| - 1;
    if i < n {
      CellsUpdate(cells[..n], i, c, t, f);
      assert cells[i := c][..n] == cells[..n][i := c];
    } else {
      assert cells[i := c][..n] == cells[..n];
    }
  }

  lemma {:induction false} ParcelsRemove(ps: seq<Parcel>, k: nat, t: TestId, f: Weight)
    requires k < |ps|
    ensures InParcels(ps[..k] + ps[k + 1..], t, f) == InParcels(ps, t, f) - ParcelPart(ps[k], t, f)
  {
    var n := |ps| - 1;
    var rest := ps[..k] + ps[k + 1..];
    if k < n {
      ParcelsRemove(ps[..n], k, t, f);
      assert rest[..|rest| - 1] == ps[..n][..k] + ps[..n][k + 1..];
      assert rest[|rest| - 1] == ps[n];
    } else {
      assert rest == ps[..n];
    }
  }

  lemma ParcelsAppend(ps: seq<Parcel>, p: Parcel, t: TestId, f: Weight)
    ensures InParcels(ps + [p], t, f) == InParcels(ps, t, f) + ParcelPart(p, t, f)
  {
    assert (ps + [p])[..|ps|] == ps;
  }

  lemma {:induction false} LinesAppend(a: seq<Line>, b: seq<Line>, t: TestId, f: Weight)
    ensures InLines(a + b, t, f) == InLines(a, t, f) + InLines(b, t, f)
  {
    if b == [] {
      assert a + b == a;
    } else {
      var n := |b| - 1;
      assert (a + b)[..|a + b| - 1] == a + b[..n];
      LinesAppend(a, b[..n], t, f);
    }
  }

  lemma FlattenAppend(batches: seq<seq<RequestResult>>, raw: seq<RequestResult>, f: Weight)
    ensures Weigh(Flatten(batches + [raw]), f) == Weigh(Flatten(batches), f) + Weigh(raw, f)
  {
    assert (batches + [raw])[..|batches|] == batches;
    WeighAppend(Flatten(batches), raw, f);
  }

  /** A report line takes over exactly what its window held, once. */
  lemma {:induction false} ReportedOnce(s: State, order: seq<TestId>, t: TestId, f: Weight)
    requires Faithful(s) && Distinct(order) && forall u :: u in order ==> u in s.windows
    ensures InLines(ReportLines(s.windows, order), t, f) == if t in order then InWindow(s.windows, t, f) else 0
  {
    if order != [] {
      var n := |order| - 1;
      assert order == order[..n] + [order[n]];
      ReportedOnce(s, order[..n], t, f);
      WindowIsLabelled(s, order[n]);
      var lines := ReportLines(s.windows, order);
      assert lines[..|lines| - 1] == ReportLines(s.windows, order[..n]);
    }
  }

  lemma WindowIsLabelled(s: State, t: TestId)
    requires Faithful(s) && t in s.windows
    ensures s.windows[t].window.testId == t
    ensures s.windows[t].window.counts.requests == 0 ==> s.windows[t].batches == []
  {
    assert WindowOk(t, s.windows[t].window, s.windows[t].batches, s.windows[t].origins);
    EmptyWindowHoldsNothing(t, s.windows[t].window, s.windows[t].batches, s.windows[t].origins);
  }

  // ---------------------------------------------------------------- every step conserves

  /** The step adds to the pipeline exactly what it records. */
  ghost predicate Balanced(s: State, s': State, t: TestId, f: Weight) {
    Everything(s', t, f) - Everything(s, t, f) == Weigh(RecordedFor(s'.recorded, t), f) - Weigh(RecordedFor(s.recorded, t), f)
  }

  lemma OpenBalances(s: State, t0: TestId, w: WorkerId, now: int, t: TestId, f: Weight)
    ensures Balanced(s, Next(s, Open(t0, w, now)), t, f)
  {
    var cells := s.cells + [Cell(t0, w, now, NO_TALLY, [])];
    assert cells[..|s.cells|] == s.cells;
  }

  lemma RecordedOneMore(recorded: seq<(TestId, RequestResult)>, u: TestId, r: RequestResult, t: TestId, f: Weight)
    ensures Weigh(RecordedFor(recorded + [(u, r)], t), f) == Weigh(RecordedFor(recorded, t), f) + (if u == t then f(r) else 0)
  {
    var more := recorded + [(u, r)];
    assert more[..|recorded|] == recorded;
    assert RecordedFor(recorded, t) + [] == RecordedFor(recorded, t);
    WeighAppend(RecordedFor(recorded, t), [r], f);
  }

  lemma RecordBalances(s: State, i: nat, r: RequestResult, t: TestId, f: Weight)
    ensures Balanced(s, Next(s, Record(i, r)), t, f)
  {
    if i < |s.cells| {
      var c := s.cells[i];
      CellsUpdate(s.cells, i, Next(s, Record(i, r)).cells[i], t, f);
      WeighAppend(c.raw, [r], f);
      RecordedOneMore(s.recorded, c.testId, r, t, f);
      hide RecordedFor, InCells, InParcels, InWindow, InLines, Absorb, ReportLines;
    }
  }

  lemma FlushBalances(s: State, i: nat, now: int, published: bool, t: TestId, f: Weight)
    requires Faithful(s)
    ensures Balanced(s, Next(s, Flush(i, now, published)), t, f)
  {
    hide Faithful, TallyOf, BucketOf, InCells, InParcels, InLines, InWindow, RecordedFor, Absorb, ReportLines, Visits;
    if i < |s.cells| {
      var c := s.cells[i];
      var p := FlushedParcel(c, now);
      FlushedCount(s, i, now);
      CellsUpdate(s.cells, i, c.(start := now, tally := NO_TALLY, raw := []), t, f);
      ParcelsAppend(s.inFlight, p, t, f);
      ParcelsAppend(s.undelivered, p, t, f);
      FlushedPart(c, now, t, f);
      hide Weigh, CellPart, ParcelPart, FlushedParcel;
    }
  }

  /** The bucket carries what its cell held, and the emptied cell holds nothing. */
  lemma FlushedPart(c: Cell, now: int, t: TestId, f: Weight)
    ensures ParcelPart(FlushedParcel(c, now), t, f) == CellPart(c, t, f)
    ensures CellPart(c.(start := now, tally := NO_TALLY, raw := []), t, f) == 0
    ensures |c.raw| == 0 ==> CellPart(c, t, f) == 0
  {
  }

  lemma FlushedCount(s: State, i: nat, now: int)
    requires Faithful(s) && i < |s.cells|
    ensures FlushedParcel(s.cells[i], now).bucket.counts.requests == |s.cells[i].raw|
  {
    assert CellOk(s.cells[i]);
    TallyIsPlain(s.cells[i].raw);
  }

  lemma DeliverBalances(s: State, k: nat, t: TestId, f: Weight)
    ensures Balanced(s, Next(s, Deliver(k)), t, f)
  {
    if k < |s.inFlight| {
      var p := s.inFlight[k];
      ParcelsRemove(s.inFlight, k, t, f);
      WindowTakesParcel(s.windows, p, t, f);
      hide Flatten, Weigh, InCells, InParcels, InLines, InWindow, RecordedFor, Merged, Absorb;
    }
  }

  lemma WindowTakesParcel(windows: map<TestId, Live>, p: Parcel, t: TestId, f: Weight)
    ensures var u := p.bucket.testId;
      InWindow(windows[u := Absorb(if u in windows then windows[u] else FreshWindow(u), p)], t, f)
      == InWindow(windows, t, f) + ParcelPart(p, t, f)
  {
    var u := p.bucket.testId;
    FlattenAppend(if u in windows then windows[u].batches else [], p.raw, f);
    hide Merged;
  }

  lemma ReportBalances(s: State, order: seq<TestId>, t: TestId, f: Weight)
    requires Faithful(s)
    ensures Balanced(s, Next(s, Report(order)), t, f)
  {
    if Visits(s.windows, order) {
      ReportedOnce(s, order, t, f);
      LinesAppend(s.emitted, ReportLines(s.windows, order), t, f);
      if t in s.windows {
        WindowIsLabelled(s, t);
      }
    }
  }

  lemma NextBalances(s: State, e: Event, t: TestId, f: Weight)
    requires Faithful(s)
    ensures Balanced(s, Next(s, e), t, f)
  {
    hide Faithful, Balanced, Next;
    match e
    case Open(t0, w, now) => OpenBalances(s, t0, w, now, t, f);
    case Record(i, r) => RecordBalances(s, i, r, t, f);
    case Flush(i, now, published) => FlushBalances(s, i, now, published, t, f);
    case Deliver(k) => DeliverBalances(s, k, t, f);
    case Report(order) => ReportBalances(s, order, t, f);
  }

  /** In every run, for every test and every weight: what stands in collectors, buckets on the way or
      undelivered, windows and emitted lines weighs exactly what was recorded. */
  lemma {:induction false} ResultsAreConserved(es: seq<Event>, t: TestId, f: Weight)
    ensures Everything(Run(Start, es), t, f) == Weigh(RecordedFor(Run(Start, es).recorded, t), f)
    decreases |es|
  {
    hide Faithful, Next, Everything;
    if es == [] {
      NothingAtStart(t, f);
    } else {
      ResultsAreConserved(es[..|es| - 1], t, f);
      RunOk(es[..|es| - 1]);
      NextBalances(Run(Start, es[..|es| - 1]), es[|es| - 1], t, f);
    }
  }

  function Just(x: RequestResult): Weight { r => if r == x then 1 else 0 }

  lemma {:induction false} JustCounts(rs: seq<RequestResult>, x: RequestResult)
    ensures Weigh(rs, Just(x)) == multiset(rs)[x]
  {
    if rs != [] {
      var n := |rs| - 1;
      JustCounts(rs[..n], x);
      assert rs == rs[..n] + [rs[n]];
    }
  }

  /** Each result stands in the pipeline exactly as often as it was recorded. */
  lemma NoResultLostOrDoubled(es: seq<Event>, t: TestId, x: RequestResult)
    ensures Everything(Run(Start, es), t, Just(x)) == multiset(RecordedFor(Run(Start, es).recorded, t))[x]
  {
    hide Everything, Run;
    ResultsAreConserved(es, t, Just(x));
    JustCounts(RecordedFor(Run(Start, es).recorded, t), x);
  }

  lemma NothingAtStart(t: TestId, f: Weight)
    ensures Everything(Start, t, f) == 0
  {
  }

  // ---------------------------------------------------------------- the counters

  function By(m: Component): Weight { r => Counter(One(r), m) }

  lemma {:induction false} CountersAreWeights(rs: seq<RequestResult>, m: Component)
    ensures Counter(CountsOf(rs), m) == Weigh(rs, By(m))
  {
    if rs != [] {
      CountersAreWeights(rs[..|rs| - 1], m);
    }
  }

  function CellCounters(cells: seq<Cell>, t: TestId, m: Component): int {
    if cells == [] then 0
    else
      var c := cells[|cells| - 1];
      CellCounters(cells[..|cells| - 1], t, m) + if c.testId == t then Counter(c.tally.counts, m) else 0
  }

  function ParcelCounters(ps: seq<Parcel>, t: TestId, m: Component): int {
    if ps == [] then 0
    else
      var p := ps[|ps| - 1];
      ParcelCounters(ps[..|ps| - 1], t, m) + if p.bucket.testId == t then Counter(p.bucket.counts, m) else 0
  }

  function WindowCounter(windows: map<TestId, Live>, t: TestId, m: Component): int {
    if t in windows then Counter(windows[t].window.counts, m) else 0
  }

  function LineCounters(lines: seq<Line>, t: TestId, m: Component): int {
    if lines == [] then 0
    else
      var l := lines[|lines| - 1];
      LineCounters(lines[..|lines| - 1], t, m) + if l.snapshot.testId == t then Counter(l.snapshot.counts, m) else 0
  }

  lemma {:induction false} CellCountersAreWeights(cells: seq<Cell>, t: TestId, m: Component)
    requires forall i :: 0 <= i < |cells| ==> CellOk(cells[i])
    ensures CellCounters(cells, t, m) == InCells(cells, t, By(m))
  {
    hide By, Counter;
    if cells != [] {
      CellCountersAreWeights(cells[..|cells| - 1], t, m);
      CountersAreWeights(cells[|cells| - 1].raw, m);
    }
  }

  lemma {:induction false} ParcelCountersAreWeights(ps: seq<Parcel>, t: TestId, m: Component)
    requires forall i :: 0 <= i < |ps| ==> ParcelOk(ps[i])
    ensures ParcelCounters(ps, t, m) == InParcels(ps, t, By(m))
  {
    hide By, Counter;
    if ps != [] {
      ParcelCountersAreWeights(ps[..|ps| - 1], t, m);
      assert ParcelOk(ps[|ps| - 1]);
      CountersAreWeights(ps[|ps| - 1].raw, m);
    }
  }

  lemma {:induction false} LineCountersAreWeights(lines: seq<Line>, t: TestId, m: Component)
    requires forall i :: 0 <= i < |lines| ==> LineOk(lines[i])
    ensures LineCounters(lines, t, m) == InLines(lines, t, By(m))
  {
    hide By, Counter;
    if lines != [] {
      LineCountersAreWeights(lines[..|lines| - 1], t, m);
      assert LineOk(lines[|lines| - 1]);
      CountersAreWeights(Flatten(lines[|lines| - 1].batches), m);
    }
  }

  lemma WindowCounterIsWeight(s: State, t: TestId, m: Component)
    requires Faithful(s)
    ensures WindowCounter(s.windows, t, m) == InWindow(s.windows, t, By(m))
  {
    hide By, Counter;
    if t in s.windows {
      assert WindowOk(t, s.windows[t].window, s.windows[t].batches, s.windows[t].origins);
      CountersAreWeights(Flatten(s.windows[t].batches), m);
    }
  }

  /** Each counter of all reports, added to the counters of the windows, buckets and collectors still
      holding results, is the plain sum over all results recorded for the test. */
  lemma CountersAreConserved(es: seq<Event>, t: TestId, m: Component)
    ensures var s := Run(Start, es);
      CellCounters(s.cells, t, m) + ParcelCounters(s.inFlight, t, m) + ParcelCounters(s.undelivered, t, m)
        + WindowCounter(s.windows, t, m) + LineCounters(s.emitted, t, m)
      == Plain(RecordedFor(s.recorded, t), m)
  {
    var s := Run(Start, es);
    RunOk(es);
    ResultsAreConserved(es, t, By(m));
    hide Run, CellOk, ParcelOk, WindowOk, LineOk;
    CellCountersAreWeights(s.cells, t, m);
    ParcelCountersAreWeights(s.inFlight, t, m);
    ParcelCountersAreWeights(s.undelivered, t, m);
    WindowCounterIsWeight(s, t, m);
    LineCountersAreWeights(s.emitted, t, m);
    CountersAreWeights(RecordedFor(s.recorded, t), m);
    CountersArePlain(RecordedFor(s.recorded, t), m);
  }

  /** Requests are successes plus failures, and RPS is requests, in every emitted line. */
  lemma LinesAddUp(es: seq<Event>, i: nat)
    ensures var lines := Run(Start, es).emitted;
      i < |lines| ==>
        && lines[i].snapshot.counts.requests == lines[i].snapshot.counts.successes + lines[i].snapshot.counts.failures > 0
        && lines[i].snapshot.rps == lines[i].snapshot.counts.requests
  {
    var s := Run(Start, es);
    RunOk(es);
    hide Run;
    if i < |s.emitted| {
      var line := s.emitted[i];
      assert LineOk(line);
      var w :| WindowOk(line.snapshot.testId, w, line.batches, line.origins) && line.snapshot == SnapshotOf(w);
      TallyIsPlain(Flatten(line.batches));
      EmptyWindowHoldsNothing(line.snapshot.testId, w, line.batches, line.origins);
    }
  }

  /** An emitted line says of the results it stands for what is true of them: every counter, the success
      rate, and the number of different workers they came from. */
  lemma LinesReportTheirResults(es: seq<Event>, i: nat, m: Component)
    requires i < |Run(Start, es).emitted|
    ensures var line := Run(Start, es).emitted[i]; var all := Flatten(line.batches);
      && all != []
      && Counter(line.snapshot.counts, m) == Plain(all, m)
      && line.snapshot.successRate == SuccessCount(all) as real / |all| as real * 100.0
      && line.snapshot.workers == |WorkersOf(line.origins)| && |line.origins| == |line.batches|
  {
    var s := Run(Start, es);
    RunOk(es);
    hide Run;
    var line := s.emitted[i];
    assert LineOk(line);
    var w :| WindowOk(line.snapshot.testId, w, line.batches, line.origins) && line.snapshot == SnapshotOf(w);
    EmptyWindowHoldsNothing(line.snapshot.testId, w, line.batches, line.origins);
    TallyIsPlain(Flatten(line.batches));
    CountersArePlain(Flatten(line.batches), m);
    hide Flatten, TallyOf, TotalMs, MaxMs, Plain, Counter;
  }

  // ---------------------------------------------------------------- the stages do move

  /** A flush hands on everything its collector holds, under the collector's test and worker, and
      leaves the collector empty. */
  lemma FlushHandsOn(s: State, i: nat, now: int, published: bool)
    requires Faithful(s) && i < |s.cells|
    ensures var c := s.cells[i]; var s' := Next(s, Flush(i, now, published));
      && |s'.cells| == |s.cells| && s'.cells[i].raw == [] && s'.cells[i].start == now
      && s'.windows == s.windows && s'.emitted == s.emitted
      && (if published then s'.undelivered == s.undelivered else s'.inFlight == s.inFlight)
      && (if c.raw == [] then s'.inFlight == s.inFlight && s'.undelivered == s.undelivered
          else exists p :: HandsOn(p, c, now) && s'.inFlight + s'.undelivered == Placed(s, p, published))
  {
    var c := s.cells[i];
    assert CellOk(c);
    TallyIsPlain(c.raw);
    hide TallyOf, Faithful;
    assert HandsOn(FlushedParcel(c, now), c, now);
  }

  function Placed(s: State, p: Parcel, published: bool): seq<Parcel> {
    if published then s.inFlight + [p] + s.undelivered else s.inFlight + (s.undelivered + [p])
  }

  ghost predicate HandsOn(p: Parcel, c: Cell, now: int) {
    && p.raw == c.raw && p.bucket.testId == c.testId && p.bucket.workerId == c.workerId
    && p.bucket.windowStart == c.start && p.bucket.windowEnd == now
  }

  /** A delivery takes one bucket off the way and puts its results into its test's window. */
  lemma DeliveryReachesWindow(s: State, k: nat, t: TestId, f: Weight)
    requires k < |s.inFlight|
    ensures var s' := Next(s, Deliver(k));
      && |s'.inFlight| == |s.inFlight| - 1 && s'.cells == s.cells && s'.emitted == s.emitted && s'.undelivered == s.undelivered
      && InWindow(s'.windows, t, f) == InWindow(s.windows, t, f) + ParcelPart(s.inFlight[k], t, f)
  {
    WindowTakesParcel(s.windows, s.inFlight[k], t, f);
    hide Flatten, Weigh, Merged, Absorb, InWindow;
  }

  /** After a report every recorded result is in a line, except those still in collectors, on the way
      or undelivered. */
  lemma ReportsCatchUp(es: seq<Event>, order: seq<TestId>, t: TestId, f: Weight)
    requires Visits(Run(Start, es).windows, order)
    ensures var s := Run(Start, es); var s' := Next(s, Report(order));
      && |s'.emitted| == |s.emitted| + |order|
      && InWindow(s'.windows, t, f) == 0
      && InLines(s'.emitted, t, f) == Weigh(RecordedFor(s.recorded, t), f) - InCells(s.cells, t, f) - InParcels(s.inFlight, t, f) - InParcels(s.undelivered, t, f)
  {
    var s := Run(Start, es);
    RunOk(es);
    ResultsAreConserved(es, t, f);
    hide Run;
    ReportOk(s, order);
    ReportLinesOk(s, order);
    ReportBalances(s, order, t, f);
    NothingLeftInWindows(s, order, t, f);
    hide Next, Faithful, Visits, ReportLines, InCells, InParcels, InWindow, InLines, Weigh, RecordedFor;
  }

  lemma NothingLeftInWindows(s: State, order: seq<TestId>, t: TestId, f: Weight)
    requires Visits(s.windows, order)
    ensures var s' := Next(s, Report(order));
      && InWindow(s'.windows, t, f) == 0 && s'.emitted == s.emitted + ReportLines(s.windows, order)
      && s'.cells == s.cells && s'.inFlight == s.inFlight && s'.undelivered == s.undelivered && s'.recorded == s.recorded
  {
  }
}
