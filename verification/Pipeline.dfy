/** The telemetry pipeline as a whole: many collectors record and flush, buckets arrive in any order,
    windows merge and reports empty them. Next to every number the state carries the results it stands
    for, so that the staged, truncated pipeline can be compared with one plain fold. */
module Pipeline {
  import opened Domain
  import opened Metrics
  import opened Aggregation

  /** One assignment's collector and the results it holds. */
  datatype Cell = Cell(testId: TestId, workerId: WorkerId, start: int, tally: Tally, raw: seq<RequestResult>)

  /** Where a bucket comes from: the worker, and the time its results were collected in. */
  datatype Origin = Origin(worker: WorkerId, from: int, to: int)

  datatype Parcel = Parcel(bucket: Bucket, raw: seq<RequestResult>, origin: Origin)

  /** A window and the batches merged into it since its last report. */
  datatype Live = Live(window: Window, batches: seq<seq<RequestResult>>, origins: seq<Origin>)

  datatype Line = Line(snapshot: Snapshot, batches: seq<seq<RequestResult>>, origins: seq<Origin>)

  /** `undelivered` are buckets whose publication failed; `recorded` is everything ever recorded. */
  datatype State = State(
    cells: seq<Cell>, inFlight: seq<Parcel>, undelivered: seq<Parcel>,
    windows: map<TestId, Live>, emitted: seq<Line>, recorded: seq<(TestId, RequestResult)>)

  const Start := State([], [], [], map[], [], [])

  datatype Event =
    | Open(t: TestId, w: WorkerId, now: int)
    | Record(i: nat, r: RequestResult)
    | Flush(i: nat, now: int, published: bool)
    | Deliver(k: nat)
    | Report(order: seq<TestId>)

  function Absorb(l: Live, p: Parcel): Live { Live(Merged(l.window, p.bucket), l.batches + [p.raw], l.origins + [p.origin]) }

  function FreshWindow(t: TestId): Live { Live(NewWindow(t), [], []) }

  function FlushedParcel(c: Cell, now: int): Parcel {
    Parcel(BucketOf(c.testId, c.workerId, c.start, now, c.tally), c.raw, Origin(c.workerId, c.start, now))
  }

  ghost predicate Visits(windows: map<TestId, Live>, order: seq<TestId>) {
    Distinct(order) && forall t :: t in order <==> t in windows && windows[t].window.counts.requests != 0
  }

  ghost function ReportLines(windows: map<TestId, Live>, order: seq<TestId>): seq<Line>
    requires forall t :: t in order ==> t in windows
  {
    if order == [] then []
    else
      var l := windows[order[|order| - 1]];
      ReportLines(windows, order[..|order| - 1]) + [Line(SnapshotOf(l.window), l.batches, l.origins)]
  }

  ghost function Next(s: State, e: Event): State {
    match e
    case Open(t, w, now) => s.(cells := s.cells + [Cell(t, w, now, NO_TALLY, [])])
    case Record(i, r) =>
      if i >= |s.cells| then s
      else
        var c := s.cells[i];
        s.(cells := s.cells[i := c.(tally := Recorded(c.tally, r), raw := c.raw + [r])],
           recorded := s.recorded + [(c.testId, r)])
    case Flush(i, now, published) =>
      if i >= |s.cells| then s
      else
        var c := s.cells[i];
        var p := FlushedParcel(c, now);
        var s1 := s.(cells := s.cells[i := c.(start := now, tally := NO_TALLY, raw := [])]);
        if p.bucket.counts.requests == 0 then s1
        else if published then s1.(inFlight := s.inFlight + [p])
        else s1.(undelivered := s.undelivered + [p])
    case Deliver(k) =>
      if k >= |s.inFlight| then s
      else
        var p := s.inFlight[k];
        var t := p.bucket.testId;
        s.(inFlight := s.inFlight[..k] + s.inFlight[k + 1..],
           windows := s.windows[t := Absorb(if t in s.windows then s.windows[t] else FreshWindow(t), p)])
    case Report(order) =>
      if !Visits(s.windows, order) then s
      else s.(windows := map t | t in s.windows && s.windows[t].window.counts.requests != 0 :: FreshWindow(t),
              emitted := s.emitted + ReportLines(s.windows, order))
  }

  ghost function Run(s: State, es: seq<Event>): State
    decreases |es|
  {
    if es == [] then s else Next(Run(s, es[..|es| - 1]), es[|es| - 1])
  }

  // ---------------------------------------------------------------- the stages are what they stand for

  function Flatten(batches: seq<seq<RequestResult>>): seq<RequestResult> {
    if batches == [] then [] else Flatten(batches[..|batches| - 1]) + batches[|batches| - 1]
  }

  /** The milliseconds the buckets of these batches carry, each truncated on its own. */
  function TotalMs(batches: seq<seq<RequestResult>>): int {
    if batches == [] then 0
    else TotalMs(batches[..|batches| - 1]) + Milliseconds(TallyOf(batches[|batches| - 1]).totalLatency)
  }

  function MaxMs(batches: seq<seq<RequestResult>>): int {
    if batches == [] then 0
    else
      var m, x := MaxMs(batches[..|batches| - 1]), Milliseconds(TallyOf(batches[|batches| - 1]).maxLatency);
      if x > m then x else m
  }

  ghost predicate NoEmptyBatch(batches: seq<seq<RequestResult>>) {
    forall i :: 0 <= i < |batches| ==> batches[i] != []
  }

  ghost predicate CellOk(c: Cell) { c.tally == TallyOf(c.raw) }

  ghost predicate ParcelOk(p: Parcel) {
    && p.raw != []
    && p.bucket == BucketOf(p.bucket.testId, p.bucket.workerId, p.bucket.windowStart, p.bucket.windowEnd, TallyOf(p.raw))
    && p.origin == Origin(p.bucket.workerId, p.bucket.windowStart, p.bucket.windowEnd)
  }

  function WorkersOf(origins: seq<Origin>): set<WorkerId> { set o | o in origins :: o.worker }

  /** The window names the workers it heard from, the time its first bucket begins and the time its
      last one ends. */
  ghost predicate OriginsOk(w: Window, origins: seq<Origin>) {
    && w.workers == WorkersOf(origins)
    && (if origins == [] then w.start == {} && w.end == {}
        else w.start == {origins[0].from} && w.end == {origins[|origins| - 1].to})
  }

  ghost predicate WindowOk(t: TestId, w: Window, batches: seq<seq<RequestResult>>, origins: seq<Origin>) {
    && w.testId == t
    && NoEmptyBatch(batches)
    && w.counts == CountsOf(Flatten(batches))
    && w.totalLatency == TotalMs(batches) as real
    && w.maxLatency == MaxMs(batches) as real
    && |origins| == |batches| && OriginsOk(w, origins)
  }

  /** An emitted line is the snapshot of a window that had merged exactly these batches. */
  ghost predicate LineOk(l: Line) {
    l.batches != [] && exists w :: WindowOk(l.snapshot.testId, w, l.batches, l.origins) && l.snapshot == SnapshotOf(w)
  }

  ghost predicate Faithful(s: State) {
    && (forall i :: 0 <= i < |s.cells| ==> CellOk(s.cells[i]))
    && (forall i :: 0 <= i < |s.inFlight| ==> ParcelOk(s.inFlight[i]))
    && (forall i :: 0 <= i < |s.undelivered| ==> ParcelOk(s.undelivered[i]))
    && (forall t :: t in s.windows ==> WindowOk(t, s.windows[t].window, s.windows[t].batches, s.windows[t].origins))
    && (forall i :: 0 <= i < |s.emitted| ==> LineOk(s.emitted[i]))
  }

  lemma AverageTimesCount(total: int, n: int)
    requires n > 0
    ensures (total as real / n as real) * (n as real) == total as real
  {
  }

  /** Multiplying the average by the count gives back the truncated total: merging adds no error. */
  lemma MergeAddsWholeMilliseconds(w: Window, p: Parcel)
    requires ParcelOk(p)
    ensures Merged(w, p.bucket).totalLatency == w.totalLatency + Milliseconds(TallyOf(p.raw).totalLatency) as real
    ensures p.bucket.counts == CountsOf(p.raw) && p.bucket.counts.requests == |p.raw| > 0
    ensures p.bucket.maxLatencyMs == Milliseconds(TallyOf(p.raw).maxLatency) as real
  {
    hide Milliseconds, TallyOf;
    TallyIsPlain(p.raw);
    AverageTimesCount(Milliseconds(TallyOf(p.raw).totalLatency), |p.raw|);
  }

  lemma AbsorbKeepsWindow(t: TestId, l: Live, p: Parcel)
    requires WindowOk(t, l.window, l.batches, l.origins) && ParcelOk(p) && p.bucket.testId == t
    ensures WindowOk(t, Absorb(l, p).window, Absorb(l, p).batches, Absorb(l, p).origins)
  {
    var batches := l.batches + [p.raw];
    assert batches[..|batches| - 1] == l.batches;
    MergeAddsWholeMilliseconds(l.window, p);
    CountsAppend(Flatten(l.batches), p.raw);
    hide Milliseconds, TallyOf, ParcelOk;
    assert Flatten(batches) == Flatten(l.batches) + p.raw;
  }

  /** A window counts no request only if nothing was merged into it. */
  lemma EmptyWindowHoldsNothing(t: TestId, w: Window, batches: seq<seq<RequestResult>>, origins: seq<Origin>)
    requires WindowOk(t, w, batches, origins)
    ensures w.counts.requests == |Flatten(batches)|
    ensures w.counts.requests == 0 <==> batches == []
  {
    TallyIsPlain(Flatten(batches));
    if batches != [] {
      assert Flatten(batches)[|Flatten(batches)| - 1] == batches[|batches| - 1][|batches[|batches| - 1]| - 1];
    }
  }

  lemma {:induction false} ReportLinesOk(s: State, order: seq<TestId>)
    requires Faithful(s) && forall t :: t in order ==> t in s.windows && s.windows[t].window.counts.requests != 0
    ensures var lines := ReportLines(s.windows, order);
            |lines| == |order| && forall i :: 0 <= i < |lines| ==> LineOk(lines[i])
  {
    if order != [] {
      var n := |order| - 1;
      assert forall t :: t in order[..n] ==> t in order;
      assert order[n] in order;
      ReportLinesOk(s, order[..n]);
      var l := s.windows[order[n]];
      EmptyWindowHoldsNothing(order[n], l.window, l.batches, l.origins);
      assert LineOk(Line(SnapshotOf(l.window), l.batches, l.origins));
    }
  }

  lemma RecordOk(s: State, i: nat, r: RequestResult)
    requires Faithful(s)
    ensures Faithful(Next(s, Record(i, r)))
  {
    hide ParcelOk, WindowOk, LineOk, Absorb, ReportLines, FlushedParcel;
    if i < |s.cells| {
      var c := s.cells[i];
      var c' := c.(tally := Recorded(c.tally, r), raw := c.raw + [r]);
      assert CellOk(c') by {
        assert c'.raw[..|c.raw|] == c.raw;
      }
      hide CellOk, Recorded;
    }
  }

  lemma FlushOk(s: State, i: nat, now: int, published: bool)
    requires Faithful(s)
    ensures Faithful(Next(s, Flush(i, now, published)))
  {
    hide WindowOk, LineOk;
    if i < |s.cells| {
      TallyIsPlain(s.cells[i].raw);
      FlushedParcelOk(s.cells[i], now);
      hide ParcelOk;
    }
  }

  lemma FlushedParcelOk(c: Cell, now: int)
    requires CellOk(c)
    ensures FlushedParcel(c, now).bucket.counts.requests != 0 ==> ParcelOk(FlushedParcel(c, now))
  {
    TallyIsPlain(c.raw);
  }

  lemma DeliverOk(s: State, k: nat)
    requires Faithful(s)
    ensures Faithful(Next(s, Deliver(k)))
  {
    hide LineOk, WindowOk, ParcelOk, CellOk, FreshWindow, ReportLines, Absorb;
    if k < |s.inFlight| {
      var p := s.inFlight[k];
      var t := p.bucket.testId;
      FreshWindowOk(t);
      var l := if t in s.windows then s.windows[t] else FreshWindow(t);
      AbsorbKeepsWindow(t, l, p);
      var rest := TakenOutOk(s.inFlight, k);
      var l' := Absorb(l, p);
      assert Next(s, Deliver(k)) == s.(inFlight := rest, windows := s.windows[t := l']);
      NewWindowOk(s, rest, t, l');
    }
  }

  lemma NewWindowOk(s: State, rest: seq<Parcel>, t: TestId, l: Live)
    requires Faithful(s) && WindowOk(t, l.window, l.batches, l.origins) && forall i :: 0 <= i < |rest| ==> ParcelOk(rest[i])
    ensures Faithful(s.(inFlight := rest, windows := s.windows[t := l]))
  {
    hide LineOk, WindowOk, ParcelOk, CellOk;
  }

  lemma TakenOutOk(ps: seq<Parcel>, k: nat) returns (rest: seq<Parcel>)
    requires k < |ps| && forall i :: 0 <= i < |ps| ==> ParcelOk(ps[i])
    ensures rest == ps[..k] + ps[k + 1..] && forall i :: 0 <= i < |rest| ==> ParcelOk(rest[i])
  {
    hide ParcelOk;
    rest := ps[..k] + ps[k + 1..];
  }

  lemma FreshWindowOk(t: TestId)
    ensures WindowOk(t, FreshWindow(t).window, FreshWindow(t).batches, FreshWindow(t).origins)
  {
  }

  lemma ReportOk(s: State, order: seq<TestId>)
    requires Faithful(s)
    ensures Faithful(Next(s, Report(order)))
  {
    hide ParcelOk, LineOk;
    if Visits(s.windows, order) {
      ReportLinesOk(s, order);
      forall t | t in Next(s, Report(order)).windows
        ensures WindowOk(t, Next(s, Report(order)).windows[t].window, Next(s, Report(order)).windows[t].batches, Next(s, Report(order)).windows[t].origins)
      {
        FreshWindowOk(t);
      }
    }
  }

  lemma NextOk(s: State, e: Event)
    requires Faithful(s)
    ensures Faithful(Next(s, e))
  {
    match e
    case Record(i, r) => RecordOk(s, i, r);
    case Flush(i, now, published) => FlushOk(s, i, now, published);
    case Deliver(k) => DeliverOk(s, k);
    case Report(order) => ReportOk(s, order);
    case Open(_, _, _) =>
  }

  lemma {:induction false} RunOk(es: seq<Event>)
    ensures Faithful(Run(Start, es))
    decreases |es|
  {
    hide Faithful, Next;
    if es == [] {
      StartOk();
    } else {
      RunOk(es[..|es| - 1]);
      NextOk(Run(Start, es[..|es| - 1]), es[|es| - 1]);
    }
  }

  lemma StartOk()
    ensures Faithful(Start)
  {
  }

  // ---------------------------------------------------------------- the steps are the aggregator's

  function Views(windows: map<TestId, Live>): map<TestId, Window> { map t | t in windows :: windows[t].window }

  /** A delivery does to the windows what the method Aggregator.Deliver does to the store. */
  lemma DeliveryIsTheAggregators(s: State, k: nat)
    requires k < |s.inFlight|
    ensures var b := s.inFlight[k].bucket; var t := b.testId; var m := Views(s.windows);
      Views(Next(s, Deliver(k)).windows) == m[t := Merged(if t in m then m[t] else NewWindow(t), b)]
  {
    hide Merged;
  }

  function Snapshots(lines: seq<Line>): seq<Snapshot> {
    seq(|lines|, i requires 0 <= i < |lines| => lines[i].snapshot)
  }

  lemma {:induction false} LinesAreSnapshots(windows: map<TestId, Live>, order: seq<TestId>)
    requires forall t :: t in order ==> t in windows
    ensures Snapshots(ReportLines(windows, order)) == Lines(Views(windows), order)
  {
    hide SnapshotOf, NewWindow;
    if order != [] {
      var n := |order| - 1;
      assert forall t :: t in order[..n] ==> t in order;
      assert order[n] in order;
      LinesAreSnapshots(windows, order[..n]);
    }
  }

  /** A report does to the windows what the method Aggregator.Report does to the store, and emits the
      same snapshots in the same order. */
  lemma ReportIsTheAggregators(s: State, order: seq<TestId>)
    requires Visits(s.windows, order)
    ensures var s' := Next(s, Report(order)); var m := Views(s.windows);
      && Lists(order, NonEmpty(m))
      && Views(s'.windows) == AfterReport(m)
      && s'.emitted[|s.emitted|..] == ReportLines(s.windows, order) && Snapshots(s'.emitted[|s.emitted|..]) == Lines(m, order)
  {
    LinesAreSnapshots(s.windows, order);
    hide SnapshotOf, Lines, ReportLines, Snapshots;
  }
}
