/** How far the reported latencies may be from the true ones. Each bucket truncates its total and its
    maximum to whole milliseconds (internal/metrics/collector.go); merging and reporting add no error
    (internal/aggregator). The bounds hold for every bucketing and every arrival order. */
module LatencyBound {
  import opened Domain
  import opened Metrics
  import opened Aggregation
  import opened Pipeline

  ghost predicate AllNonNegative(batches: seq<seq<RequestResult>>) {
    forall i :: 0 <= i < |batches| ==> NonNegative(batches[i])
  }

  lemma TruncationError(d: int)
    requires d >= 0
    ensures 0 <= d - Milliseconds(d) * NANOS_PER_MILLI < NANOS_PER_MILLI
  {
  }

  lemma TruncationIsMonotone(a: int, b: int)
    requires 0 <= a
    ensures Milliseconds(if a > b then a else b) == if Milliseconds(a) > Milliseconds(b) then Milliseconds(a) else Milliseconds(b)
  {
    if b >= 0 {
      TruncationError(a);
      TruncationError(b);
    }
  }

  lemma {:induction false} TallyAppend(a: seq<RequestResult>, b: seq<RequestResult>)
    requires NonNegative(a) && NonNegative(b)
    ensures TallyOf(a + b).totalLatency == TallyOf(a).totalLatency + TallyOf(b).totalLatency
    ensures TallyOf(a + b).maxLatency ==
      if TallyOf(b).maxLatency > TallyOf(a).maxLatency then TallyOf(b).maxLatency else TallyOf(a).maxLatency
  {
    if b == [] {
      assert a + b == a;
      TallyIsPlain(a);
      MaxIsNonNegative(a);
    } else {
      var n := |b| - 1;
      assert (a + b)[..|a + b| - 1] == a + b[..n];
      TallyAppend(a, b[..n]);
    }
  }

  lemma {:induction false} MaxIsNonNegative(rs: seq<RequestResult>)
    ensures TallyOf(rs).maxLatency >= 0
  {
    if rs != [] {
      MaxIsNonNegative(rs[..|rs| - 1]);
    }
  }

  lemma {:induction false} FlattenNonNegative(batches: seq<seq<RequestResult>>)
    requires AllNonNegative(batches)
    ensures NonNegative(Flatten(batches))
  {
    if batches != [] {
      FlattenNonNegative(batches[..|batches| - 1]);
      assert NonNegative(batches[|batches| - 1]);
    }
  }

  /** The truncated total is short by less than one millisecond for each bucket, and the truncated
      maximum is the truncation of the true maximum. */
  lemma {:induction false} BucketsTruncate(batches: seq<seq<RequestResult>>)
    requires AllNonNegative(batches)
    ensures var all := TallyOf(Flatten(batches));
      && 0 <= all.totalLatency - TotalMs(batches) * NANOS_PER_MILLI <= |batches| * NANOS_PER_MILLI
      && (batches != [] ==> all.totalLatency - TotalMs(batches) * NANOS_PER_MILLI < |batches| * NANOS_PER_MILLI)
      && MaxMs(batches) == Milliseconds(all.maxLatency)
  {
    if batches != [] {
      var n := |batches| - 1;
      assert AllNonNegative(batches[..n]);
      assert NonNegative(batches[n]);
      BucketsTruncate(batches[..n]);
      FlattenNonNegative(batches[..n]);
      TallyAppend(Flatten(batches[..n]), batches[n]);
      TallyIsPlain(batches[n]);
      TruncationError(TallyOf(batches[n]).totalLatency);
      MaxIsNonNegative(batches[n]);
      MaxIsNonNegative(Flatten(batches[..n]));
      TruncationIsMonotone(TallyOf(batches[n]).maxLatency, TallyOf(Flatten(batches[..n])).maxLatency);
    }
  }

  /** Nonempty batches hold at least one result each. */
  lemma {:induction false} BatchesAreFew(batches: seq<seq<RequestResult>>)
    requires NoEmptyBatch(batches)
    ensures |batches| <= |Flatten(batches)|
  {
    if batches != [] {
      BatchesAreFew(batches[..|batches| - 1]);
    }
  }

  /** The true mean latency of a list of results, in milliseconds. */
  function MeanMs(rs: seq<RequestResult>): real
    requires rs != []
  {
    TallyOf(rs).totalLatency as real / (|rs| as real * NANOS_PER_MILLI as real)
  }

  lemma QuotientBounds(total: int, ms: int, n: int, few: int)
    requires 0 < few <= n && 0 <= total - ms * NANOS_PER_MILLI < few * NANOS_PER_MILLI
    ensures var mean := total as real / (n as real * NANOS_PER_MILLI as real);
            ms as real / n as real <= mean < ms as real / n as real + 1.0
  {
    var d := n as real * NANOS_PER_MILLI as real;
    var avg := ms as real / n as real;
    assert avg * d == ms as real * NANOS_PER_MILLI as real by {
      assert avg * n as real == ms as real;
    }
    assert ms as real * NANOS_PER_MILLI as real <= total as real;
    assert total as real < ms as real * NANOS_PER_MILLI as real + d;
    DivideBounds(total as real, avg, d);
  }

  lemma CancelFactor(a: real, b: real, d: real)
    requires d > 0.0
    ensures a * d <= b * d ==> a <= b
    ensures a * d < b * d ==> a < b
  {
    if a > b {
      assert (a - b) * d > 0.0;
    }
  }

  lemma DivideBounds(x: real, a: real, d: real)
    requires d > 0.0 && a * d <= x < a * d + d
    ensures a <= x / d < a + 1.0
  {
    var q := x / d;
    assert q * d == x;
    CancelFactor(a, q, d);
    assert (a + 1.0) * d == a * d + d;
    CancelFactor(q, a + 1.0, d);
  }

  /** The bounds on one emitted line, against the very results its window had merged. */
  ghost predicate LatencyWithinBounds(line: Line)
    requires Flatten(line.batches) != []
  {
    var all := Flatten(line.batches);
    var truth := TallyOf(all);
    && line.snapshot.counts.requests == |all|
    && line.snapshot.maxLatency == Milliseconds(truth.maxLatency) as real
    && line.snapshot.avgLatency <= MeanMs(all) < line.snapshot.avgLatency + 1.0
    && line.snapshot.avgLatency < line.snapshot.maxLatency + 1.0
  }

  lemma {:induction false} TotalAtMostMax(rs: seq<RequestResult>)
    ensures TallyOf(rs).totalLatency <= |rs| * TallyOf(rs).maxLatency
  {
    if rs != [] {
      var n := |rs| - 1;
      TotalAtMostMax(rs[..n]);
      GrowingProduct(n, TallyOf(rs[..n]).maxLatency, TallyOf(rs).maxLatency);
    }
  }

  lemma GrowingProduct(n: nat, a: int, b: int)
    requires a <= b
    ensures n * a <= n * b && n * b + b == (n + 1) * b
  {
  }

  /** A mean is at most the maximum, so it is below the truncated maximum plus one. */
  lemma MeanBelowMax(total: int, max: int, n: int)
    requires n > 0 && max >= 0 && total <= n * max
    ensures total as real / (n as real * NANOS_PER_MILLI as real) < Milliseconds(max) as real + 1.0
  {
    TruncationError(max);
    var d := n as real * NANOS_PER_MILLI as real;
    var m := Milliseconds(max) + 1;
    assert max < m * NANOS_PER_MILLI;
    assert n * max < n * (m * NANOS_PER_MILLI) by { GrowingProduct(n, max + 1, m * NANOS_PER_MILLI); }
    var q := total as real / d;
    assert q * d == total as real;
    assert m as real * d == (n * (m * NANOS_PER_MILLI)) as real;
    CancelFactor(q, m as real, d);
  }

  lemma LineWithinBounds(line: Line)
    requires LineOk(line) && AllNonNegative(line.batches)
    ensures Flatten(line.batches) != [] && LatencyWithinBounds(line)
  {
    var w :| WindowOk(line.snapshot.testId, w, line.batches, line.origins) && line.snapshot == SnapshotOf(w);
    var all := Flatten(line.batches);
    BucketsTruncate(line.batches);
    BatchesAreFew(line.batches);
    TallyIsPlain(all);
    TotalAtMostMax(all);
    MaxIsNonNegative(all);
    hide TallyOf, Milliseconds, Flatten, TotalMs, MaxMs, LineOk;
    QuotientBounds(TallyOf(all).totalLatency, TotalMs(line.batches), |all|, |line.batches|);
    MeanBelowMax(TallyOf(all).totalLatency, TallyOf(all).maxLatency, |all|);
  }

  // ---------------------------------------------------------------- every line of every run

  ghost predicate TimesForward(es: seq<Event>) {
    forall i :: 0 <= i < |es| && es[i].Record? ==> es[i].r.latency >= 0
  }

  ghost predicate LinesTimed(lines: seq<Line>) {
    forall i :: 0 <= i < |lines| ==> AllNonNegative(lines[i].batches)
  }

  ghost predicate WindowsTimed(windows: map<TestId, Live>) {
    forall t :: t in windows ==> AllNonNegative(windows[t].batches)
  }

  ghost predicate Timed(s: State) {
    && (forall i :: 0 <= i < |s.cells| ==> NonNegative(s.cells[i].raw))
    && (forall i :: 0 <= i < |s.inFlight| ==> NonNegative(s.inFlight[i].raw))
    && WindowsTimed(s.windows)
    && LinesTimed(s.emitted)
  }

  lemma {:induction false} ReportLinesTimed(windows: map<TestId, Live>, order: seq<TestId>)
    requires WindowsTimed(windows) && forall t :: t in order ==> t in windows
    ensures LinesTimed(ReportLines(windows, order))
  {
    if order != [] {
      var n := |order| - 1;
      assert forall t :: t in order[..n] ==> t in order;
      ReportLinesTimed(windows, order[..n]);
      hide AllNonNegative;
      var l := windows[order[n]];
      assert ReportLines(windows, order) == ReportLines(windows, order[..n]) + [Line(SnapshotOf(l.window), l.batches, l.origins)];
    }
  }

  lemma RecordTimed(s: State, i: nat, r: RequestResult)
    requires Timed(s) && r.latency >= 0
    ensures Timed(Next(s, Record(i, r)))
  {
    hide WindowsTimed, LinesTimed, Recorded;
  }

  lemma DeliverTimed(s: State, k: nat)
    requires Timed(s)
    ensures Timed(Next(s, Deliver(k)))
  {
    hide LinesTimed, Merged, NonNegative;
  }

  lemma ReportTimed(s: State, order: seq<TestId>)
    requires Timed(s)
    ensures Timed(Next(s, Report(order)))
  {
    hide SnapshotOf, NonNegative;
    if Visits(s.windows, order) {
      ReportLinesTimed(s.windows, order);
      hide ReportLines;
    }
  }

  lemma NextTimed(s: State, e: Event)
    requires Timed(s) && (e.Record? ==> e.r.latency >= 0)
    ensures Timed(Next(s, e))
  {
    match e
    case Record(i, r) => RecordTimed(s, i, r);
    case Deliver(k) => DeliverTimed(s, k);
    case Report(order) => ReportTimed(s, order);
    case Open(_, _, _) => hide WindowsTimed, LinesTimed;
    case Flush(_, _, _) => hide WindowsTimed, LinesTimed, BucketOf;
  }

  lemma {:induction false} RunTimed(es: seq<Event>)
    requires TimesForward(es)
    ensures Timed(Run(Start, es))
    decreases |es|
  {
    hide Next;
    if es != [] {
      RunTimed(es[..|es| - 1]);
      NextTimed(Run(Start, es[..|es| - 1]), es[|es| - 1]);
    }
  }

  /** In every run in which no latency is negative, every line the aggregator emits reports the floor
      in milliseconds of the true maximum, and a mean that is at most the true mean, less than one
      millisecond below it, and less than one millisecond above the reported maximum. */
  lemma ReportedLatenciesAreBounded(es: seq<Event>, i: nat)
    requires TimesForward(es) && i < |Run(Start, es).emitted|
    ensures var line := Run(Start, es).emitted[i];
            Flatten(line.batches) != [] && LatencyWithinBounds(line)
  {
    RunOk(es);
    RunTimed(es);
    LineWithinBounds(Run(Start, es).emitted[i]);
  }
}
