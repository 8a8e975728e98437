/** A worker's metrics collector (internal/metrics/collector.go) and the numbers it hands on.
    Durations are whole nanoseconds, floats are reals, and counters are unbounded. */
module Metrics {
  import opened Domain
  import opened Sums

  const NANOS_PER_MILLI := 1_000_000

  datatype RequestResult = RequestResult(latency: int, success: bool, bytesSent: int, bytesReceived: int)

  /** The additive part of every collector, bucket, window and snapshot. */
  datatype Counts = Counts(requests: int, successes: int, failures: int, bytesSent: int, bytesReceived: int)

  const ZERO := Counts(0, 0, 0, 0, 0)

  function Plus(a: Counts, b: Counts): Counts {
    Counts(a.requests + b.requests, a.successes + b.successes, a.failures + b.failures,
           a.bytesSent + b.bytesSent, a.bytesReceived + b.bytesReceived)
  }

  datatype Component = Requests | Successes | Failures | BytesSent | BytesReceived

  function Counter(c: Counts, m: Component): int {
    match m
    case Requests => c.requests
    case Successes => c.successes
    case Failures => c.failures
    case BytesSent => c.bytesSent
    case BytesReceived => c.bytesReceived
  }

  /** What one result counts for. */
  function One(r: RequestResult): Counts {
    Counts(1, if r.success then 1 else 0, if r.success then 0 else 1, r.bytesSent, r.bytesReceived)
  }

  datatype Tally = Tally(counts: Counts, totalLatency: int, maxLatency: int)

  const NO_TALLY := Tally(ZERO, 0, 0)

  function Recorded(t: Tally, r: RequestResult): Tally {
    Tally(Plus(t.counts, One(r)), t.totalLatency + r.latency, if r.latency > t.maxLatency then r.latency else t.maxLatency)
  }

  /** time.Duration.Milliseconds truncates toward zero. */
  function Milliseconds(d: int): int {
    if d >= 0 then d / NANOS_PER_MILLI else -(-d / NANOS_PER_MILLI)
  }

  datatype Bucket = Bucket(
    testId: TestId, workerId: WorkerId, windowStart: int, windowEnd: int,
    counts: Counts, avgLatencyMs: real, maxLatencyMs: real)

  function BucketOf(testId: TestId, workerId: WorkerId, start: int, now: int, t: Tally): Bucket {
    Bucket(testId, workerId, start, now, t.counts,
           if t.counts.requests > 0 then Milliseconds(t.totalLatency) as real / t.counts.requests as real else 0.0,
           Milliseconds(t.maxLatency) as real)
  }

  class Collector {
    const testID: TestId
    const workerID: WorkerId
    var windowStart: int
    var requests: int
    var successes: int
    var failures: int
    var bytesSent: int
    var bytesReceived: int
    var totalLatency: int
    var maxLatency: int

    function View(): Tally
      reads this
    {
      Tally(Counts(requests, successes, failures, bytesSent, bytesReceived), totalLatency, maxLatency)
    }

    constructor (testID: TestId, workerID: WorkerId, now: int)
      ensures this.testID == testID && this.workerID == workerID && windowStart == now && View() == NO_TALLY
    {
      this.testID, this.workerID, windowStart := testID, workerID, now;
      requests, successes, failures := 0, 0, 0;
      bytesSent, bytesReceived, totalLatency, maxLatency := 0, 0, 0, 0;
    }

    method Record(result: RequestResult)
      modifies this
      ensures View() == Recorded(old(View()), result) && windowStart == old(windowStart)
    {
      requests := requests + 1;
      if result.success {
        successes := successes + 1;
      } else {
        failures := failures + 1;
      }
      bytesSent := bytesSent + result.bytesSent;
      bytesReceived := bytesReceived + result.bytesReceived;
      totalLatency := totalLatency + result.latency;
      if result.latency > maxLatency {
        maxLatency := result.latency;
      }
    }

    method Flush(now: int) returns (bucket: Bucket)
      modifies this
      ensures bucket == BucketOf(testID, workerID, old(windowStart), now, old(View()))
      ensures View() == NO_TALLY && windowStart == now
    {
      var avgLatency := 0.0;
      if requests > 0 {
        avgLatency := Milliseconds(totalLatency) as real / requests as real;
      }
      bucket := Bucket(testID, workerID, windowStart, now,
                       Counts(requests, successes, failures, bytesSent, bytesReceived),
                       avgLatency, Milliseconds(maxLatency) as real);
      windowStart := now;
      requests, successes, failures := 0, 0, 0;
      bytesSent, bytesReceived, totalLatency, maxLatency := 0, 0, 0, 0;
    }
  }

  // ---------------------------------------------------------------- the collector is a fold

  /** The tally of a list of results, in the order they were recorded. */
  function TallyOf(rs: seq<RequestResult>): Tally {
    if rs == [] then NO_TALLY else Recorded(TallyOf(rs[..|rs| - 1]), rs[|rs| - 1])
  }

  function CountsOf(rs: seq<RequestResult>): Counts { TallyOf(rs).counts }

  function Latencies(rs: seq<RequestResult>): seq<int> {
    seq(|rs|, i requires 0 <= i < |rs| => rs[i].latency)
  }

  function BytesOut(rs: seq<RequestResult>): seq<int> {
    seq(|rs|, i requires 0 <= i < |rs| => rs[i].bytesSent)
  }

  function BytesIn(rs: seq<RequestResult>): seq<int> {
    seq(|rs|, i requires 0 <= i < |rs| => rs[i].bytesReceived)
  }

  function SuccessCount(rs: seq<RequestResult>): nat {
    if rs == [] then 0 else SuccessCount(rs[..|rs| - 1]) + (if rs[|rs| - 1].success then 1 else 0)
  }

  ghost predicate NonNegative(rs: seq<RequestResult>) {
    forall i :: 0 <= i < |rs| ==> rs[i].latency >= 0
  }

  /** m is the greatest latency of a list, or 0 for an empty one. */
  ghost predicate IsMaxLatency(rs: seq<RequestResult>, m: int) {
    (forall i :: 0 <= i < |rs| ==> rs[i].latency <= m) && if rs == [] then m == 0 else exists i :: 0 <= i < |rs| && rs[i].latency == m
  }

  /** The plain statistic a counter stands for. */
  function Plain(rs: seq<RequestResult>, m: Component): int {
    match m
    case Requests => |rs|
    case Successes => SuccessCount(rs)
    case Failures => |rs| - SuccessCount(rs)
    case BytesSent => SeqSum(BytesOut(rs))
    case BytesReceived => SeqSum(BytesIn(rs))
  }

  /** The byte counters are the sums of the bytes sent and of the bytes received. */
  lemma {:induction false} BytesArePlain(rs: seq<RequestResult>)
    ensures TallyOf(rs).counts.bytesSent == SeqSum(BytesOut(rs))
    ensures TallyOf(rs).counts.bytesReceived == SeqSum(BytesIn(rs))
  {
    if rs != [] {
      var n := |rs| - 1;
      BytesArePlain(rs[..n]);
      assert BytesOut(rs)[..n] == BytesOut(rs[..n]) && BytesIn(rs)[..n] == BytesIn(rs[..n]);
    }
  }

  /** Every counter of a recorded list is its plain statistic. */
  lemma CountersArePlain(rs: seq<RequestResult>, m: Component)
    ensures Counter(CountsOf(rs), m) == Plain(rs, m)
  {
    TallyIsPlain(rs);
    BytesArePlain(rs);
    hide TallyOf;
  }

  /** The collector agrees with the plain statistics of the list it was given. */
  lemma {:induction false} TallyIsPlain(rs: seq<RequestResult>)
    ensures var t := TallyOf(rs);
      && t.counts.requests == |rs| == t.counts.successes + t.counts.failures
      && t.counts.successes == SuccessCount(rs)
      && t.counts.bytesSent == SeqSum(BytesOut(rs)) && t.counts.bytesReceived == SeqSum(BytesIn(rs))
      && t.totalLatency == SeqSum(Latencies(rs))
      && (NonNegative(rs) ==> IsMaxLatency(rs, t.maxLatency) && t.totalLatency >= 0)
  {
    if rs != [] {
      var n := |rs| - 1;
      TallyIsPlain(rs[..n]);
      BytesArePlain(rs);
      assert Latencies(rs)[..n] == Latencies(rs[..n]);
      if NonNegative(rs) {
        MaxOneMore(rs);
      }
    }
  }

  lemma TallyStep(rs: seq<RequestResult>)
    requires rs != []
    ensures TallyOf(rs) == Recorded(TallyOf(rs[..|rs| - 1]), rs[|rs| - 1])
  {
  }

  lemma MaxOneMore(rs: seq<RequestResult>)
    requires rs != [] && NonNegative(rs) && IsMaxLatency(rs[..|rs| - 1], TallyOf(rs[..|rs| - 1]).maxLatency)
    ensures IsMaxLatency(rs, TallyOf(rs).maxLatency)
  {
    var n := |rs| - 1;
    TallyStep(rs);
    assert rs == rs[..n] + [rs[n]];
    var m := TallyOf(rs[..n]).maxLatency;
    hide TallyOf;
    GreatestOneMore(rs[..n], rs[n], m);
  }

  lemma GreatestOneMore(rs: seq<RequestResult>, r: RequestResult, m: int)
    requires IsMaxLatency(rs, m) && r.latency >= 0
    ensures IsMaxLatency(rs + [r], if r.latency > m then r.latency else m)
  {
    var more := rs + [r];
    if r.latency > m || rs == [] {
      assert more[|rs|].latency == if r.latency > m then r.latency else m;
    } else {
      var i :| 0 <= i < |rs| && rs[i].latency == m;
      assert more[i].latency == m;
    }
  }

  lemma {:induction false} CountsAppend(a: seq<RequestResult>, b: seq<RequestResult>)
    ensures CountsOf(a + b) == Plus(CountsOf(a), CountsOf(b))
  {
    if b == [] {
      assert a + b == a;
    } else {
      var n := |b| - 1;
      assert (a + b)[..|a + b| - 1] == a + b[..n];
      CountsAppend(a, b[..n]);
    }
  }
}
