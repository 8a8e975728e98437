/** The aggregator: per-test global windows, the store that holds them, merging and reporting
    (internal/aggregator). */
module Aggregation {
  import opened Domain
  import opened Metrics

  /** The value of a GlobalWindow. `start` is empty while WindowStart is the zero time. */
  datatype Window = Window(
    testId: TestId, start: set<int>, end: set<int>, counts: Counts,
    totalLatency: real, maxLatency: real, workers: set<WorkerId>)

  function NewWindow(testId: TestId): Window {
    Window(testId, {}, {}, ZERO, 0.0, 0.0, {})
  }

  function Merged(w: Window, b: Bucket): Window {
    Window(
      w.testId,
      if w.start == {} then {b.windowStart} else w.start,
      {b.windowEnd},
      Plus(w.counts, b.counts),
      w.totalLatency + b.avgLatencyMs * (b.counts.requests as real),
      if b.maxLatencyMs > w.maxLatency then b.maxLatencyMs else w.maxLatency,
      w.workers + {b.workerId})
  }

  datatype Snapshot = Snapshot(
    testId: TestId, workers: nat, counts: Counts, avgLatency: real, maxLatency: real, successRate: real, rps: int)

  function SnapshotOf(w: Window): Snapshot {
    var n := w.counts.requests;
    Snapshot(w.testId, |w.workers|, w.counts,
             if n > 0 then w.totalLatency / n as real else 0.0,
             w.maxLatency,
             if n > 0 then w.counts.successes as real / n as real * 100.0 else 0.0,
             n)
  }

  /** What a report leaves of the store: empty windows are deleted, the others start over. */
  ghost function AfterReport(m: map<TestId, Window>): map<TestId, Window> {
    map t | t in m && m[t].counts.requests != 0 :: NewWindow(t)
  }

  /** The store in the middle of a report, with the tests of todo still to be visited. */
  ghost function PartlyReported(m: map<TestId, Window>, todo: set<TestId>): map<TestId, Window> {
    map t | t in m && (t in todo || m[t].counts.requests != 0) :: if t in todo then m[t] else NewWindow(t)
  }

  ghost function NonEmpty(m: map<TestId, Window>): set<TestId> {
    set t | t in m && m[t].counts.requests != 0
  }

  /** The sequence lists the set, each element once. */
  ghost predicate Lists(order: seq<TestId>, s: set<TestId>) {
    Distinct(order) && forall t :: t in order <==> t in s
  }

  /** The snapshots of the listed windows, in that order. */
  ghost function Lines(m: map<TestId, Window>, order: seq<TestId>): (lines: seq<Snapshot>)
    ensures |lines| == |order|
  {
    if order == [] then []
    else
      var t := order[|order| - 1];
      Lines(m, order[..|order| - 1]) + [SnapshotOf(if t in m then m[t] else NewWindow(t))]
  }

  lemma ListsOneMore(order: seq<TestId>, s: set<TestId>, todo: set<TestId>, t: TestId)
    requires Lists(order, s - todo) && t in todo
    ensures if t in s then Lists(order + [t], s - (todo - {t})) else Lists(order, s - (todo - {t}))
  {
  }

  lemma LinesOneMore(m: map<TestId, Window>, order: seq<TestId>, t: TestId)
    requires t in m
    ensures Lines(m, order + [t]) == Lines(m, order) + [SnapshotOf(m[t])]
  {
    assert (order + [t])[..|order|] == order;
  }

  lemma PartlyReportedStep(m: map<TestId, Window>, todo: set<TestId>, t: TestId)
    requires t in todo && t in m
    ensures t in PartlyReported(m, todo) && PartlyReported(m, todo)[t] == m[t]
    ensures PartlyReported(m, todo - {t}) ==
      if m[t].counts.requests == 0 then PartlyReported(m, todo) - {t} else PartlyReported(m, todo)[t := NewWindow(t)]
  {
  }

  lemma NothingListed(m: map<TestId, Window>)
    ensures Lists([], NonEmpty(m) - m.Keys) && Lines(m, []) == []
    ensures NonEmpty(m) - {} == NonEmpty(m)
  {
  }

  lemma PartlyReportedEnds(m: map<TestId, Window>)
    ensures PartlyReported(m, m.Keys) == m && PartlyReported(m, {}) == AfterReport(m)
  {
  }

  class GlobalWindow {
    const testID: TestId
    var windowStart: set<int>
    var windowEnd: set<int>
    var requests: int
    var successes: int
    var failures: int
    var bytesSent: int
    var bytesReceived: int
    var totalLatency: real
    var maxLatency: real
    var workers: set<WorkerId>

    function View(): Window
      reads this
    {
      Window(testID, windowStart, windowEnd, Counts(requests, successes, failures, bytesSent, bytesReceived),
             totalLatency, maxLatency, workers)
    }

    constructor (testID: TestId)
      ensures this.testID == testID && View() == NewWindow(testID)
    {
      this.testID := testID;
      windowStart, windowEnd, workers := {}, {}, {};
      requests, successes, failures := 0, 0, 0;
      bytesSent, bytesReceived := 0, 0;
      totalLatency, maxLatency := 0.0, 0.0;
    }

    method Merge(bucket: Bucket)
      modifies this
      ensures View() == Merged(old(View()), bucket)
    {
      if windowStart == {} {
        windowStart := {bucket.windowStart};
      }
      windowEnd := {bucket.windowEnd};
      requests := requests + bucket.counts.requests;
      successes := successes + bucket.counts.successes;
      failures := failures + bucket.counts.failures;
      bytesSent := bytesSent + bucket.counts.bytesSent;
      bytesReceived := bytesReceived + bucket.counts.bytesReceived;
      totalLatency := totalLatency + bucket.avgLatencyMs * (bucket.counts.requests as real);
      if bucket.maxLatencyMs > maxLatency {
        maxLatency := bucket.maxLatencyMs;
      }
      workers := workers + {bucket.workerId};
    }

    /** The part of report that empties a window. */
    method Reset()
      modifies this
      ensures View() == NewWindow(testID)
    {
      requests, successes, failures := 0, 0, 0;
      bytesSent, bytesReceived := 0, 0;
      totalLatency, maxLatency := 0.0, 0.0;
      windowStart, windowEnd := {}, {};
      workers := {};
    }
  }

  class Store {
    var tests: map<TestId, GlobalWindow>

    /** Different tests have different windows, each labelled with its test. */
    ghost predicate Valid()
      reads this, tests.Values
    {
      && (forall t :: t in tests ==> tests[t].testID == t)
      && (forall t, u :: t in tests && u in tests && t != u ==> tests[t] != tests[u])
    }

    ghost function View(): map<TestId, Window>
      reads this, tests.Values
    {
      map t | t in tests :: tests[t].View()
    }

    constructor ()
      ensures Valid() && tests == map[]
    {
      tests := map[];
    }

    /** Looks the window up and creates it if it is missing. */
    method Get(testID: TestId) returns (window: GlobalWindow)
      requires Valid()
      modifies this
      ensures Valid() && testID in tests && tests[testID] == window
      ensures testID in old(tests) ==> tests == old(tests)
      ensures testID !in old(tests) ==>
        tests == old(tests)[testID := window] && fresh(window) && window.View() == NewWindow(testID)
      ensures View() == if testID in old(tests) then old(View()) else old(View())[testID := NewWindow(testID)]
    {
      if testID in tests {
        return tests[testID];
      }
      window := new GlobalWindow(testID);
      assert forall t :: t in tests ==> tests[t] != window;
      tests := tests[testID := window];
    }
  }

  class Aggregator {
    const store: Store

    constructor ()
      ensures fresh(store) && store.Valid() && store.View() == map[]
    {
      store := new Store();
    }

    /** The subscriber's callback, with nothing between Get and Merge. */
    method Deliver(bucket: Bucket)
      requires store.Valid()
      modifies store, store.tests.Values
      ensures store.Valid()
      ensures store.View() == old(store.View())[bucket.testId :=
        Merged(if bucket.testId in old(store.tests) then old(store.View())[bucket.testId] else NewWindow(bucket.testId), bucket)]
    {
      hide Merged, NewWindow, GlobalWindow.View;
      var window := store.Get(bucket.testId);
      MergeInto(window, bucket);
    }

    /** Merging into one window of the store leaves the others as they are. */
    method MergeInto(window: GlobalWindow, bucket: Bucket)
      requires store.Valid() && bucket.testId in store.tests && store.tests[bucket.testId] == window
      modifies window
      ensures store.Valid() && store.tests == old(store.tests)
      ensures store.View() == old(store.View())[bucket.testId := Merged(old(store.View())[bucket.testId], bucket)]
    {
      hide Merged;
      window.Merge(bucket);
    }

    /** Takes a snapshot of every window with requests, in some order, and empties it; deletes the
        windows without requests. */
    method Report() returns (snapshots: seq<Snapshot>, ghost order: seq<TestId>)
      requires store.Valid()
      modifies store, store.tests.Values
      ensures store.Valid()
      ensures store.View() == AfterReport(old(store.View()))
      ensures Lists(order, NonEmpty(old(store.View())))
      ensures snapshots == Lines(old(store.View()), order)
    {
      hide AfterReport, PartlyReported, SnapshotOf, NewWindow, Lists, Lines;
      snapshots, order := [], [];
      ghost var before := store.View();
      PartlyReportedEnds(before);
      NothingListed(before);
      var todo := store.tests.Keys;
      assert todo == before.Keys;
      while todo != {}
        invariant store.Valid() && todo <= before.Keys && store.tests.Values <= old(store.tests.Values)
        invariant store.View() == PartlyReported(before, todo)
        invariant Lists(order, NonEmpty(before) - todo)
        invariant snapshots == Lines(before, order)
      {
        var testID :| testID in todo;
        PartlyReportedStep(before, todo, testID);
        assert testID in store.View();
        var line := ReportOne(testID);
        ListsOneMore(order, NonEmpty(before), todo, testID);
        LinesOneMore(before, order, testID);
        todo := todo - {testID};
        if line != [] {
          order := order + [testID];
        }
        snapshots := snapshots + line;
      }
    }

    /** The body of the report loop for one test. */
    method ReportOne(testID: TestId) returns (line: seq<Snapshot>)
      requires store.Valid() && testID in store.tests
      modifies store, store.tests.Values
      ensures store.Valid() && store.tests.Values <= old(store.tests.Values)
      ensures line == if old(store.View())[testID].counts.requests == 0 then [] else [SnapshotOf(old(store.View())[testID])]
      ensures store.View() ==
        if line == [] then old(store.View()) - {testID} else old(store.View())[testID := NewWindow(testID)]
    {
      var window := store.tests[testID];
      if window.requests == 0 {
        store.tests := store.tests - {testID};
        line := [];
      } else {
        line := [TakeSnapshot(window)];
        window.Reset();
      }
    }

    /** The numbers of one report line. */
    function TakeSnapshot(window: GlobalWindow): (s: Snapshot)
      requires window.requests != 0
      reads window
      ensures s == SnapshotOf(window.View())
    {
      var avgLatency := if window.requests > 0 then window.totalLatency / window.requests as real else 0.0;
      var successRate := if window.requests > 0 then window.successes as real / window.requests as real * 100.0 else 0.0;
      Snapshot(window.testID, |window.workers|, window.View().counts, avgLatency, window.maxLatency, successRate, window.requests)
    }
  }
}
