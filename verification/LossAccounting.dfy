/** The aggregator at the level of its locks. A subscriber callback looks its window up, creates it if
    need be and merges into it in separately locked steps (internal/aggregator/subscriber.go), while a
    report holds the store's lock but takes each window's lock in turn. A bucket can therefore reach a
    window that a report has deleted meanwhile. This module says exactly when, and that nothing else
    is ever lost or counted twice. */
module LossAccounting {
  import opened Domain
  import opened Sums
  import opened Metrics
  import opened Aggregation

  type CallbackId = nat

  /** One delivered bucket, as the part it becomes of some window. */
  datatype Part = Part(id: CallbackId, bucket: Bucket)

  /** A window with the parts merged since its last reset, and the time a report deleted it. */
  datatype Cell = Cell(window: Window, parts: seq<Part>, deletedAt: set<nat>)

  /** Where a callback stands: `Missed` has not found a window under the read lock, `Got` holds the
      address of its window. Times are numbers of events. */
  datatype Stage = Fresh | Missed | Got(at: nat, gotAt: nat) | Done(at: nat, gotAt: nat, mergedAt: nat)

  datatype Line = Line(snapshot: Snapshot, parts: seq<Part>)

  /** `heap` holds every window ever created, `live` is the store's map, `todo` the tests the running
      report has still to visit. */
  datatype State = State(
    clock: nat, heap: seq<Cell>, live: map<TestId, nat>, buckets: seq<Bucket>, stages: seq<Stage>,
    locked: bool, todo: set<TestId>, lines: seq<Line>)

  const Start := State(0, [], map[], [], [], false, {}, [])

  datatype Event =
    | Arrive(b: Bucket)
    | Look(c: CallbackId)
    | Insert(c: CallbackId)
    | Merge(c: CallbackId)
    | BeginReport
    | Visit(t: TestId)
    | EndReport

  function At(s: State, e: CallbackId, st: Stage): State
    requires e < |s.stages|
  {
    s.(stages := s.stages[e := st])
  }

  function Absorbed(cell: Cell, p: Part): Cell {
    cell.(window := Merged(cell.window, p.bucket), parts := cell.parts + [p])
  }

  function Step(s: State, e: Event): State
    requires |s.buckets| == |s.stages| && forall t :: t in s.live ==> s.live[t] < |s.heap|
  {
    match e
    case Arrive(b) => s.(buckets := s.buckets + [b], stages := s.stages + [Fresh])
    case Look(c) =>
      if s.locked || c >= |s.stages| || !s.stages[c].Fresh? then s
      else
        var t := s.buckets[c].testId;
        At(s, c, if t in s.live then Got(s.live[t], s.clock) else Missed)
    case Insert(c) =>
      if s.locked || c >= |s.stages| || !s.stages[c].Missed? then s
      else
        var t := s.buckets[c].testId;
        if t in s.live then At(s, c, Got(s.live[t], s.clock))
        else
          At(s.(heap := s.heap + [Cell(NewWindow(t), [], {})], live := s.live[t := |s.heap|]), c, Got(|s.heap|, s.clock))
    case Merge(c) =>
      if c >= |s.stages| || !s.stages[c].Got? || s.stages[c].at >= |s.heap| then s
      else
        var a := s.stages[c].at;
        At(s.(heap := s.heap[a := Absorbed(s.heap[a], Part(c, s.buckets[c]))]), c, Done(a, s.stages[c].gotAt, s.clock))
    case BeginReport => if s.locked then s else s.(locked := true, todo := s.live.Keys)
    case Visit(t) =>
      if t !in s.todo || t !in s.live then s
      else
        var a := s.live[t];
        var cell := s.heap[a];
        if cell.window.counts.requests == 0 then
          s.(live := s.live - {t}, heap := s.heap[a := cell.(deletedAt := {s.clock})], todo := s.todo - {t})
        else
          s.(heap := s.heap[a := Cell(NewWindow(t), [], cell.deletedAt)], todo := s.todo - {t},
             lines := s.lines + [Line(SnapshotOf(cell.window), cell.parts)])
    case EndReport => if s.todo == {} then s.(locked := false) else s
  }

  // ---------------------------------------------------------------- the store and its windows

  /** A window is in the store under its own test exactly until a report deletes it: no creation ever
      replaces a window another callback has just created. */
  ghost predicate Linked(s: State) {
    && |s.buckets| == |s.stages|
    && (forall t :: t in s.live ==> s.live[t] < |s.heap| && s.heap[s.live[t]].window.testId == t && s.heap[s.live[t]].deletedAt == {})
    && (forall a :: 0 <= a < |s.heap| && s.heap[a].deletedAt == {} ==>
          s.heap[a].window.testId in s.live && s.live[s.heap[a].window.testId] == a)
  }

  ghost function Ticked(s: State, e: Event): State
    requires Linked(s)
  {
    Step(s, e).(clock := s.clock + 1)
  }

  lemma GetLinked(s: State, e: Event)
    requires Linked(s) && (e.Look? || e.Insert? || e.Arrive?)
    ensures Linked(Ticked(s, e))
  {
    var s' := Ticked(s, e);
    if s'.heap != s.heap {
      var n := |s.heap|;
      assert s'.heap[n].window.testId in s'.live;
      forall a | 0 <= a < |s'.heap| && s'.heap[a].deletedAt == {}
        ensures s'.heap[a].window.testId in s'.live && s'.live[s'.heap[a].window.testId] == a
      {
        if a < n {
          assert s'.heap[a] == s.heap[a];
        }
      }
    }
  }

  lemma MergeLinked(s: State, c: CallbackId)
    requires Linked(s)
    ensures Linked(Ticked(s, Merge(c)))
  {
  }

  lemma VisitLinked(s: State, t: TestId)
    requires Linked(s)
    ensures Linked(Ticked(s, Visit(t)))
  {
    hide SnapshotOf;
  }

  lemma NextLinked(s: State, e: Event)
    requires Linked(s)
    ensures Linked(Ticked(s, e))
  {
    match e
    case Merge(c) => MergeLinked(s, c);
    case Visit(t) => VisitLinked(s, t);
    case BeginReport =>
    case EndReport =>
    case _ => GetLinked(s, e);
  }

  ghost function Next(s: State, e: Event): (s': State)
    requires Linked(s)
    ensures Linked(s')
  {
    NextLinked(s, e);
    Ticked(s, e)
  }

  ghost function Run(es: seq<Event>): (s: State)
    ensures Linked(s) && s.clock == |es|
    decreases |es|
  {
    if es == [] then Start
    else
      Next(Run(es[..|es| - 1]), es[|es| - 1])
  }

  // ---------------------------------------------------------------- windows are their parts

  function CountsOfParts(parts: seq<Part>): Counts {
    if parts == [] then ZERO else Plus(CountsOfParts(parts[..|parts| - 1]), parts[|parts| - 1].bucket.counts)
  }

  /** No worker publishes a bucket without requests. */
  ghost predicate NoEmptyBuckets(es: seq<Event>) {
    forall i :: 0 <= i < |es| && es[i].Arrive? ==> es[i].b.counts.requests > 0
  }

  ghost predicate PartsOf(t: TestId, parts: seq<Part>) {
    forall i :: 0 <= i < |parts| ==> parts[i].bucket.testId == t && parts[i].bucket.counts.requests > 0
  }

  ghost predicate CellOk(cell: Cell) {
    cell.window.counts == CountsOfParts(cell.parts) && PartsOf(cell.window.testId, cell.parts)
  }

  /** A line's counters are those of the buckets it stands for, all of them of its test. */
  ghost predicate LineOk(l: Line) {
    l.parts != [] && l.snapshot.counts == CountsOfParts(l.parts) && PartsOf(l.snapshot.testId, l.parts)
  }

  ghost predicate StageOk(s: State, c: CallbackId)
    requires c < |s.stages| == |s.buckets|
  {
    var st := s.stages[c];
    match st
    case Got(a, g) =>
      && a < |s.heap| && s.heap[a].window.testId == s.buckets[c].testId
      && g < s.clock && forall d :: d in s.heap[a].deletedAt ==> g < d
    case Done(a, g, m) => a < |s.heap| && g < m < s.clock
    case _ => true
  }

  ghost predicate DeletionsPast(s: State) {
    forall a :: 0 <= a < |s.heap| ==> forall d :: d in s.heap[a].deletedAt ==> d < s.clock
  }

  ghost predicate StagesOk(s: State)
    requires |s.stages| == |s.buckets|
  {
    forall c :: 0 <= c < |s.stages| ==> StageOk(s, c)
  }

  ghost predicate BucketsOk(buckets: seq<Bucket>) {
    forall c :: 0 <= c < |buckets| ==> buckets[c].counts.requests > 0
  }

  ghost predicate CellsOk(heap: seq<Cell>) {
    forall a :: 0 <= a < |heap| ==> CellOk(heap[a])
  }

  ghost predicate LinesOk(lines: seq<Line>) {
    forall i :: 0 <= i < |lines| ==> LineOk(lines[i])
  }

  ghost predicate Tidy(s: State) {
    Linked(s) && BucketsOk(s.buckets) && StagesOk(s) && CellsOk(s.heap) && LinesOk(s.lines) && DeletionsPast(s)
  }

  lemma {:induction false} PartsCount(t: TestId, parts: seq<Part>)
    requires PartsOf(t, parts)
    ensures CountsOfParts(parts).requests >= |parts|
  {
    if parts != [] {
      PartsCount(t, parts[..|parts| - 1]);
    }
  }

  lemma AbsorbedOk(cell: Cell, p: Part)
    requires CellOk(cell) && p.bucket.testId == cell.window.testId && p.bucket.counts.requests > 0
    ensures CellOk(Absorbed(cell, p))
  {
    assert Absorbed(cell, p).parts[..|cell.parts|] == cell.parts;
  }

  lemma StageAt(s: State, c: CallbackId)
    requires |s.stages| == |s.buckets| && c < |s.stages| && StagesOk(s)
    ensures StageOk(s, c)
  {
  }

  lemma StageStep(s: State, e: Event, c: CallbackId)
    requires Linked(s) && c < |s.stages| && StageOk(s, c)
    ensures StageOk(Next(s, e), c)
  {
    match e
    case Look(_) => hide SnapshotOf, Merged;
    case Insert(_) => hide SnapshotOf, Merged;
    case Merge(d) => StageAfterMerge(s, d, c);
    case Visit(t) => StageAfterVisit(s, t, c);
    case _ => hide SnapshotOf, Merged;
  }

  lemma StageAfterMerge(s: State, d: CallbackId, c: CallbackId)
    requires Linked(s) && c < |s.stages| && StageOk(s, c)
    ensures StageOk(Next(s, Merge(d)), c)
  {
    hide SnapshotOf;
  }

  lemma StageAfterVisit(s: State, t: TestId, c: CallbackId)
    requires Linked(s) && c < |s.stages| && StageOk(s, c)
    ensures StageOk(Next(s, Visit(t)), c)
  {
    hide SnapshotOf, Merged;
  }

  /** The fields other than the windows keep their shape. */
  lemma NextTimely(s: State, e: Event)
    requires Linked(s) && StagesOk(s) && DeletionsPast(s)
    ensures NextLinkedShape(s, e) && StagesOk(Next(s, e)) && DeletionsPast(Next(s, e))
  {
    hide SnapshotOf, Merged, StagesOk;
    var s' := Next(s, e);
    assert DeletionsPast(s');
    forall c | 0 <= c < |s'.stages| ensures StageOk(s', c) {
      if c < |s.stages| {
        StageAt(s, c);
        StageStep(s, e, c);
      }
    }
    StagesAll(s');
  }

  ghost predicate NextLinkedShape(s: State, e: Event)
    requires Linked(s)
  {
    |Next(s, e).stages| == |Next(s, e).buckets|
  }

  lemma StagesAll(s: State)
    requires |s.stages| == |s.buckets| && forall c :: 0 <= c < |s.stages| ==> StageOk(s, c)
    ensures StagesOk(s)
  {
  }

  lemma MergeWhole(s: State, c: CallbackId)
    requires Tidy(s)
    ensures CellsOk(Next(s, Merge(c)).heap)
  {
    hide CellOk, Merged;
    if c < |s.stages| && s.stages[c].Got? {
      StageAt(s, c);
      AbsorbedOk(s.heap[s.stages[c].at], Part(c, s.buckets[c]));
    }
  }

  lemma VisitWhole(s: State, t: TestId)
    requires Tidy(s)
    ensures CellsOk(Next(s, Visit(t)).heap) && LinesOk(Next(s, Visit(t)).lines)
  {
    hide StagesOk, DeletionsPast, BucketsOk;
    if t in s.todo && t in s.live {
      var cell := s.heap[s.live[t]];
      assert CellOk(cell);
      PartsCount(t, cell.parts);
      assert cell.window.counts.requests != 0 ==> LineOk(Line(SnapshotOf(cell.window), cell.parts));
      hide LineOk, SnapshotOf;
    }
  }

  lemma OthersWhole(s: State, e: Event)
    requires Tidy(s) && !e.Merge? && !e.Visit? && (e.Arrive? ==> e.b.counts.requests > 0)
    ensures BucketsOk(Next(s, e).buckets) && CellsOk(Next(s, e).heap) && LinesOk(Next(s, e).lines)
  {
    hide LinesOk, StagesOk, DeletionsPast;
  }

  lemma NextTidy(s: State, e: Event)
    requires Tidy(s) && (e.Arrive? ==> e.b.counts.requests > 0)
    ensures Tidy(Next(s, e))
  {
    NextLinked(s, e);
    NextTimely(s, e);
    hide StagesOk, DeletionsPast, Linked, CellsOk, LinesOk, BucketsOk;
    match e
    case Merge(c) => MergeWhole(s, c);
    case Visit(t) => VisitWhole(s, t);
    case _ => OthersWhole(s, e);
  }

  lemma {:induction false} RunTidy(es: seq<Event>)
    requires NoEmptyBuckets(es)
    ensures Tidy(Run(es))
    decreases |es|
  {
    if es != [] {
      RunTidy(es[..|es| - 1]);
      hide Tidy, Next;
      NextTidy(Run(es[..|es| - 1]), es[|es| - 1]);
    }
  }

  // ---------------------------------------------------------------- the account

  type Weight = Part -> int

  /** What the windows of the heap hold: those still in the store, or those deleted from it. */
  function InWindows(heap: seq<Cell>, deleted: bool, f: Weight): int {
    if heap == [] then 0
    else
      var cell := heap[|heap| - 1];
      InWindows(heap[..|heap| - 1], deleted, f) + (if (cell.deletedAt != {}) == deleted then Weigh(cell.parts, f) else 0)
  }

  function InLines(lines: seq<Line>, f: Weight): int {
    if lines == [] then 0 else InLines(lines[..|lines| - 1], f) + Weigh(lines[|lines| - 1].parts, f)
  }

  /** The weight of all merged callbacks. */
  function MergedWeight(buckets: seq<Bucket>, stages: seq<Stage>, f: Weight): int
    requires |buckets| == |stages|
  {
    if stages == [] then 0
    else
      var n := |stages| - 1;
      MergedWeight(buckets[..n], stages[..n], f) + (if stages[n].Done? then f(Part(n, buckets[n])) else 0)
  }

  /** The window of this finished callback was deleted after the callback got it and before it merged. */
  predicate DeletedBetween(heap: seq<Cell>, st: Stage) {
    st.Done? && st.at < |heap| && exists d :: d in heap[st.at].deletedAt && st.gotAt < d < st.mergedAt
  }

  function EscapedWeight(heap: seq<Cell>, buckets: seq<Bucket>, stages: seq<Stage>, f: Weight): int
    requires |buckets| == |stages|
  {
    if stages == [] then 0
    else
      var n := |stages| - 1;
      EscapedWeight(heap, buckets[..n], stages[..n], f) + (if DeletedBetween(heap, stages[n]) then f(Part(n, buckets[n])) else 0)
  }

  lemma {:induction false} WindowsUpdate(heap: seq<Cell>, a: nat, cell: Cell, deleted: bool, f: Weight)
    requires a < |heap|
    ensures InWindows(heap[a := cell], deleted, f) == InWindows(heap, deleted, f)
      - (if (heap[a].deletedAt != {}) == deleted then Weigh(heap[a].parts, f) else 0)
      + (if (cell.deletedAt != {}) == deleted then Weigh(cell.parts, f) else 0)
  {
    var n := |heap| - 1;
    if a < n {
      WindowsUpdate(heap[..n], a, cell, deleted, f);
      assert heap[a := cell][..n] == heap[..n][a := cell];
    } else {
      assert heap[a := cell][..n] == heap[..n];
    }
  }

  lemma {:induction false} MergedUpdate(buckets: seq<Bucket>, stages: seq<Stage>, c: nat, st: Stage, f: Weight)
    requires |buckets| == |stages| && c < |stages| && !stages[c].Done?
    ensures MergedWeight(buckets, stages[c := st], f) ==
      MergedWeight(buckets, stages, f) + (if st.Done? then f(Part(c, buckets[c])) else 0)
  {
    var n := |stages| - 1;
    if c < n {
      MergedUpdate(buckets[..n], stages[..n], c, st, f);
      assert stages[c := st][..n] == stages[..n][c := st];
    } else {
      assert stages[c := st][..n] == stages[..n];
    }
  }

  lemma {:induction false} EscapedUpdate(heap: seq<Cell>, buckets: seq<Bucket>, stages: seq<Stage>, c: nat, st: Stage, f: Weight)
    requires |buckets| == |stages| && c < |stages| && !stages[c].Done?
    ensures EscapedWeight(heap, buckets, stages[c := st], f) ==
      EscapedWeight(heap, buckets, stages, f) + (if DeletedBetween(heap, st) then f(Part(c, buckets[c])) else 0)
  {
    hide DeletedBetween;
    var n := |stages| - 1;
    if c < n {
      EscapedUpdate(heap, buckets[..n], stages[..n], c, st, f);
      assert stages[c := st][..n] == stages[..n][c := st];
      NotDone(heap, stages[c]);
    } else {
      assert stages[c := st][..n] == stages[..n];
      NotDone(heap, stages[c]);
    }
  }

  lemma NotDone(heap: seq<Cell>, st: Stage)
    requires !st.Done?
    ensures !DeletedBetween(heap, st)
  {
  }

  /** Nothing that happens to windows later changes which finished callbacks escaped. */
  lemma {:induction false} EscapedSame(heap: seq<Cell>, heap': seq<Cell>, buckets: seq<Bucket>, stages: seq<Stage>, f: Weight)
    requires |buckets| == |stages|
    requires forall i :: 0 <= i < |stages| ==> (DeletedBetween(heap, stages[i]) <==> DeletedBetween(heap', stages[i]))
    ensures EscapedWeight(heap', buckets, stages, f) == EscapedWeight(heap, buckets, stages, f)
  {
    hide DeletedBetween;
    if stages != [] {
      EscapedSame(heap, heap', buckets[..|stages| - 1], stages[..|stages| - 1], f);
    }
  }

  /** Everything merged stands in a line, in a window of the store or in a deleted window; and what
      stands in deleted windows is what escaped. */
  ghost predicate Balanced(s: State, f: Weight)
    requires |s.buckets| == |s.stages|
  {
    && InLines(s.lines, f) + InWindows(s.heap, false, f) + InWindows(s.heap, true, f) == MergedWeight(s.buckets, s.stages, f)
    && InWindows(s.heap, true, f) == EscapedWeight(s.heap, s.buckets, s.stages, f)
  }

  lemma ArriveBalanced(s: State, b: Bucket, f: Weight)
    requires Linked(s) && Balanced(s, f)
    ensures Balanced(Next(s, Arrive(b)), f)
  {
    var s' := Next(s, Arrive(b));
    assert s'.buckets[..|s.buckets|] == s.buckets && s'.stages[..|s.stages|] == s.stages;
  }

  lemma GetKeepsEscapes(s: State, e: Event, i: nat)
    requires Tidy(s) && (e.Look? || e.Insert?) && i < |s.stages|
    ensures DeletedBetween(s.heap, Next(s, e).stages[i]) <==> DeletedBetween(Next(s, e).heap, Next(s, e).stages[i])
  {
    hide LineOk, CellOk;
    StageAt(s, i);
  }

  lemma GetMoves(s: State, e: Event)
    requires Linked(s) && (e.Look? || e.Insert?)
    ensures var s' := Next(s, e);
      && s'.lines == s.lines && s'.buckets == s.buckets
      && (s'.stages == s.stages || (e.c < |s.stages| && !s.stages[e.c].Done? && !s'.stages[e.c].Done? && s'.stages == s.stages[e.c := s'.stages[e.c]]))
      && (s'.heap == s.heap || exists t :: s'.heap == s.heap + [Cell(NewWindow(t), [], {})])
  {
    hide SnapshotOf, Merged, NewWindow;
  }

  lemma EmptyWindowAdds(heap: seq<Cell>, t: TestId, deleted: bool, f: Weight)
    ensures InWindows(heap + [Cell(NewWindow(t), [], {})], deleted, f) == InWindows(heap, deleted, f)
  {
    assert (heap + [Cell(NewWindow(t), [], {})])[..|heap|] == heap;
  }

  lemma GetBalanced(s: State, e: Event, f: Weight)
    requires Tidy(s) && Balanced(s, f) && (e.Look? || e.Insert?)
    ensures Balanced(Next(s, e), f)
  {
    var s' := Next(s, e);
    GetMoves(s, e);
    forall i | 0 <= i < |s'.stages| ensures DeletedBetween(s.heap, s'.stages[i]) <==> DeletedBetween(s'.heap, s'.stages[i]) {
      GetKeepsEscapes(s, e, i);
    }
    hide Next, Tidy, Linked, MergedWeight, EscapedWeight, InWindows, DeletedBetween;
    EscapedSame(s.heap, s'.heap, s'.buckets, s'.stages, f);
    if s'.stages != s.stages {
      MergedUpdate(s.buckets, s.stages, e.c, s'.stages[e.c], f);
      EscapedUpdate(s.heap, s.buckets, s.stages, e.c, s'.stages[e.c], f);
      NotDone(s.heap, s'.stages[e.c]);
    }
    if s'.heap != s.heap {
      var t :| s'.heap == s.heap + [Cell(NewWindow(t), [], {})];
      EmptyWindowAdds(s.heap, t, false, f);
      EmptyWindowAdds(s.heap, t, true, f);
    }
  }

  lemma MergeBalanced(s: State, c: CallbackId, f: Weight)
    requires Tidy(s) && Balanced(s, f)
    ensures Balanced(Next(s, Merge(c)), f)
  {
    hide LineOk, CellOk, Merged;
    if c < |s.stages| && s.stages[c].Got? {
      var s' := Next(s, Merge(c));
      StageAt(s, c);
      var a, p := s.stages[c].at, Part(c, s.buckets[c]);
      WeighAppend(s.heap[a].parts, [p], f);
      WindowsUpdate(s.heap, a, Absorbed(s.heap[a], p), false, f);
      WindowsUpdate(s.heap, a, Absorbed(s.heap[a], p), true, f);
      MergedUpdate(s.buckets, s.stages, c, s'.stages[c], f);
      EscapedUpdate(s'.heap, s.buckets, s.stages, c, s'.stages[c], f);
      EscapedSame(s.heap, s'.heap, s.buckets, s.stages, f);
      assert DeletedBetween(s'.heap, s'.stages[c]) <==> s.heap[a].deletedAt != {} by {
        if s.heap[a].deletedAt != {} {
          var d :| d in s.heap[a].deletedAt;
        }
      }
    }
  }

  /** A report deletes a window too late to matter for the callbacks that have merged. */
  lemma VisitKeepsEscapes(s: State, t: TestId, i: nat)
    requires Tidy(s) && t in s.todo && t in s.live && i < |s.stages|
    ensures DeletedBetween(s.heap, s.stages[i]) <==> DeletedBetween(Next(s, Visit(t)).heap, s.stages[i])
  {
    hide LineOk, CellOk, SnapshotOf;
    StageAt(s, i);
  }

  lemma VisitBalanced(s: State, t: TestId, f: Weight)
    requires Tidy(s) && Balanced(s, f)
    ensures Balanced(Next(s, Visit(t)), f)
  {
    if t in s.todo && t in s.live {
      var s' := Next(s, Visit(t));
      var a := s.live[t];
      forall i | 0 <= i < |s.stages| ensures DeletedBetween(s.heap, s.stages[i]) <==> DeletedBetween(s'.heap, s.stages[i]) {
        VisitKeepsEscapes(s, t, i);
      }
      EscapedSame(s.heap, s'.heap, s.buckets, s.stages, f);
      hide DeletedBetween, EscapedWeight, SnapshotOf, LineOk;
      PartsCount(t, s.heap[a].parts);
      WindowsUpdate(s.heap, a, s'.heap[a], false, f);
      WindowsUpdate(s.heap, a, s'.heap[a], true, f);
      if s'.lines != s.lines {
        assert s'.lines[..|s.lines|] == s.lines;
      }
    }
  }

  lemma NextBalanced(s: State, e: Event, f: Weight)
    requires Tidy(s) && Balanced(s, f)
    ensures Balanced(Next(s, e), f)
  {
    match e
    case Arrive(b) => ArriveBalanced(s, b, f);
    case Look(_) => GetBalanced(s, e, f);
    case Insert(_) => GetBalanced(s, e, f);
    case Merge(c) => MergeBalanced(s, c, f);
    case Visit(t) => VisitBalanced(s, t, f);
    case BeginReport =>
    case EndReport =>
  }

  /** In every run: what the lines and the store's windows hold is what was merged, except for the
      buckets whose window was deleted between their lookup and their merge; those, and no others,
      stand in deleted windows. */
  lemma {:induction false} OnlyEscapesAreLost(es: seq<Event>, f: Weight)
    requires NoEmptyBuckets(es)
    ensures var s := Run(es);
      && InWindows(s.heap, true, f) == EscapedWeight(s.heap, s.buckets, s.stages, f)
      && InLines(s.lines, f) + InWindows(s.heap, false, f)
         == MergedWeight(s.buckets, s.stages, f) - EscapedWeight(s.heap, s.buckets, s.stages, f)
    decreases |es|
  {
    if es != [] {
      OnlyEscapesAreLost(es[..|es| - 1], f);
      RunTidy(es[..|es| - 1]);
      hide Tidy, Next;
      NextBalanced(Run(es[..|es| - 1]), es[|es| - 1], f);
    }
  }

  function Just(c: CallbackId): Weight { (p: Part) => if p.id == c then 1 else 0 }

  lemma {:induction false} JustIsNonNegative(parts: seq<Part>, c: CallbackId)
    ensures Weigh(parts, Just(c)) >= 0
  {
    if parts != [] {
      JustIsNonNegative(parts[..|parts| - 1], c);
    }
  }

  lemma {:induction false} PlacesAreNonNegative(heap: seq<Cell>, lines: seq<Line>, c: CallbackId)
    ensures InWindows(heap, false, Just(c)) >= 0 && InLines(lines, Just(c)) >= 0
    decreases |heap| + |lines|
  {
    if heap != [] {
      PlacesAreNonNegative(heap[..|heap| - 1], lines, c);
      JustIsNonNegative(heap[|heap| - 1].parts, c);
    } else if lines != [] {
      PlacesAreNonNegative(heap, lines[..|lines| - 1], c);
      JustIsNonNegative(lines[|lines| - 1].parts, c);
    }
  }

  lemma {:induction false} JustOne(heap: seq<Cell>, buckets: seq<Bucket>, stages: seq<Stage>, c: CallbackId)
    requires |buckets| == |stages|
    ensures MergedWeight(buckets, stages, Just(c)) == if c < |stages| && stages[c].Done? then 1 else 0
    ensures EscapedWeight(heap, buckets, stages, Just(c)) == if c < |stages| && DeletedBetween(heap, stages[c]) then 1 else 0
  {
    hide DeletedBetween;
    if stages != [] {
      JustOne(heap, buckets[..|stages| - 1], stages[..|stages| - 1], c);
    }
  }

  /** Each merged bucket stands in one place only, and that place is a deleted window exactly when
      the deletion fell between its callback's lookup and its merge. */
  lemma EachBucketOnce(es: seq<Event>, c: CallbackId)
    requires NoEmptyBuckets(es) && c < |Run(es).stages|
    ensures var s := Run(es);
            var reported, kept, lost := InLines(s.lines, Just(c)), InWindows(s.heap, false, Just(c)), InWindows(s.heap, true, Just(c));
      && reported >= 0 && kept >= 0
      && reported + kept + lost == (if s.stages[c].Done? then 1 else 0)
      && lost == (if DeletedBetween(s.heap, s.stages[c]) then 1 else 0)
  {
    var s := Run(es);
    hide Run, DeletedBetween;
    OnlyEscapesAreLost(es, Just(c));
    JustOne(s.heap, s.buckets, s.stages, c);
    PlacesAreNonNegative(s.heap, s.lines, c);
  }

  // ---------------------------------------------------------------- the counters

  function By(m: Component): Weight { (p: Part) => Counter(p.bucket.counts, m) }

  lemma {:induction false} CountersAreWeights(parts: seq<Part>, m: Component)
    ensures Counter(CountsOfParts(parts), m) == Weigh(parts, By(m))
  {
    if parts != [] {
      CountersAreWeights(parts[..|parts| - 1], m);
    }
  }

  function LineCounters(lines: seq<Line>, m: Component): int {
    if lines == [] then 0 else LineCounters(lines[..|lines| - 1], m) + Counter(lines[|lines| - 1].snapshot.counts, m)
  }

  /** The counters of the windows a report has not deleted: those of the store. */
  function StoreCounters(heap: seq<Cell>, m: Component): int {
    if heap == [] then 0
    else
      var cell := heap[|heap| - 1];
      StoreCounters(heap[..|heap| - 1], m) + (if cell.deletedAt == {} then Counter(cell.window.counts, m) else 0)
  }

  lemma {:induction false} LineCountersAreWeights(lines: seq<Line>, m: Component)
    requires LinesOk(lines)
    ensures LineCounters(lines, m) == InLines(lines, By(m))
  {
    hide By, Counter;
    if lines != [] {
      LineCountersAreWeights(lines[..|lines| - 1], m);
      assert LineOk(lines[|lines| - 1]);
      CountersAreWeights(lines[|lines| - 1].parts, m);
    }
  }

  lemma {:induction false} StoreCountersAreWeights(heap: seq<Cell>, m: Component)
    requires CellsOk(heap)
    ensures StoreCounters(heap, m) == InWindows(heap, false, By(m))
  {
    hide By, Counter;
    if heap != [] {
      StoreCountersAreWeights(heap[..|heap| - 1], m);
      assert CellOk(heap[|heap| - 1]);
      CountersAreWeights(heap[|heap| - 1].parts, m);
    }
  }

  /** Every counter of all reports and of the store falls short of what was merged by exactly the
      counters of the buckets whose window was deleted in between. */
  lemma ReportsFallShortByEscapes(es: seq<Event>, m: Component)
    requires NoEmptyBuckets(es)
    ensures var s := Run(es);
      LineCounters(s.lines, m) + StoreCounters(s.heap, m)
      == MergedWeight(s.buckets, s.stages, By(m)) - EscapedWeight(s.heap, s.buckets, s.stages, By(m))
  {
    var s := Run(es);
    RunTidy(es);
    hide Run;
    OnlyEscapesAreLost(es, By(m));
    LineCountersAreWeights(s.lines, m);
    StoreCountersAreWeights(s.heap, m);
  }

  // ---------------------------------------------------------------- the times are events

  ghost predicate LookedUpBy(es: seq<Event>, c: CallbackId, g: nat, upTo: nat) {
    g < upTo <= |es| && (es[g] == Look(c) || es[g] == Insert(c))
  }

  ghost predicate StampIsEvent(st: Stage, es: seq<Event>, c: CallbackId) {
    && (st.Got? ==> LookedUpBy(es, c, st.gotAt, |es|))
    && (st.Done? ==> st.mergedAt < |es| && es[st.mergedAt] == Merge(c) && LookedUpBy(es, c, st.gotAt, st.mergedAt))
  }

  ghost predicate StampsAreEvents(s: State, es: seq<Event>) {
    && (forall c :: 0 <= c < |s.stages| ==> StampIsEvent(s.stages[c], es, c))
    && (forall a :: 0 <= a < |s.heap| ==> forall d :: d in s.heap[a].deletedAt ==>
          d < |es| && es[d] == Visit(s.heap[a].window.testId))
  }

  lemma StageStampStep(s: State, es: seq<Event>, e: Event, c: CallbackId)
    requires Linked(s) && s.clock == |es| && c < |Next(s, e).stages|
    requires c < |s.stages| ==> StampIsEvent(s.stages[c], es, c)
    ensures StampIsEvent(Next(s, e).stages[c], es + [e], c)
  {
    hide Linked, SnapshotOf, Merged;
    if c < |s.stages| {
      assert Next(s, e).stages[c] == s.stages[c] ==> StampIsEvent(s.stages[c], es + [e], c);
    }
  }

  lemma HeapStampStep(s: State, es: seq<Event>, e: Event)
    requires Linked(s) && s.clock == |es| && StampsAreEvents(s, es)
    ensures forall a :: 0 <= a < |Next(s, e).heap| ==> forall d :: d in Next(s, e).heap[a].deletedAt ==>
      d < |es + [e]| && (es + [e])[d] == Visit(Next(s, e).heap[a].window.testId)
  {
    hide SnapshotOf, StampIsEvent;
  }

  lemma StampStep(s: State, es: seq<Event>, e: Event)
    requires Linked(s) && s.clock == |es| && StampsAreEvents(s, es)
    ensures StampsAreEvents(Next(s, e), es + [e])
  {
    HeapStampStep(s, es, e);
    hide Next, StampIsEvent;
    forall c | 0 <= c < |Next(s, e).stages| ensures StampIsEvent(Next(s, e).stages[c], es + [e], c) {
      StageStampStep(s, es, e, c);
    }
  }

  /** `gotAt`, `mergedAt` and `deletedAt` are the positions in the schedule of the lookup, the merge
      and the report's visit. */
  lemma {:induction false} RunStamps(es: seq<Event>)
    ensures StampsAreEvents(Run(es), es)
    decreases |es|
  {
    if es != [] {
      var n := |es| - 1;
      RunStamps(es[..n]);
      hide StampsAreEvents, Next;
      StampStep(Run(es[..n]), es[..n], es[n]);
      assert es == es[..n] + [es[n]];
    }
  }

  // ---------------------------------------------------------------- with nothing in between

  ghost function View(s: State): map<TestId, Window>
    requires Linked(s)
  {
    map t | t in s.live :: s.heap[s.live[t]].window
  }

  /** Lookup, creation and merge in one go are the delivery of module Aggregation. */
  lemma UndisturbedCallbackDelivers(s: State, c: CallbackId)
    requires Linked(s) && !s.locked && c < |s.stages| && s.stages[c].Fresh?
    ensures var b := s.buckets[c]; var t := b.testId; var w := if t in View(s) then View(s)[t] else NewWindow(t);
            View(Next(Next(Next(s, Look(c)), Insert(c)), Merge(c))) == View(s)[t := Merged(w, b)]
  {
    hide Merged, SnapshotOf;
    var s1 := Next(s, Look(c));
    var s2 := Next(s1, Insert(c));
    var t := s.buckets[c].testId;
    assert s2.stages[c].Got? && t in s2.live && s2.stages[c].at == s2.live[t];
    assert View(s2) == if t in View(s) then View(s) else View(s)[t := NewWindow(t)];
    MergeSees(s2, c);
  }

  lemma MergeSees(s: State, c: CallbackId)
    requires Linked(s) && c < |s.stages| && s.stages[c].Got?
    requires var t := s.buckets[c].testId; t in s.live && s.live[t] == s.stages[c].at
    ensures var b := s.buckets[c]; View(Next(s, Merge(c))) == View(s)[b.testId := Merged(View(s)[b.testId], b)]
  {
    hide Merged, SnapshotOf;
    var t := s.buckets[c].testId;
    var s' := Next(s, Merge(c));
    forall u | u in s.live && u != t ensures s'.heap[s.live[u]] == s.heap[s.live[u]] {
      assert s.live[u] != s.live[t];
    }
  }

  /** A visit does to the store what the report loop of module Aggregation does for one test. */
  lemma VisitIsReportOne(s: State, t: TestId)
    requires Linked(s) && t in s.todo && t in s.live
    ensures var w := View(s)[t]; var s' := Next(s, Visit(t));
      && View(s') == (if w.counts.requests == 0 then View(s) - {t} else View(s)[t := NewWindow(t)])
      && s'.lines == (if w.counts.requests == 0 then s.lines else s.lines + [Line(SnapshotOf(w), s.heap[s.live[t]].parts)])
  {
    hide SnapshotOf, Merged;
    var s' := Next(s, Visit(t));
    forall u | u in s.live && u != t ensures s'.heap[s.live[u]] == s.heap[s.live[u]] {
      assert s.live[u] != s.live[t];
    }
  }

  // ---------------------------------------------------------------- the loss is real

  lemma RunMore(es: seq<Event>, e: Event)
    ensures Run(es + [e]) == Next(Run(es), e)
  {
    assert (es + [e])[..|es|] == es;
  }

  /** A report between the creation of a window and the first merge into it. */
  function UnluckySchedule(b: Bucket): seq<Event> {
    [Arrive(b)] + [Look(0)] + [Insert(0)] + [BeginReport] + [Visit(b.testId)] + [EndReport] + [Merge(0)]
  }

  /** The very first bucket of a test can vanish: merged, but in no report and in no window of the store. */
  lemma FirstBucketCanVanish(b: Bucket)
    requires b.counts.requests > 0
    ensures var s := Run(UnluckySchedule(b));
      s.stages == [Done(0, 2, 6)] && s.buckets == [b] && s.lines == [] && s.live == map[] && !s.locked
      && DeletedBetween(s.heap, s.stages[0])
  {
    hide SnapshotOf, Merged;
    var es := WithDeletedWindow(b);
    RunMore(es, EndReport);
    RunMore(es + [EndReport], Merge(0));
    hide Run;
    var s := Run(UnluckySchedule(b));
    assert 4 in s.heap[0].deletedAt;
  }

  lemma WithDeletedWindow(b: Bucket) returns (es: seq<Event>)
    ensures es == [Arrive(b)] + [Look(0)] + [Insert(0)] + [BeginReport] + [Visit(b.testId)]
    ensures Run(es) == State(5, [Cell(NewWindow(b.testId), [], {4})], map[], [b], [Got(0, 2)], true, {}, [])
  {
    hide SnapshotOf, Merged;
    var created := WithEmptyWindow(b);
    RunMore(created, BeginReport);
    es := created + [BeginReport] + [Visit(b.testId)];
    RunMore(created + [BeginReport], Visit(b.testId));
    hide Run;
  }

  lemma WithEmptyWindow(b: Bucket) returns (es: seq<Event>)
    ensures es == [Arrive(b)] + [Look(0)] + [Insert(0)]
    ensures Run(es) == State(3, [Cell(NewWindow(b.testId), [], {})], map[b.testId := 0], [b], [Got(0, 2)], false, {}, [])
  {
    hide SnapshotOf, Merged;
    RunMore([], Arrive(b));
    assert [] + [Arrive(b)] == [Arrive(b)];
    RunMore([Arrive(b)], Look(0));
    es := [Arrive(b)] + [Look(0)] + [Insert(0)];
    RunMore([Arrive(b)] + [Look(0)], Insert(0));
  }
}
