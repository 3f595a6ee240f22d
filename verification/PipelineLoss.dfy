/**
 What deltas say about losses over whole runs: how the reported drops add up, that only an eviction
 by the windower can ever be flagged, and that evictions by the demultiplexer leave no trace.
 */
module PipelineLoss {
  import opened Prelude
  import opened BoundedQueue
  import opened Pipeline
  import opened Collections
  import W = Windower
  import P = Publisher
  import A = Aggregation
  import I = Identity

  ghost predicate CleanRows(rows: seq<W.Row>) { forall r :: r in rows ==> !r.lossy && r.dropped == 0 }

  ghost predicate CleanFlows(fs: seq<P.Flow>) { forall f :: f in fs ==> !f.lossy && f.dropped == 0 }

  ghost predicate CleanHold(h: Hold) {
    match h
    case Idle => true
    case Fetched(r) => !r.lossy && r.dropped == 0
    case Labelled(f) => !f.lossy && f.dropped == 0
  }

  ghost predicate CleanDeltas(ds: seq<P.Delta>) { forall d :: d in ds ==> !d.lossy && d.dropped == 0 }

  /** Nothing on its way to a delta, and no delta built so far, admits a loss. */
  ghost predicate Unflagged(s: Pipe) {
    && CleanRows(s.windowed) && CleanHold(s.hold) && CleanFlows(s.inter) && CleanFlows(s.sankeyQ)
    && CleanFlows(s.cut.pending) && CleanDeltas(s.deltas)
  }

  lemma FlushedClean(s: Pipe, bs: W.Buckets, now: int, c: Setting)
    requires Sized(s, c.cap) && CleanRows(s.windowed)
    ensures var t := Flushing(s, bs, now, c); t.windowLost == [] ==> CleanRows(t.windowed)
  {
    hide W.FlushRows, W.Flushed;
    var rows := W.FlushRows(bs, now, c.w);
    var stamped := W.Stamped(rows, |s.windowed|, c.cap);
    if Flushing(s, bs, now, c).windowLost == [] {
      assert |Evict(s.windowed, stamped, c.cap)| == 0;
      assert forall r :: r in stamped ==> !r.lossy && r.dropped == 0;
    }
  }

  lemma {:induction false} CleanTotal(fs: seq<P.Flow>)
    requires CleanFlows(fs)
    ensures !P.AnyLossy(fs) && P.DroppedTotal(fs) == 0
  {
    if fs != [] {
      CleanTotal(fs[..|fs| - 1]);
      assert fs[|fs| - 1] in fs;
    }
  }

  lemma PublishClean(s: Pipe, f: P.Flow, view: P.View)
    requires CleanFlows(s.cut.pending) && CleanDeltas(s.deltas) && !f.lossy && f.dropped == 0
    ensures var t := Publishing(s, f, view); CleanFlows(t.cut.pending) && CleanDeltas(t.deltas)
  {
    hide P.DeltaLinks;
    CleanTotal(s.cut.pending);
  }

  lemma UnflaggedStep(s: Pipe, x: Step, c: Setting)
    requires Sized(s, c.cap) && Enabled(s, x, c) && (s.windowLost == [] ==> Unflagged(s))
    ensures var t := Exec(s, x, c); t.windowLost == [] ==> Unflagged(t)
  {
    hide MayName, P.Received, P.DeltaOf, W.Added, Flushing;
    match x
    case Window =>
      var ev := s.raw[0];
      var s' := s.(raw := s.raw[1..], last := Some(ev.ts));
      FlushingFrame(s', W.Added(s.buckets, ev, c.w), ev.ts, c);
      FlushingLost(s', W.Added(s.buckets, ev, c.w), ev.ts, c);
      if s.windowLost == [] { FlushedClean(s', W.Added(s.buckets, ev, c.w), ev.ts, c); }
    case Tick(now) =>
      FlushingFrame(s, s.buckets, now, c);
      FlushingLost(s, s.buckets, now, c);
      if s.windowLost == [] { FlushedClean(s, s.buckets, now, c); }
    case Publish(view) =>
      if s.windowLost == [] { PublishClean(s.(sankeyQ := s.sankeyQ[1..]), s.sankeyQ[0], view); }
    case _ =>
  }

  lemma FlushingLost(s: Pipe, bs: W.Buckets, now: int, c: Setting)
    requires Sized(s, c.cap)
    ensures Flushing(s, bs, now, c).windowLost == [] ==> s.windowLost == []
  {
    hide W.FlushRows, W.Flushed, W.Stamped;
  }

  /**
   In every state of every run: as long as the windower has evicted nothing, no delta is lossy or
   counts a drop, however many flows the demultiplexer has evicted on the publisher's side.
   */
  lemma {:induction false} OnlyWindowerFlags(ss: seq<Pipe>, xs: seq<Step>, c: Setting, i: nat)
    requires IsRun(ss, xs, c) && i < |ss|
    ensures ss[i].windowLost == [] ==> Unflagged(ss[i])
  {
    hide Unflagged, Exec, Enabled;
    if i == 0 {
      StartsUnflagged();
    } else {
      OnlyWindowerFlags(ss, xs, c, i - 1);
      UnflaggedStep(ss[i - 1], xs[i - 1], c);
    }
  }

  lemma StartsUnflagged()
    ensures Unflagged(INIT)
  {
  }

  // ---------------------------------------------------------------------------------------------
  // How reported drops add up
  // ---------------------------------------------------------------------------------------------

  function FlowDrops(): P.Flow -> int { (f: P.Flow) => f.dropped }

  function DeltaDrops(): P.Delta -> int { (d: P.Delta) => d.dropped }

  function HoldDrops(h: Hold): int {
    match h case Idle => 0 case Fetched(r) => r.dropped case Labelled(f) => f.dropped
  }

  /** The drop counts in all deltas, on everything on its way to one, and on every evicted row. */
  function Reported(s: Pipe): int {
    Sum(s.deltas, DeltaDrops()) + Sum(s.cut.pending, FlowDrops()) + Sum(s.sankeyQ, FlowDrops())
    + Sum(s.sankeyLost, FlowDrops()) + Sum(s.inter, FlowDrops()) + HoldDrops(s.hold)
    + W.ReportedDrops(s.windowed) + W.ReportedDrops(s.windowLost)
  }

  /** How many rows the windower evicted between two states. */
  function Evictions(s: Pipe, t: Pipe): int { |t.windowLost| - |s.windowLost| }

  /** Over the first `i` steps of a run: the sum of k(k-1) over the steps that evicted k rows. */
  function Triangles(ss: seq<Pipe>, i: nat): int
    requires i < |ss|
  {
    if i == 0 then 0
    else var k := Evictions(ss[i - 1], ss[i]); Triangles(ss, i - 1) + k * (k - 1)
  }

  lemma FlushReports(s: Pipe, bs: W.Buckets, now: int, c: Setting)
    requires Sized(s, c.cap)
    ensures var t := Flushing(s, bs, now, c); var k := Evictions(s, t);
            2 * (W.ReportedDrops(t.windowed) + W.ReportedDrops(t.windowLost)) ==
            2 * (W.ReportedDrops(s.windowed) + W.ReportedDrops(s.windowLost)) + k * (k - 1)
  {
    hide W.FlushRows, W.Flushed, W.Stamped, Sum;
    var rows := W.FlushRows(bs, now, c.w);
    var stamped := W.Stamped(rows, |s.windowed|, c.cap);
    W.StampsAreTriangular(rows, |s.windowed|, c.cap);
    KeepSum(s.windowed, stamped, c.cap, W.DropsOf());
    SumConcat(s.windowLost, Evict(s.windowed, stamped, c.cap), W.DropsOf());
  }

  lemma {:induction false} DroppedIsSum(fs: seq<P.Flow>)
    ensures P.DroppedTotal(fs) == Sum(fs, FlowDrops())
  {
    if fs != [] { DroppedIsSum(fs[..|fs| - 1]); }
  }

  lemma PublishReports(s: Pipe, view: P.View, c: Setting)
    requires Sized(s, c.cap) && s.sankeyQ != []
    ensures Reported(Exec(s, Publish(view), c)) == Reported(s)
  {
    hide Exec, Sum;
    PublishingIs(s, view, c);
    SumHead(s.sankeyQ, FlowDrops());
    var f := s.sankeyQ[0];
    SumOne(f, FlowDrops());
    if Completes(s) {
      var d := P.DeltaOf(view, P.Batch(s.cut.current.value, s.cut.pending));
      SumConcat(s.deltas, [d], DeltaDrops());
      SumOne(d, DeltaDrops());
      DroppedIsSum(s.cut.pending);
    } else if s.cut.current.Some? && f.bucket > s.cut.current.value {
      assert s.cut.pending == [];
      assert [] + [f] == [f];
      SumNothing();
    } else {
      SumConcat(s.cut.pending, [f], FlowDrops());
    }
  }

  lemma SumNothing()
    ensures Sum([], FlowDrops()) == 0
  {
  }

  lemma MoveReports(s: Pipe, x: Step, c: Setting)
    requires Sized(s, c.cap) && Enabled(s, x, c) && (x.Fetch? || x.Enrich? || x.Forward? || x.Demux?)
    ensures Reported(Exec(s, x, c)) == Reported(s)
  {
    hide MayName, Sum, Keep, Evict;
    match x
    case Fetch =>
      SumHead(s.windowed, W.DropsOf());
    case Enrich(_, _, _) =>
    case Forward =>
      SumConcat(s.inter, [s.hold.flow], FlowDrops());
      SumOne(s.hold.flow, FlowDrops());
    case Demux =>
      var f := s.inter[0];
      SumHead(s.inter, FlowDrops());
      SumOne(f, FlowDrops());
      KeepSum(s.sankeyQ, [f], c.cap, FlowDrops());
      SumConcat(s.sankeyLost, Evict(s.sankeyQ, [f], c.cap), FlowDrops());
  }

  lemma ReportedStep(s: Pipe, x: Step, c: Setting)
    requires Sized(s, c.cap) && Enabled(s, x, c)
    ensures var t := Exec(s, x, c); var k := Evictions(s, t); 2 * Reported(t) == 2 * Reported(s) + k * (k - 1)
  {
    hide MayName, W.Added, Flushing, Sum, W.ReportedDrops, Keep, Evict, P.Received, P.DeltaOf;
    match x
    case Window =>
      var ev := s.raw[0];
      var s' := s.(raw := s.raw[1..], last := Some(ev.ts));
      FlushingFrame(s', W.Added(s.buckets, ev, c.w), ev.ts, c);
      FlushReports(s', W.Added(s.buckets, ev, c.w), ev.ts, c);
    case Tick(now) =>
      FlushingFrame(s, s.buckets, now, c);
      FlushReports(s, s.buckets, now, c);
    case Publish(view) =>
      PublishReports(s, view, c);
      PublishingIs(s, view, c);
    case Offer(_) =>
    case Write =>
    case Identify(_) =>
    case _ =>
      MoveReports(s, x, c);
  }

  /**
   In every state of every run: the counts in the deltas, on the way and on evicted rows add up to
   the sum of k(k-1)/2 over the flushes, where k is how many rows each flush evicted.
   */
  lemma {:induction false} DropsAddUp(ss: seq<Pipe>, xs: seq<Step>, c: Setting, i: nat)
    requires IsRun(ss, xs, c) && i < |ss|
    ensures 2 * Reported(ss[i]) == Triangles(ss, i)
  {
    hide Reported, Exec, Enabled, Evictions;
    if i == 0 {
      NothingReported();
    } else {
      DropsAddUp(ss, xs, c, i - 1);
      ReportedStep(ss[i - 1], xs[i - 1], c);
    }
  }

  lemma NothingReported()
    ensures Reported(INIT) == 0
  {
  }

  // ---------------------------------------------------------------------------------------------
  // What the flag of a delta means
  // ---------------------------------------------------------------------------------------------

  ghost predicate HonestRows(rows: seq<W.Row>) { forall r :: r in rows ==> (r.lossy <==> r.dropped > 0) }

  ghost predicate HonestFlows(fs: seq<P.Flow>) { forall f :: f in fs ==> (f.lossy <==> f.dropped > 0) }

  ghost predicate HonestHold(h: Hold) {
    match h
    case Idle => true
    case Fetched(r) => r.lossy <==> r.dropped > 0
    case Labelled(f) => f.lossy <==> f.dropped > 0
  }

  /** Everything on its way to a delta, or in one, is flagged exactly when it counts a drop. */
  ghost predicate Honest(s: Pipe) {
    && HonestRows(s.windowed) && HonestHold(s.hold) && HonestFlows(s.inter) && HonestFlows(s.sankeyQ)
    && HonestFlows(s.cut.pending) && forall k :: 0 <= k < |s.cut.published| ==> HonestFlows(s.cut.published[k].flows)
  }

  lemma FlushHonest(s: Pipe, bs: W.Buckets, now: int, c: Setting)
    requires Sized(s, c.cap) && HonestRows(s.windowed)
    ensures HonestRows(Flushing(s, bs, now, c).windowed)
  {
    hide W.FlushRows, W.Flushed;
    var stamped := W.Stamped(W.FlushRows(bs, now, c.w), |s.windowed|, c.cap);
    assert forall r :: r in stamped ==> (r.lossy <==> r.dropped > 0);
    assert forall r :: r in Flushing(s, bs, now, c).windowed ==> r in s.windowed || r in stamped;
  }

  lemma HonestStep(s: Pipe, x: Step, c: Setting)
    requires Sized(s, c.cap) && Enabled(s, x, c) && Honest(s)
    ensures Honest(Exec(s, x, c))
  {
    hide MayName, W.Added, Flushing, P.DeltaOf;
    match x
    case Window =>
      var ev := s.raw[0];
      var s' := s.(raw := s.raw[1..], last := Some(ev.ts));
      FlushingFrame(s', W.Added(s.buckets, ev, c.w), ev.ts, c);
      FlushHonest(s', W.Added(s.buckets, ev, c.w), ev.ts, c);
    case Tick(now) =>
      FlushingFrame(s, s.buckets, now, c);
      FlushHonest(s, s.buckets, now, c);
    case Publish(view) =>
      PublishingIs(s, view, c);
    case _ =>
  }

  lemma {:induction false} HonestRun(ss: seq<Pipe>, xs: seq<Step>, c: Setting, i: nat)
    requires IsRun(ss, xs, c) && i < |ss|
    ensures Honest(ss[i])
  {
    hide Honest, Exec, Enabled;
    if i == 0 {
      StartsHonest();
    } else {
      HonestRun(ss, xs, c, i - 1);
      HonestStep(ss[i - 1], xs[i - 1], c);
    }
  }

  lemma StartsHonest()
    ensures Honest(INIT)
  {
  }

  /** In every run a delta is lossy if and only if some flow of its batch counts a drop, and counts what they count. */
  lemma DeltaLossyIff(ss: seq<Pipe>, xs: seq<Step>, c: Setting, i: nat, k: nat)
    requires IsRun(ss, xs, c) && i < |ss| && k < |ss[i].deltas|
    ensures k < |ss[i].cut.published|
    ensures var d, b := ss[i].deltas[k], ss[i].cut.published[k];
            (d.lossy <==> exists f :: f in b.flows && f.dropped > 0) && d.dropped == Sum(b.flows, FlowDrops())
  {
    hide IsRun, Conserved, P.Wellcut;
    HealthyRun(ss, xs, c, i);
    HonestRun(ss, xs, c, i);
    var d, b := ss[i].deltas[k], ss[i].cut.published[k];
    assert StandsFor(d, b) && HonestFlows(b.flows);
    DroppedIsSum(b.flows);
  }

  // ---------------------------------------------------------------------------------------------
  // A run in which the demultiplexer drops a flow
  // ---------------------------------------------------------------------------------------------

  ghost predicate Reachable(s: Pipe, c: Setting) {
    exists ss, xs :: IsRun(ss, xs, c) && ss[|ss| - 1] == s
  }

  lemma ReachableStart(c: Setting)
    ensures Reachable(INIT, c)
  {
    assert IsRun([INIT], [], c);
  }

  lemma ReachableStep(s: Pipe, x: Step, c: Setting)
    requires Reachable(s, c) && Enabled(s, x, c)
    ensures Sized(s, c.cap) && Reachable(Exec(s, x, c), c)
  {
    hide Enabled, Exec;
    var ss, xs :| IsRun(ss, xs, c) && ss[|ss| - 1] == s;
    HealthyRun(ss, xs, c, |xs|);
    assert Sized(s, c.cap);
    var ss', xs' := ss + [Exec(s, x, c)], xs + [x];
    forall i | 0 <= i < |xs'|
      ensures Sized(ss'[i], c.cap) && Enabled(ss'[i], xs'[i], c) && ss'[i + 1] == Exec(ss'[i], xs'[i], c)
    {
      if i < |xs| {
        assert ss'[i] == ss[i] && ss'[i + 1] == ss[i + 1] && xs'[i] == xs[i];
      }
    }
    assert IsRun(ss', xs', c);
  }

  /** With no identity event in the log every row is labelled unknown. */
  lemma NobodyKnown(log: seq<I.Op>, row: W.Row)
    requires forall i :: 0 <= i < |log| ==> log[i].Probe?
    ensures MayName(log, row, A.UNKNOWN)
  {
    forall iv ensures iv !in I.Tree(I.Run(log), row.key.src) {
      I.TreeIsLog(log, row.key.src, iv);
    }
    assert I.Resolves(None, I.Hits(I.Tree(I.Run(log), row.key.src), row.bucket), row.bucket);
  }

  /** Everything is empty but the publisher's side, and nothing was evicted by the windower. */
  ghost predicate Resting(s: Pipe) {
    && s.raw == [] && s.windowed == [] && s.hold.Idle? && s.inter == [] && s.windowLost == []
    && s.buckets.Keys == {} && (forall i :: 0 <= i < |s.idlog| ==> s.idlog[i].Probe?)
  }

  const C1 := Setting(1, 1)

  function At(t: int): W.FlowEvent { W.FlowEvent(t, W.Key("a", "b", 0, 0), 0, 0, None, None, None) }

  lemma OfferIs(s: Pipe, ev: W.FlowEvent)
    requires Sized(s, 1) && s.raw == []
    ensures Exec(s, Offer(ev), C1) == s.(raw := s.raw + [ev], taken := s.taken + [ev])
  {
  }

  lemma WindowIs(s: Pipe, c: Setting)
    requires Sized(s, c.cap) && s.raw != []
    ensures Exec(s, Window, c) ==
            Flushing(s.(raw := s.raw[1..], last := Some(s.raw[0].ts)), W.Added(s.buckets, s.raw[0], c.w), s.raw[0].ts, c)
  {
    hide Flushing, W.Added;
  }

  lemma EmptyFlush(s: Pipe, bs: W.Buckets, now: int, c: Setting)
    requires Sized(s, c.cap) && W.FlushRows(bs, now, c.w) == [] && W.Flushed(bs, now, c.w) == bs
    ensures Flushing(s, bs, now, c) == s.(buckets := bs)
  {
    hide W.FlushRows, W.Flushed;
    assert W.Stamped([], |s.windowed|, c.cap) == [];
    KeepNone(s.windowed, c.cap);
    assert s.windowLost + [] == s.windowLost;
  }

  lemma NoRows(bs: W.Buckets, b: int)
    requires bs.Keys == {b}
    ensures W.FlushRows(bs, b, 1) == [] && W.Flushed(bs, b, 1) == bs
  {
    assert W.Ready(bs, b, 1) == {};
  }

  lemma FirstSlot(b: int)
    ensures W.Added(map[], At(b), 1).Keys == {b} && |W.Added(map[], At(b), 1)[b]| == 1
  {
  }

  /** An event opens its bucket. */
  lemma WindowOpens(s: Pipe, b: int)
    requires Resting(s) && Sized(s, 1)
    ensures var bs := W.Added(map[], At(b), 1);
            Exec(Exec(s, Offer(At(b)), C1), Window, C1) == s.(taken := s.taken + [At(b)], last := Some(b), buckets := bs)
  {
    hide Exec, Flushing, W.FlushRows, W.Flushed, W.Added;
    OfferIs(s, At(b));
    assert [] + [At(b)] == [At(b)] && [At(b)][1..] == [];
    assert s.buckets == map[];
    var bs := W.Added(map[], At(b), 1);
    FirstSlot(b);
    NoRows(bs, b);
    WindowIs(s.(raw := [At(b)], taken := s.taken + [At(b)]), C1);
    EmptyFlush(s.(taken := s.taken + [At(b)], last := Some(b)), bs, b, C1);
  }

  lemma FlushOne(bs: W.Buckets, b: int)
    requires bs.Keys == {b} && |bs[b]| == 1
    ensures var rows := W.FlushRows(bs, b + 1, 1); |rows| == 1 && rows[0].bucket == b
    ensures W.Flushed(bs, b + 1, 1) == map[]
  {
    assert W.Ready(bs, b + 1, 1) == {b};
    var order := Ascending({b});
    AscendingElements({b});
    AscendingSorted({b});
    OnlyElement(order, b);
    W.RowsInOrderSnoc(bs, order, 0, 1);
    assert order[..1] == order && order[..0] == [];
    assert W.RowsInOrder(bs, [], 1) == [];
  }

  lemma OnlyElement(order: seq<int>, b: int)
    requires StrictlyAscending(order) && Elements(order) == {b}
    ensures order == [b]
  {
    assert order != [] by { assert b in Elements(order); }
    ElementAt(order, 0);
    if |order| > 1 { ElementAt(order, 1); }
  }

  /** The next tick closes it: its row waits for the label stage. */
  lemma TickCloses(s: Pipe, b: int)
    requires Sized(s, 1) && s.windowed == [] && s.windowLost == [] && s.buckets.Keys == {b} && |s.buckets[b]| == 1
    ensures var t := Exec(s, Tick(b + 1), C1);
            && |t.windowed| == 1 && t.windowed[0].bucket == b
            && t == s.(buckets := map[], windowed := t.windowed)
  {
    hide W.FlushRows, W.Flushed;
    FlushOne(s.buckets, b);
    var rows := W.Stamped(W.FlushRows(s.buckets, b + 1, 1), 0, 1);
    assert Keep([], rows, 1) == rows && Evict([], rows, 1) == [];
    assert s.windowLost + [] == s.windowLost;
  }

  /** A row that waits for the label stage is labelled and copied to both consumers. */
  lemma ThroughDemux(s: Pipe) returns (t: Pipe)
    requires Reachable(s, C1) && |s.windowed| == 1 && Resting(s.(windowed := []))
    ensures Reachable(t, C1) && Resting(t) && Sized(t, 1) && t.cut == s.cut && t.deltas == s.deltas
    ensures |t.sankeyQ| == 1 && t.sankeyQ[0].bucket == s.windowed[0].bucket && t.sankeyLost == s.sankeyLost + s.sankeyQ
  {
    hide Reachable, MayName;
    ReachableStep(s, Fetch, C1);
    var s1 := Exec(s, Fetch, C1);
    NobodyKnown(s1.idlog, s1.hold.row);
    var enrich := Enrich("", A.UNKNOWN, {});
    ReachableStep(s1, enrich, C1);
    var s2 := Exec(s1, enrich, C1);
    ReachableStep(s2, Forward, C1);
    var s3 := Exec(s2, Forward, C1);
    ReachableStep(s3, Demux, C1);
    t := Exec(s3, Demux, C1);
    KeepOne(s.sankeyQ, s3.inter[0]);
    KeepOne(s.writerQ, s3.inter[0]);
  }

  lemma KeepOne(q: seq<P.Flow>, f: P.Flow)
    requires Bounded(|q|, 1)
    ensures Keep(q, [f], 1) == [f] && Evict(q, [f], 1) == q
  {
  }

  /** From a resting state one event and one tick take one flow of bucket `b` through the demultiplexer. */
  lemma OneMoreFlow(s: Pipe, b: int) returns (t: Pipe)
    requires Reachable(s, C1) && Resting(s) && Sized(s, 1)
    ensures Reachable(t, C1) && Resting(t) && Sized(t, 1) && t.cut == s.cut && t.deltas == s.deltas
    ensures |t.sankeyQ| == 1 && t.sankeyQ[0].bucket == b && t.sankeyLost == s.sankeyLost + s.sankeyQ
  {
    hide Exec, Reachable, W.Added, MayName;
    ReachableStep(s, Offer(At(b)), C1);
    var s1 := Exec(s, Offer(At(b)), C1);
    OfferIs(s, At(b));
    ReachableStep(s1, Window, C1);
    var s2 := Exec(s1, Window, C1);
    WindowOpens(s, b);
    FirstSlot(b);
    ReachableStep(s2, Tick(b + 1), C1);
    var s3 := Exec(s2, Tick(b + 1), C1);
    TickCloses(s2, b);
    t := ThroughDemux(s3);
  }

  /** The publisher takes the one flow that waits. */
  lemma OnePublish(s: Pipe) returns (t: Pipe)
    requires Reachable(s, C1) && Resting(s) && Sized(s, 1) && |s.sankeyQ| == 1
    ensures Reachable(t, C1) && Resting(t) && Sized(t, 1) && t.sankeyQ == [] && t.sankeyLost == s.sankeyLost
    ensures t.cut == P.Received(s.cut, s.sankeyQ[0])
    ensures Completes(s) ==> exists d :: d in t.deltas && d.ts == s.cut.current.value
  {
    hide Exec, Reachable, P.DeltaLinks;
    ReachableStep(s, Publish(P.Legacy), C1);
    PublishingIs(s, P.Legacy, C1);
    t := Exec(s, Publish(P.Legacy), C1);
    if Completes(s) {
      assert t.deltas[|s.deltas|] in t.deltas;
    }
  }

  /**
   Such a run exists: a flow is lost on the way to the publisher, the delta of its own window is
   built without it, and nothing in that delta says so.
   */
  lemma DemuxDropsSilently()
    ensures exists s, f, d :: Reachable(s, C1) && f in s.sankeyLost && d in s.deltas &&
                              d.ts == f.bucket && !d.lossy && d.dropped == 0
  {
    ReachableStart(C1);
    var s1 := OneMoreFlow(INIT, 0);
    var s2 := OneMoreFlow(s1, 0);
    var f := s1.sankeyQ[0];
    assert f in s2.sankeyLost;
    var s3 := OnePublish(s2);
    var s4 := OneMoreFlow(s3, 1);
    assert f in s4.sankeyLost;
    var s5 := OnePublish(s4);
    var d :| d in s5.deltas && d.ts == 0;
    var ss, xs :| IsRun(ss, xs, C1) && ss[|ss| - 1] == s5;
    OnlyWindowerFlags(ss, xs, C1, |xs|);
    assert !d.lossy && d.dropped == 0;
  }
}
