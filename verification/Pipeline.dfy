/**
 The correlator's tasks as one state machine.  Each step is the stretch of one task between two
 awaits; any interleaving of enabled steps is a run.  The windower's flush and the demultiplexer
 evict the oldest row of a full queue; the other puts wait for room.
 */
module Pipeline {
  import opened Prelude
  import opened BoundedQueue
  import opened Collections
  import W = Windower
  import P = Publisher
  import A = Aggregation
  import I = Identity

  /** What the label stage holds between its awaits. */
  datatype Hold = Idle | Fetched(row: W.Row) | Labelled(flow: P.Flow)

  datatype Pipe = Pipe(
    raw: seq<W.FlowEvent>, buckets: W.Buckets, windowed: seq<W.Row>, hold: Hold, inter: seq<P.Flow>,
    writerQ: seq<P.Flow>, sankeyQ: seq<P.Flow>, cut: P.Cut, deltas: seq<P.Delta>, idlog: seq<I.Op>,
    // totals kept only to state conservation and order
    taken: seq<W.FlowEvent>, last: Option<int>, windowLost: seq<W.Row>, writerLost: seq<P.Flow>, sankeyLost: seq<P.Flow>,
    written: seq<P.Flow>)

  const INIT := Pipe([], map[], [], Idle, [], [], [], P.START, [], [], [], None, [], [], [], [])

  datatype Step =
    | Offer(ev: W.FlowEvent)                                          // the stream reader puts an event
    | Window                                                          // the windower takes one
    | Tick(now: int)                                                  // the windower's wait timed out
    | Fetch                                                           // the label stage takes a row
    | Enrich(appLabel: string, user: string, groups: set<string>)     // application, user and groups are known
    | Forward                                                         // the label stage puts its flow
    | Demux                                                           // copied to both consumers
    | Write                                                           // the writer takes a flow
    | Publish(view: P.View)                                           // the publisher takes a flow
    | Identify(e: I.Event)                                            // the identity consumer inserts an event

  datatype Setting = Setting(w: W.Window, cap: int)

  predicate Sized(s: Pipe, cap: int) {
    Bounded(|s.windowed|, cap) && Bounded(|s.writerQ|, cap) && Bounded(|s.sankeyQ|, cap)
  }

  function UserOf(a: Option<I.Answer>): string { match a case None => A.UNKNOWN case Some(x) => x.user }

  /** `user` is one the index may name for the row, as `Resolve` chooses it. */
  ghost predicate MayName(idlog: seq<I.Op>, row: W.Row, user: string) {
    exists a :: I.Resolves(a, I.Hits(I.Tree(I.Run(idlog), row.key.src), row.bucket), row.bucket) && user == UserOf(a)
  }

  ghost predicate Enabled(s: Pipe, x: Step, c: Setting) {
    match x
    case Offer(_) => !Full(|s.raw|, c.cap)
    case Window => s.raw != []
    case Tick(_) => true
    case Fetch => s.hold.Idle? && s.windowed != []
    case Enrich(_, user, _) => s.hold.Fetched? && MayName(s.idlog, s.hold.row, user)
    case Forward => s.hold.Labelled? && !Full(|s.inter|, c.cap)
    case Demux => s.inter != []
    case Write => s.writerQ != []
    case Publish(_) => s.sankeyQ != []
    case Identify(_) => true
  }

  function LabelRow(r: W.Row, appLabel: string, user: string, groups: set<string>): P.Flow {
    P.Flow(r.bucket, r.windowS, r.key.src, r.key.dst, r.key.port, r.key.proto, r.acc.bytes, r.acc.packets, r.acc.flows,
           appLabel, r.lossy, r.dropped, user, groups)
  }

  function Flushing(s: Pipe, bs: W.Buckets, now: int, c: Setting): Pipe
    requires Sized(s, c.cap)
  {
    var rows := W.Stamped(W.FlushRows(bs, now, c.w), |s.windowed|, c.cap);
    s.(buckets := W.Flushed(bs, now, c.w),
       windowed := Keep(s.windowed, rows, c.cap),
       windowLost := s.windowLost + Evict(s.windowed, rows, c.cap))
  }

  function Publishing(s: Pipe, f: P.Flow, view: P.View): Pipe {
    var cut := P.Received(s.cut, f);
    s.(cut := cut,
       deltas := if |cut.published| == |s.cut.published| || cut.published[|cut.published| - 1].flows == [] then s.deltas
                 else s.deltas + [P.DeltaOf(view, cut.published[|cut.published| - 1])])
  }

  ghost function Exec(s: Pipe, x: Step, c: Setting): Pipe
    requires Enabled(s, x, c) && Sized(s, c.cap)
  {
    match x
    case Offer(ev) => s.(raw := s.raw + [ev], taken := s.taken + [ev])
    case Window =>
      var ev := s.raw[0];
      Flushing(s.(raw := s.raw[1..], last := Some(ev.ts)), W.Added(s.buckets, ev, c.w), ev.ts, c)
    case Tick(now) => Flushing(s, s.buckets, now, c)
    case Fetch => s.(windowed := s.windowed[1..], hold := Fetched(s.windowed[0]))
    case Enrich(appLabel, user, groups) =>
      s.(hold := Labelled(LabelRow(s.hold.row, appLabel, user, groups)),
         idlog := s.idlog + [I.Probe(s.hold.row.key.src, s.hold.row.bucket)])
    case Forward => s.(inter := s.inter + [s.hold.flow], hold := Idle)
    case Demux =>
      var f := s.inter[0];
      s.(inter := s.inter[1..],
         writerQ := Keep(s.writerQ, [f], c.cap), writerLost := s.writerLost + Evict(s.writerQ, [f], c.cap),
         sankeyQ := Keep(s.sankeyQ, [f], c.cap), sankeyLost := s.sankeyLost + Evict(s.sankeyQ, [f], c.cap))
    case Write => s.(writerQ := s.writerQ[1..], written := s.written + [s.writerQ[0]])
    case Publish(view) => Publishing(s.(sankeyQ := s.sankeyQ[1..]), s.sankeyQ[0], view)
    case Identify(e) => s.(idlog := s.idlog + [I.Insert(e)])
  }

  /** The publisher's next row begins a later bucket, so that a delta of what is pending is built. */
  predicate Completes(s: Pipe) {
    && s.sankeyQ != [] && s.cut.pending != []
    && s.cut.current.Some? && s.sankeyQ[0].bucket > s.cut.current.value
  }

  /** What publishing adds depends on the view only through the delta built. */
  lemma PublishingIs(s: Pipe, view: P.View, c: Setting)
    requires Sized(s, c.cap) && s.sankeyQ != []
    ensures Exec(s, Publish(view), c) ==
            s.(sankeyQ := s.sankeyQ[1..], cut := P.Received(s.cut, s.sankeyQ[0]),
               deltas := if Completes(s) then s.deltas + [P.DeltaOf(view, P.Batch(s.cut.current.value, s.cut.pending))]
                         else s.deltas)
  {
    hide P.DeltaOf;
  }

  /** A run: states linked by enabled steps, from the empty pipeline. */
  ghost predicate IsRun(ss: seq<Pipe>, xs: seq<Step>, c: Setting) {
    && |ss| == |xs| + 1 && ss[0] == INIT
    && forall i :: 0 <= i < |xs| ==>
         Sized(ss[i], c.cap) && Enabled(ss[i], xs[i], c) && ss[i + 1] == Exec(ss[i], xs[i], c)
  }

  // ---------------------------------------------------------------------------------------------
  // Conservation
  // ---------------------------------------------------------------------------------------------

  /** What an event carries through a lens: its own bucket and key, or everything. */
  function EventAmounts(lens: W.Lens, w: W.Window): W.FlowEvent -> int {
    (e: W.FlowEvent) => W.InputWeight(lens, W.Arrive(e), w)
  }

  function KeyOf(f: P.Flow): W.Key { W.Key(f.srcIp, f.dstIp, f.port, f.proto) }

  function FlowAmounts(lens: W.Lens): P.Flow -> int {
    (f: P.Flow) =>
      if !W.Sees(lens, f.bucket, KeyOf(f)) then 0
      else match lens.m case Bytes => f.bytes case Packets => f.packets case Flows => f.flows
  }

  function HoldAmount(lens: W.Lens, h: Hold): int {
    match h
    case Idle => 0
    case Fetched(r) => W.RowWeight(lens)(r)
    case Labelled(f) => FlowAmounts(lens)(f)
  }

  /** Everything between the stream reader and the demultiplexer, evictions included. */
  ghost function Upstream(lens: W.Lens, s: Pipe, w: W.Window): int {
    Sum(s.raw, EventAmounts(lens, w)) + W.OpenWeight(lens, s.buckets) + W.RowsWeight(lens, s.windowed)
    + W.RowsWeight(lens, s.windowLost) + HoldAmount(lens, s.hold) + Sum(s.inter, FlowAmounts(lens))
  }

  function SankeySide(lens: W.Lens, s: Pipe): int {
    Sum(s.sankeyQ, FlowAmounts(lens)) + Sum(s.sankeyLost, FlowAmounts(lens))
    + Sum(P.Joined(s.cut.published), FlowAmounts(lens)) + Sum(s.cut.pending, FlowAmounts(lens))
  }

  function WriterSide(lens: W.Lens, s: Pipe): int {
    Sum(s.writerQ, FlowAmounts(lens)) + Sum(s.writerLost, FlowAmounts(lens)) + Sum(s.written, FlowAmounts(lens))
  }

  ghost predicate Conserved(lens: W.Lens, s: Pipe, w: W.Window) {
    && Sum(s.taken, EventAmounts(lens, w)) == Upstream(lens, s, w) + SankeySide(lens, s)
    && Sum(s.taken, EventAmounts(lens, w)) == Upstream(lens, s, w) + WriterSide(lens, s)
  }

  lemma KeepSum<T>(q: seq<T>, xs: seq<T>, maxsize: int, f: T -> int)
    requires Bounded(|q|, maxsize)
    ensures Sum(Keep(q, xs, maxsize), f) + Sum(Evict(q, xs, maxsize), f) == Sum(q, f) + Sum(xs, f)
  {
    SumConcat(q, xs, f);
    SumConcat(Evict(q, xs, maxsize), Keep(q, xs, maxsize), f);
    assert Evict(q, xs, maxsize) + Keep(q, xs, maxsize) == q + xs;
  }

  lemma {:induction false} StampedWeight(lens: W.Lens, rows: seq<W.Row>, q: nat, maxsize: int)
    ensures W.RowsWeight(lens, W.Stamped(rows, q, maxsize)) == W.RowsWeight(lens, rows)
    decreases |rows|
  {
    if rows != [] {
      StampedWeight(lens, rows[..|rows| - 1], q, maxsize);
      assert W.Stamped(rows, q, maxsize)[..|rows| - 1] == W.Stamped(rows[..|rows| - 1], q, maxsize);
    }
  }

  /** A flush moves amounts from open buckets to the queue and to what was evicted. */
  lemma FlushingConserves(lens: W.Lens, s: Pipe, bs: W.Buckets, now: int, c: Setting)
    requires Sized(s, c.cap)
    ensures var t := Flushing(s, bs, now, c);
            W.OpenWeight(lens, t.buckets) + W.RowsWeight(lens, t.windowed) + W.RowsWeight(lens, t.windowLost)
            == W.OpenWeight(lens, bs) + W.RowsWeight(lens, s.windowed) + W.RowsWeight(lens, s.windowLost)
  {
    hide Keep, Evict, W.OpenWeight, W.FlushRows;
    var rows := W.FlushRows(bs, now, c.w);
    var stamped := W.Stamped(rows, |s.windowed|, c.cap);
    W.FlushWeight(lens, bs, now, c.w);
    StampedWeight(lens, rows, |s.windowed|, c.cap);
    KeepSum(s.windowed, stamped, c.cap, W.RowWeight(lens));
    SumConcat(s.windowLost, Evict(s.windowed, stamped, c.cap), W.RowWeight(lens));
  }

  lemma WindowConserves(lens: W.Lens, s: Pipe, c: Setting)
    requires Sized(s, c.cap) && s.raw != [] && Conserved(lens, s, c.w)
    ensures Conserved(lens, Exec(s, Window, c), c.w)
  {
    hide Flushing, W.OpenWeight, W.RowsWeight, W.Added, P.Joined, Sum, HoldAmount;
    var ev := s.raw[0];
    W.AddedWeight(lens, s.buckets, ev, c.w);
    SumHead(s.raw, EventAmounts(lens, c.w));
    FlushingConserves(lens, s.(raw := s.raw[1..], last := Some(ev.ts)), W.Added(s.buckets, ev, c.w), ev.ts, c);
    FlushingFrame(s.(raw := s.raw[1..], last := Some(ev.ts)), W.Added(s.buckets, ev, c.w), ev.ts, c);
  }

  lemma TickConserves(lens: W.Lens, s: Pipe, now: int, c: Setting)
    requires Sized(s, c.cap) && Conserved(lens, s, c.w)
    ensures Conserved(lens, Exec(s, Tick(now), c), c.w)
  {
    hide Flushing, W.OpenWeight, W.RowsWeight, P.Joined, Sum, HoldAmount;
    FlushingConserves(lens, s, s.buckets, now, c);
    FlushingFrame(s, s.buckets, now, c);
  }

  lemma FlushingFrame(s: Pipe, bs: W.Buckets, now: int, c: Setting)
    requires Sized(s, c.cap)
    ensures var t := Flushing(s, bs, now, c);
            t == s.(buckets := W.Flushed(bs, now, c.w), windowed := t.windowed, windowLost := t.windowLost)
    ensures Sized(Flushing(s, bs, now, c), c.cap)
  {
  }

  lemma LabelConserves(lens: W.Lens, s: Pipe, x: Step, c: Setting)
    requires Sized(s, c.cap) && Conserved(lens, s, c.w) && Enabled(s, x, c) && (x.Fetch? || x.Enrich? || x.Forward?)
    ensures Conserved(lens, Exec(s, x, c), c.w)
  {
    hide W.OpenWeight, P.Joined, MayName, Sum;
    match x
    case Fetch =>
      SumHead(s.windowed, W.RowWeight(lens));
    case Enrich(_, _, _) =>
    case Forward =>
      SumConcat(s.inter, [s.hold.flow], FlowAmounts(lens));
      SumOne(s.hold.flow, FlowAmounts(lens));
  }

  lemma DemuxConserves(lens: W.Lens, s: Pipe, c: Setting)
    requires Sized(s, c.cap) && Conserved(lens, s, c.w) && s.inter != []
    ensures Conserved(lens, Exec(s, Demux, c), c.w)
  {
    hide Keep, Evict, W.OpenWeight, W.RowsWeight, P.Joined, Sum, HoldAmount;
    var f := s.inter[0];
    var g := FlowAmounts(lens);
    SumHead(s.inter, g);
    SumOne(f, g);
    KeepSum(s.writerQ, [f], c.cap, g);
    KeepSum(s.sankeyQ, [f], c.cap, g);
    SumConcat(s.writerLost, Evict(s.writerQ, [f], c.cap), g);
    SumConcat(s.sankeyLost, Evict(s.sankeyQ, [f], c.cap), g);
  }

  lemma WriteConserves(lens: W.Lens, s: Pipe, c: Setting)
    requires Sized(s, c.cap) && Conserved(lens, s, c.w) && s.writerQ != []
    ensures Conserved(lens, Exec(s, Write, c), c.w)
  {
    hide W.OpenWeight, W.RowsWeight, P.Joined, Sum, HoldAmount;
    SumHead(s.writerQ, FlowAmounts(lens));
    SumConcat(s.written, [s.writerQ[0]], FlowAmounts(lens));
    SumOne(s.writerQ[0], FlowAmounts(lens));
  }

  lemma CutConserves(lens: W.Lens, cut: P.Cut, f: P.Flow)
    requires P.Wellcut(cut)
    ensures var t := P.Received(cut, f); var g := FlowAmounts(lens);
            Sum(P.Joined(t.published), g) + Sum(t.pending, g) == Sum(P.Joined(cut.published), g) + Sum(cut.pending, g) + g(f)
  {
    hide P.Joined, P.Wellcut, P.Received;
    var t, g := P.Received(cut, f), FlowAmounts(lens);
    P.WellcutStep(cut, f);
    SumConcat(P.Joined(cut.published), cut.pending, g);
    SumConcat(P.Joined(cut.published) + cut.pending, [f], g);
    SumConcat(P.Joined(t.published), t.pending, g);
    SumOne(f, g);
  }

  lemma PublishConserves(lens: W.Lens, s: Pipe, view: P.View, c: Setting)
    requires Sized(s, c.cap) && Conserved(lens, s, c.w) && P.Wellcut(s.cut) && s.sankeyQ != []
    ensures Conserved(lens, Exec(s, Publish(view), c), c.w)
  {
    hide W.OpenWeight, W.RowsWeight, P.Joined, P.Wellcut, P.Received, P.DeltaOf, Sum, HoldAmount;
    SumHead(s.sankeyQ, FlowAmounts(lens));
    CutConserves(lens, s.cut, s.sankeyQ[0]);
  }

  lemma ConservedStep(lens: W.Lens, s: Pipe, x: Step, c: Setting)
    requires Sized(s, c.cap) && Conserved(lens, s, c.w) && P.Wellcut(s.cut) && Enabled(s, x, c)
    ensures Conserved(lens, Exec(s, x, c), c.w)
  {
    match x
    case Offer(ev) =>
      SumConcat(s.raw, [ev], EventAmounts(lens, c.w));
      SumConcat(s.taken, [ev], EventAmounts(lens, c.w));
    case Window => WindowConserves(lens, s, c);
    case Tick(now) => TickConserves(lens, s, now, c);
    case Fetch => LabelConserves(lens, s, x, c);
    case Enrich(_, _, _) => LabelConserves(lens, s, x, c);
    case Forward => LabelConserves(lens, s, x, c);
    case Demux => DemuxConserves(lens, s, c);
    case Write => WriteConserves(lens, s, c);
    case Publish(view) => PublishConserves(lens, s, view, c);
    case Identify(_) =>
  }

  /** A delta stands for its batch: same time, same losses, same bytes and flows in its links. */
  ghost predicate StandsFor(d: P.Delta, b: P.Batch) {
    && d.ts == b.bucket && (d.lossy <==> exists f :: f in b.flows && f.lossy) && d.dropped == P.DroppedTotal(b.flows)
    && forall m :: Sum(d.links, P.FlatAmounts(m)) == Sum(b.flows, P.FlowAmounts(m))
  }

  ghost predicate Faithful(ds: seq<P.Delta>, bs: seq<P.Batch>) {
    |ds| == |bs| && forall i :: 0 <= i < |ds| ==> StandsFor(ds[i], bs[i])
  }

  lemma DeltaStands(view: P.View, b: P.Batch)
    requires b.flows != []
    ensures StandsFor(P.DeltaOf(view, b), b)
  {
    forall m ensures Sum(P.DeltaLinks(view, b.flows), P.FlatAmounts(m)) == Sum(b.flows, P.FlowAmounts(m)) {
      P.DeltaConserves(view, b.flows, m);
    }
  }

  lemma FaithfulStep(s: Pipe, f: P.Flow, view: P.View)
    requires P.Wellcut(s.cut) && Faithful(s.deltas, s.cut.published)
    ensures var t := Publishing(s, f, view); Faithful(t.deltas, t.cut.published) && P.Wellcut(t.cut)
  {
    hide P.DeltaOf, P.Joined, StandsFor;
    P.WellcutStep(s.cut, f);
    if s.cut.current.Some? && f.bucket > s.cut.current.value {
      DeltaStands(view, P.Batch(s.cut.current.value, s.cut.pending));
    }
  }

  ghost predicate Healthy(s: Pipe, c: Setting) {
    Sized(s, c.cap) && P.Wellcut(s.cut) && Faithful(s.deltas, s.cut.published) && forall lens :: Conserved(lens, s, c.w)
  }

  lemma HealthyInit(c: Setting)
    ensures Healthy(INIT, c)
  {
  }

  lemma HealthyStep(s: Pipe, x: Step, c: Setting)
    requires Healthy(s, c) && Enabled(s, x, c)
    ensures Healthy(Exec(s, x, c), c)
  {
    forall lens ensures Conserved(lens, Exec(s, x, c), c.w) { ConservedStep(lens, s, x, c); }
    hide Conserved, P.Wellcut, Faithful, MayName;
    match x
    case Window =>
      FlushingFrame(s.(raw := s.raw[1..], last := Some(s.raw[0].ts)), W.Added(s.buckets, s.raw[0], c.w), s.raw[0].ts, c);
    case Tick(now) =>
      FlushingFrame(s, s.buckets, now, c);
    case Publish(view) =>
      var t := s.(sankeyQ := s.sankeyQ[1..]);
      FaithfulStep(t, s.sankeyQ[0], view);
    case _ =>
  }

  lemma {:induction false} HealthyRun(ss: seq<Pipe>, xs: seq<Step>, c: Setting, i: nat)
    requires IsRun(ss, xs, c) && i < |ss|
    ensures Healthy(ss[i], c)
  {
    hide Healthy, Enabled, Exec;
    if i == 0 {
      HealthyInit(c);
    } else {
      HealthyRun(ss, xs, c, i - 1);
      HealthyStep(ss[i - 1], xs[i - 1], c);
    }
  }

  function DeltaAmounts(m: A.Measure): P.Delta -> int { (d: P.Delta) => Sum(d.links, P.FlatAmounts(m)) }

  lemma {:induction false} DeltasTotal(m: A.Measure, ds: seq<P.Delta>, bs: seq<P.Batch>)
    requires |ds| == |bs|
    requires forall i :: 0 <= i < |ds| ==> Sum(ds[i].links, P.FlatAmounts(m)) == Sum(bs[i].flows, P.FlowAmounts(m))
    ensures Sum(ds, DeltaAmounts(m)) == Sum(P.Joined(bs), P.FlowAmounts(m))
    decreases |ds|
  {
    if ds != [] {
      DeltasTotal(m, ds[..|ds| - 1], bs[..|bs| - 1]);
      SumConcat(P.Joined(bs[..|bs| - 1]), bs[|bs| - 1].flows, P.FlowAmounts(m));
    }
  }

  /** The same quantity, measured over everything. */
  function Everything(m: A.Measure): W.Lens { W.Lens(match m case Bytes => W.Bytes case Flows => W.Flows, None) }

  /**
   In every state of every run: bytes and flows taken in are exactly those waiting in the pipeline,
   those evicted, those pending in the publisher, and those in the links of all deltas built.
   */
  lemma EndToEnd(ss: seq<Pipe>, xs: seq<Step>, c: Setting, i: nat, m: A.Measure)
    requires IsRun(ss, xs, c) && i < |ss|
    ensures var s := ss[i]; var all := Everything(m);
            Sum(s.taken, EventAmounts(all, c.w)) ==
            Upstream(all, s, c.w) + Sum(s.sankeyQ, FlowAmounts(all)) + Sum(s.sankeyLost, FlowAmounts(all))
            + Sum(s.cut.pending, FlowAmounts(all)) + Sum(s.deltas, DeltaAmounts(m))
  {
    hide Upstream, IsRun, P.Wellcut, P.Joined;
    HealthyRun(ss, xs, c, i);
    var s := ss[i];
    assert Conserved(Everything(m), s, c.w);
    DeltasTotal(m, s.deltas, s.cut.published);
    SumSame(P.Joined(s.cut.published), P.FlowAmounts(m), FlowAmounts(Everything(m)));
  }

  /**
   And for each bucket and each (source, destination, port, protocol) alone, packets included: what
   the events of that key brought in is in the pipeline, evicted, or with the publisher, and likewise
   with the writer.
   */
  lemma EndToEndPerKey(ss: seq<Pipe>, xs: seq<Step>, c: Setting, i: nat, m: W.Measure, b: int, k: W.Key)
    requires IsRun(ss, xs, c) && i < |ss|
    ensures var s := ss[i]; var lens := W.Lens(m, Some((b, k)));
            && Sum(s.taken, EventAmounts(lens, c.w)) == Upstream(lens, s, c.w) + SankeySide(lens, s)
            && Sum(s.taken, EventAmounts(lens, c.w)) == Upstream(lens, s, c.w) + WriterSide(lens, s)
  {
    hide Upstream, IsRun, WriterSide, SankeySide;
    HealthyRun(ss, xs, c, i);
    assert Conserved(W.Lens(m, Some((b, k))), ss[i], c.w);
  }
}
