/**
 What every run of the pipeline is made of: its windower is a run of the windower, its publisher a
 cut of the flows that reach it, its queues first in, first out, and the flows it carries are the
 emitted rows with the labels found for them.  Nothing is lost but from a full queue.
 */
module PipelineTrace {
  import opened Prelude
  import opened BoundedQueue
  import opened Collections
  import opened Pipeline
  import W = Windower
  import P = Publisher
  import A = Aggregation
  import I = Identity

  /** Everything that ever went through each place, in order. */
  datatype Trace = Trace(
    offered: seq<W.FlowEvent>,  // put into the raw queue
    inputs: seq<W.Input>,       // taken by the windower, ticks included
    rows: seq<W.Row>,           // put into the windowed queue
    leftRows: seq<W.Row>,       // fetched or evicted from it
    fetched: seq<W.Row>,        // taken by the label stage
    labelled: seq<P.Flow>,      // labelled by it
    copied: seq<P.Flow>,        // taken by the demultiplexer
    leftWriter: seq<P.Flow>,    // taken or evicted from the writer's queue
    leftSankey: seq<P.Flow>,    // taken or evicted from the publisher's queue
    written: seq<P.Flow>,       // taken by the writer
    received: seq<P.Flow>,      // taken by the publisher
    views: seq<P.View>,         // the aggregator's state at each delta
    ops: seq<I.Op>)             // insertions and probes of the identity index

  const EMPTY := Trace([], [], [], [], [], [], [], [], [], [], [], [], [])

  /** What `after` has beyond `before`. */
  function New<T>(before: seq<T>, after: seq<T>): seq<T> { if |before| <= |after| then after[|before|..] else [] }

  /** The rows that the windower emits on one more input. */
  function Emits(inputs: seq<W.Input>, x: W.Input, w: W.Window): seq<W.Row> {
    New(W.Run(inputs, w).emitted, W.Run(inputs + [x], w).emitted)
  }

  function Windowing(tr: Trace, s: Pipe, t: Pipe, x: W.Input, c: Setting): Trace {
    tr.(inputs := tr.inputs + [x],
        rows := tr.rows + W.Stamped(Emits(tr.inputs, x, c.w), |s.windowed|, c.cap),
        leftRows := tr.leftRows + New(s.windowLost, t.windowLost))
  }

  /** The trace after step `x` from `s` to `t`. */
  function Traced(tr: Trace, s: Pipe, x: Step, t: Pipe, c: Setting): Trace {
    match x
    case Offer(ev) => tr.(offered := tr.offered + [ev])
    case Window => if s.raw == [] then tr else Windowing(tr, s, t, W.Arrive(s.raw[0]), c)
    case Tick(now) => Windowing(tr, s, t, W.Tick(now), c)
    case Fetch =>
      if s.windowed == [] then tr
      else tr.(leftRows := tr.leftRows + [s.windowed[0]], fetched := tr.fetched + [s.windowed[0]])
    case Enrich(_, _, _) =>
      if !s.hold.Fetched? || !t.hold.Labelled? then tr
      else tr.(labelled := tr.labelled + [t.hold.flow],
               ops := tr.ops + [I.Probe(s.hold.row.key.src, s.hold.row.bucket)])
    case Forward => tr
    case Demux =>
      if s.inter == [] then tr
      else tr.(copied := tr.copied + [s.inter[0]],
               leftWriter := tr.leftWriter + New(s.writerLost, t.writerLost),
               leftSankey := tr.leftSankey + New(s.sankeyLost, t.sankeyLost))
    case Write =>
      if s.writerQ == [] then tr
      else tr.(leftWriter := tr.leftWriter + [s.writerQ[0]], written := tr.written + [s.writerQ[0]])
    case Publish(view) =>
      if s.sankeyQ == [] then tr
      else tr.(leftSankey := tr.leftSankey + [s.sankeyQ[0]], received := tr.received + [s.sankeyQ[0]],
               views := tr.views + if |t.cut.published| == |s.cut.published| then [] else [view])
    case Identify(e) => tr.(ops := tr.ops + [I.Insert(e)])
  }

  function TraceOf(ss: seq<Pipe>, xs: seq<Step>, c: Setting, i: nat): Trace
    requires i <= |xs| < |ss|
  {
    if i == 0 then EMPTY else Traced(TraceOf(ss, xs, c, i - 1), ss[i - 1], xs[i - 1], ss[i], c)
  }

  // ---------------------------------------------------------------------------------------------
  // What holds between a state and its trace
  // ---------------------------------------------------------------------------------------------

  function Arrivals(inputs: seq<W.Input>): seq<W.FlowEvent> {
    if inputs == [] then []
    else
      var front, x := Arrivals(inputs[..|inputs| - 1]), inputs[|inputs| - 1];
      if x.Arrive? then front + [x.ev] else front
  }

  /** The raw queue loses and reorders nothing. */
  ghost predicate RawIs(taken: seq<W.FlowEvent>, raw: seq<W.FlowEvent>, offered: seq<W.FlowEvent>, inputs: seq<W.Input>) {
    taken == offered && offered == Arrivals(inputs) + raw
  }

  function Unstamped(rows: seq<W.Row>): (r: seq<W.Row>)
    ensures |r| == |rows|
  {
    seq(|rows|, i requires 0 <= i < |rows| => rows[i].(lossy := false, dropped := 0))
  }

  /** The windower of the pipeline is a run of the windower, and its rows enter the queue in order. */
  ghost predicate WindowerIs(buckets: W.Buckets, windowed: seq<W.Row>, inputs: seq<W.Input>, rows: seq<W.Row>,
                             leftRows: seq<W.Row>, w: W.Window) {
    && buckets == W.Run(inputs, w).buckets
    && Unstamped(rows) == Unstamped(W.Run(inputs, w).emitted)
    && rows == leftRows + windowed
  }

  function Held(h: Hold): seq<P.Flow> { if h.Labelled? then [h.flow] else [] }

  function Fetching(h: Hold): seq<W.Row> { if h.Fetched? then [h.row] else [] }

  /** Flow `f` is row `r` with an application, a user and its groups. */
  ghost predicate IsLabelled(f: P.Flow, r: W.Row) {
    && f.bucket == r.bucket && f.windowS == r.windowS
    && f.srcIp == r.key.src && f.dstIp == r.key.dst && f.port == r.key.port && f.proto == r.key.proto
    && f.bytes == r.acc.bytes && f.packets == r.acc.packets && f.flows == r.acc.flows
    && f.lossy == r.lossy && f.dropped == r.dropped
  }

  /** Each row taken is the next one labelled. */
  ghost predicate LabelsRows(hold: Hold, fetched: seq<W.Row>, labelled: seq<P.Flow>) {
    && |fetched| == |labelled| + |Fetching(hold)|
    && fetched[|labelled|..] == Fetching(hold)
    && forall k :: 0 <= k < |labelled| ==> IsLabelled(labelled[k], fetched[k])
  }

  /** Labelled flows reach the demultiplexer in order. */
  ghost predicate ForwardsAll(labelled: seq<P.Flow>, copied: seq<P.Flow>, inter: seq<P.Flow>, hold: Hold) {
    labelled == copied + inter + Held(hold)
  }

  /** First in, first out. */
  ghost predicate Fifo(entered: seq<P.Flow>, left: seq<P.Flow>, q: seq<P.Flow>) { entered == left + q }

  /** Each delta is the one of its batch, built from the aggregator's state at that moment. */
  ghost predicate DeltasAre(cut: P.Cut, deltas: seq<P.Delta>, views: seq<P.View>) {
    && |deltas| == |cut.published| == |views|
    && forall k :: 0 <= k < |deltas| ==>
         cut.published[k].flows != [] && deltas[k] == P.DeltaOf(views[k], cut.published[k])
  }

  /** What left a queue was taken by its consumer or evicted. */
  ghost predicate LeftBy<T>(left: seq<T>, taken: seq<T>, lost: seq<T>) {
    multiset(left) == multiset(taken) + multiset(lost)
  }

  ghost predicate Follows(s: Pipe, tr: Trace, c: Setting) {
    && RawIs(s.taken, s.raw, tr.offered, tr.inputs)
    && WindowerIs(s.buckets, s.windowed, tr.inputs, tr.rows, tr.leftRows, c.w)
    && LeftBy(tr.leftRows, tr.fetched, s.windowLost)
    && LabelsRows(s.hold, tr.fetched, tr.labelled)
    && ForwardsAll(tr.labelled, tr.copied, s.inter, s.hold)
    && Fifo(tr.copied, tr.leftWriter, s.writerQ) && LeftBy(tr.leftWriter, tr.written, s.writerLost)
    && Fifo(tr.copied, tr.leftSankey, s.sankeyQ) && LeftBy(tr.leftSankey, tr.received, s.sankeyLost)
    && s.written == tr.written && s.cut == P.ReceivedAll(tr.received) && s.idlog == tr.ops
    && DeltasAre(s.cut, s.deltas, tr.views)
  }

  // ---------------------------------------------------------------------------------------------
  // Steps
  // ---------------------------------------------------------------------------------------------

  lemma RunOne(inputs: seq<W.Input>, x: W.Input, w: W.Window)
    ensures W.Run(inputs + [x], w) == W.Next(W.Run(inputs, w), x, w)
  {
    assert (inputs + [x])[..|inputs|] == inputs;
  }

  lemma RawTaken(taken: seq<W.FlowEvent>, raw: seq<W.FlowEvent>, offered: seq<W.FlowEvent>, inputs: seq<W.Input>)
    requires RawIs(taken, raw, offered, inputs) && raw != []
    ensures RawIs(taken, raw[1..], offered, inputs + [W.Arrive(raw[0])])
  {
    var all := inputs + [W.Arrive(raw[0])];
    assert all[..|all| - 1] == inputs;
    assert Arrivals(inputs) + [raw[0]] + raw[1..] == Arrivals(inputs) + raw;
  }

  lemma RawTicked(taken: seq<W.FlowEvent>, raw: seq<W.FlowEvent>, offered: seq<W.FlowEvent>, inputs: seq<W.Input>, now: int)
    requires RawIs(taken, raw, offered, inputs)
    ensures RawIs(taken, raw, offered, inputs + [W.Tick(now)])
  {
    var all := inputs + [W.Tick(now)];
    assert all[..|all| - 1] == inputs;
  }

  lemma RawOffered(taken: seq<W.FlowEvent>, raw: seq<W.FlowEvent>, offered: seq<W.FlowEvent>, inputs: seq<W.Input>, ev: W.FlowEvent)
    requires RawIs(taken, raw, offered, inputs)
    ensures RawIs(taken + [ev], raw + [ev], offered + [ev], inputs)
  {
    assert Arrivals(inputs) + raw + [ev] == Arrivals(inputs) + (raw + [ev]);
  }

  lemma UnstampedStamped(rows: seq<W.Row>, q: nat, cap: int)
    ensures Unstamped(W.Stamped(rows, q, cap)) == Unstamped(rows)
  {
  }

  lemma UnstampedConcat(a: seq<W.Row>, b: seq<W.Row>)
    ensures Unstamped(a + b) == Unstamped(a) + Unstamped(b)
  {
  }

  lemma NewConcat<T>(a: seq<T>, b: seq<T>)
    ensures New(a, a + b) == b
  {
  }

  lemma LeftEvicted<T>(left: seq<T>, taken: seq<T>, lost: seq<T>, more: seq<T>)
    requires LeftBy(left, taken, lost)
    ensures LeftBy(left + New(lost, lost + more), taken, lost + more)
  {
    NewConcat(lost, more);
  }

  lemma LeftTaken<T>(left: seq<T>, taken: seq<T>, lost: seq<T>, x: T)
    requires LeftBy(left, taken, lost)
    ensures LeftBy(left + [x], taken + [x], lost)
  {
  }

  /** The windower's next state, when `bs` are the buckets its flush at `now` finds. */
  ghost predicate FlushOf(inputs: seq<W.Input>, x: W.Input, bs: W.Buckets, now: int, w: W.Window) {
    W.Next(W.Run(inputs, w), x, w) == W.Flush(W.Run(inputs, w).(buckets := bs), now, w)
  }

  lemma EmitsIs(inputs: seq<W.Input>, x: W.Input, bs: W.Buckets, now: int, w: W.Window)
    requires FlushOf(inputs, x, bs, now, w)
    ensures Emits(inputs, x, w) == W.FlushRows(bs, now, w)
    ensures W.Run(inputs + [x], w) == W.State(W.Flushed(bs, now, w), W.Run(inputs, w).emitted + W.FlushRows(bs, now, w))
  {
    hide W.FlushRows, W.Flushed, W.Next, W.Run;
    RunOne(inputs, x, w);
    NewConcat(W.Run(inputs, w).emitted, W.FlushRows(bs, now, w));
  }

  /** A flush in the pipeline is a step of the windower's run. */
  lemma FlushTraced(s: Pipe, tr: Trace, bs: W.Buckets, now: int, x: W.Input, c: Setting)
    requires Sized(s, c.cap) && WindowerIs(s.buckets, s.windowed, tr.inputs, tr.rows, tr.leftRows, c.w)
    requires FlushOf(tr.inputs, x, bs, now, c.w)
    ensures var t := Flushing(s, bs, now, c); var tr' := Windowing(tr, s, t, x, c);
            WindowerIs(t.buckets, t.windowed, tr'.inputs, tr'.rows, tr'.leftRows, c.w)
  {
    hide W.FlushRows, W.Flushed, W.Run, W.Stamped, Unstamped, FlushOf, Emits, Keep, Evict, New;
    var rows := W.FlushRows(bs, now, c.w);
    var stamped := W.Stamped(rows, |s.windowed|, c.cap);
    EmitsIs(tr.inputs, x, bs, now, c.w);
    NewConcat(s.windowLost, Evict(s.windowed, stamped, c.cap));
    UnstampedStamped(rows, |s.windowed|, c.cap);
    UnstampedConcat(tr.rows, stamped);
    UnstampedConcat(W.Run(tr.inputs, c.w).emitted, rows);
    Requeued(tr.leftRows, s.windowed, stamped, c.cap);
  }

  lemma Requeued<T>(left: seq<T>, q: seq<T>, xs: seq<T>, cap: int)
    requires Bounded(|q|, cap)
    ensures left + Evict(q, xs, cap) + Keep(q, xs, cap) == left + q + xs
  {
    assert Evict(q, xs, cap) + Keep(q, xs, cap) == q + xs;
    assert left + (q + xs) == left + q + xs;
  }

  lemma FlushLost(s: Pipe, tr: Trace, bs: W.Buckets, now: int, x: W.Input, c: Setting)
    requires Sized(s, c.cap) && LeftBy(tr.leftRows, tr.fetched, s.windowLost)
    ensures var t := Flushing(s, bs, now, c); LeftBy(Windowing(tr, s, t, x, c).leftRows, tr.fetched, t.windowLost)
  {
    hide W.FlushRows, W.Flushed, W.Run, W.Stamped, Evict, LeftBy, New;
    LeftEvicted(tr.leftRows, tr.fetched, s.windowLost,
                Evict(s.windowed, W.Stamped(W.FlushRows(bs, now, c.w), |s.windowed|, c.cap), c.cap));
  }

  lemma WindowFollows(s: Pipe, tr: Trace, c: Setting)
    requires Sized(s, c.cap) && Follows(s, tr, c) && s.raw != []
    ensures var t := Exec(s, Window, c); Follows(t, Traced(tr, s, Window, t, c), c)
  {
    var ev := s.raw[0];
    var s' := s.(raw := s.raw[1..], last := Some(ev.ts));
    var bs := W.Added(s.buckets, ev, c.w);
    assert FlushOf(tr.inputs, W.Arrive(ev), bs, ev.ts, c.w) by { assert s.buckets == W.Run(tr.inputs, c.w).buckets; }
    hide Flushing, W.Added, RawIs, WindowerIs, LeftBy, LabelsRows, ForwardsAll, Fifo, DeltasAre, P.ReceivedAll, FlushOf, Emits, W.Stamped;
    FlushTraced(s', tr, bs, ev.ts, W.Arrive(ev), c);
    FlushLost(s', tr, bs, ev.ts, W.Arrive(ev), c);
    FlushingFrame(s', bs, ev.ts, c);
    RawTaken(s.taken, s.raw, tr.offered, tr.inputs);
  }

  lemma TickFollows(s: Pipe, tr: Trace, now: int, c: Setting)
    requires Sized(s, c.cap) && Follows(s, tr, c)
    ensures var t := Exec(s, Tick(now), c); Follows(t, Traced(tr, s, Tick(now), t, c), c)
  {
    assert FlushOf(tr.inputs, W.Tick(now), s.buckets, now, c.w) by { assert s.buckets == W.Run(tr.inputs, c.w).buckets; }
    hide Flushing, RawIs, WindowerIs, LeftBy, LabelsRows, ForwardsAll, Fifo, DeltasAre, P.ReceivedAll, FlushOf, Emits, W.Stamped;
    FlushTraced(s, tr, s.buckets, now, W.Tick(now), c);
    FlushLost(s, tr, s.buckets, now, W.Tick(now), c);
    FlushingFrame(s, s.buckets, now, c);
    RawTicked(s.taken, s.raw, tr.offered, tr.inputs, now);
  }

  lemma OfferFollows(s: Pipe, tr: Trace, ev: W.FlowEvent, c: Setting)
    requires Sized(s, c.cap) && Follows(s, tr, c) && Enabled(s, Offer(ev), c)
    ensures var t := Exec(s, Offer(ev), c); Follows(t, Traced(tr, s, Offer(ev), t, c), c)
  {
    hide RawIs, WindowerIs, LeftBy, LabelsRows, ForwardsAll, Fifo, DeltasAre, P.ReceivedAll;
    RawOffered(s.taken, s.raw, tr.offered, tr.inputs, ev);
  }

  lemma RowFetched(hold: Hold, fetched: seq<W.Row>, labelled: seq<P.Flow>, r: W.Row)
    requires LabelsRows(hold, fetched, labelled) && hold.Idle?
    ensures LabelsRows(Fetched(r), fetched + [r], labelled)
  {
    assert (fetched + [r])[|labelled|..] == [r];
  }

  lemma RowLabelled(hold: Hold, fetched: seq<W.Row>, labelled: seq<P.Flow>, f: P.Flow)
    requires LabelsRows(hold, fetched, labelled) && hold.Fetched? && IsLabelled(f, hold.row)
    ensures LabelsRows(Labelled(f), fetched, labelled + [f])
  {
    assert fetched[|labelled|..][0] == fetched[|labelled|];
  }

  lemma RowLeft(windowed: seq<W.Row>, buckets: W.Buckets, inputs: seq<W.Input>, rows: seq<W.Row>, leftRows: seq<W.Row>, w: W.Window)
    requires WindowerIs(buckets, windowed, inputs, rows, leftRows, w) && windowed != []
    ensures WindowerIs(buckets, windowed[1..], inputs, rows, leftRows + [windowed[0]], w)
  {
    hide W.Run, Unstamped;
    assert leftRows + [windowed[0]] + windowed[1..] == leftRows + windowed;
  }

  lemma FlowLeft(entered: seq<P.Flow>, left: seq<P.Flow>, q: seq<P.Flow>)
    requires Fifo(entered, left, q) && q != []
    ensures Fifo(entered, left + [q[0]], q[1..])
  {
    assert left + [q[0]] + q[1..] == left + q;
  }

  lemma FlowEntered(entered: seq<P.Flow>, left: seq<P.Flow>, q: seq<P.Flow>, lost: seq<P.Flow>, f: P.Flow, cap: int)
    requires Fifo(entered, left, q) && Bounded(|q|, cap)
    ensures Fifo(entered + [f], left + New(lost, lost + Evict(q, [f], cap)), Keep(q, [f], cap))
  {
    NewConcat(lost, Evict(q, [f], cap));
    Requeued(left, q, [f], cap);
  }

  lemma FetchFollows(s: Pipe, tr: Trace, c: Setting)
    requires Sized(s, c.cap) && Follows(s, tr, c) && Enabled(s, Fetch, c)
    ensures var t := Exec(s, Fetch, c); Follows(t, Traced(tr, s, Fetch, t, c), c)
  {
    assert Held(s.hold) == [] && Held(Fetched(s.windowed[0])) == [];
    assert ForwardsAll(tr.labelled, tr.copied, s.inter, Fetched(s.windowed[0]));
    hide RawIs, WindowerIs, LeftBy, LabelsRows, ForwardsAll, Fifo, DeltasAre, P.ReceivedAll;
    RowLeft(s.windowed, s.buckets, tr.inputs, tr.rows, tr.leftRows, c.w);
    LeftTaken(tr.leftRows, tr.fetched, s.windowLost, s.windowed[0]);
    RowFetched(s.hold, tr.fetched, tr.labelled, s.windowed[0]);
  }

  lemma EnrichFollows(s: Pipe, tr: Trace, x: Step, c: Setting)
    requires Sized(s, c.cap) && Follows(s, tr, c) && x.Enrich? && Enabled(s, x, c)
    ensures var t := Exec(s, x, c); Follows(t, Traced(tr, s, x, t, c), c)
  {
    var f := LabelRow(s.hold.row, x.appLabel, x.user, x.groups);
    assert ForwardsAll(tr.labelled + [f], tr.copied, s.inter, Labelled(f)) by {
      assert tr.copied + s.inter + [] + [f] == tr.copied + s.inter + [f];
    }
    RowLabelled(s.hold, tr.fetched, tr.labelled, f);
    hide RawIs, WindowerIs, LeftBy, LabelsRows, ForwardsAll, Fifo, DeltasAre, P.ReceivedAll, MayName, LabelRow;
  }

  lemma ForwardFollows(s: Pipe, tr: Trace, c: Setting)
    requires Sized(s, c.cap) && Follows(s, tr, c) && Enabled(s, Forward, c)
    ensures var t := Exec(s, Forward, c); Follows(t, Traced(tr, s, Forward, t, c), c)
  {
    assert ForwardsAll(tr.labelled, tr.copied, s.inter + [s.hold.flow], Idle) by {
      assert tr.copied + (s.inter + [s.hold.flow]) + [] == tr.copied + s.inter + [s.hold.flow];
    }
    assert LabelsRows(Idle, tr.fetched, tr.labelled);
    hide RawIs, WindowerIs, LeftBy, LabelsRows, ForwardsAll, Fifo, DeltasAre, P.ReceivedAll;
  }

  lemma DemuxFollows(s: Pipe, tr: Trace, c: Setting)
    requires Sized(s, c.cap) && Follows(s, tr, c) && s.inter != []
    ensures var t := Exec(s, Demux, c); Follows(t, Traced(tr, s, Demux, t, c), c)
  {
    var f := s.inter[0];
    assert ForwardsAll(tr.labelled, tr.copied + [f], s.inter[1..], s.hold) by {
      assert tr.copied + [f] + s.inter[1..] == tr.copied + s.inter;
    }
    hide RawIs, WindowerIs, LeftBy, LabelsRows, ForwardsAll, Fifo, DeltasAre, P.ReceivedAll, Keep, Evict, New;
    FlowEntered(tr.copied, tr.leftWriter, s.writerQ, s.writerLost, f, c.cap);
    FlowEntered(tr.copied, tr.leftSankey, s.sankeyQ, s.sankeyLost, f, c.cap);
    LeftEvicted(tr.leftWriter, tr.written, s.writerLost, Evict(s.writerQ, [f], c.cap));
    LeftEvicted(tr.leftSankey, tr.received, s.sankeyLost, Evict(s.sankeyQ, [f], c.cap));
  }

  lemma WriteFollows(s: Pipe, tr: Trace, c: Setting)
    requires Sized(s, c.cap) && Follows(s, tr, c) && s.writerQ != []
    ensures var t := Exec(s, Write, c); Follows(t, Traced(tr, s, Write, t, c), c)
  {
    hide RawIs, WindowerIs, LeftBy, LabelsRows, ForwardsAll, Fifo, DeltasAre, P.ReceivedAll;
    FlowLeft(tr.copied, tr.leftWriter, s.writerQ);
    LeftTaken(tr.leftWriter, tr.written, s.writerLost, s.writerQ[0]);
  }

  lemma PublishedGrows(cut: P.Cut, f: P.Flow)
    ensures P.Received(cut, f).published ==
            if cut.pending != [] && cut.current.Some? && f.bucket > cut.current.value
            then cut.published + [P.Batch(cut.current.value, cut.pending)] else cut.published
  {
  }

  lemma PublishDeltas(s: Pipe, views: seq<P.View>, view: P.View, c: Setting)
    requires Sized(s, c.cap) && s.sankeyQ != [] && DeltasAre(s.cut, s.deltas, views)
    ensures var t := Exec(s, Publish(view), c);
            DeltasAre(t.cut, t.deltas, views + if |t.cut.published| == |s.cut.published| then [] else [view])
  {
    PublishingIs(s, view, c);
    PublishedGrows(s.cut, s.sankeyQ[0]);
    hide Exec, P.Received, P.DeltaOf;
    assert views + [] == views;
  }

  lemma PublishFollows(s: Pipe, tr: Trace, view: P.View, c: Setting)
    requires Sized(s, c.cap) && Follows(s, tr, c) && s.sankeyQ != []
    ensures var t := Exec(s, Publish(view), c); Follows(t, Traced(tr, s, Publish(view), t, c), c)
  {
    hide RawIs, WindowerIs, LeftBy, LabelsRows, ForwardsAll, Fifo, DeltasAre, P.ReceivedAll, Exec, P.Received, P.DeltaOf;
    PublishingIs(s, view, c);
    PublishDeltas(s, tr.views, view, c);
    P.ReceiveOne(tr.received, s.sankeyQ[0]);
    FlowLeft(tr.copied, tr.leftSankey, s.sankeyQ);
    LeftTaken(tr.leftSankey, tr.received, s.sankeyLost, s.sankeyQ[0]);
  }

  lemma FollowsStep(s: Pipe, tr: Trace, x: Step, c: Setting)
    requires Sized(s, c.cap) && Follows(s, tr, c) && Enabled(s, x, c)
    ensures var t := Exec(s, x, c); Follows(t, Traced(tr, s, x, t, c), c)
  {
    match x
    case Offer(ev) => OfferFollows(s, tr, ev, c);
    case Window => WindowFollows(s, tr, c);
    case Tick(now) => TickFollows(s, tr, now, c);
    case Fetch => FetchFollows(s, tr, c);
    case Enrich(_, _, _) => EnrichFollows(s, tr, x, c);
    case Forward => ForwardFollows(s, tr, c);
    case Demux => DemuxFollows(s, tr, c);
    case Write => WriteFollows(s, tr, c);
    case Publish(view) => PublishFollows(s, tr, view, c);
    case Identify(_) =>
  }

  lemma FollowsInit(c: Setting)
    ensures Follows(INIT, EMPTY, c)
  {
  }

  /**
   Every state of every run is the composition of its parts: the windower's run on what was taken in,
   the rows labelled in the order they left, the publisher's cut of the flows it took with its deltas,
   the index's log of insertions and probes, and between them queues whose entrants are, in order,
   those that left followed by those still waiting.
   */
  lemma {:induction false} RunIsComposition(ss: seq<Pipe>, xs: seq<Step>, c: Setting, i: nat)
    requires IsRun(ss, xs, c) && i < |ss|
    ensures Follows(ss[i], TraceOf(ss, xs, c, i), c)
  {
    hide Follows, Exec, Enabled, Traced;
    if i == 0 {
      FollowsInit(c);
    } else {
      RunIsComposition(ss, xs, c, i - 1);
      FollowsStep(ss[i - 1], TraceOf(ss, xs, c, i - 1), xs[i - 1], c);
    }
  }

  // ---------------------------------------------------------------------------------------------
  // Losses
  // ---------------------------------------------------------------------------------------------

  /** What a consumer's queue loses in one step: its oldest flow, and only when a copy finds it full. */
  function LostBy(q: seq<P.Flow>, x: Step, cap: int): seq<P.Flow> {
    if x == Demux && 0 < cap <= |q| then [q[0]] else []
  }

  /** A step evicts from a consumer's queue only when it finds it full, and from the windowed queue only to fill it. */
  lemma LossNeedsFullQueue(s: Pipe, x: Step, c: Setting)
    requires Sized(s, c.cap) && Enabled(s, x, c)
    ensures var t := Exec(s, x, c);
            && t.writerLost == s.writerLost + LostBy(s.writerQ, x, c.cap)
            && t.sankeyLost == s.sankeyLost + LostBy(s.sankeyQ, x, c.cap)
            && (t.windowLost != s.windowLost ==> (x.Window? || x.Tick?) && c.cap > 0 && |t.windowed| == c.cap)
  {
    hide MayName, W.FlushRows, W.Flushed, W.Added, W.Stamped;
    assert s.writerLost + [] == s.writerLost && s.sankeyLost + [] == s.sankeyLost && s.windowLost + [] == s.windowLost;
    match x
    case Publish(view) => PublishingIs(s, view, c);
    case Demux =>
      OneEvicted(s.writerQ, s.inter[0], c.cap);
      OneEvicted(s.sankeyQ, s.inter[0], c.cap);
    case _ =>
  }

  lemma OneEvicted(q: seq<P.Flow>, f: P.Flow, cap: int)
    requires Bounded(|q|, cap)
    ensures Evict(q, [f], cap) == if 0 < cap <= |q| then [q[0]] else []
  {
  }

  /** Queues without a bound lose nothing, in any run. */
  lemma {:induction false} UnboundedLosesNothing(ss: seq<Pipe>, xs: seq<Step>, c: Setting, i: nat)
    requires IsRun(ss, xs, c) && i < |ss| && c.cap <= 0
    ensures ss[i].windowLost == [] && ss[i].writerLost == [] && ss[i].sankeyLost == []
  {
    if i > 0 {
      hide Exec, Enabled;
      UnboundedLosesNothing(ss, xs, c, i - 1);
      LossNeedsFullQueue(ss[i - 1], xs[i - 1], c);
    }
  }

  // ---------------------------------------------------------------------------------------------
  // Bounds and progress
  // ---------------------------------------------------------------------------------------------

  /** Every queue keeps its bound: three by evicting, two because a put waits for room. */
  ghost predicate InBounds(s: Pipe, cap: int) { Sized(s, cap) && Bounded(|s.raw|, cap) && Bounded(|s.inter|, cap) }

  lemma InBoundsStep(s: Pipe, x: Step, c: Setting)
    requires InBounds(s, c.cap) && Enabled(s, x, c)
    ensures InBounds(Exec(s, x, c), c.cap)
  {
    hide MayName, W.FlushRows, W.Flushed, W.Added, W.Stamped;
    match x
    case Publish(view) => PublishingIs(s, view, c);
    case _ =>
  }

  lemma {:induction false} QueuesInBounds(ss: seq<Pipe>, xs: seq<Step>, c: Setting, i: nat)
    requires IsRun(ss, xs, c) && i < |ss|
    ensures InBounds(ss[i], c.cap)
  {
    hide Exec, Enabled;
    if i > 0 {
      QueuesInBounds(ss, xs, c, i - 1);
      InBoundsStep(ss[i - 1], xs[i - 1], c);
    }
  }

  predicate Waiting(s: Pipe) {
    s.raw != [] || s.windowed != [] || !s.hold.Idle? || s.inter != [] || s.writerQ != [] || s.sankeyQ != []
  }

  lemma SomebodyNamed(idlog: seq<I.Op>, row: W.Row) returns (user: string)
    ensures MayName(idlog, row, user)
  {
    hide I.Run;
    var hits := I.Hits(I.Tree(I.Run(idlog), row.key.src), row.bucket);
    if hits == {} {
      user := A.UNKNOWN;
      assert I.Resolves(None, hits, row.bucket);
    } else {
      I.BestExists(hits);
      var iv :| I.IsBest(hits, iv);
      user := iv.data.user;
      assert I.Resolves(Some(I.AnswerFor(iv, row.bucket)), hits, row.bucket);
    }
  }

  /** Nothing blocks for good: while anything waits, some task can take it a step further. */
  lemma NeverStuck(s: Pipe, c: Setting) returns (x: Step)
    requires Waiting(s)
    ensures Enabled(s, x, c) && !x.Offer? && !x.Tick? && !x.Identify?
  {
    hide MayName;
    if s.sankeyQ != [] {
      x := Publish(P.Legacy);
    } else if s.writerQ != [] {
      x := Write;
    } else if s.inter != [] {
      x := Demux;
    } else {
      match s.hold
      case Labelled(_) => x := Forward;
      case Fetched(row) =>
        var user := SomebodyNamed(s.idlog, row);
        x := Enrich("", user, {});
      case Idle => x := if s.windowed != [] then Fetch else Window;
    }
  }

  // ---------------------------------------------------------------------------------------------
  // Where flows come from
  // ---------------------------------------------------------------------------------------------

  /** At step `k` the label stage made `f` of the row it held, with the user the index named then. */
  ghost predicate MadeAt(s: Pipe, x: Step, f: P.Flow) {
    && x.Enrich? && s.hold.Fetched? && IsLabelled(f, s.hold.row)
    && f.appLabel == x.appLabel && f.user == x.user && f.groups == x.groups
    && MayName(s.idlog, s.hold.row, f.user)
  }

  ghost predicate Made(ss: seq<Pipe>, xs: seq<Step>, i: nat, f: P.Flow)
    requires i <= |xs| < |ss|
  {
    exists k :: 0 <= k < i && MadeAt(ss[k], xs[k], f)
  }

  lemma EnrichMakes(s: Pipe, x: Step, c: Setting)
    requires Sized(s, c.cap) && x.Enrich? && Enabled(s, x, c)
    ensures Exec(s, x, c).hold.Labelled? && MadeAt(s, x, Exec(s, x, c).hold.flow)
  {
    hide MayName;
  }

  lemma {:induction false} LabelledWereMade(ss: seq<Pipe>, xs: seq<Step>, c: Setting, i: nat, f: P.Flow)
    requires IsRun(ss, xs, c) && i < |ss| && f in TraceOf(ss, xs, c, i).labelled
    ensures Made(ss, xs, i, f)
    decreases i
  {
    hide MadeAt, Exec, Enabled;
    if i > 0 {
      var before := TraceOf(ss, xs, c, i - 1).labelled;
      if f in before {
        LabelledWereMade(ss, xs, c, i - 1, f);
      } else {
        LabelledGrows(ss, xs, c, i);
        EnrichMakes(ss[i - 1], xs[i - 1], c);
        assert MadeAt(ss[i - 1], xs[i - 1], f);
      }
    }
  }

  lemma LabelledGrows(ss: seq<Pipe>, xs: seq<Step>, c: Setting, i: nat)
    requires 0 < i <= |xs| < |ss|
    ensures var old_, now := TraceOf(ss, xs, c, i - 1).labelled, TraceOf(ss, xs, c, i).labelled;
            now == old_ || (xs[i - 1].Enrich? && ss[i].hold.Labelled? && now == old_ + [ss[i].hold.flow])
  {
    hide Emits;
  }

  /** The flow is somewhere behind the label stage. */
  ghost predicate Somewhere(s: Pipe, f: P.Flow) {
    || f in Held(s.hold) || f in s.inter || f in s.writerQ || f in s.sankeyQ || f in s.writerLost || f in s.sankeyLost
    || f in s.written || f in s.cut.pending || f in P.Joined(s.cut.published)
  }

  lemma SomewhereIsLabelled(s: Pipe, tr: Trace, c: Setting, f: P.Flow)
    requires Follows(s, tr, c) && Somewhere(s, f)
    ensures f in tr.labelled
  {
    hide RawIs, WindowerIs, LabelsRows, DeltasAre, P.ReceivedAll, P.Joined;
    P.CutsTheStream(tr.received);
    assert f in s.cut.pending || f in P.Joined(s.cut.published) ==> f in tr.received by {
      assert tr.received == P.Joined(s.cut.published) + s.cut.pending;
    }
    assert f in tr.received || f in s.sankeyLost ==> f in tr.leftSankey by {
      assert f in multiset(tr.leftSankey) <==> f in tr.leftSankey;
      assert multiset(tr.leftSankey)[f] == multiset(tr.received)[f] + multiset(s.sankeyLost)[f];
    }
    assert f in tr.written || f in s.writerLost ==> f in tr.leftWriter by {
      assert f in multiset(tr.leftWriter) <==> f in tr.leftWriter;
      assert multiset(tr.leftWriter)[f] == multiset(tr.written)[f] + multiset(s.writerLost)[f];
    }
  }

  /**
   In every state of every run, each flow anywhere behind the label stage, in a queue, written,
   evicted, pending or in a delta, was made of an emitted row by a step that gave it its application,
   a user that the identity index named at that moment, and the groups found for that user.
   */
  lemma FlowsWereMade(ss: seq<Pipe>, xs: seq<Step>, c: Setting, i: nat, f: P.Flow)
    requires IsRun(ss, xs, c) && i < |ss| && Somewhere(ss[i], f)
    ensures Made(ss, xs, i, f)
  {
    hide Somewhere, Follows, Made;
    RunIsComposition(ss, xs, c, i);
    SomewhereIsLabelled(ss[i], TraceOf(ss, xs, c, i), c, f);
    LabelledWereMade(ss, xs, c, i, f);
  }
}
