/**
 Order through the whole pipeline: what in-order event timestamps guarantee in every interleaving,
 whatever ticks, evictions and late tasks do.
 */
module PipelineOrder {
  import opened Prelude
  import opened BoundedQueue
  import opened Collections
  import opened Pipeline
  import W = Windower
  import P = Publisher
  import A = Aggregation
  import I = Identity

  // ---------------------------------------------------------------------------------------------
  // Sorted sequences of bucket times
  // ---------------------------------------------------------------------------------------------

  ghost predicate Sorted(a: seq<int>) { forall i, j :: 0 <= i < j < |a| ==> a[i] <= a[j] }

  ghost predicate AllAtMost(a: seq<int>, x: int) { forall i :: 0 <= i < |a| ==> a[i] <= x }

  function RowTimes(rows: seq<W.Row>): (r: seq<int>)
    ensures |r| == |rows|
  {
    seq(|rows|, i requires 0 <= i < |rows| => rows[i].bucket)
  }

  function FlowTimes(fs: seq<P.Flow>): (r: seq<int>)
    ensures |r| == |fs|
  {
    seq(|fs|, i requires 0 <= i < |fs| => fs[i].bucket)
  }

  /** Dropping from the middle of a sorted sequence leaves it sorted. */
  lemma SortedDrop(p: seq<int>, a: seq<int>, b: seq<int>, k: nat)
    requires Sorted(p + a + b) && k <= |a|
    ensures Sorted(p + a[k..] + b)
    ensures forall x :: AllAtMost(p + a + b, x) ==> AllAtMost(p + a[k..] + b, x)
  {
    var all, less := p + a + b, p + a[k..] + b;
    assert forall i :: 0 <= i < |less| ==> less[i] == all[if i < |p| then i else i + k];
  }

  lemma SortedAppend(p: seq<int>, b: seq<int>)
    requires Sorted(p) && Sorted(b) && forall i :: 0 <= i < |b| ==> AllAtMost(p, b[i])
    ensures Sorted(p + b)
    ensures forall x :: AllAtMost(p, x) && AllAtMost(b, x) ==> AllAtMost(p + b, x)
  {
  }

  lemma SortedSplit(a: seq<int>, b: seq<int>)
    requires Sorted(a + b)
    ensures Sorted(a) && Sorted(b) && forall i :: 0 <= i < |b| ==> AllAtMost(a, b[i])
  {
    assert forall i :: 0 <= i < |a| ==> (a + b)[i] == a[i];
    assert forall i :: 0 <= i < |b| ==> (a + b)[|a| + i] == b[i];
  }

  // ---------------------------------------------------------------------------------------------
  // The invariant
  // ---------------------------------------------------------------------------------------------

  function HoldTimes(h: Hold): seq<int> {
    match h case Idle => [] case Fetched(r) => [r.bucket] case Labelled(f) => [f.bucket]
  }

  /** Bucket times of everything between the publisher's pending batch and the demultiplexer's exit... */
  function Ahead(s: Pipe): seq<int> { FlowTimes(s.cut.pending) + FlowTimes(s.sankeyQ) }

  /** ...and from there back to the windower's queue: oldest first, no gap. */
  function Behind(s: Pipe): seq<int> { FlowTimes(s.inter) + (HoldTimes(s.hold) + RowTimes(s.windowed)) }

  function Chain(s: Pipe): seq<int> { Ahead(s) + Behind(s) }

  /** Bucket times that the label stage has yet to probe. */
  function Unprobed(s: Pipe): seq<int> {
    (if s.hold.Fetched? then [s.hold.row.bucket] else []) + RowTimes(s.windowed)
  }

  ghost predicate ProbesAtMost(log: seq<I.Op>, x: int) {
    forall k :: 0 <= k < |log| && log[k].Probe? ==> log[k].at <= x
  }

  ghost predicate AllUnprobed(log: seq<I.Op>, times: seq<int>) {
    forall i :: 0 <= i < |times| ==> ProbesAtMost(log, times[i])
  }

  /** The raw queue is the end of what was taken in, and `last` the event just before it. */
  ghost predicate RawIsRest(raw: seq<W.FlowEvent>, taken: seq<W.FlowEvent>, last: Option<int>) {
    && |raw| <= |taken| && raw == taken[|taken| - |raw|..]
    && (last.None? <==> |raw| == |taken|)
    && (last.Some? ==> last.value == taken[|taken| - |raw| - 1].ts)
  }

  ghost predicate EventsSorted(es: seq<W.FlowEvent>) {
    forall i, j :: 0 <= i < j < |es| ==> es[i].ts <= es[j].ts
  }

  /** Only the latest event's bucket can be open; nothing in flight and no probe is past it. */
  ghost predicate Latest(last: Option<int>, bs: W.Buckets, chain: seq<int>, log: seq<I.Op>, w: W.Window) {
    match last
    case None => bs.Keys == {} && chain == [] && forall x :: ProbesAtMost(log, x)
    case Some(t) =>
      && (forall b :: b in bs ==> b == W.BucketStart(t, w))
      && AllAtMost(chain, W.BucketStart(t, w))
      && ProbesAtMost(log, W.BucketStart(t, w))
  }

  ghost predicate InSequence(s: Pipe, w: W.Window) {
    && RawIsRest(s.raw, s.taken, s.last) && EventsSorted(s.taken)
    && Sorted(Chain(s))
    && Latest(s.last, s.buckets, Chain(s), s.idlog, w)
    && AllUnprobed(s.idlog, Unprobed(s))
    && P.Pure(s.cut)
  }

  // ---------------------------------------------------------------------------------------------
  // Steps
  // ---------------------------------------------------------------------------------------------

  lemma StampedTimes(rows: seq<W.Row>, q: nat, maxsize: int)
    ensures RowTimes(W.Stamped(rows, q, maxsize)) == RowTimes(rows)
  {
  }

  /** A flush appends closed buckets in order behind everything and may drop from the queue's head. */
  lemma FlushingInSequence(s: Pipe, bs: W.Buckets, now: int, b: int, c: Setting)
    requires Sized(s, c.cap) && Sorted(Chain(s)) && AllAtMost(Chain(s), b)
    requires forall x :: x in bs ==> AllAtMost(Chain(s), x) && x <= b && ProbesAtMost(s.idlog, x)
    requires AllUnprobed(s.idlog, Unprobed(s))
    ensures var t := Flushing(s, bs, now, c);
            && Sorted(Chain(t)) && AllAtMost(Chain(t), b)
            && AllUnprobed(t.idlog, Unprobed(t))
  {
    hide W.FlushRows, W.Flushed, ProbesAtMost, Chain, Flushing, Sorted;
    var rows := W.FlushRows(bs, now, c.w);
    W.FlushOnlyClosed(bs, now, c.w);
    FlushChain(s, bs, now, c);
    RowsSorted(rows);
    SortedAppend(Chain(s), RowTimes(rows));
    var head := Ahead(s) + (FlowTimes(s.inter) + HoldTimes(s.hold));
    var mid := RowTimes(s.windowed) + RowTimes(rows);
    var k := Overflow(|s.windowed|, |rows|, c.cap);
    SortedDrop(head, mid, [], k);
    assert AllAtMost(RowTimes(rows), b);
    FlushingFrame(s, bs, now, c);
    UnprobedAfterFlush(s, Flushing(s, bs, now, c), rows, k);
  }

  lemma RowsSorted(rows: seq<W.Row>)
    requires W.ByBucket(rows)
    ensures Sorted(RowTimes(rows))
  {
  }

  lemma FlushChain(s: Pipe, bs: W.Buckets, now: int, c: Setting)
    requires Sized(s, c.cap)
    ensures var t := Flushing(s, bs, now, c); var rows := W.FlushRows(bs, now, c.w);
            var head := Ahead(s) + (FlowTimes(s.inter) + HoldTimes(s.hold));
            var mid := RowTimes(s.windowed) + RowTimes(rows);
            var k := Overflow(|s.windowed|, |rows|, c.cap);
            && k <= |mid| && RowTimes(t.windowed) == mid[k..]
            && Chain(s) + RowTimes(rows) == head + mid + []
            && Chain(t) == head + mid[k..] + []
  {
    hide W.FlushRows, W.Flushed, W.Stamped;
    var rows := W.FlushRows(bs, now, c.w);
    var stamped := W.Stamped(rows, |s.windowed|, c.cap);
    StampedTimes(rows, |s.windowed|, c.cap);
    assert RowTimes(s.windowed + stamped) == RowTimes(s.windowed) + RowTimes(rows);
    assert RowTimes(Flushing(s, bs, now, c).windowed) ==
           RowTimes(s.windowed + stamped)[Overflow(|s.windowed|, |rows|, c.cap)..];
  }

  lemma UnprobedAfterFlush(s: Pipe, t: Pipe, rows: seq<W.Row>, k: nat)
    requires t.hold == s.hold && t.idlog == s.idlog && k <= |s.windowed| + |rows|
    requires RowTimes(t.windowed) == (RowTimes(s.windowed) + RowTimes(rows))[k..]
    requires AllUnprobed(s.idlog, Unprobed(s))
    requires forall i :: 0 <= i < |rows| ==> ProbesAtMost(s.idlog, rows[i].bucket)
    ensures AllUnprobed(t.idlog, Unprobed(t))
  {
    hide ProbesAtMost;
    var n := if s.hold.Fetched? then 1 else 0;
    forall i | 0 <= i < |Unprobed(t)| ensures ProbesAtMost(t.idlog, Unprobed(t)[i]) {
      if i >= n {
        var j := i - n + k;
        if j < |s.windowed| {
          assert Unprobed(s)[n + j] == Unprobed(t)[i];
        } else {
          assert rows[j - |s.windowed|].bucket == Unprobed(t)[i];
        }
      } else {
        assert Unprobed(s)[0] == Unprobed(t)[0];
      }
    }
  }

  lemma WindowInSequence(s: Pipe, c: Setting)
    requires Sized(s, c.cap) && InSequence(s, c.w) && s.raw != []
    ensures InSequence(Exec(s, Window, c), c.w)
  {
    var ev := s.raw[0];
    var s' := s.(raw := s.raw[1..], last := Some(ev.ts));
    NextEvent(s.raw, s.taken, s.last);
    assert Chain(s') == Chain(s) && Unprobed(s') == Unprobed(s);
    BeforeFlush(s, ev, c);
    OnlyLatestOpen(s, ev, c);
    hide W.BucketStart, P.Pure, Flushing, Chain, Unprobed, RawIsRest, EventsSorted, Sorted, AllAtMost, ProbesAtMost, W.Added;
    var bs := W.Added(s.buckets, ev, c.w);
    FlushingInSequence(s', bs, ev.ts, W.BucketStart(ev.ts, c.w), c);
    FlushingFrame(s', bs, ev.ts, c);
  }

  /** The head of the raw queue is the event after `last`, hence not earlier. */
  lemma NextEvent(raw: seq<W.FlowEvent>, taken: seq<W.FlowEvent>, last: Option<int>)
    requires RawIsRest(raw, taken, last) && EventsSorted(taken) && raw != []
    ensures RawIsRest(raw[1..], taken, Some(raw[0].ts)) && (last.Some? ==> last.value <= raw[0].ts)
  {
    var n := |taken| - |raw|;
    assert raw[0] == taken[n];
    if last.Some? {
      assert taken[n - 1].ts <= taken[n].ts;
    }
  }

  /** Everything in flight is at or before every bucket that may now be flushed. */
  lemma BeforeFlush(s: Pipe, ev: W.FlowEvent, c: Setting)
    requires Latest(s.last, s.buckets, Chain(s), s.idlog, c.w) && (s.last.Some? ==> s.last.value <= ev.ts)
    ensures var b := W.BucketStart(ev.ts, c.w);
            && AllAtMost(Chain(s), b) && ProbesAtMost(s.idlog, b)
            && forall x :: x in W.Added(s.buckets, ev, c.w) ==>
                 AllAtMost(Chain(s), x) && x <= b && ProbesAtMost(s.idlog, x)
  {
    hide W.BucketStart, Chain;
    if s.last.Some? {
      W.BucketMonotone(s.last.value, ev.ts, c.w);
    }
  }

  /** After an in-order event only its own bucket stays open. */
  lemma OnlyLatestOpen(s: Pipe, ev: W.FlowEvent, c: Setting)
    requires s.last.Some? ==> s.last.value <= ev.ts && forall b :: b in s.buckets ==> b == W.BucketStart(s.last.value, c.w)
    requires s.last.None? ==> s.buckets.Keys == {}
    ensures forall b :: b in W.Flushed(W.Added(s.buckets, ev, c.w), ev.ts, c.w) ==> b == W.BucketStart(ev.ts, c.w)
  {
    hide W.BucketStart;
    if s.last.Some? {
      W.BucketMonotone(s.last.value, ev.ts, c.w);
    }
  }

  /** Before the first event a tick changes nothing. */
  lemma EarlyTick(s: Pipe, now: int, c: Setting)
    requires Sized(s, c.cap) && s.buckets.Keys == {}
    ensures Flushing(s, s.buckets, now, c) == s
  {
    hide W.FlushRows;
    W.FlushNothing(s.buckets, now, c.w);
    assert W.Stamped([], |s.windowed|, c.cap) == [];
    KeepNone(s.windowed, c.cap);
    assert s.windowLost + [] == s.windowLost;
    assert W.Flushed(s.buckets, now, c.w) == s.buckets;
  }

  lemma TickInSequence(s: Pipe, now: int, c: Setting)
    requires Sized(s, c.cap) && InSequence(s, c.w)
    ensures InSequence(Exec(s, Tick(now), c), c.w)
  {
    hide W.BucketStart, P.Pure, W.FlushRows, W.Stamped;
    hide Flushing, Chain, Unprobed, Sorted, AllAtMost, ProbesAtMost, RawIsRest, EventsSorted;
    if s.last.None? {
      EarlyTick(s, now, c);
    } else {
      FlushingInSequence(s, s.buckets, now, W.BucketStart(s.last.value, c.w), c);
      FlushingFrame(s, s.buckets, now, c);
    }
  }

  /** Moving a row along its own task keeps the chain of times as it is. */
  lemma MoveInSequence(s: Pipe, x: Step, c: Setting)
    requires Sized(s, c.cap) && InSequence(s, c.w) && Enabled(s, x, c) && (x.Fetch? || x.Forward? || x.Write? || x.Identify?)
    ensures InSequence(Exec(s, x, c), c.w)
  {
    hide W.BucketStart, P.Pure, MayName, Chain, Unprobed, Sorted, AllAtMost, ProbesAtMost, RawIsRest, EventsSorted;
    MoveKeepsChain(s, x, c);
    if x.Identify? {
      forall y | ProbesAtMost(s.idlog, y) ensures ProbesAtMost(s.idlog + [I.Insert(x.e)], y) {
        InsertIsNoProbe(s.idlog, x.e, y);
      }
    }
  }

  lemma InsertIsNoProbe(log: seq<I.Op>, e: I.Event, y: int)
    requires ProbesAtMost(log, y)
    ensures ProbesAtMost(log + [I.Insert(e)], y)
  {
  }

  lemma MoveKeepsChain(s: Pipe, x: Step, c: Setting)
    requires Sized(s, c.cap) && Enabled(s, x, c) && (x.Fetch? || x.Forward? || x.Write? || x.Identify?)
    ensures Chain(Exec(s, x, c)) == Chain(s) && Unprobed(Exec(s, x, c)) == Unprobed(s)
  {
    hide MayName;
    var t := Exec(s, x, c);
    match x
    case Fetch =>
      assert RowTimes(s.windowed) == [s.windowed[0].bucket] + RowTimes(s.windowed[1..]);
      assert HoldTimes(s.hold) + RowTimes(s.windowed) == HoldTimes(t.hold) + RowTimes(t.windowed);
    case Forward =>
      assert FlowTimes(t.inter) == FlowTimes(s.inter) + [s.hold.flow.bucket];
      assert Behind(t) == Behind(s);
    case Write =>
    case Identify(e) =>
  }

  lemma OfferInSequence(s: Pipe, ev: W.FlowEvent, c: Setting)
    requires Sized(s, c.cap) && InSequence(s, c.w) && Enabled(s, Offer(ev), c)
    requires forall i :: 0 <= i < |s.taken| ==> s.taken[i].ts <= ev.ts
    ensures InSequence(Exec(s, Offer(ev), c), c.w)
  {
    RawGrows(s.raw, s.taken, s.last, ev);
    hide W.BucketStart, P.Pure, RawIsRest, EventsSorted, Sorted, Latest, AllUnprobed;
    var t := Exec(s, Offer(ev), c);
    assert Chain(t) == Chain(s) && Unprobed(t) == Unprobed(s);
  }

  lemma RawGrows(raw: seq<W.FlowEvent>, taken: seq<W.FlowEvent>, last: Option<int>, ev: W.FlowEvent)
    requires RawIsRest(raw, taken, last) && EventsSorted(taken) && forall i :: 0 <= i < |taken| ==> taken[i].ts <= ev.ts
    ensures RawIsRest(raw + [ev], taken + [ev], last) && EventsSorted(taken + [ev])
  {
    var r, t := raw + [ev], taken + [ev];
    assert t[|t| - |r|..] == taken[|taken| - |raw|..] + [ev];
  }

  /** The row being labelled is older than every row not yet probed. */
  lemma EnrichInSequence(s: Pipe, x: Step, c: Setting)
    requires Sized(s, c.cap) && InSequence(s, c.w) && x.Enrich? && Enabled(s, x, c)
    ensures InSequence(Exec(s, x, c), c.w)
  {
    hide W.BucketStart, P.Pure, MayName;
    var t := Exec(s, x, c);
    var b := s.hold.row.bucket;
    assert Behind(t) == Behind(s);
    assert Chain(t) == Chain(s);
    var head := Ahead(s) + FlowTimes(s.inter) + [b];
    assert Chain(s) == head + RowTimes(s.windowed);
    SortedSplit(head, RowTimes(s.windowed));
    assert head[|head| - 1] == b;
    assert Chain(s)[|head| - 1] == b;
    assert forall i :: 0 <= i < |Unprobed(t)| ==> Unprobed(s)[i + 1] == Unprobed(t)[i] && b <= Unprobed(t)[i];
    ProbesSnoc(s.idlog, I.Probe(s.hold.row.key.src, b));
  }

  lemma ProbesSnoc(log: seq<I.Op>, op: I.Op)
    requires op.Probe?
    ensures forall y :: ProbesAtMost(log, y) && op.at <= y ==> ProbesAtMost(log + [op], y)
  {
  }

  lemma DemuxChain(s: Pipe, c: Setting)
    requires Sized(s, c.cap) && s.inter != []
    ensures var t := Exec(s, Demux, c); var f := s.inter[0];
            var a := FlowTimes(s.sankeyQ) + [f.bucket];
            var b := FlowTimes(s.inter[1..]) + (HoldTimes(s.hold) + RowTimes(s.windowed));
            var k := Overflow(|s.sankeyQ|, 1, c.cap);
            && k <= |a| && Chain(s) == FlowTimes(s.cut.pending) + a + b
            && Chain(t) == FlowTimes(s.cut.pending) + a[k..] + b
  {
    hide HoldTimes, RowTimes, Evict;
    var t := Exec(s, Demux, c);
    var f := s.inter[0];
    assert FlowTimes(s.inter) == [f.bucket] + FlowTimes(s.inter[1..]);
    assert FlowTimes(s.sankeyQ + [f]) == FlowTimes(s.sankeyQ) + [f.bucket];
    assert FlowTimes(t.sankeyQ) == FlowTimes(s.sankeyQ + [f])[Overflow(|s.sankeyQ|, 1, c.cap)..];
  }

  lemma DemuxInSequence(s: Pipe, c: Setting)
    requires Sized(s, c.cap) && InSequence(s, c.w) && s.inter != []
    ensures InSequence(Exec(s, Demux, c), c.w)
  {
    hide W.BucketStart, P.Pure, Chain, Keep, Evict, Sorted, AllAtMost, ProbesAtMost, RawIsRest, EventsSorted, AllUnprobed;
    var t := Exec(s, Demux, c);
    DemuxChain(s, c);
    SortedDrop(FlowTimes(s.cut.pending), FlowTimes(s.sankeyQ) + [s.inter[0].bucket],
               FlowTimes(s.inter[1..]) + (HoldTimes(s.hold) + RowTimes(s.windowed)), Overflow(|s.sankeyQ|, 1, c.cap));
    if s.last.None? {
      ChainEmpty(s);
    }
    assert Unprobed(t) == Unprobed(s);
  }

  lemma ChainEmpty(s: Pipe)
    ensures Chain(s) == [] ==> s.inter == []
  {
    assert |Chain(s)| == |Ahead(s)| + (|s.inter| + |HoldTimes(s.hold) + RowTimes(s.windowed)|);
  }

  lemma PureStep(cut: P.Cut, f: P.Flow)
    requires P.Pure(cut) && P.Wellcut(cut) && (cut.current.Some? ==> cut.current.value <= f.bucket)
    ensures P.Pure(P.Received(cut, f))
  {
  }

  lemma PublishInSequence(s: Pipe, view: P.View, c: Setting)
    requires Sized(s, c.cap) && InSequence(s, c.w) && P.Wellcut(s.cut) && s.sankeyQ != []
    ensures InSequence(Exec(s, Publish(view), c), c.w)
  {
    hide W.BucketStart, P.Received, P.Pure, P.Wellcut, P.DeltaOf, Chain, ProbesAtMost, RawIsRest, EventsSorted, AllUnprobed;
    var t := Exec(s, Publish(view), c);
    PublishChain(s, view, c);
    PureStep(s.cut, s.sankeyQ[0]);
    assert Unprobed(t) == Unprobed(s);
  }

  lemma PendingTimes(cut: P.Cut, f: P.Flow)
    requires P.Wellcut(cut)
    ensures var p := FlowTimes(cut.pending);
            FlowTimes(P.Received(cut, f).pending) ==
            if cut.current.Some? && f.bucket > cut.current.value then [f.bucket] else p + [f.bucket]
    ensures cut.current.Some? ==> cut.pending != [] && FlowTimes(cut.pending)[0] == cut.current.value
  {
  }

  /** Publishing either leaves the chain as it is or drops the published batch from its head. */
  lemma PublishChain(s: Pipe, view: P.View, c: Setting)
    requires Sized(s, c.cap) && P.Wellcut(s.cut) && s.sankeyQ != [] && Sorted(Chain(s))
    ensures s.cut.current.Some? ==> s.cut.current.value <= s.sankeyQ[0].bucket
    ensures exists k :: 0 <= k <= |Chain(s)| && Chain(Exec(s, Publish(view), c)) == Chain(s)[k..]
  {
    PublishTimes(s, view, c);
    var later := s.cut.current.Some? && s.sankeyQ[0].bucket > s.cut.current.value;
    var p, x, q, r := FlowTimes(s.cut.pending), [s.sankeyQ[0].bucket], FlowTimes(s.sankeyQ[1..]), Behind(s);
    assert p != [] ==> Chain(s)[0] == p[0];
    assert Chain(s)[|p|] == x[0];
    hide Exec, Behind, FlowTimes, P.Wellcut, Ahead;
    ChainParts(p, x, q, r);
    if later {
      assert Chain(Exec(s, Publish(view), c)) == Chain(s)[|p|..];
    } else {
      assert Chain(Exec(s, Publish(view), c)) == Chain(s)[0..];
    }
  }

  lemma PublishTimes(s: Pipe, view: P.View, c: Setting)
    requires Sized(s, c.cap) && P.Wellcut(s.cut) && s.sankeyQ != []
    ensures var t := Exec(s, Publish(view), c);
            var p, x, q := FlowTimes(s.cut.pending), [s.sankeyQ[0].bucket], FlowTimes(s.sankeyQ[1..]);
            && Ahead(s) == p + (x + q) && Behind(t) == Behind(s)
            && Ahead(t) == (if s.cut.current.Some? && x[0] > s.cut.current.value then x else p + x) + q
            && (s.cut.current.Some? ==> p != [] && p[0] == s.cut.current.value)
  {
    hide P.DeltaOf, P.Received, P.Wellcut;
    PendingTimes(s.cut, s.sankeyQ[0]);
    assert FlowTimes(s.sankeyQ) == [s.sankeyQ[0].bucket] + FlowTimes(s.sankeyQ[1..]);
  }

  lemma ChainParts(p: seq<int>, x: seq<int>, q: seq<int>, r: seq<int>)
    ensures (p + (x + q) + r)[|p|..] == (x + q) + r && ((p + x) + q) + r == p + (x + q) + r
  {
    assert p + (x + q) == (p + x) + q;
  }

  lemma InSequenceStep(s: Pipe, x: Step, c: Setting)
    requires Sized(s, c.cap) && InSequence(s, c.w) && P.Wellcut(s.cut) && Enabled(s, x, c)
    requires x.Offer? ==> forall i :: 0 <= i < |s.taken| ==> s.taken[i].ts <= x.ev.ts
    ensures InSequence(Exec(s, x, c), c.w)
  {
    hide InSequence, P.Wellcut, Exec;
    match x
    case Offer(ev) => OfferInSequence(s, ev, c);
    case Window => WindowInSequence(s, c);
    case Tick(now) => TickInSequence(s, now, c);
    case Enrich(_, _, _) => EnrichInSequence(s, x, c);
    case Demux => DemuxInSequence(s, c);
    case Publish(view) => PublishInSequence(s, view, c);
    case _ => MoveInSequence(s, x, c);
  }

  // ---------------------------------------------------------------------------------------------
  // Runs
  // ---------------------------------------------------------------------------------------------

  /** Events are offered in timestamp order; nothing is asked of any other step. */
  ghost predicate OffersInOrder(xs: seq<Step>) {
    forall i, j :: 0 <= i < j < |xs| && xs[i].Offer? && xs[j].Offer? ==> xs[i].ev.ts <= xs[j].ev.ts
  }

  lemma {:induction false} TakenWereOffered(ss: seq<Pipe>, xs: seq<Step>, c: Setting, i: nat, e: W.FlowEvent)
    requires IsRun(ss, xs, c) && i < |ss| && e in ss[i].taken
    ensures exists k :: 0 <= k < i && xs[k] == Offer(e)
  {
    if i > 0 {
      if e in ss[i - 1].taken {
        TakenWereOffered(ss, xs, c, i - 1, e);
      } else {
        TakenGrows(ss[i - 1], xs[i - 1], c);
        assert xs[i - 1] == Offer(e);
      }
    }
  }

  lemma TakenGrows(s: Pipe, x: Step, c: Setting)
    requires Sized(s, c.cap) && Enabled(s, x, c)
    ensures Exec(s, x, c).taken == if x.Offer? then s.taken + [x.ev] else s.taken
  {
    hide MayName, P.Received, P.DeltaOf;
  }

  lemma InSequenceInit(w: W.Window)
    ensures InSequence(INIT, w)
  {
    assert Chain(INIT) == [];
    assert Unprobed(INIT) == [];
  }

  /** The invariant holds in every state of every run whose events arrive in order. */
  lemma {:induction false} InSequenceRun(ss: seq<Pipe>, xs: seq<Step>, c: Setting, i: nat)
    requires IsRun(ss, xs, c) && OffersInOrder(xs) && i < |ss|
    ensures InSequence(ss[i], c.w)
  {
    hide InSequence, Healthy, Enabled, Exec;
    if i == 0 {
      InSequenceInit(c.w);
    } else {
      InSequenceRun(ss, xs, c, i - 1);
      HealthyRun(ss, xs, c, i - 1);
      var s, x := ss[i - 1], xs[i - 1];
      if x.Offer? {
        forall k | 0 <= k < |s.taken| ensures s.taken[k].ts <= x.ev.ts {
          TakenWereOffered(ss, xs, c, i - 1, s.taken[k]);
        }
      }
      HealthyParts(s, c);
      InSequenceStep(s, x, c);
    }
  }

  lemma HealthyParts(s: Pipe, c: Setting)
    requires Healthy(s, c)
    ensures Sized(s, c.cap) && P.Wellcut(s.cut) && Faithful(s.deltas, s.cut.published)
  {
  }

  /** Every published delta holds the rows of exactly one bucket, and published times strictly increase. */
  lemma DeltasArePure(ss: seq<Pipe>, xs: seq<Step>, c: Setting, i: nat)
    requires IsRun(ss, xs, c) && OffersInOrder(xs) && i < |ss|
    ensures var s := ss[i];
            && |s.deltas| == |s.cut.published|
            && (forall j :: 0 <= j < |s.deltas| ==> s.deltas[j].ts == s.cut.published[j].bucket
                                                    && P.AllIn(s.cut.published[j].flows, s.deltas[j].ts))
            && (forall j, k :: 0 <= j < k < |s.deltas| ==> s.deltas[j].ts < s.deltas[k].ts)
  {
    hide IsRun, Healthy;
    InSequenceRun(ss, xs, c, i);
    HealthyRun(ss, xs, c, i);
    HealthyParts(ss[i], c);
    assert forall j :: 0 <= j < |ss[i].deltas| ==> StandsFor(ss[i].deltas[j], ss[i].cut.published[j]);
  }

  /**
   Whenever the label stage names a user, that user is one the identity index would also have named
   had it never evicted anything, since no probe so far has looked past this row's bucket.
   */
  lemma LabelsIgnoreEviction(ss: seq<Pipe>, xs: seq<Step>, c: Setting, i: nat)
    requires IsRun(ss, xs, c) && OffersInOrder(xs) && i < |xs| && xs[i].Enrich?
    ensures ProbesAtMost(ss[i].idlog, ss[i].hold.row.bucket)
    ensures MayName(I.WithoutProbes(ss[i].idlog), ss[i].hold.row, xs[i].user)
  {
    InSequenceRun(ss, xs, c, i);
    var s := ss[i];
    var row := s.hold.row;
    assert Unprobed(s)[0] == row.bucket;
    assert I.ProbesUpTo(s.idlog, row.key.src, row.bucket);
    I.EvictionInvisible(s.idlog, row.key.src, row.bucket);
  }
}
