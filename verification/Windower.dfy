/**
 The flow windower: events are summed per (bucket, key) in tumbling buckets, and buckets whose
 window has passed are flushed as rows into a bounded drop-oldest queue.
 */
module Windower {
  import opened Prelude
  import opened BoundedQueue
  import opened Collections

  datatype Key = Key(src: string, dst: string, port: int, proto: int)

  datatype Acc = Acc(bytes: int, packets: int, flows: int,
                     app: Option<string>, fqdn: Option<string>, action: Option<string>)

  datatype FlowEvent = FlowEvent(ts: int, key: Key, bytes: int, packets: int,
                                 app: Option<string>, fqdn: Option<string>, action: Option<string>)

  datatype Row = Row(bucket: int, windowS: int, key: Key, acc: Acc, lossy: bool, dropped: nat)

  type Slot = Dict<Key, Acc>
  type Buckets = map<int, Slot>
  type Window = w: int | w > 0 witness 1

  const EMPTY := Acc(0, 0, 0, None, None, None)

  function BucketStart(ts: int, w: Window): int { ts - ts % w }

  predicate Truthy(v: Option<string>) { v.Some? && v.value != "" }

  /** Python's `a or b` on optional strings: the empty string counts as absent. */
  function Or(a: Option<string>, b: Option<string>): Option<string> {
    if Truthy(a) then a else b
  }

  function Absorb(a: Acc, ev: FlowEvent): Acc {
    Acc(a.bytes + ev.bytes, a.packets + ev.packets, a.flows + 1,
        Or(a.app, ev.app), Or(a.fqdn, ev.fqdn), Or(a.action, ev.action))
  }

  function SlotAt(bs: Buckets, b: int): Slot { if b in bs then bs[b] else [] }

  function AccAt(slot: Slot, k: Key): Acc {
    match Lookup(slot, k) case None => EMPTY case Some(a) => a
  }

  function Added(bs: Buckets, ev: FlowEvent, w: Window): Buckets {
    var b := BucketStart(ev.ts, w);
    var slot := SlotAt(bs, b);
    bs[b := Put(slot, ev.key, Absorb(AccAt(slot, ev.key), ev))]
  }

  function Ready(bs: Buckets, now: int, w: Window): set<int> {
    set b | b in bs && b <= BucketStart(now, w) - w
  }

  function SlotRows(b: int, slot: Slot, w: Window): (rows: seq<Row>)
    ensures |rows| == |slot|
  {
    seq(|slot|, i requires 0 <= i < |slot| => Row(b, w, slot[i].key, slot[i].value, false, 0))
  }

  function RowsInOrder(bs: Buckets, order: seq<int>, w: Window): seq<Row> {
    if order == [] then []
    else RowsInOrder(bs, order[..|order| - 1], w) +
         SlotRows(order[|order| - 1], SlotAt(bs, order[|order| - 1]), w)
  }

  /** The rows a flush builds: ready buckets in ascending order, keys in first-seen order. */
  function FlushRows(bs: Buckets, now: int, w: Window): seq<Row> {
    RowsInOrder(bs, Ascending(Ready(bs, now, w)), w)
  }

  function Flushed(bs: Buckets, now: int, w: Window): Buckets { bs - Ready(bs, now, w) }

  /** A row carries the number of evictions that preceded it in its flush. */
  function Stamp(r: Row, dropped: nat): Row { r.(lossy := dropped > 0, dropped := dropped) }

  function Stamped(rows: seq<Row>, queued: nat, maxsize: int): (r: seq<Row>)
    ensures |r| == |rows|
  {
    seq(|rows|, j requires 0 <= j < |rows| => Stamp(rows[j], Overflow(queued, j, maxsize)))
  }

  // ---------------------------------------------------------------------------------------------
  // Runs
  // ---------------------------------------------------------------------------------------------

  /** An event taken from the input queue, or an idle tick at some clock reading. */
  datatype Input = Arrive(ev: FlowEvent) | Tick(now: int)

  datatype State = State(buckets: Buckets, emitted: seq<Row>)

  function Flush(s: State, now: int, w: Window): State {
    State(Flushed(s.buckets, now, w), s.emitted + FlushRows(s.buckets, now, w))
  }

  function Next(s: State, x: Input, w: Window): State {
    match x
    case Arrive(ev) => Flush(s.(buckets := Added(s.buckets, ev, w)), ev.ts, w)
    case Tick(now) => Flush(s, now, w)
  }

  function Run(xs: seq<Input>, w: Window): State {
    if xs == [] then State(map[], []) else Next(Run(xs[..|xs| - 1], w), xs[|xs| - 1], w)
  }

  ghost predicate WellFormed(bs: Buckets) {
    forall b :: b in bs ==> DistinctKeys(bs[b])
  }

  lemma AddedWellFormed(bs: Buckets, ev: FlowEvent, w: Window)
    requires WellFormed(bs)
    ensures WellFormed(Added(bs, ev, w))
  {
    var slot := SlotAt(bs, BucketStart(ev.ts, w));
    PutDistinct(slot, ev.key, Absorb(AccAt(slot, ev.key), ev));
  }

  lemma {:induction false} RunWellFormed(xs: seq<Input>, w: Window)
    ensures WellFormed(Run(xs, w).buckets)
  {
    if xs != [] {
      var x := xs[|xs| - 1];
      RunWellFormed(xs[..|xs| - 1], w);
      if x.Arrive? {
        AddedWellFormed(Run(xs[..|xs| - 1], w).buckets, x.ev, w);
      }
    }
  }

  /** The bucket of an instant is the multiple of the window that holds it. */
  lemma BucketStartIs(ts: int, w: Window, b: int)
    ensures BucketStart(ts, w) == b <==> b % w == 0 && b <= ts < b + w
  {
    var q := ts / w;
    assert BucketStart(ts, w) == w * q;
    QuotientUnique(w * q, w, q);
    if b % w == 0 && b <= ts < b + w {
      assert b == w * (b / w);
      QuotientUnique(ts, w, b / w);
    }
  }

  // ---------------------------------------------------------------------------------------------
  // Conservation
  // ---------------------------------------------------------------------------------------------

  datatype Measure = Bytes | Packets | Flows

  /** What is measured: one quantity, over everything or at one (bucket, key). */
  datatype Lens = Lens(m: Measure, at: Option<(int, Key)>)

  function Amount(m: Measure, a: Acc): int {
    match m case Bytes => a.bytes case Packets => a.packets case Flows => a.flows
  }

  function EventAmount(m: Measure, ev: FlowEvent): int {
    match m case Bytes => ev.bytes case Packets => ev.packets case Flows => 1
  }

  predicate Sees(lens: Lens, b: int, k: Key) { lens.at.None? || lens.at.value == (b, k) }

  function Weight(lens: Lens, b: int, k: Key, a: Acc): int {
    if Sees(lens, b, k) then Amount(lens.m, a) else 0
  }

  function InputWeight(lens: Lens, x: Input, w: Window): int {
    if x.Arrive? && Sees(lens, BucketStart(x.ev.ts, w), x.ev.key) then EventAmount(lens.m, x.ev) else 0
  }

  function TakenIn(lens: Lens, xs: seq<Input>, w: Window): int {
    if xs == [] then 0 else TakenIn(lens, xs[..|xs| - 1], w) + InputWeight(lens, xs[|xs| - 1], w)
  }

  function RowWeight(lens: Lens): Row -> int { (r: Row) => Weight(lens, r.bucket, r.key, r.acc) }

  function RowsWeight(lens: Lens, rows: seq<Row>): int { Sum(rows, RowWeight(lens)) }

  function KeyWeights(lens: Lens, b: int): (Key, Acc) -> int { (k, a) => Weight(lens, b, k, a) }

  function SlotWeight(lens: Lens, b: int, slot: Slot): int { DictSum(slot, KeyWeights(lens, b)) }

  function BucketWeights(lens: Lens, bs: Buckets): int -> int { b => SlotWeight(lens, b, SlotAt(bs, b)) }

  ghost function OpenWeight(lens: Lens, bs: Buckets): int { SetSum(bs.Keys, BucketWeights(lens, bs)) }

  lemma {:induction false} SlotRowsWeight(lens: Lens, b: int, slot: Slot, w: Window)
    ensures RowsWeight(lens, SlotRows(b, slot, w)) == SlotWeight(lens, b, slot)
    decreases |slot|
  {
    if slot != [] {
      SlotRowsWeight(lens, b, slot[1..], w);
      var rows := SlotRows(b, slot, w);
      assert rows == [rows[0]] + SlotRows(b, slot[1..], w);
      SumConcat([rows[0]], SlotRows(b, slot[1..], w), RowWeight(lens));
      SumOne(rows[0], RowWeight(lens));
    }
  }

  lemma AddedWeight(lens: Lens, bs: Buckets, ev: FlowEvent, w: Window)
    ensures OpenWeight(lens, Added(bs, ev, w)) == OpenWeight(lens, bs) + InputWeight(lens, Arrive(ev), w)
  {
    var b := BucketStart(ev.ts, w);
    var slot := SlotAt(bs, b);
    var was := AccAt(slot, ev.key);
    var bs' := Added(bs, ev, w);
    DictSumPut(slot, ev.key, Absorb(was, ev), KeyWeights(lens, b));
    assert SlotWeight(lens, b, bs'[b]) == SlotWeight(lens, b, slot) + InputWeight(lens, Arrive(ev), w);
    assert bs'.Keys == bs.Keys + {b};
    SetSumUpdate(bs.Keys, b, BucketWeights(lens, bs), BucketWeights(lens, bs'));
  }

  lemma {:induction false} OrderWeight(lens: Lens, bs: Buckets, order: seq<int>, w: Window)
    requires StrictlyAscending(order)
    ensures RowsWeight(lens, RowsInOrder(bs, order, w)) ==
            SetSum(Elements(order), BucketWeights(lens, bs))
    decreases |order|
  {
    if order != [] {
      var front, b := order[..|order| - 1], order[|order| - 1];
      OrderWeight(lens, bs, front, w);
      SlotRowsWeight(lens, b, SlotAt(bs, b), w);
      SumConcat(RowsInOrder(bs, front, w), SlotRows(b, SlotAt(bs, b), w), RowWeight(lens));
      var f := BucketWeights(lens, bs);
      assert order == front + [b];
      assert Elements(order) == Elements(front) + {b};
      SetSumUpdate(Elements(front), b, f, f);
    }
  }

  lemma {:induction false} SetSumSplit(s: set<int>, t: set<int>, f: int -> int)
    requires t <= s
    ensures SetSum(s, f) == SetSum(t, f) + SetSum(s - t, f)
    decreases |t|
  {
    if t == {} {
      assert s - t == s;
    } else {
      var x := Pick(t);
      SetSumRemove(s, x, f);
      SetSumRemove(t, x, f);
      SetSumSplit(s - {x}, t - {x}, f);
      assert s - {x} - (t - {x}) == s - t;
    }
  }

  /** A flush moves weight from the open buckets to rows and creates or loses none. */
  lemma FlushWeight(lens: Lens, bs: Buckets, now: int, w: Window)
    ensures OpenWeight(lens, bs) == OpenWeight(lens, Flushed(bs, now, w)) + RowsWeight(lens, FlushRows(bs, now, w))
  {
    var ready := Ready(bs, now, w);
    var f, g := BucketWeights(lens, bs), BucketWeights(lens, Flushed(bs, now, w));
    AscendingSorted(ready);
    AscendingElements(ready);
    OrderWeight(lens, bs, Ascending(ready), w);
    SetSumSplit(bs.Keys, ready, f);
    SetSumEqual(bs.Keys - ready, f, g);
    assert Flushed(bs, now, w).Keys == bs.Keys - ready;
  }

  /**
   Over every run, including late events that reopen a flushed bucket: what the rows carry plus what
   is still open is what came in, in total and at every (bucket, key).
   */
  lemma {:induction false} Accounting(lens: Lens, xs: seq<Input>, w: Window)
    ensures RowsWeight(lens, Run(xs, w).emitted) + OpenWeight(lens, Run(xs, w).buckets) == TakenIn(lens, xs, w)
  {
    if xs != [] {
      var s, x := Run(xs[..|xs| - 1], w), xs[|xs| - 1];
      Accounting(lens, xs[..|xs| - 1], w);
      var bs := if x.Arrive? then Added(s.buckets, x.ev, w) else s.buckets;
      var now := if x.Arrive? then x.ev.ts else x.now;
      if x.Arrive? {
        AddedWeight(lens, s.buckets, x.ev, w);
      }
      FlushWeight(lens, bs, now, w);
      SumConcat(s.emitted, FlushRows(bs, now, w), RowWeight(lens));
    }
  }

  /** Seen through one (bucket, key), what is open is that key's accumulator. */
  lemma OpenAtKey(m: Measure, b: int, k: Key, bs: Buckets)
    requires WellFormed(bs)
    ensures OpenWeight(Lens(m, Some((b, k))), bs) == Amount(m, AccAt(SlotAt(bs, b), k))
  {
    var lens := Lens(m, Some((b, k)));
    var f := BucketWeights(lens, bs);
    forall x | x in bs.Keys && x != b ensures f(x) == 0 {
      DictSumNone(SlotAt(bs, x), KeyWeights(lens, x));
    }
    DictSumAt(SlotAt(bs, b), k, KeyWeights(lens, b));
    if b in bs {
      SetSumRemove(bs.Keys, b, f);
      SetSumZero(bs.Keys - {b}, f);
    } else {
      SetSumZero(bs.Keys, f);
    }
  }

  lemma {:induction false} DictSumNone(d: Slot, f: (Key, Acc) -> int)
    requires forall k, a :: f(k, a) == 0
    ensures DictSum(d, f) == 0
  {
    if d != [] { DictSumNone(d[1..], f); }
  }

  /** Per key: emitted rows plus the open accumulator sum to the events of the key in [b, b + w). */
  lemma AccountingPerKey(m: Measure, b: int, k: Key, xs: seq<Input>, w: Window)
    ensures var s := Run(xs, w); var lens := Lens(m, Some((b, k)));
            RowsWeight(lens, s.emitted) + Amount(m, AccAt(SlotAt(s.buckets, b), k)) == TakenIn(lens, xs, w)
  {
    Accounting(Lens(m, Some((b, k))), xs, w);
    RunWellFormed(xs, w);
    OpenAtKey(m, b, k, Run(xs, w).buckets);
  }

  // ---------------------------------------------------------------------------------------------
  // Order
  // ---------------------------------------------------------------------------------------------

  ghost predicate ByBucket(rows: seq<Row>) {
    forall i, j :: 0 <= i < j < |rows| ==> rows[i].bucket <= rows[j].bucket
  }

  /** Event timestamps do not decrease; ticks may read any clock. */
  ghost predicate InOrder(xs: seq<Input>) {
    forall i, j :: 0 <= i < j < |xs| && xs[i].Arrive? && xs[j].Arrive? ==> xs[i].ev.ts <= xs[j].ev.ts
  }

  ghost predicate TickFree(xs: seq<Input>) {
    forall i :: 0 <= i < |xs| ==> xs[i].Arrive?
  }

  lemma RowsInOrderSnoc(bs: Buckets, order: seq<int>, i: nat, w: Window)
    requires i < |order|
    ensures RowsInOrder(bs, order[..i + 1], w) ==
            RowsInOrder(bs, order[..i], w) + SlotRows(order[i], SlotAt(bs, order[i]), w)
  {
    assert order[..i + 1][..i] == order[..i];
  }

  lemma {:induction false} RowsInOrderBuckets(bs: Buckets, order: seq<int>, w: Window)
    requires StrictlyAscending(order)
    ensures var rows := RowsInOrder(bs, order, w);
            ByBucket(rows) && forall i :: 0 <= i < |rows| ==> rows[i].bucket in Elements(order)
    decreases |order|
  {
    if order != [] {
      hide RowsInOrder, Elements;
      var n := |order| - 1;
      RowsInOrderBuckets(bs, order[..n], w);
      RowsInOrderSnoc(bs, order, n, w);
      ElementsSnoc(order, n);
      assert order[..n + 1] == order;
      Earlier(order, n);
    }
  }

  lemma Earlier(order: seq<int>, n: nat)
    requires StrictlyAscending(order) && n < |order|
    ensures forall b :: b in Elements(order[..n]) ==> b < order[n]
  {
  }

  /** A flush at `now` emits, in bucket order, only buckets whose window has fully passed. */
  lemma FlushOnlyClosed(bs: Buckets, now: int, w: Window)
    ensures var rows := FlushRows(bs, now, w);
            ByBucket(rows) && forall i :: 0 <= i < |rows| ==> rows[i].bucket in bs && rows[i].bucket + w <= now
    ensures forall b :: b in Flushed(bs, now, w) ==> now < b + 2 * w
  {
    AscendingSorted(Ready(bs, now, w));
    AscendingElements(Ready(bs, now, w));
    RowsInOrderBuckets(bs, Ascending(Ready(bs, now, w)), w);
  }

  lemma BucketMonotone(a: int, b: int, w: Window)
    requires a <= b
    ensures BucketStart(a, w) <= BucketStart(b, w)
    ensures BucketStart(a, w) == BucketStart(b, w) || BucketStart(a, w) <= BucketStart(b, w) - w
  {
    var qa, qb := a / w, b / w;
    assert BucketStart(a, w) == w * qa && BucketStart(b, w) == w * qb;
    MulBounds(w, qb - qa);
    assert w * (qb - qa) == w * qb - w * qa;
  }

  /** The latest event of a run, if any. */
  function LastTs(xs: seq<Input>): Option<int> {
    if xs == [] then None
    else if xs[|xs| - 1].Arrive? then Some(xs[|xs| - 1].ev.ts)
    else LastTs(xs[..|xs| - 1])
  }

  lemma {:induction false} LastTsIn(xs: seq<Input>)
    ensures LastTs(xs).Some? ==> exists i :: 0 <= i < |xs| && xs[i].Arrive? && xs[i].ev.ts == LastTs(xs).value
    ensures LastTs(xs).None? ==> forall i :: 0 <= i < |xs| ==> xs[i].Tick?
  {
    if xs != [] && xs[|xs| - 1].Tick? {
      LastTsIn(xs[..|xs| - 1]);
    }
  }

  /** Rows so far are in bucket order and only the bucket of the latest event can be open. */
  ghost predicate Ordered(s: State, last: Option<int>, w: Window) {
    && ByBucket(s.emitted)
    && match last
       case None => s.buckets.Keys == {} && s.emitted == []
       case Some(t) =>
         && (forall b :: b in s.buckets ==> b == BucketStart(t, w))
         && (forall i :: 0 <= i < |s.emitted| ==> s.emitted[i].bucket <= BucketStart(t, w))
  }

  lemma ByBucketConcat(a: seq<Row>, b: seq<Row>)
    requires ByBucket(a) && ByBucket(b)
    requires forall i, j :: 0 <= i < |a| && 0 <= j < |b| ==> a[i].bucket <= b[j].bucket
    ensures ByBucket(a + b)
  {
  }

  lemma FlushNothing(bs: Buckets, now: int, w: Window)
    requires bs.Keys == {}
    ensures FlushRows(bs, now, w) == []
  {
    assert Ready(bs, now, w) == {};
  }

  lemma OrderedTick(s: State, now: int, last: Option<int>, w: Window)
    requires Ordered(s, last, w)
    ensures Ordered(Flush(s, now, w), last, w)
  {
    hide FlushRows, BucketStart;
    FlushOnlyClosed(s.buckets, now, w);
    ByBucketConcat(s.emitted, FlushRows(s.buckets, now, w));
    if last.None? {
      FlushNothing(s.buckets, now, w);
    }
  }

  lemma OrderedArrive(s: State, ev: FlowEvent, last: Option<int>, w: Window)
    requires Ordered(s, last, w) && (last.Some? ==> last.value <= ev.ts)
    ensures Ordered(Next(s, Arrive(ev), w), Some(ev.ts), w)
  {
    hide FlushRows, BucketStart;
    var bs := Added(s.buckets, ev, w);
    var rows := FlushRows(bs, ev.ts, w);
    FlushOnlyClosed(bs, ev.ts, w);
    if last.Some? {
      BucketMonotone(last.value, ev.ts, w);
    }
    BucketStartIs(ev.ts, w, BucketStart(ev.ts, w));
    ByBucketConcat(s.emitted, rows);
  }

  /**
   With events in timestamp order, ticks at any times: rows leave in bucket order over the whole run,
   and only the bucket of the latest event can be open.
   */
  lemma {:induction false} EmittedInOrder(xs: seq<Input>, w: Window)
    requires InOrder(xs)
    ensures Ordered(Run(xs, w), LastTs(xs), w)
  {
    hide Ordered, Next;
    if xs == [] {
      assert Ordered(State(map[], []), None, w) by { OrderedInitially(w); }
    } else {
      var front, x := xs[..|xs| - 1], xs[|xs| - 1];
      EmittedInOrder(front, w);
      LastTsIn(front);
      OrderedNext(Run(front, w), x, LastTs(front), w);
    }
  }

  lemma OrderedInitially(w: Window)
    ensures Ordered(State(map[], []), None, w)
  {
  }

  lemma OrderedNext(s: State, x: Input, last: Option<int>, w: Window)
    requires Ordered(s, last, w) && (x.Arrive? && last.Some? ==> last.value <= x.ev.ts)
    ensures Ordered(Next(s, x, w), if x.Arrive? then Some(x.ev.ts) else last, w)
  {
    match x
    case Arrive(ev) => OrderedArrive(s, ev, last, w);
    case Tick(now) => OrderedTick(s, now, last, w);
  }

  // ---------------------------------------------------------------------------------------------
  // In-order runs without ticks
  // ---------------------------------------------------------------------------------------------

  /** No two rows share a bucket and a key. */
  ghost predicate OncePerBucket(rows: seq<Row>) {
    forall i, j :: 0 <= i < j < |rows| ==> rows[i].bucket != rows[j].bucket || rows[i].key != rows[j].key
  }

  lemma {:induction false} OrderOncePerBucket(bs: Buckets, order: seq<int>, w: Window)
    requires StrictlyAscending(order) && WellFormed(bs)
    ensures OncePerBucket(RowsInOrder(bs, order, w))
    decreases |order|
  {
    if order != [] {
      var front, b := order[..|order| - 1], order[|order| - 1];
      OrderOncePerBucket(bs, front, w);
      RowsInOrderBuckets(bs, front, w);
      assert forall i :: 0 <= i < |front| ==> front[i] == order[i];
      OncePerBucketConcat(RowsInOrder(bs, front, w), SlotRows(b, SlotAt(bs, b), w));
    }
  }

  lemma OncePerBucketConcat(a: seq<Row>, b: seq<Row>)
    requires OncePerBucket(a) && OncePerBucket(b)
    requires forall i, j :: 0 <= i < |a| && 0 <= j < |b| ==> a[i].bucket != b[j].bucket
    ensures OncePerBucket(a + b)
  {
  }

  ghost predicate SingleOpen(s: State, t: int, w: Window) {
    && s.buckets.Keys == {BucketStart(t, w)}
    && (forall i :: 0 <= i < |s.emitted| ==> s.emitted[i].bucket < BucketStart(t, w))
    && OncePerBucket(s.emitted)
    && WellFormed(s.buckets)
  }

  lemma SingleOpenNext(s: State, t: int, ev: FlowEvent, w: Window)
    requires SingleOpen(s, t, w) && t <= ev.ts
    ensures SingleOpen(Next(s, Arrive(ev), w), ev.ts, w)
  {
    hide FlushRows, BucketStart;
    var bs := Added(s.buckets, ev, w);
    var ready := Ready(bs, ev.ts, w);
    AddedWellFormed(s.buckets, ev, w);
    BucketMonotone(t, ev.ts, w);
    BucketStartIs(ev.ts, w, BucketStart(ev.ts, w));
    FlushOnlyClosed(bs, ev.ts, w);
    FlushOncePerBucket(bs, ev.ts, w);
    OncePerBucketConcat(s.emitted, FlushRows(bs, ev.ts, w));
    assert Flushed(bs, ev.ts, w).Keys == {BucketStart(ev.ts, w)};
  }

  lemma FlushOncePerBucket(bs: Buckets, now: int, w: Window)
    requires WellFormed(bs)
    ensures OncePerBucket(FlushRows(bs, now, w))
  {
    AscendingSorted(Ready(bs, now, w));
    OrderOncePerBucket(bs, Ascending(Ready(bs, now, w)), w);
  }

  /**
   In an in-order run without ticks exactly one bucket, that of the latest event, is open, all
   emitted rows lie strictly before it, and no key is emitted twice for a bucket.
   */
  lemma {:induction false} TickFreeRuns(xs: seq<Input>, w: Window)
    requires xs != [] && InOrder(xs) && TickFree(xs)
    ensures SingleOpen(Run(xs, w), xs[|xs| - 1].ev.ts, w)
  {
    var front, ev := xs[..|xs| - 1], xs[|xs| - 1].ev;
    if front == [] {
      FirstEvent(ev, w);
    } else {
      hide SingleOpen, Next;
      TickFreeRuns(front, w);
      SingleOpenNext(Run(front, w), front[|front| - 1].ev.ts, ev, w);
    }
  }

  lemma FirstEvent(ev: FlowEvent, w: Window)
    ensures SingleOpen(Next(State(map[], []), Arrive(ev), w), ev.ts, w)
  {
    hide FlushRows, BucketStart;
    var bs := Added(map[], ev, w);
    AddedWellFormed(map[], ev, w);
    BucketStartIs(ev.ts, w, BucketStart(ev.ts, w));
    FlushOnlyClosed(bs, ev.ts, w);
    FlushOncePerBucket(bs, ev.ts, w);
    assert Flushed(bs, ev.ts, w).Keys == {BucketStart(ev.ts, w)};
    assert [] + FlushRows(bs, ev.ts, w) == FlushRows(bs, ev.ts, w);
  }

  // ---------------------------------------------------------------------------------------------
  // What a flush reports
  // ---------------------------------------------------------------------------------------------

  function DropsOf(): Row -> int { (r: Row) => r.dropped }

  /** What the publisher adds up over rows that reach it. */
  function ReportedDrops(rows: seq<Row>): int { Sum(rows, DropsOf()) }

  /** The flushed rows that the flush itself leaves in the queue. */
  function Survivors(rows: seq<Row>, queued: nat, maxsize: int): seq<Row>
    requires Bounded(queued, maxsize)
  {
    Stamped(rows, queued, maxsize)[Max(0, Overflow(queued, |rows|, maxsize) - queued)..]
  }

  /** After a flush the queue holds what is left of its old rows and then the survivors. */
  lemma QueueAfterFlush(q: seq<Row>, rows: seq<Row>, maxsize: int)
    requires Bounded(|q|, maxsize)
    ensures Keep(q, Stamped(rows, |q|, maxsize), maxsize) ==
            q[Min(|q|, Overflow(|q|, |rows|, maxsize))..] + Survivors(rows, |q|, maxsize)
  {
    KeepParts(q, Stamped(rows, |q|, maxsize), maxsize);
  }

  lemma StampedSnoc(rows: seq<Row>, r: Row, queued: nat, maxsize: int)
    ensures Stamped(rows + [r], queued, maxsize) ==
            Stamped(rows, queued, maxsize) + [Stamp(r, Overflow(queued, |rows|, maxsize))]
  {
  }

  /** All stamps of a flush, evicted rows included, add up to k(k-1)/2 for k evictions. */
  lemma {:induction false} StampsAreTriangular(rows: seq<Row>, queued: nat, maxsize: int)
    requires Bounded(queued, maxsize)
    ensures var k: int := Overflow(queued, |rows|, maxsize);
            2 * ReportedDrops(Stamped(rows, queued, maxsize)) == k * (k - 1)
    decreases |rows|
  {
    if rows != [] {
      hide Stamped, Sum;
      var front, r := rows[..|rows| - 1], rows[|rows| - 1];
      StampsAreTriangular(front, queued, maxsize);
      var j: int, k: int := Overflow(queued, |front|, maxsize), Overflow(queued, |rows|, maxsize);
      assert rows == front + [r];
      StampedSnoc(front, r, queued, maxsize);
      SumConcat(Stamped(front, queued, maxsize), [Stamp(r, j)], DropsOf());
      SumOne(Stamp(r, j), DropsOf());
      assert k == j + 1 || (k == 0 && j == 0);
      assert (j + 1) * j == j * (j - 1) + 2 * j;
    }
  }

  lemma StampedPrefix(rows: seq<Row>, m: nat, queued: nat, maxsize: int)
    requires m <= |rows|
    ensures Stamped(rows, queued, maxsize)[..m] == Stamped(rows[..m], queued, maxsize)
  {
  }

  /**
   The rows a flush leaves queued report k(k-1)/2 evictions, less the counts e(e-1)/2 of flushed
   rows that the same flush evicted again, where e is by how much k exceeds the queue's size.
   */
  lemma ReportIs(rows: seq<Row>, queued: nat, maxsize: int)
    requires Bounded(queued, maxsize)
    ensures var k: int := Overflow(queued, |rows|, maxsize);
            var e: int := if 0 < maxsize < k then k - maxsize else 0;
            2 * ReportedDrops(Survivors(rows, queued, maxsize)) == k * (k - 1) - e * (e - 1)
  {
    var k := Overflow(queued, |rows|, maxsize);
    var m := Max(0, k - queued);
    var all := Stamped(rows, queued, maxsize);
    StampsAreTriangular(rows, queued, maxsize);
    StampsAreTriangular(rows[..m], queued, maxsize);
    StampedPrefix(rows, m, queued, maxsize);
    assert all == all[..m] + all[m..];
    SumConcat(all[..m], all[m..], DropsOf());
  }

  /**
   So the rows that leave the windower report the true number of evictions exactly when there were
   none, or three in a queue of more than one place.
   */
  lemma ReportIsTrueIff(rows: seq<Row>, queued: nat, maxsize: int)
    requires Bounded(queued, maxsize)
    ensures var k := Overflow(queued, |rows|, maxsize);
            ReportedDrops(Survivors(rows, queued, maxsize)) == k <==> k == 0 || (k == 3 && maxsize != 1)
  {
    hide ReportedDrops, Survivors, Overflow;
    var k := Overflow(queued, |rows|, maxsize);
    ReportIs(rows, queued, maxsize);
    if 0 < maxsize < k {
      PartialTriangle(k, maxsize);
    } else {
      WholeTriangle(k);
    }
  }

  lemma WholeTriangle(k: nat)
    ensures k * (k - 1) == 2 * k <==> k == 0 || k == 3
  {
    assert k * (k - 1) - 2 * k == k * (k - 3);
  }

  lemma PartialTriangle(k: int, c: int)
    requires 0 < c < k
    ensures k * (k - 1) - (k - c) * (k - c - 1) == 2 * k <==> k == 3 && c == 2
  {
    var d := k - c;
    assert k * (k - 1) - d * (d - 1) == c * (c + 2 * d - 1) by {
      assert (c + d) * (c + d - 1) == c * (c + d - 1) + d * (c + d - 1);
      assert d * (c + d - 1) == c * d + d * (d - 1);
    }
    Positive(c, d);
  }

  lemma Positive(c: int, d: int)
    requires 0 < c && 0 < d
    ensures c * (c + 2 * d - 1) == 2 * (c + d) <==> d == 1 && c == 2
  {
    var cc, cd := c * c, c * d;
    assert c * (c + 2 * d - 1) == cc + 2 * cd - c;
    if c >= 3 {
      assert cc >= 3 * c by { assert c * (c - 3) >= 0; }
      assert cd >= 3 * d by { assert (c - 3) * d >= 0; }
    }
  }

  /**
   `lossy` is set on exactly the rows that admit a drop, no row admits the last eviction, and some
   row that leaves the windower is lossy exactly when the flush evicted at least two.
   */
  lemma LossyIff(rows: seq<Row>, queued: nat, maxsize: int)
    requires Bounded(queued, maxsize)
    ensures var k := Overflow(queued, |rows|, maxsize);
            && (forall r :: r in Survivors(rows, queued, maxsize) ==> r.dropped <= Max(0, k - 1) && (r.lossy <==> r.dropped > 0))
            && ((exists r :: r in Survivors(rows, queued, maxsize) && r.lossy) <==> k >= 2)
  {
    var left := Survivors(rows, queued, maxsize);
    var k := Overflow(queued, |rows|, maxsize);
    if k >= 2 {
      assert left[|left| - 1] == Stamp(rows[|rows| - 1], k - 1);
      assert left[|left| - 1] in left;
    }
  }

  // ---------------------------------------------------------------------------------------------
  // Fields carried through
  // ---------------------------------------------------------------------------------------------

  function AccOf(evs: seq<FlowEvent>): Acc {
    if evs == [] then EMPTY else Absorb(AccOf(evs[..|evs| - 1]), evs[|evs| - 1])
  }

  /** `v` is the first truthy value, or the last value when none is truthy. */
  ghost predicate FirstTruthy(vs: seq<Option<string>>, v: Option<string>) {
    (exists i :: 0 <= i < |vs| && Truthy(vs[i]) && v == vs[i] && forall j :: 0 <= j < i ==> !Truthy(vs[j])) ||
    (vs != [] && v == vs[|vs| - 1] && forall j :: 0 <= j < |vs| ==> !Truthy(vs[j]))
  }

  lemma FirstTruthySnoc(vs: seq<Option<string>>, v: Option<string>, x: Option<string>)
    requires if vs == [] then v == None else FirstTruthy(vs, v)
    ensures FirstTruthy(vs + [x], Or(v, x))
  {
    var all := vs + [x];
    assert all[|vs|] == x && forall j :: 0 <= j < |vs| ==> all[j] == vs[j];
    if Truthy(v) {
      var i :| 0 <= i < |vs| && Truthy(vs[i]) && v == vs[i] && forall j :: 0 <= j < i ==> !Truthy(vs[j]);
      assert all[i] == v;
    } else {
      assert forall j :: 0 <= j < |vs| ==> !Truthy(vs[j]);
    }
  }

  function Apps(evs: seq<FlowEvent>): seq<Option<string>> { seq(|evs|, i requires 0 <= i < |evs| => evs[i].app) }
  function Fqdns(evs: seq<FlowEvent>): seq<Option<string>> { seq(|evs|, i requires 0 <= i < |evs| => evs[i].fqdn) }
  function Actions(evs: seq<FlowEvent>): seq<Option<string>> { seq(|evs|, i requires 0 <= i < |evs| => evs[i].action) }

  ghost predicate FirstSeen(evs: seq<FlowEvent>, a: Acc) {
    FirstTruthy(Apps(evs), a.app) && FirstTruthy(Fqdns(evs), a.fqdn) && FirstTruthy(Actions(evs), a.action)
  }

  /** An accumulator carries the first non-empty application, name and action of its events. */
  lemma {:induction false} CarriesFirstSeen(evs: seq<FlowEvent>)
    requires evs != []
    ensures FirstSeen(evs, AccOf(evs))
  {
    var front, ev := evs[..|evs| - 1], evs[|evs| - 1];
    hide FirstTruthy;
    if front != [] {
      CarriesFirstSeen(front);
    }
    assert Apps(evs) == Apps(front) + [ev.app];
    assert Fqdns(evs) == Fqdns(front) + [ev.fqdn];
    assert Actions(evs) == Actions(front) + [ev.action];
    FirstTruthySnoc(Apps(front), AccOf(front).app, ev.app);
    FirstTruthySnoc(Fqdns(front), AccOf(front).fqdn, ev.fqdn);
    FirstTruthySnoc(Actions(front), AccOf(front).action, ev.action);
  }

  function Now(x: Input): int { if x.Arrive? then x.ev.ts else x.now }

  /** The buckets that the flush of the latest input finds. */
  function Found(xs: seq<Input>, w: Window): Buckets
    requires xs != []
  {
    var bs, x := Run(xs[..|xs| - 1], w).buckets, xs[|xs| - 1];
    if x.Arrive? then Added(bs, x.ev, w) else bs
  }

  function Closing(xs: seq<Input>, w: Window): set<int>
    requires xs != []
  {
    Ready(Found(xs, w), Now(xs[|xs| - 1]), w)
  }

  /** The events of one key since its bucket was last flushed, as the flush of the latest input finds them. */
  function Gathered(xs: seq<Input>, w: Window, b: int, k: Key): seq<FlowEvent>
    requires xs != []
    decreases |xs|, 0
  {
    var before, x := OpenEvents(xs[..|xs| - 1], w, b, k), xs[|xs| - 1];
    if x.Arrive? && BucketStart(x.ev.ts, w) == b && x.ev.key == k then before + [x.ev] else before
  }

  /** The events of one key since its bucket was last flushed. */
  function OpenEvents(xs: seq<Input>, w: Window, b: int, k: Key): seq<FlowEvent>
    decreases |xs|, 1
  {
    if xs == [] || b in Closing(xs, w) then [] else Gathered(xs, w, b, k)
  }

  /** A key is present exactly when it has events, with their summary. */
  function Summary(evs: seq<FlowEvent>): Option<Acc> { if evs == [] then None else Some(AccOf(evs)) }

  lemma RunSplit(xs: seq<Input>, w: Window)
    requires xs != []
    ensures Run(xs, w).buckets == Found(xs, w) - Closing(xs, w)
    ensures Run(xs, w).emitted == Run(xs[..|xs| - 1], w).emitted + FlushRows(Found(xs, w), Now(xs[|xs| - 1]), w)
  {
  }

  /** In every run each open accumulator summarises exactly those events. */
  lemma {:induction false} OpenIsFold(xs: seq<Input>, w: Window, b: int, k: Key)
    ensures Lookup(SlotAt(Run(xs, w).buckets, b), k) == Summary(OpenEvents(xs, w, b, k))
    decreases |xs|, 1
  {
    if xs != [] {
      hide Found, Closing, Run, Gathered;
      RunSplit(xs, w);
      FoundIsFold(xs, w, b, k);
    }
  }

  lemma {:induction false} FoundIsFold(xs: seq<Input>, w: Window, b: int, k: Key)
    requires xs != []
    ensures Lookup(SlotAt(Found(xs, w), b), k) == Summary(Gathered(xs, w, b, k))
    decreases |xs|, 0
  {
    hide BucketStart, Run, OpenEvents, AccOf, Absorb, Lookup, Put;
    var front, x := xs[..|xs| - 1], xs[|xs| - 1];
    var bs := Run(front, w).buckets;
    OpenIsFold(front, w, b, k);
    if x.Arrive? {
      var slot := SlotAt(bs, BucketStart(x.ev.ts, w));
      LookupPut(slot, x.ev.key, Absorb(AccAt(slot, x.ev.key), x.ev), k);
      AccOfSnoc(OpenEvents(front, w, b, k), x.ev);
      AccIsSummary(SlotAt(bs, b), k, OpenEvents(front, w, b, k));
    }
  }

  lemma AccOfSnoc(evs: seq<FlowEvent>, ev: FlowEvent)
    ensures AccOf(evs + [ev]) == Absorb(AccOf(evs), ev)
  {
    assert (evs + [ev])[..|evs|] == evs;
  }

  lemma AccIsSummary(slot: Slot, k: Key, evs: seq<FlowEvent>)
    requires Lookup(slot, k) == Summary(evs)
    ensures AccAt(slot, k) == AccOf(evs)
  {
  }

  lemma FoundWellFormed(xs: seq<Input>, w: Window)
    requires xs != []
    ensures WellFormed(Found(xs, w))
  {
    hide WellFormed, Added, Run;
    var front, x := xs[..|xs| - 1], xs[|xs| - 1];
    RunWellFormed(front, w);
    if x.Arrive? {
      AddedWellFormed(Run(front, w).buckets, x.ev, w);
    }
  }

  function PlainRow(b: int, w: Window, k: Key, a: Acc): Row { Row(b, w, k, a, false, 0) }

  lemma SlotRowsAre(b: int, slot: Slot, w: Window, r: Row)
    requires DistinctKeys(slot)
    ensures r in SlotRows(b, slot, w) <==> r == PlainRow(b, w, r.key, r.acc) && Lookup(slot, r.key) == Some(r.acc)
  {
    var rows := SlotRows(b, slot, w);
    if r in rows {
      var i :| 0 <= i < |rows| && rows[i] == r;
      EntryLookup(slot, i);
    }
    LookupIn(slot, r.key);
    if r == PlainRow(b, w, r.key, r.acc) && Lookup(slot, r.key) == Some(r.acc) {
      var i :| 0 <= i < |slot| && slot[i] == Entry(r.key, r.acc);
      assert rows[i] == r;
    }
  }

  lemma {:induction false} RowsInOrderAre(bs: Buckets, order: seq<int>, w: Window, r: Row)
    requires WellFormed(bs)
    ensures r in RowsInOrder(bs, order, w) <==>
            r.bucket in Elements(order) && r == PlainRow(r.bucket, w, r.key, r.acc) && Lookup(SlotAt(bs, r.bucket), r.key) == Some(r.acc)
    decreases |order|
  {
    if order != [] {
      hide SlotRows, PlainRow;
      var front, b := order[..|order| - 1], order[|order| - 1];
      RowsInOrderAre(bs, front, w, r);
      SlotRowsAre(b, SlotAt(bs, b), w, r);
      PlainRowBucket(b, w, r.key, r.acc);
      assert order == front + [b];
      assert r.bucket in order <==> r.bucket in front || r.bucket == b;
    }
  }

  lemma PlainRowBucket(b: int, w: Window, k: Key, a: Acc)
    ensures PlainRow(b, w, k, a).bucket == b
  {
  }

  /** `r` is the row of a bucket closed by the latest input: the summary of its key's events. */
  ghost predicate ClosedBy(xs: seq<Input>, w: Window, r: Row)
    requires xs != []
  {
    var evs := Gathered(xs, w, r.bucket, r.key);
    r.bucket in Closing(xs, w) && evs != [] && r == PlainRow(r.bucket, w, r.key, AccOf(evs))
  }

  lemma FlushRowsAre(xs: seq<Input>, w: Window, r: Row)
    requires xs != []
    ensures r in FlushRows(Found(xs, w), Now(xs[|xs| - 1]), w) <==> ClosedBy(xs, w, r)
  {
    hide RowsInOrder, Found, Gathered, Elements, Ascending;
    FoundWellFormed(xs, w);
    AscendingElements(Closing(xs, w));
    RowsInOrderAre(Found(xs, w), Ascending(Closing(xs, w)), w, r);
    FoundIsFold(xs, w, r.bucket, r.key);
  }

  ghost predicate ClosedWithin(xs: seq<Input>, w: Window, r: Row) {
    exists n :: 0 < n <= |xs| && ClosedBy(xs[..n], w, r)
  }

  lemma ClosedOneMore(xs: seq<Input>, w: Window, r: Row)
    requires xs != []
    ensures ClosedWithin(xs, w, r) <==> ClosedWithin(xs[..|xs| - 1], w, r) || ClosedBy(xs, w, r)
  {
    hide ClosedBy;
    var front := xs[..|xs| - 1];
    assert xs[..|xs|] == xs;
    if n :| 0 < n <= |xs| && ClosedBy(xs[..n], w, r) {
      if n < |xs| {
        assert front[..n] == xs[..n];
      }
    }
    if n :| 0 < n <= |front| && ClosedBy(front[..n], w, r) {
      assert front[..n] == xs[..n];
    }
  }

  /**
   A row is emitted by a run exactly when some input of the run closed its bucket while its key had
   events there since the bucket's previous flush, and it carries their summary.
   */
  lemma {:induction false} EmittedIsFold(xs: seq<Input>, w: Window, r: Row)
    ensures r in Run(xs, w).emitted <==> ClosedWithin(xs, w, r)
    decreases |xs|
  {
    if xs != [] {
      hide ClosedBy, ClosedWithin, Run, FlushRows, Found;
      var front := xs[..|xs| - 1];
      EmittedIsFold(front, w, r);
      RunSplit(xs, w);
      FlushRowsAre(xs, w, r);
      ClosedOneMore(xs, w, r);
    }
  }

  function BytesOf(): FlowEvent -> int { (e: FlowEvent) => e.bytes }

  function PacketsOf(): FlowEvent -> int { (e: FlowEvent) => e.packets }

  /** A summary adds up the bytes and packets of its events and counts them. */
  lemma {:induction false} SummaryAddsUp(evs: seq<FlowEvent>)
    ensures AccOf(evs).bytes == Sum(evs, BytesOf()) && AccOf(evs).packets == Sum(evs, PacketsOf()) && AccOf(evs).flows == |evs|
  {
    if evs != [] {
      SummaryAddsUp(evs[..|evs| - 1]);
    }
  }

  ghost predicate Aligned(bs: Buckets, w: Window) { forall b :: b in bs ==> b % w == 0 }

  lemma {:induction false} RunAligned(xs: seq<Input>, w: Window)
    ensures Aligned(Run(xs, w).buckets, w)
    ensures xs != [] ==> Aligned(Found(xs, w), w)
  {
    if xs != [] {
      hide BucketStart, FlushRows;
      var x := xs[|xs| - 1];
      RunAligned(xs[..|xs| - 1], w);
      RunSplit(xs, w);
      if x.Arrive? {
        BucketStartIs(x.ev.ts, w, BucketStart(x.ev.ts, w));
      }
    }
  }

  /** In every run an input closes exactly the buckets whose window has passed by then. */
  lemma ClosesIffPassed(xs: seq<Input>, w: Window, b: int)
    requires xs != []
    ensures b in Closing(xs, w) <==> b in Found(xs, w) && b + w <= Now(xs[|xs| - 1])
  {
    hide Found, Run, BucketStart;
    var now := Now(xs[|xs| - 1]);
    RunAligned(xs, w);
    BucketStartIs(now, w, BucketStart(now, w));
    if b in Found(xs, w) {
      AlignedBelow(b, BucketStart(now, w), now, w);
    }
  }

  lemma AlignedBelow(b: int, start: int, now: int, w: Window)
    requires b % w == 0 && start % w == 0 && start <= now < start + w
    ensures b <= start - w <==> b + w <= now
  {
    var p, q := b / w, start / w;
    assert b == w * p && start == w * q;
    assert w * (q - p) == start - b;
    MulBounds(w, q - p);
    MulBounds(w, p - q);
    assert w * (p - q) == b - start;
  }

  /** So every emitted row carries the first non-empty application, name and action of those events. */
  lemma EmittedCarriesFirstSeen(xs: seq<Input>, w: Window, r: Row)
    requires r in Run(xs, w).emitted
    ensures exists n :: 0 < n <= |xs| && r.bucket in Closing(xs[..n], w) &&
              FirstSeen(Gathered(xs[..n], w, r.bucket, r.key), r.acc)
  {
    hide Run, FirstSeen, Gathered, Closing, AccOf;
    EmittedIsFold(xs, w, r);
    var n :| 0 < n <= |xs| && ClosedBy(xs[..n], w, r);
    CarriesFirstSeen(Gathered(xs[..n], w, r.bucket, r.key));
  }

  // ---------------------------------------------------------------------------------------------
  // The object
  // ---------------------------------------------------------------------------------------------

  lemma NothingYet(bs: Buckets, w: Window, queued: nat, maxsize: int)
    ensures RowsInOrder(bs, [], w) == [] && Stamped([], queued, maxsize) == [] && Elements([]) == {}
  {
  }

  lemma NothingReady(order: seq<int>)
    requires Elements(order) == {}
    ensures order == []
  {
    if order != [] { ElementAt(order, 0); }
  }

  class FlowWindower {
    const windowS: Window
    const out: AsyncQueue<Row>
    var buckets: Buckets
    var dropped: nat

    /** The counter is zero between flushes. */
    ghost predicate Valid()
      reads this, out
    {
      dropped == 0 && out.Valid()
    }

    constructor (windowS: Window, out: AsyncQueue<Row>)
      requires out.Valid()
      ensures Valid() && this.windowS == windowS && this.out == out && buckets == map[]
    {
      this.windowS, this.out := windowS, out;
      buckets, dropped := map[], 0;
    }

    /**
     The closed form of a flush, which never awaits: the queue keeps the newest of its old rows and
     the flushed ones, and row j is stamped with the evictions that rows 0..j-1 caused.
     */
    method EmitReady(now: int)
      requires Valid()
      modifies this, out
      ensures Valid()
      ensures buckets == Flushed(old(buckets), now, windowS)
      ensures var rows := Stamped(FlushRows(old(buckets), now, windowS), |old(out.items)|, out.maxsize);
              && out.items == Keep(old(out.items), rows, out.maxsize)
              && out.entered == old(out.entered) + rows
    {
      hide Keep, Overflow, BucketStart, Stamped, RowsInOrder, SlotRows, Elements, Ascending;
      var ready := Ready(buckets, now, windowS);
      var order := Ascending(ready);
      AscendingElements(ready);
      AscendingSorted(ready);
      ghost var bs, q := buckets, out.items;
      ghost var done: seq<Row> := [];
      KeepNone(q, out.maxsize);
      NothingYet(bs, windowS, |q|, out.maxsize);
      assert order[..0] == [] && out.entered + [] == out.entered;
      var i := 0;
      while i < |order|
        invariant 0 <= i <= |order| && out.Valid()
        invariant buckets == bs - Elements(order[..i])
        invariant done == RowsInOrder(bs, order[..i], windowS)
        invariant out.items == Keep(q, Stamped(done, |q|, out.maxsize), out.maxsize)
        invariant out.entered == old(out.entered) + Stamped(done, |q|, out.maxsize)
        invariant dropped == Overflow(|q|, |done|, out.maxsize)
      {
        var b := order[i];
        ElementAt(order, i);
        Earlier(order, i);
        RowsInOrderSnoc(bs, order, i, windowS);
        var slot := buckets[b];
        buckets := buckets - {b};
        EmitBucket(b, slot, q, done, old(out.entered));
        done := done + SlotRows(b, slot, windowS);
        ElementsSnoc(order, i);
        i := i + 1;
      }
      assert order[..i] == order;
      if ready != {} {
        dropped := 0;
      } else {
        NothingReady(order);
      }
    }

    /** The inner loop of a flush: the rows of one bucket, in first-seen order of their keys. */
    method EmitBucket(b: int, slot: Slot, ghost q: seq<Row>, ghost done: seq<Row>, ghost entered: seq<Row>)
      requires out.Valid() && Bounded(|q|, out.maxsize)
      requires out.items == Keep(q, Stamped(done, |q|, out.maxsize), out.maxsize)
      requires out.entered == entered + Stamped(done, |q|, out.maxsize)
      requires dropped == Overflow(|q|, |done|, out.maxsize)
      modifies this`dropped, out
      ensures out.Valid()
      ensures var rows := done + SlotRows(b, slot, windowS);
              && out.items == Keep(q, Stamped(rows, |q|, out.maxsize), out.maxsize)
              && out.entered == entered + Stamped(rows, |q|, out.maxsize)
              && dropped == Overflow(|q|, |rows|, out.maxsize)
    {
      hide Keep, Overflow;
      ghost var now := done;
      var j := 0;
      assert done + SlotRows(b, slot, windowS)[..0] == done;
      while j < |slot|
        invariant 0 <= j <= |slot| && out.Valid()
        invariant now == done + SlotRows(b, slot, windowS)[..j]
        invariant out.items == Keep(q, Stamped(now, |q|, out.maxsize), out.maxsize)
        invariant out.entered == entered + Stamped(now, |q|, out.maxsize)
        invariant dropped == Overflow(|q|, |now|, out.maxsize)
      {
        var r := Row(b, windowS, slot[j].key, slot[j].value, dropped > 0, dropped);
        ghost var plain := SlotRows(b, slot, windowS)[j];
        StampedSnoc(now, plain, |q|, out.maxsize);
        KeepSnoc(q, Stamped(now, |q|, out.maxsize), r, out.maxsize);
        var evicted := out.PutDropOldest(r);
        now := now + [plain];
        if evicted {
          dropped := dropped + 1;
        }
        j := j + 1;
      }
      assert SlotRows(b, slot, windowS)[..j] == SlotRows(b, slot, windowS);
    }

    /** One turn of `run` on an event. */
    method Receive(ev: FlowEvent)
      requires Valid()
      modifies this, out
      ensures Valid()
      ensures var s := State(old(buckets), []); var s' := Next(s, Arrive(ev), windowS);
              && buckets == s'.buckets
              && out.entered == old(out.entered) + Stamped(s'.emitted, |old(out.items)|, out.maxsize)
              && out.items == Keep(old(out.items), Stamped(s'.emitted, |old(out.items)|, out.maxsize), out.maxsize)
    {
      var b := ev.ts - ev.ts % windowS;
      var slot := if b in buckets then buckets[b] else [];
      var acc := match Lookup(slot, ev.key) case None => EMPTY case Some(a) => a;
      acc := acc.(bytes := acc.bytes + ev.bytes, packets := acc.packets + ev.packets, flows := acc.flows + 1);
      acc := acc.(app := Or(acc.app, ev.app), fqdn := Or(acc.fqdn, ev.fqdn), action := Or(acc.action, ev.action));
      buckets := buckets[b := Put(slot, ev.key, acc)];
      assert buckets == Added(old(buckets), ev, windowS);
      hide FlushRows, Flushed, Added, Stamped, Keep;
      assert [] + FlushRows(buckets, ev.ts, windowS) == FlushRows(buckets, ev.ts, windowS);
      EmitReady(ev.ts);
    }
  }
}
