/**
 The pipeline together with what its deltas are labelled from: the loaded group index and the
 aggregator's cache.  The label stage reads the groups, the publisher reads the sizes and the cache,
 and the two `groups_changed` listeners reload the one and clear the other at any moment.
 */
module PipelineCache {
  import opened Prelude
  import opened BoundedQueue
  import opened Groups
  import opened Aggregator
  import opened Pipeline
  import C = CacheRuns
  import W = Windower
  import P = Publisher
  import A = Aggregation

  datatype Joint = Joint(pipe: Pipe, index: C.World, cache: Cache)

  datatype Move = Task(x: Step) | Reload(w: C.World) | Clear

  ghost predicate Allowed(j: Joint, m: Move, cfg: Config, c: Setting) {
    m.Task? ==>
      && Sized(j.pipe, c.cap) && Enabled(j.pipe, m.x, c)
      && (m.x.Enrich? && m.x.user != A.UNKNOWN ==> m.x.groups == HeldBy(j.index.groups, m.x.user))
      && (m.x.Publish? ==> m.x.view == P.Grouped(cfg, j.cache, j.index.sizes, ByGroup))
  }

  ghost function Moved(j: Joint, m: Move, cfg: Config, c: Setting): Joint
    requires Allowed(j, m, cfg, c)
  {
    match m
    case Reload(w) => j.(index := w)
    case Clear => j.(cache := map[])
    case Task(x) =>
      Joint(Exec(j.pipe, x, c), j.index,
            if x.Publish? && Completes(j.pipe)
            then CacheAfter(cfg, j.cache, P.GroupRows(j.pipe.cut.pending), j.index.sizes, ByGroup) else j.cache)
  }

  /** A run from the empty pipeline, an empty cache and any loaded index. */
  ghost predicate IsJointRun(js: seq<Joint>, ms: seq<Move>, cfg: Config, c: Setting) {
    && |js| == |ms| + 1 && js[0].pipe == INIT && js[0].cache == map[]
    && forall i :: 0 <= i < |ms| ==> Allowed(js[i], ms[i], cfg, c) && js[i + 1] == Moved(js[i], ms[i], cfg, c)
  }

  /** The same step taken by a publisher whose aggregator has no cache. */
  function CacheFree(j: Joint, x: Step, cfg: Config): Step {
    if x.Publish? then Publish(P.Grouped(cfg, map[], j.index.sizes, ByGroup)) else x
  }

  /** The same step with the groups that are loaded and the aggregator as it is. */
  function Fitted(j: Joint, x: Step, cfg: Config): Step {
    match x
    case Enrich(appLabel, user, groups) => Enrich(appLabel, user, HeldBy(j.index.groups, user))
    case Publish(_) => Publish(P.Grouped(cfg, j.cache, j.index.sizes, ByGroup))
    case _ => x
  }

  /** Index and cache never hold a task back. */
  lemma FittedAllowed(j: Joint, x: Step, cfg: Config, c: Setting)
    requires Sized(j.pipe, c.cap) && Enabled(j.pipe, x, c)
    ensures Allowed(j, Task(Fitted(j, x, cfg)), cfg, c)
  {
    hide MayName;
  }

  // ---------------------------------------------------------------------------------------------
  // Exactly when a step shows the cache
  // ---------------------------------------------------------------------------------------------

  lemma DeltasDiffer(cfg: Config, cache: Cache, sizes: Sizes, b: P.Batch)
    requires b.flows != []
    ensures P.DeltaOf(P.Grouped(cfg, cache, sizes, ByGroup), b) == P.DeltaOf(P.Grouped(cfg, map[], sizes, ByGroup), b) <==>
            forall d :: d in A.Dsts(P.GroupRows(b.flows)) ==> FreshAt(cfg, cache, P.GroupRows(b.flows), sizes, d)
  {
    hide Aggregated, Finalized, FreshAt;
    CacheInvisibleIff(cfg, cache, P.GroupRows(b.flows), sizes);
    FlatSameIff(cfg, cache, P.GroupRows(b.flows), sizes);
  }

  /**
   In every state of the pipeline: a step is the one taken without a cache if and only if it builds
   no delta, or every decision cached for the known users of a destination in that delta labels them
   as a fresh one would.
   */
  lemma SameStepIff(j: Joint, x: Step, cfg: Config, c: Setting)
    requires Allowed(j, Task(x), cfg, c)
    ensures Enabled(j.pipe, CacheFree(j, x, cfg), c)
    ensures Exec(j.pipe, x, c) == Exec(j.pipe, CacheFree(j, x, cfg), c) <==>
            (x.Publish? && Completes(j.pipe) ==>
              var rows := P.GroupRows(j.pipe.cut.pending);
              forall d :: d in A.Dsts(rows) ==> FreshAt(cfg, j.cache, rows, j.index.sizes, d))
  {
    if x.Publish? {
      hide P.DeltaOf, FreshAt, P.Received;
      var s := j.pipe;
      PublishingIs(s, x.view, c);
      PublishingIs(s, P.Grouped(cfg, map[], j.index.sizes, ByGroup), c);
      if Completes(s) {
        var b := P.Batch(s.cut.current.value, s.cut.pending);
        var d, d' := P.DeltaOf(x.view, b), P.DeltaOf(P.Grouped(cfg, map[], j.index.sizes, ByGroup), b);
        assert (s.deltas + [d])[|s.deltas|] == d && (s.deltas + [d'])[|s.deltas|] == d';
        DeltasDiffer(cfg, j.cache, j.index.sizes, b);
      }
    }
  }

  // ---------------------------------------------------------------------------------------------
  // After a clear
  // ---------------------------------------------------------------------------------------------

  /** Every labelled flow carries its user's groups of the load `groups`. */
  ghost predicate Labels(groups: GroupMap, fs: seq<P.Flow>) {
    forall f :: f in fs && f.user != A.UNKNOWN ==> f.groups == HeldBy(groups, f.user)
  }

  function Held(h: Hold): seq<P.Flow> { if h.Labelled? then [h.flow] else [] }

  /** Nothing between the label stage and the next delta was labelled from another load. */
  ghost predicate NoStaleFlow(groups: GroupMap, s: Pipe) {
    Labels(groups, Held(s.hold)) && Labels(groups, s.inter) && Labels(groups, s.sankeyQ) && Labels(groups, s.cut.pending)
  }

  ghost predicate Settled(j: Joint, cfg: Config) {
    NoStaleFlow(j.index.groups, j.pipe) && Coherent(cfg, j.cache, j.index.groups, j.index.sizes)
  }

  lemma LabelsAreConsistent(groups: GroupMap, fs: seq<P.Flow>)
    requires Labels(groups, fs)
    ensures Consistent(P.GroupRows(fs), groups)
  {
    var rows := P.GroupRows(fs);
    forall r | r in rows && r.user != A.UNKNOWN ensures r.groups == HeldBy(groups, r.user) {
      var i :| 0 <= i < |rows| && rows[i] == r;
      assert fs[i] in fs;
    }
  }

  lemma NoStaleStep(j: Joint, x: Step, cfg: Config, c: Setting)
    requires Allowed(j, Task(x), cfg, c) && NoStaleFlow(j.index.groups, j.pipe)
    ensures NoStaleFlow(j.index.groups, Exec(j.pipe, x, c))
  {
    hide P.DeltaOf, MayName, W.FlushRows, W.Flushed, W.Added, W.Stamped;
    var s := j.pipe;
    match x
    case Publish(view) => PublishingIs(s, view, c);
    case _ =>
  }

  lemma FreshCacheIsInvisible(cfg: Config, cache: Cache, groups: GroupMap, sizes: Sizes, rows: seq<A.Row>)
    requires Coherent(cfg, cache, groups, sizes) && Consistent(rows, groups)
    ensures forall d :: d in A.Dsts(rows) ==> FreshAt(cfg, cache, rows, sizes, d)
    ensures Coherent(cfg, CacheAfter(cfg, cache, rows, sizes, ByGroup), groups, sizes)
  {
    hide Aggregated, FreshAt, Coherent, Consistent;
    CacheTransparent(cfg, cache, groups, rows, sizes, ByGroup);
    CacheInvisibleIff(cfg, cache, rows, sizes);
    CacheWithCoherent(cfg, cache, groups, rows, sizes, A.Dsts(rows));
  }

  /** A reload is harmless when it swaps in what is already there. */
  predicate Quiet(j: Joint, m: Move) { m.Reload? ==> m.w == j.index }

  lemma SettledStep(j: Joint, m: Move, cfg: Config, c: Setting)
    requires Allowed(j, m, cfg, c) && Settled(j, cfg) && Quiet(j, m)
    ensures Settled(Moved(j, m, cfg, c), cfg)
    ensures m.Task? ==> Enabled(j.pipe, CacheFree(j, m.x, cfg), c) && Exec(j.pipe, m.x, c) == Exec(j.pipe, CacheFree(j, m.x, cfg), c)
  {
    if m.Task? {
      hide Exec, Enabled, FreshAt, CacheAfter, Consistent, Labels;
      var rows := P.GroupRows(j.pipe.cut.pending);
      LabelsAreConsistent(j.index.groups, j.pipe.cut.pending);
      FreshCacheIsInvisible(cfg, j.cache, j.index.groups, j.index.sizes, rows);
      SameStepIff(j, m.x, cfg, c);
      NoStaleStep(j, m.x, cfg, c);
    }
  }

  /**
   In every run of the whole pipeline: from a clear that finds no flow labelled from an older load,
   and until a reload changes the index, the cache is invisible. Every step of every task, hence
   every delta, is the one a pipeline without the cache would take.
   */
  lemma {:induction false} InvisibleAfterClear(js: seq<Joint>, ms: seq<Move>, cfg: Config, c: Setting, k: nat, i: nat)
    requires IsJointRun(js, ms, cfg, c) && k < i < |js|
    requires ms[k] == Clear && NoStaleFlow(js[k].index.groups, js[k].pipe)
    requires forall q :: k < q < i ==> Quiet(js[q], ms[q])
    ensures Settled(js[i], cfg)
    ensures i < |ms| && ms[i].Task? ==> Enabled(js[i].pipe, CacheFree(js[i], ms[i].x, cfg), c)
    ensures i < |ms| && ms[i].Task? ==> js[i + 1].pipe == Exec(js[i].pipe, CacheFree(js[i], ms[i].x, cfg), c)
  {
    hide Settled, Exec, Enabled, NoStaleFlow;
    if i == k + 1 {
      ClearSettles(js[k], cfg, c);
    } else {
      InvisibleAfterClear(js, ms, cfg, c, k, i - 1);
      SettledStep(js[i - 1], ms[i - 1], cfg, c);
    }
    if i < |ms| && ms[i].Task? {
      SettledStep(js[i], ms[i], cfg, c);
    }
  }

  lemma ClearSettles(j: Joint, cfg: Config, c: Setting)
    requires NoStaleFlow(j.index.groups, j.pipe)
    ensures Settled(Moved(j, Clear, cfg, c), cfg)
  {
  }

  // ---------------------------------------------------------------------------------------------
  // The pipeline refines the abstract cache machine
  // ---------------------------------------------------------------------------------------------

  /** The labelled flows that are to become deltas, oldest first. */
  function InFlight(s: Pipe): seq<P.Flow> { s.cut.pending + s.sankeyQ + s.inter + Held(s.hold) }

  function Abstract(j: Joint): C.State { C.State(j.index, j.cache, P.GroupRows(InFlight(j.pipe))) }

  /** What a move is to the cache: nothing, or one step of its machine. */
  function CacheSteps(j: Joint, m: Move, c: Setting): seq<C.Step> {
    match m
    case Reload(w) => [C.Reload(w)]
    case Clear => [C.Clear]
    case Task(x) =>
      match x
      case Enrich(appLabel, user, groups) =>
        if !j.pipe.hold.Fetched? then []
        else
          var r := j.pipe.hold.row;
          [C.Label(user, "app:" + appLabel, r.key.src, r.acc.bytes, r.acc.flows, groups)]
      case Demux => if Full(|j.pipe.sankeyQ|, c.cap) then [C.Drop(|j.pipe.cut.pending|)] else []
      case Publish(_) => if Completes(j.pipe) then [C.Publish(|j.pipe.cut.pending|)] else []
      case _ => []
  }

  lemma RowsConcat(a: seq<P.Flow>, b: seq<P.Flow>)
    ensures P.GroupRows(a + b) == P.GroupRows(a) + P.GroupRows(b)
  {
  }

  lemma NoSteps(cfg: Config, s: C.State)
    ensures C.ExecAll(cfg, s, []) == s
  {
  }

  lemma EnrichRefines(j: Joint, x: Step, cfg: Config, c: Setting)
    requires Allowed(j, Task(x), cfg, c) && x.Enrich?
    ensures Abstract(Moved(j, Task(x), cfg, c)) == C.ExecAll(cfg, Abstract(j), CacheSteps(j, Task(x), c))
  {
    hide MayName, C.ExecAll, P.GroupRows;
    var step := CacheSteps(j, Task(x), c)[0];
    C.ExecOne(cfg, Abstract(j), step);
    var f := LabelRow(j.pipe.hold.row, x.appLabel, x.user, x.groups);
    var fs := InFlight(j.pipe);
    assert InFlight(Exec(j.pipe, x, c)) == fs + [f];
    RowsConcat(fs, [f]);
    RowsOne(f);
    assert P.GroupRow(f) == C.Enriched(j.index.groups, step);
  }

  lemma RowsOne(f: P.Flow)
    ensures P.GroupRows([f]) == [P.GroupRow(f)]
  {
  }

  lemma KeepOneMore(q: seq<P.Flow>, f: P.Flow, cap: int)
    requires Bounded(|q|, cap)
    ensures Keep(q, [f], cap) == (if Full(|q|, cap) then q[1..] else q) + [f]
  {
  }

  lemma QueueMoves(p: seq<P.Flow>, q: seq<P.Flow>, inter: seq<P.Flow>, h: seq<P.Flow>)
    requires inter != []
    ensures var fs := p + q + inter + h;
            && p + (q + [inter[0]]) + inter[1..] + h == fs
            && (q != [] ==> p + (q[1..] + [inter[0]]) + inter[1..] + h == fs[..|p|] + fs[|p| + 1..])
  {
    var fs := p + q + inter + h;
    assert [inter[0]] + inter[1..] == inter;
    if q != [] {
      assert fs[..|p|] == p && fs[|p| + 1..] == q[1..] + inter + h;
    }
  }

  lemma RowsWithout(fs: seq<P.Flow>, n: nat)
    requires n < |fs|
    ensures P.GroupRows(fs[..n] + fs[n + 1..]) == P.GroupRows(fs)[..n] + P.GroupRows(fs)[n + 1..]
  {
  }

  lemma DemuxRefines(j: Joint, cfg: Config, c: Setting)
    requires Allowed(j, Task(Demux), cfg, c)
    ensures Abstract(Moved(j, Task(Demux), cfg, c)) == C.ExecAll(cfg, Abstract(j), CacheSteps(j, Task(Demux), c))
  {
    hide C.ExecAll, Keep, Evict, P.GroupRows;
    var s := j.pipe;
    KeepOneMore(s.sankeyQ, s.inter[0], c.cap);
    QueueMoves(s.cut.pending, s.sankeyQ, s.inter, Held(s.hold));
    if Full(|s.sankeyQ|, c.cap) {
      C.ExecOne(cfg, Abstract(j), C.Drop(|s.cut.pending|));
      RowsWithout(InFlight(s), |s.cut.pending|);
    } else {
      NoSteps(cfg, Abstract(j));
    }
  }

  lemma TakeMoves(p: seq<P.Flow>, q: seq<P.Flow>, rest: seq<P.Flow>)
    requires q != []
    ensures (p + [q[0]]) + q[1..] + rest == p + q + rest && [q[0]] + q[1..] + rest == (p + q + rest)[|p|..]
  {
    assert [q[0]] + q[1..] == q;
    assert (p + [q[0]]) + q[1..] == p + q;
    assert p + q + rest == p + (q + rest);
  }

  lemma PendingAfter(cut: P.Cut, f: P.Flow)
    ensures P.Received(cut, f).pending ==
            if cut.pending != [] && cut.current.Some? && f.bucket > cut.current.value then [f] else cut.pending + [f]
  {
    assert [] + [f] == [f];
  }

  lemma PublishInFlight(s: Pipe, view: P.View, c: Setting)
    requires Sized(s, c.cap) && s.sankeyQ != []
    ensures InFlight(Exec(s, Publish(view), c)) == if Completes(s) then InFlight(s)[|s.cut.pending|..] else InFlight(s)
  {
    PublishingIs(s, view, c);
    PendingAfter(s.cut, s.sankeyQ[0]);
    hide Exec, P.Received, P.DeltaOf;
    var p, q, h := s.cut.pending, s.sankeyQ, Held(s.hold);
    TakeMoves(p, q, s.inter + h);
    assert p + q + s.inter + h == p + q + (s.inter + h);
    assert forall a: seq<P.Flow> :: a + q[1..] + s.inter + h == a + q[1..] + (s.inter + h);
  }

  lemma RowsSplit(fs: seq<P.Flow>, n: nat)
    requires n <= |fs|
    ensures P.GroupRows(fs)[..n] == P.GroupRows(fs[..n]) && P.GroupRows(fs)[n..] == P.GroupRows(fs[n..])
  {
  }

  /** The batch that the cache machine publishes is what was pending. */
  lemma BatchIsPending(j: Joint)
    ensures C.Batch(Abstract(j), |j.pipe.cut.pending|) == P.GroupRows(j.pipe.cut.pending)
  {
    hide P.GroupRows;
    RowsSplit(InFlight(j.pipe), |j.pipe.cut.pending|);
    assert InFlight(j.pipe)[..|j.pipe.cut.pending|] == j.pipe.cut.pending;
  }

  lemma PublishRefines(j: Joint, x: Step, cfg: Config, c: Setting)
    requires Allowed(j, Task(x), cfg, c) && x.Publish?
    ensures Abstract(Moved(j, Task(x), cfg, c)) == C.ExecAll(cfg, Abstract(j), CacheSteps(j, Task(x), c))
  {
    hide C.ExecAll, Exec, CacheAfter, P.GroupRows, InFlight, C.Batch;
    PublishInFlight(j.pipe, x.view, c);
    BatchIsPending(j);
    var n := |j.pipe.cut.pending|;
    if Completes(j.pipe) {
      InFlightLong(j.pipe);
      RowsSplit(InFlight(j.pipe), n);
      C.ExecOne(cfg, Abstract(j), C.Publish(n));
    } else {
      NoSteps(cfg, Abstract(j));
    }
  }

  lemma InFlightLong(s: Pipe)
    ensures |s.cut.pending| <= |InFlight(s)|
  {
  }

  /** And the delta that the pipeline builds has the links that the cache machine publishes. */
  lemma PublishedIsDelta(j: Joint, x: Step, cfg: Config, c: Setting)
    requires Allowed(j, Task(x), cfg, c) && x.Publish? && Completes(j.pipe)
    ensures var ds := Exec(j.pipe, x, c).deltas;
            ds != [] && ds[|ds| - 1].links == Finalized(C.Published(cfg, Abstract(j), |j.pipe.cut.pending|))
  {
    PublishingIs(j.pipe, x.view, c);
    BatchIsPending(j);
    hide Exec, P.GroupRows, Aggregated, Finalized, C.Batch;
  }

  /** Every move of the whole pipeline is nothing to the cache, or one step of its machine. */
  lemma MoveRefines(j: Joint, m: Move, cfg: Config, c: Setting)
    requires Allowed(j, m, cfg, c)
    ensures Abstract(Moved(j, m, cfg, c)) == C.ExecAll(cfg, Abstract(j), CacheSteps(j, m, c))
  {
    match m
    case Reload(w) => C.ExecOne(cfg, Abstract(j), C.Reload(w));
    case Clear => C.ExecOne(cfg, Abstract(j), C.Clear);
    case Task(x) =>
      match x
      case Enrich(_, _, _) => EnrichRefines(j, x, cfg, c);
      case Demux => DemuxRefines(j, cfg, c);
      case Publish(_) => PublishRefines(j, x, cfg, c);
      case _ => OtherRefines(j, x, cfg, c);
  }

  lemma OtherRefines(j: Joint, x: Step, cfg: Config, c: Setting)
    requires Allowed(j, Task(x), cfg, c) && !x.Enrich? && !x.Demux? && !x.Publish?
    ensures Abstract(Moved(j, Task(x), cfg, c)) == C.ExecAll(cfg, Abstract(j), CacheSteps(j, Task(x), c))
  {
    hide W.FlushRows, W.Flushed, W.Added, W.Stamped, C.ExecAll, P.GroupRows, Keep, Evict;
    NoSteps(cfg, Abstract(j));
    var s, t := j.pipe, Exec(j.pipe, x, c);
    assert InFlight(t) == InFlight(s);
  }

  function AllCacheSteps(js: seq<Joint>, ms: seq<Move>, c: Setting, i: nat): seq<C.Step>
    requires i <= |ms| < |js|
  {
    if i == 0 then [] else AllCacheSteps(js, ms, c, i - 1) + CacheSteps(js[i - 1], ms[i - 1], c)
  }

  /**
   Every run of the whole pipeline is a run of the cache machine, so what that machine says of its
   cache, that it is the log of first asks since the last clear, holds of the pipeline's.
   */
  lemma {:induction false} RunRefines(js: seq<Joint>, ms: seq<Move>, cfg: Config, c: Setting, i: nat)
    requires IsJointRun(js, ms, cfg, c) && i < |js|
    ensures Abstract(js[i]) == C.ExecAll(cfg, C.State(js[0].index, map[], []), AllCacheSteps(js, ms, c, i))
    decreases i
  {
    hide Moved, Allowed, C.ExecAll, CacheSteps;
    if i == 0 {
      NoSteps(cfg, Abstract(js[0]));
      StartsEmpty(js[0]);
    } else {
      RunRefines(js, ms, cfg, c, i - 1);
      MoveRefines(js[i - 1], ms[i - 1], cfg, c);
      C.ExecAllConcat(cfg, C.State(js[0].index, map[], []), AllCacheSteps(js, ms, c, i - 1), CacheSteps(js[i - 1], ms[i - 1], c));
    }
  }

  lemma StartsEmpty(j: Joint)
    requires j.pipe == INIT && j.cache == map[]
    ensures Abstract(j) == C.State(j.index, map[], [])
  {
  }

  /** The pipeline's cache over every run: a decision is held exactly for users asked about since the last clear. */
  lemma PipelineCacheIsLog(js: seq<Joint>, ms: seq<Move>, cfg: Config, c: Setting, i: nat, users: set<string>)
    requires IsJointRun(js, ms, cfg, c) && i < |js|
    ensures var s0, xs := C.State(js[0].index, map[], []), AllCacheSteps(js, ms, c, i);
            && (users in js[i].cache <==> exists n :: C.FirstAsk(cfg, s0, xs, users, n))
            && forall n :: C.FirstAsk(cfg, s0, xs, users, n) ==>
                 users in js[i].cache && js[i].cache[users] == C.DecisionAt(cfg, s0, xs, users, n)
  {
    hide C.FirstAsk, C.DecisionAt, C.ExecAll, AllCacheSteps;
    RunRefines(js, ms, cfg, c, i);
    C.CacheIsLog(cfg, C.State(js[0].index, map[], []), AllCacheSteps(js, ms, c, i), users);
  }
}
