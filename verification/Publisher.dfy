/** The Sankey publisher: cutting the stream of labelled flows into per-bucket deltas of links. */
module Publisher {
  import opened Prelude
  import opened Collections
  import opened Groups
  import A = Aggregation
  import opened Aggregator

  /** A row of the windower with its application label and, once enriched, its user and groups. */
  datatype Flow = Flow(bucket: int, windowS: int, srcIp: string, dstIp: string, port: int, proto: int,
                       bytes: int, packets: int, flows: int, appLabel: string, lossy: bool, dropped: nat,
                       user: string, groups: set<string>)

  // ---------------------------------------------------------------------------------------------
  // Cutting the stream
  // ---------------------------------------------------------------------------------------------

  datatype Batch = Batch(bucket: int, flows: seq<Flow>)

  datatype Cut = Cut(current: Option<int>, pending: seq<Flow>, published: seq<Batch>)

  const START := Cut(None, [], [])

  /** One turn of `run`: a later bucket publishes what is pending; any other row joins it. */
  function Received(c: Cut, f: Flow): Cut {
    if c.current.Some? && f.bucket > c.current.value then
      Cut(Some(f.bucket), [f],
          if c.pending == [] then c.published else c.published + [Batch(c.current.value, c.pending)])
    else
      Cut(if c.current.None? then Some(f.bucket) else c.current, c.pending + [f], c.published)
  }

  function ReceivedAll(fs: seq<Flow>): Cut {
    if fs == [] then START else Received(ReceivedAll(fs[..|fs| - 1]), fs[|fs| - 1])
  }

  function Joined(bs: seq<Batch>): seq<Flow> {
    if bs == [] then [] else Joined(bs[..|bs| - 1]) + bs[|bs| - 1].flows
  }

  lemma JoinedSnoc(bs: seq<Batch>, b: Batch)
    ensures Joined(bs + [b]) == Joined(bs) + b.flows
  {
    assert (bs + [b])[..|bs|] == bs;
  }

  /** A batch begins with a row of its own bucket and holds no later one. */
  ghost predicate ProperBatch(bucket: int, fs: seq<Flow>) {
    fs != [] && fs[0].bucket == bucket && forall i :: 0 <= i < |fs| ==> fs[i].bucket <= bucket
  }

  ghost predicate Wellcut(c: Cut) {
    && (c.current.None? <==> c.pending == [])
    && (c.current.None? ==> c.published == [])
    && (c.current.Some? ==> ProperBatch(c.current.value, c.pending))
    && (forall i :: 0 <= i < |c.published| ==>
          ProperBatch(c.published[i].bucket, c.published[i].flows) && c.published[i].bucket < c.current.value)
    && (forall i, j :: 0 <= i < j < |c.published| ==> c.published[i].bucket < c.published[j].bucket)
  }

  lemma WellcutStep(c: Cut, f: Flow)
    requires Wellcut(c)
    ensures Wellcut(Received(c, f))
    ensures Joined(Received(c, f).published) + Received(c, f).pending == Joined(c.published) + c.pending + [f]
  {
    if c.current.Some? && f.bucket > c.current.value {
      JoinedSnoc(c.published, Batch(c.current.value, c.pending));
    }
  }

  lemma StartIsWellcut()
    ensures Wellcut(START)
  {
  }

  /**
   For any order of rows at all: nothing is lost, repeated or reordered, published times strictly
   increase, and each batch starts in its own bucket and holds nothing later.
   */
  lemma {:induction false} CutsTheStream(fs: seq<Flow>)
    ensures Wellcut(ReceivedAll(fs))
    ensures Joined(ReceivedAll(fs).published) + ReceivedAll(fs).pending == fs
  {
    hide Wellcut, Received;
    if fs == [] {
      StartIsWellcut();
    } else {
      CutsTheStream(fs[..|fs| - 1]);
      WellcutStep(ReceivedAll(fs[..|fs| - 1]), fs[|fs| - 1]);
      assert fs == fs[..|fs| - 1] + [fs[|fs| - 1]];
    }
  }

  ghost predicate NonDecreasing(fs: seq<Flow>) {
    forall i, j :: 0 <= i < j < |fs| ==> fs[i].bucket <= fs[j].bucket
  }

  ghost predicate AllIn(fs: seq<Flow>, bucket: int) {
    forall i :: 0 <= i < |fs| ==> fs[i].bucket == bucket
  }

  /** Every batch, and what is pending, holds rows of one bucket only. */
  ghost predicate Pure(c: Cut) {
    && (forall i :: 0 <= i < |c.published| ==> AllIn(c.published[i].flows, c.published[i].bucket))
    && (c.current.Some? ==> AllIn(c.pending, c.current.value))
  }

  /** The rows of one bucket. */
  function InBucket(fs: seq<Flow>, b: int): seq<Flow> {
    if fs == [] then []
    else
      var front, f := InBucket(fs[..|fs| - 1], b), fs[|fs| - 1];
      if f.bucket == b then front + [f] else front
  }

  lemma {:induction false} InBucketNone(fs: seq<Flow>, b: int)
    requires forall i :: 0 <= i < |fs| ==> fs[i].bucket != b
    ensures InBucket(fs, b) == []
  {
    if fs != [] { InBucketNone(fs[..|fs| - 1], b); }
  }

  /** Each batch, and what is pending, is the whole of its bucket. */
  ghost predicate Whole(c: Cut, fs: seq<Flow>) {
    && (forall i :: 0 <= i < |c.published| ==> c.published[i].flows == InBucket(fs, c.published[i].bucket))
    && (c.current.Some? ==> c.pending == InBucket(fs, c.current.value))
    && (c.current.Some? ==> forall i :: 0 <= i < |fs| ==> fs[i].bucket <= c.current.value)
    && (c.current.Some? ==> fs != [] && c.current.value == fs[|fs| - 1].bucket)
  }

  lemma WholeStep(c: Cut, fs: seq<Flow>, f: Flow)
    requires Wellcut(c) && Whole(c, fs) && NonDecreasing(fs + [f]) && (c.current.None? ==> fs == [])
    ensures Whole(Received(c, f), fs + [f])
  {
    var all := fs + [f];
    if fs != [] {
      assert all[|fs| - 1].bucket <= all[|fs|].bucket;
    }
    forall b ensures InBucket(all, b) == if f.bucket == b then InBucket(fs, b) + [f] else InBucket(fs, b) {
      InBucketSnoc(fs, f, b);
    }
    if c.current.Some? && f.bucket > c.current.value {
      InBucketNone(fs, f.bucket);
      assert [] + [f] == [f];
    }
    hide InBucket;
  }

  lemma InBucketSnoc(fs: seq<Flow>, f: Flow, b: int)
    ensures InBucket(fs + [f], b) == if f.bucket == b then InBucket(fs, b) + [f] else InBucket(fs, b)
  {
    assert (fs + [f])[..|fs|] == fs;
  }

  lemma StartIsWhole()
    ensures Whole(START, [])
  {
  }

  lemma CurrentAfterAll(fs: seq<Flow>)
    ensures ReceivedAll(fs).current.None? ==> fs == []
  {
  }

  /** On rows in bucket order every bucket is published whole, in one delta of its own. */
  lemma {:induction false} InOrderWhole(fs: seq<Flow>)
    requires NonDecreasing(fs)
    ensures Whole(ReceivedAll(fs), fs)
  {
    hide Whole, Wellcut, Received, Joined;
    if fs == [] {
      StartIsWhole();
    } else {
      var front, f := fs[..|fs| - 1], fs[|fs| - 1];
      InOrderWhole(front);
      CurrentAfterAll(front);
      CutsTheStream(front);
      assert fs == front + [f];
      WholeStep(ReceivedAll(front), front, f);
    }
  }

  lemma {:induction false} InBucketAll(fs: seq<Flow>, b: int)
    ensures AllIn(InBucket(fs, b), b)
  {
    if fs != [] { InBucketAll(fs[..|fs| - 1], b); }
  }

  lemma {:induction false} PureJoined(bs: seq<Batch>)
    requires forall i :: 0 <= i < |bs| ==> AllIn(bs[i].flows, bs[i].bucket)
    requires forall i, j :: 0 <= i < j < |bs| ==> bs[i].bucket < bs[j].bucket
    ensures NonDecreasing(Joined(bs))
    ensures bs != [] ==> forall i :: 0 <= i < |Joined(bs)| ==> Joined(bs)[i].bucket <= bs[|bs| - 1].bucket
  {
    if bs != [] {
      PureJoined(bs[..|bs| - 1]);
    }
  }

  /** Deltas never mix buckets exactly when the rows arrived in bucket order. */
  lemma PureIffInOrder(fs: seq<Flow>)
    ensures Pure(ReceivedAll(fs)) <==> NonDecreasing(fs)
  {
    var c := ReceivedAll(fs);
    CutsTheStream(fs);
    if NonDecreasing(fs) {
      InOrderWhole(fs);
      forall b ensures AllIn(InBucket(fs, b), b) { InBucketAll(fs, b); }
    }
    if Pure(c) {
      PureJoined(c.published);
    }
  }

  // ---------------------------------------------------------------------------------------------
  // Building a delta
  // ---------------------------------------------------------------------------------------------

  datatype Delta = Delta(ts: int, windowS: int, links: seq<FlatLink>, lossy: bool, dropped: nat)

  function FlowAmounts(m: A.Measure): Flow -> int { (f: Flow) => match m case Bytes => f.bytes case Flows => f.flows }

  function FlatAmounts(m: A.Measure): FlatLink -> int {
    (l: FlatLink) => match m case Bytes => l.bytes case Flows => l.flows
  }

  function AnyLossy(fs: seq<Flow>): bool { exists f :: f in fs && f.lossy }

  function DroppedTotal(fs: seq<Flow>): nat {
    if fs == [] then 0 else DroppedTotal(fs[..|fs| - 1]) + fs[|fs| - 1].dropped
  }

  function GroupRow(f: Flow): A.Row { A.Row(f.user, f.groups, "app:" + f.appLabel, f.srcIp, f.bytes, f.flows) }

  /** In legacy mode the left-hand side is the source address itself. */
  function LegacyRow(f: Flow): A.Row { A.Row(f.srcIp, {}, "app:" + f.appLabel, f.srcIp, f.bytes, f.flows) }

  function LegacyLabels(): A.Labels { (d: string, ip: string) => "ip:" + ip }

  function GroupRows(fs: seq<Flow>): (r: seq<A.Row>)
    ensures |r| == |fs|
  {
    seq(|fs|, i requires 0 <= i < |fs| => GroupRow(fs[i]))
  }

  function LegacyRows(fs: seq<Flow>): (r: seq<A.Row>)
    ensures |r| == |fs|
  {
    seq(|fs|, i requires 0 <= i < |fs| => LegacyRow(fs[i]))
  }

  function LegacyLinks(fs: seq<Flow>): A.Links { A.Folded(LegacyRows(fs), LegacyLabels()) }

  /** What the flows from one address to one application carry. */
  function FromTo(m: A.Measure, ip: string, app: string): Flow -> int {
    (f: Flow) => if f.srcIp == ip && f.appLabel == app then FlowAmounts(m)(f) else 0
  }

  lemma SamePrefix(p: string, a: string, b: string)
    ensures p + a == p + b <==> a == b
  {
    assert (p + a)[|p|..] == a && (p + b)[|p|..] == b;
  }

  lemma {:induction false} LegacySums(fs: seq<Flow>, m: A.Measure, ip: string, app: string)
    ensures Sum(LegacyRows(fs), A.Going(m, LegacyLabels(), "ip:" + ip, "app:" + app)) == Sum(fs, FromTo(m, ip, app))
  {
    if fs != [] {
      var front, f := fs[..|fs| - 1], fs[|fs| - 1];
      LegacySums(front, m, ip, app);
      assert LegacyRows(fs)[..|fs| - 1] == LegacyRows(front);
      A.GoingAt(m, LegacyLabels(), "ip:" + ip, "app:" + app, LegacyRow(f));
      SamePrefix("ip:", f.srcIp, ip);
      SamePrefix("app:", f.appLabel, app);
      var r, g := LegacyRow(f), A.Going(m, LegacyLabels(), "ip:" + ip, "app:" + app);
      assert A.Goes(r, LegacyLabels(), "ip:" + ip, "app:" + app) <==> f.srcIp == ip && f.appLabel == app;
      assert A.Amount(m, r) == FlowAmounts(m)(f);
      assert g(r) == FromTo(m, ip, app)(f);
      assert Sum(LegacyRows(fs), g) == Sum(LegacyRows(front), g) + g(r);
    }
  }

  /** In the legacy view the link of an address and an application carries exactly their flows. */
  lemma LegacyLinkIs(fs: seq<Flow>, ip: string, app: string)
    ensures match A.Grouped(LegacyRows(fs), LegacyLabels(), "ip:" + ip, "app:" + app)
            case None => forall f :: f in fs ==> !(f.srcIp == ip && f.appLabel == app)
            case Some(l) =>
              && (exists f :: f in fs && f.srcIp == ip && f.appLabel == app)
              && l.src == "ip:" + ip && l.dst == "app:" + app
              && l.bytes == Sum(fs, FromTo(A.Bytes, ip, app)) && l.flows == Sum(fs, FromTo(A.Flows, ip, app))
    ensures Lookup(LegacyLinks(fs), ("ip:" + ip, "app:" + app)) ==
            A.Grouped(LegacyRows(fs), LegacyLabels(), "ip:" + ip, "app:" + app)
  {
    A.FoldedIsGrouped(LegacyRows(fs), LegacyLabels(), "ip:" + ip, "app:" + app);
    LegacySums(fs, A.Bytes, ip, app);
    LegacySums(fs, A.Flows, ip, app);
    forall f | f in fs && f.srcIp == ip && f.appLabel == app
      ensures A.Goes(LegacyRow(f), LegacyLabels(), "ip:" + ip, "app:" + app) && LegacyRow(f) in LegacyRows(fs)
    {
      var i :| 0 <= i < |fs| && fs[i] == f;
      assert LegacyRows(fs)[i] == LegacyRow(f);
    }
    if r :| r in LegacyRows(fs) && A.Goes(r, LegacyLabels(), "ip:" + ip, "app:" + app) {
      var i :| 0 <= i < |fs| && LegacyRows(fs)[i] == r;
      SamePrefix("ip:", fs[i].srcIp, ip);
      SamePrefix("app:", fs[i].appLabel, app);
      assert fs[i] in fs;
    }
  }

  function WithoutUsers(ls: seq<FlatLink>): (r: seq<FlatLink>)
    ensures |r| == |ls|
  {
    seq(|ls|, i requires 0 <= i < |ls| => ls[i].(users := 0))
  }

  /** How deltas are built: the legacy view, or the aggregator with its state at that moment. */
  datatype View = Legacy | Grouped(cfg: Config, cache: Cache, sizes: Sizes, mode: Mode)

  function DeltaLinks(v: View, fs: seq<Flow>): seq<FlatLink> {
    match v
    case Legacy => WithoutUsers(Finalized(LegacyLinks(fs)))
    case Grouped(cfg, cache, sizes, mode) => Finalized(Aggregated(cfg, cache, GroupRows(fs), sizes, mode))
  }

  function DeltaOf(v: View, b: Batch): Delta
    requires b.flows != []
  {
    Delta(b.bucket, b.flows[0].windowS, DeltaLinks(v, b.flows), AnyLossy(b.flows), DroppedTotal(b.flows))
  }

  lemma {:induction false} FinalizedTotal(m: A.Measure, links: A.Links)
    ensures Sum(Finalized(links), FlatAmounts(m)) == DictSum(links, A.LinkAt(m, None))
  {
    if links != [] {
      FinalizedTotal(m, links[1..]);
      assert Finalized(links)[1..] == Finalized(links[1..]);
      SumHead(Finalized(links), FlatAmounts(m));
      A.LinkAtAll(m, links[0].key, links[0].value);
      assert FlatAmounts(m)(Finalized(links)[0]) == A.LinkAmount(m, links[0].value);
    }
  }

  lemma {:induction false} WithoutUsersTotal(m: A.Measure, ls: seq<FlatLink>)
    ensures Sum(WithoutUsers(ls), FlatAmounts(m)) == Sum(ls, FlatAmounts(m))
  {
    if ls != [] {
      WithoutUsersTotal(m, ls[..|ls| - 1]);
      assert WithoutUsers(ls)[..|ls| - 1] == WithoutUsers(ls[..|ls| - 1]);
    }
  }

  lemma {:induction false} RowsTotal(m: A.Measure, fs: seq<Flow>)
    ensures Sum(GroupRows(fs), A.At(m, None)) == Sum(fs, FlowAmounts(m))
    ensures Sum(LegacyRows(fs), A.At(m, None)) == Sum(fs, FlowAmounts(m))
  {
    if fs != [] {
      RowsTotal(m, fs[..|fs| - 1]);
      assert GroupRows(fs)[..|fs| - 1] == GroupRows(fs[..|fs| - 1]);
      assert LegacyRows(fs)[..|fs| - 1] == LegacyRows(fs[..|fs| - 1]);
    }
  }

  // ---------------------------------------------------------------------------------------------
  // The group view, stated on the flows
  // ---------------------------------------------------------------------------------------------

  /** The known users of all flows to an application. */
  function KnownTo(fs: seq<Flow>, app: string): set<string> {
    set f | f in fs && f.appLabel == app && f.user != "unknown" :: f.user
  }

  /** The groups on the last flow of each user. */
  function LastGroups(fs: seq<Flow>): GroupMap {
    if fs == [] then map[]
    else var f := fs[|fs| - 1]; LastGroups(fs[..|fs| - 1])[f.user := f.groups]
  }

  /**
   The left-hand label of a user's flows to an application: "unknown", or the group decided for all
   known users of the application, cached or least common, or the user itself when there is none.
   */
  function UserLabel(v: View, fs: seq<Flow>, app: string, user: string): string
    requires v.Grouped?
  {
    var users := KnownTo(fs, app);
    var choice := if users in v.cache then v.cache[users] else Lcd(users, LastGroups(fs), v.sizes, v.cfg.excluded, v.cfg.floor);
    if user == "unknown" then "unknown" else if choice.Some? then choice.value else user
  }

  /** The flow belongs to the link from `s` to the application. */
  predicate Belongs(v: View, fs: seq<Flow>, s: string, app: string, f: Flow)
    requires v.Grouped?
  {
    f.appLabel == app && UserLabel(v, fs, app, f.user) == s
  }

  function Carried(v: View, fs: seq<Flow>, m: A.Measure, s: string, app: string): Flow -> int
    requires v.Grouped?
  {
    (f: Flow) => if !Belongs(v, fs, s, app, f) then 0 else match m case Bytes => f.bytes case Flows => f.flows
  }

  function UsersOf(v: View, fs: seq<Flow>, s: string, app: string): set<string>
    requires v.Grouped?
  {
    set f | f in fs && Belongs(v, fs, s, app, f) :: f.user
  }

  lemma {:induction false} LastGroupsSeen(fs: seq<Flow>)
    ensures A.GroupsSeen(GroupRows(fs)) == LastGroups(fs)
  {
    if fs != [] {
      LastGroupsSeen(fs[..|fs| - 1]);
      assert GroupRows(fs)[..|fs| - 1] == GroupRows(fs[..|fs| - 1]);
    }
  }

  lemma RowOf(fs: seq<Flow>, r: A.Row)
    ensures r in GroupRows(fs) <==> exists f :: f in fs && r == GroupRow(f)
  {
    if r in GroupRows(fs) {
      var i :| 0 <= i < |fs| && GroupRows(fs)[i] == r;
      assert fs[i] in fs;
    }
    if f :| f in fs && r == GroupRow(f) {
      var i :| 0 <= i < |fs| && fs[i] == f;
      assert GroupRows(fs)[i] == r;
    }
  }

  lemma KnownToIs(fs: seq<Flow>, app: string)
    ensures A.Known(A.RowsAt(GroupRows(fs), "app:" + app)) == KnownTo(fs, app)
  {
    hide GroupRows, A.RowsAt;
    var rows := GroupRows(fs);
    var here := A.RowsAt(rows, "app:" + app);
    RowsAtIn(rows, "app:" + app);
    forall u ensures u in A.Known(here) <==> u in KnownTo(fs, app) {
      if r :| r in here && r.user == u {
        RowOf(fs, r);
        var f :| f in fs && r == GroupRow(f);
        SamePrefix("app:", f.appLabel, app);
      }
      if f :| f in fs && f.appLabel == app && f.user == u {
        RowOf(fs, GroupRow(f));
        assert GroupRow(f) in here;
      }
    }
  }

  lemma UserLabelIs(v: View, fs: seq<Flow>, app: string, u: string)
    requires v.Grouped? && v.mode == ByGroup
    ensures Labelling(v.cfg, v.cache, GroupRows(fs), v.sizes, ByGroup)("app:" + app, u) == UserLabel(v, fs, app, u)
  {
    hide A.Known, A.RowsAt, A.GroupsSeen, GroupRows, KnownTo, LastGroups, Lcd;
    KnownToIs(fs, app);
    LastGroupsSeen(fs);
  }

  lemma {:induction false} RowsSum(fs: seq<Flow>, g: A.Row -> int, h: Flow -> int)
    requires forall f :: g(GroupRow(f)) == h(f)
    ensures Sum(GroupRows(fs), g) == Sum(fs, h)
  {
    if fs != [] {
      RowsSum(fs[..|fs| - 1], g, h);
      assert GroupRows(fs)[..|fs| - 1] == GroupRows(fs[..|fs| - 1]);
    }
  }

  /** A row goes to a link exactly when its flow belongs to it. */
  lemma GoesIs(v: View, fs: seq<Flow>, s: string, app: string, f: Flow)
    requires v.Grouped? && v.mode == ByGroup
    ensures A.Goes(GroupRow(f), Labelling(v.cfg, v.cache, GroupRows(fs), v.sizes, ByGroup), s, "app:" + app) <==>
            Belongs(v, fs, s, app, f)
  {
    hide Labelling, UserLabel;
    SamePrefix("app:", f.appLabel, app);
    UserLabelIs(v, fs, app, f.user);
  }

  lemma CarriedIs(v: View, fs: seq<Flow>, m: A.Measure, s: string, app: string)
    requires v.Grouped? && v.mode == ByGroup
    ensures Sum(GroupRows(fs), A.Going(m, Labelling(v.cfg, v.cache, GroupRows(fs), v.sizes, ByGroup), s, "app:" + app)) ==
            Sum(fs, Carried(v, fs, m, s, app))
  {
    hide Labelling, UserLabel, A.Goes, Belongs, GroupRows;
    var lab := Labelling(v.cfg, v.cache, GroupRows(fs), v.sizes, ByGroup);
    var g, h := A.Going(m, lab, s, "app:" + app), Carried(v, fs, m, s, app);
    forall f ensures g(GroupRow(f)) == h(f) {
      GoesIs(v, fs, s, app, f);
      A.GoingAt(m, lab, s, "app:" + app, GroupRow(f));
    }
    RowsSum(fs, g, h);
  }

  lemma UsersOfIs(v: View, fs: seq<Flow>, s: string, app: string)
    requires v.Grouped? && v.mode == ByGroup
    ensures A.UsersGoing(GroupRows(fs), Labelling(v.cfg, v.cache, GroupRows(fs), v.sizes, ByGroup), s, "app:" + app) ==
            UsersOf(v, fs, s, app)
  {
    hide Labelling, UserLabel, GroupRows, A.Goes, Belongs;
    var lab := Labelling(v.cfg, v.cache, GroupRows(fs), v.sizes, ByGroup);
    forall u ensures u in A.UsersGoing(GroupRows(fs), lab, s, "app:" + app) <==> u in UsersOf(v, fs, s, app) {
      if r :| r in GroupRows(fs) && A.Goes(r, lab, s, "app:" + app) && r.user == u {
        RowOf(fs, r);
        var f :| f in fs && r == GroupRow(f);
        GoesIs(v, fs, s, app, f);
      }
      if f :| f in fs && Belongs(v, fs, s, app, f) && f.user == u {
        RowOf(fs, GroupRow(f));
        GoesIs(v, fs, s, app, f);
      }
    }
  }

  /** The link from `s` to an application, as a summary of the flows that belong to it. */
  lemma GroupEntryIs(v: View, fs: seq<Flow>, s: string, app: string)
    requires v.Grouped? && v.mode == ByGroup
    ensures var found := Lookup(Aggregated(v.cfg, v.cache, GroupRows(fs), v.sizes, ByGroup), (s, "app:" + app));
            && (found.Some? <==> exists f :: f in fs && Belongs(v, fs, s, app, f))
            && (found.Some? ==> found.value == A.Link(s, "app:" + app, Sum(fs, Carried(v, fs, A.Bytes, s, app)),
                                                      Sum(fs, Carried(v, fs, A.Flows, s, app)), UsersOf(v, fs, s, app)))
  {
    hide Labelling, Aggregated, GroupRows, A.Goes, Belongs, Sum;
    var rows := GroupRows(fs);
    var lab := Labelling(v.cfg, v.cache, rows, v.sizes, ByGroup);
    AggregateIsGrouped(v.cfg, v.cache, rows, v.sizes, ByGroup, s, "app:" + app);
    CarriedIs(v, fs, A.Bytes, s, app);
    CarriedIs(v, fs, A.Flows, s, app);
    UsersOfIs(v, fs, s, app);
    if r :| r in rows && A.Goes(r, lab, s, "app:" + app) {
      RowOf(fs, r);
      var f :| f in fs && r == GroupRow(f);
      GoesIs(v, fs, s, app, f);
    }
    if f :| f in fs && Belongs(v, fs, s, app, f) {
      RowOf(fs, GroupRow(f));
      GoesIs(v, fs, s, app, f);
    }
  }

  /**
   The links of a group delta, stated on its flows alone: `l` is one of them if and only if it goes
   from a label to an application between which some flow belongs, and carries the bytes, the flows
   and the number of distinct users of exactly those.
   */
  lemma GroupLinkIff(v: View, fs: seq<Flow>, l: FlatLink)
    requires v.Grouped? && v.mode == ByGroup
    ensures l in DeltaLinks(v, fs) <==>
            exists app :: && l.dst == "app:" + app && (exists f :: f in fs && Belongs(v, fs, l.src, app, f))
                          && l.bytes == Sum(fs, Carried(v, fs, A.Bytes, l.src, app))
                          && l.flows == Sum(fs, Carried(v, fs, A.Flows, l.src, app))
                          && l.users == |UsersOf(v, fs, l.src, app)|
  {
    hide Labelling, GroupRows, Finalized, Belongs, Sum, A.Folded, A.Arranged, A.Dsts;
    var rows := GroupRows(fs);
    var lab := Labelling(v.cfg, v.cache, rows, v.sizes, ByGroup);
    var links := Aggregated(v.cfg, v.cache, rows, v.sizes, ByGroup);
    FoldedKeyed(A.Arranged(rows, A.Dsts(rows)), lab);
    FinalizedIff(links, l);
    hide Aggregated;
    AggregateIsGrouped(v.cfg, v.cache, rows, v.sizes, ByGroup, l.src, l.dst);
    if r :| r in rows && A.Goes(r, lab, l.src, l.dst) {
      RowOf(fs, r);
      var f :| f in fs && r == GroupRow(f);
      GroupEntryIs(v, fs, l.src, f.appLabel);
    }
    if app :| l.dst == "app:" + app && (exists f :: f in fs && Belongs(v, fs, l.src, app, f)) {
      GroupEntryIs(v, fs, l.src, app);
      forall other | l.dst == "app:" + other ensures other == app { SamePrefix("app:", other, app); }
    }
  }

  /** In the legacy view, likewise: one link per address and application, and no users. */
  lemma LegacyFlatIff(fs: seq<Flow>, l: FlatLink)
    ensures l in DeltaLinks(Legacy, fs) <==>
            exists ip, app :: && l.src == "ip:" + ip && l.dst == "app:" + app
                              && (exists f :: f in fs && f.srcIp == ip && f.appLabel == app)
                              && l.bytes == Sum(fs, FromTo(A.Bytes, ip, app))
                              && l.flows == Sum(fs, FromTo(A.Flows, ip, app)) && l.users == 0
  {
    hide Sum, A.Folded, LegacyRows, A.Grouped, Finalized;
    var links := LegacyLinks(fs);
    FoldedKeyed(LegacyRows(fs), LegacyLabels());
    WithoutUsersIff(Finalized(links), l);
    if l in WithoutUsers(Finalized(links)) {
      var x :| x in Finalized(links) && l == x.(users := 0);
      FinalizedIff(links, x);
      var ip, app := LegacyEnds(fs, l.src, l.dst);
      LegacyLinkIs(fs, ip, app);
    }
    if ip, app :| l.src == "ip:" + ip && l.dst == "app:" + app && (exists f :: f in fs && f.srcIp == ip && f.appLabel == app)
                  && l.bytes == Sum(fs, FromTo(A.Bytes, ip, app)) && l.flows == Sum(fs, FromTo(A.Flows, ip, app)) && l.users == 0 {
      LegacyLinkIs(fs, ip, app);
      var e := Lookup(links, (l.src, l.dst)).value;
      FinalizedIff(links, Flat(e));
    }
  }

  lemma WithoutUsersIff(ls: seq<FlatLink>, l: FlatLink)
    ensures l in WithoutUsers(ls) <==> exists x :: x in ls && l == x.(users := 0)
  {
    if l in WithoutUsers(ls) {
      var i :| 0 <= i < |ls| && WithoutUsers(ls)[i] == l;
      assert ls[i] in ls;
    }
    if x :| x in ls && l == x.(users := 0) {
      var i :| 0 <= i < |ls| && ls[i] == x;
      assert WithoutUsers(ls)[i] == l;
    }
  }

  /** Every legacy link goes from an address to an application. */
  lemma LegacyEnds(fs: seq<Flow>, s: string, d: string) returns (ip: string, app: string)
    requires Lookup(LegacyLinks(fs), (s, d)).Some?
    ensures s == "ip:" + ip && d == "app:" + app
  {
    A.FoldedIsGrouped(LegacyRows(fs), LegacyLabels(), s, d);
    var r :| r in LegacyRows(fs) && A.Goes(r, LegacyLabels(), s, d);
    var i :| 0 <= i < |fs| && LegacyRows(fs)[i] == r;
    ip, app := fs[i].srcIp, fs[i].appLabel;
  }

  /** In either view the links of a delta carry exactly the bytes and flows of its rows. */
  lemma DeltaConserves(v: View, fs: seq<Flow>, m: A.Measure)
    ensures Sum(DeltaLinks(v, fs), FlatAmounts(m)) == Sum(fs, FlowAmounts(m))
  {
    RowsTotal(m, fs);
    match v
    case Legacy =>
      WithoutUsersTotal(m, Finalized(LegacyLinks(fs)));
      FinalizedTotal(m, LegacyLinks(fs));
      A.FoldedConserves(LegacyRows(fs), LegacyLabels(), m, None);
    case Grouped(cfg, cache, sizes, mode) =>
      FinalizedTotal(m, Aggregated(cfg, cache, GroupRows(fs), sizes, mode));
      AggregateConserves(cfg, cache, GroupRows(fs), sizes, mode, m, None);
  }

  lemma ReceiveOne(fs: seq<Flow>, f: Flow)
    ensures ReceivedAll(fs + [f]) == Received(ReceivedAll(fs), f)
    ensures ReceivedAll(fs).current.None? <==> ReceivedAll(fs).pending == []
  {
    assert (fs + [f])[..|fs|] == fs;
    CutsTheStream(fs);
  }

  // ---------------------------------------------------------------------------------------------
  // The object
  // ---------------------------------------------------------------------------------------------

  class SankeyPublisher {
    const aggregator: GroupAggregator?
    const index: GroupIndex?
    const mode: Option<Mode> // None is "app", the legacy view
    var currentBucket: Option<int>
    var pending: seq<Flow>
    var deltas: seq<Delta> // what has been handed to Redis

    ghost var received: seq<Flow>

    constructor (aggregator: GroupAggregator?, index: GroupIndex?, mode: Option<Mode>)
      ensures this.aggregator == aggregator && this.index == index && this.mode == mode
      ensures Valid() && received == [] && deltas == []
    {
      this.aggregator, this.index, this.mode := aggregator, index, mode;
      currentBucket, pending, deltas, received := None, [], [], [];
    }

    ghost function State(): Cut
      reads this
    {
      ReceivedAll(received)
    }

    ghost predicate Valid()
      reads this
    {
      && State().current == currentBucket && State().pending == pending
      && |deltas| == |State().published|
      && forall i :: 0 <= i < |deltas| ==> deltas[i].ts == State().published[i].bucket
    }

    ghost function CurrentView(): View
      reads this, aggregator, index
    {
      if aggregator == null || mode == None then Legacy
      else Grouped(aggregator.cfg, aggregator.cache, if index == null then map[] else index.groupSize, mode.value)
    }

    /** The aggregator has memoised the decisions of a delta of `flows` built with `was`. */
    ghost predicate CacheIs(was: View, flows: seq<Flow>)
      reads aggregator
    {
      aggregator != null && was.Grouped? ==>
        aggregator.cache == CacheAfter(was.cfg, was.cache, GroupRows(flows), was.sizes, was.mode)
    }

    /** Takes one row; the delta it may complete is built from the aggregator's state at that moment. */
    method Receive(f: Flow)
      requires Valid()
      modifies this, aggregator
      ensures Valid() && received == old(received) + [f]
      ensures if |State().published| == |old(State()).published| then deltas == old(deltas)
              else var b := State().published[|State().published| - 1];
                   b.flows != [] && deltas == old(deltas) + [DeltaOf(old(CurrentView()), b)]
      ensures |State().published| != |old(State()).published| ==>
                CacheIs(old(CurrentView()), State().published[|State().published| - 1].flows)
      ensures aggregator != null && |State().published| == |old(State()).published| ==>
                aggregator.cache == old(aggregator.cache)
    {
      hide ReceivedAll, DeltaLinks, Joined;
      ghost var before := State();
      ReceiveOne(received, f);
      received := received + [f];
      var current := if currentBucket.None? then f.bucket else currentBucket.value;
      if f.bucket > current {
        assert State().published == before.published + [Batch(current, pending)];
        Publish(current, pending);
        pending := [];
        current := f.bucket;
      }
      currentBucket := Some(current);
      pending := pending + [f];
    }

    method Publish(bucket: int, flows: seq<Flow>)
      modifies this`deltas, aggregator
      ensures deltas == if flows == [] then old(deltas)
                        else old(deltas) + [DeltaOf(old(CurrentView()), Batch(bucket, flows))]
      ensures flows != [] ==> CacheIs(old(CurrentView()), flows)
    {
      if flows == [] {
        return;
      }
      var links: seq<FlatLink>;
      if aggregator == null || mode == None {
        links := BuildLegacyLinks(flows);
      } else {
        var sizes := if index == null then map[] else index.groupSize;
        var rows := BuildGroupRows(flows);
        links := aggregator.Aggregate(rows, sizes, mode.value);
      }
      var lossy, dropped := CountLosses(flows);
      deltas := deltas + [Delta(bucket, flows[0].windowS, links, lossy, dropped)];
    }

    static method BuildLegacyLinks(flows: seq<Flow>) returns (out: seq<FlatLink>)
      ensures out == WithoutUsers(Finalized(LegacyLinks(flows)))
    {
      var links: A.Links := [];
      for i := 0 to |flows|
        invariant links == LegacyLinks(flows[..i])
      {
        assert LegacyRows(flows[..i + 1])[..i] == LegacyRows(flows[..i]);
        links := A.Accumulated(links, "ip:" + flows[i].srcIp, LegacyRow(flows[i]));
      }
      assert flows[..|flows|] == flows;
      out := WithoutUsers(Finalized(links));
    }

    static method BuildGroupRows(flows: seq<Flow>) returns (rows: seq<A.Row>)
      ensures rows == GroupRows(flows)
    {
      rows := [];
      for i := 0 to |flows|
        invariant rows == GroupRows(flows[..i])
      {
        rows := rows + [GroupRow(flows[i])];
      }
      assert flows[..|flows|] == flows;
    }

    static method CountLosses(flows: seq<Flow>) returns (lossy: bool, dropped: nat)
      ensures lossy == AnyLossy(flows) && dropped == DroppedTotal(flows)
    {
      lossy, dropped := false, 0;
      for i := 0 to |flows|
        invariant lossy == AnyLossy(flows[..i]) && dropped == DroppedTotal(flows[..i])
      {
        assert flows[..i + 1] == flows[..i] + [flows[i]];
        assert forall f :: f in flows[..i + 1] <==> f in flows[..i] || f == flows[i];
        lossy := lossy || flows[i].lossy;
        dropped := dropped + flows[i].dropped;
      }
      assert flows[..|flows|] == flows;
    }
  }
}
