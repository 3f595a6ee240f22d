/** The group aggregator: labelling by least common group through a memo cache keyed by user set. */
module Aggregator {
  import opened Prelude
  import opened Collections
  import opened Groups
  import opened Aggregation

  /** Any `group_by` other than "user" and "src_ip" selects the group mode. */
  datatype Mode = ByGroup | ByUser | BySrcIp

  datatype Config = Config(excluded: set<string>, floor: int)

  type Cache = map<set<string>, Option<string>>

  function LcdOf(cfg: Config, users: set<string>, ug: GroupMap, sizes: Sizes): Option<string> {
    Lcd(users, ug, sizes, cfg.excluded, cfg.floor)
  }

  /** The cached decision if there is one, else a fresh one. */
  function Choice(cfg: Config, cache: Cache, users: set<string>, ug: GroupMap, sizes: Sizes): Option<string> {
    if users in cache then cache[users] else LcdOf(cfg, users, ug, sizes)
  }

  function LastSrcIp(rows: seq<Row>, user: string): string {
    if rows == [] then user
    else if rows[|rows| - 1].user == user then rows[|rows| - 1].srcIp
    else LastSrcIp(rows[..|rows| - 1], user)
  }

  /** A decision labels its users with the group chosen, or each user with itself. */
  function LabelFrom(choice: Option<string>, u: string): string {
    match choice case None => u case Some(g) => g
  }

  function LabelOf(cfg: Config, cache: Cache, rows: seq<Row>, sizes: Sizes, mode: Mode, d: string, u: string): string {
    if u == UNKNOWN then UNKNOWN
    else match mode
      case ByUser => u
      case BySrcIp => LastSrcIp(RowsAt(rows, d), u)
      case ByGroup => LabelFrom(Choice(cfg, cache, Known(RowsAt(rows, d)), GroupsSeen(rows), sizes), u)
  }

  function Labelling(cfg: Config, cache: Cache, rows: seq<Row>, sizes: Sizes, mode: Mode): Labels {
    (d, u) => LabelOf(cfg, cache, rows, sizes, mode, d, u)
  }

  /** The links one call builds, given the cache it starts from. */
  function Aggregated(cfg: Config, cache: Cache, rows: seq<Row>, sizes: Sizes, mode: Mode): Links {
    Folded(Arranged(rows, Dsts(rows)), Labelling(cfg, cache, rows, sizes, mode))
  }

  /** The decisions one call adds for the destinations `ds`. */
  function CacheWith(cfg: Config, cache: Cache, rows: seq<Row>, sizes: Sizes, ds: seq<string>): Cache {
    if ds == [] then cache
    else
      var before := CacheWith(cfg, cache, rows, sizes, ds[..|ds| - 1]);
      var users := Known(RowsAt(rows, ds[|ds| - 1]));
      if users == {} || users in before then before
      else before[users := LcdOf(cfg, users, GroupsSeen(rows), sizes)]
  }

  function CacheSoFar(cfg: Config, cache: Cache, rows: seq<Row>, sizes: Sizes, mode: Mode, ds: seq<string>): Cache {
    if mode == ByGroup then CacheWith(cfg, cache, rows, sizes, ds) else cache
  }

  /** The cache one call leaves behind. */
  function CacheAfter(cfg: Config, cache: Cache, rows: seq<Row>, sizes: Sizes, mode: Mode): Cache {
    CacheSoFar(cfg, cache, rows, sizes, mode, Dsts(rows))
  }

  /** A finished link: its live user set has become a count. */
  datatype FlatLink = FlatLink(src: string, dst: string, bytes: int, flows: int, users: nat)

  function Finalized(links: Links): (r: seq<FlatLink>)
    ensures |r| == |links|
  {
    seq(|links|, i requires 0 <= i < |links| =>
      var l := links[i].value; FlatLink(l.src, l.dst, l.bytes, l.flows, |l.users|))
  }

  // ---------------------------------------------------------------------------------------------
  // Main results on one call, in every mode and for every cache
  // ---------------------------------------------------------------------------------------------

  /** Each link is the summary of the rows of its destination whose user bears its label. */
  lemma AggregateIsGrouped(cfg: Config, cache: Cache, rows: seq<Row>, sizes: Sizes, mode: Mode, s: string, d: string)
    ensures Lookup(Aggregated(cfg, cache, rows, sizes, mode), (s, d)) ==
            Grouped(rows, Labelling(cfg, cache, rows, sizes, mode), s, d)
  {
    var lab := Labelling(cfg, cache, rows, sizes, mode);
    ArrangedPermutes(rows);
    FoldedIsGrouped(Arranged(rows, Dsts(rows)), lab, s, d);
    GroupedPermuted(Arranged(rows, Dsts(rows)), rows, lab, s, d);
  }

  /** Bytes and flows into each destination, and in all, are those of the rows. */
  lemma AggregateConserves(cfg: Config, cache: Cache, rows: seq<Row>, sizes: Sizes, mode: Mode, m: Measure,
                           at: Option<string>)
    ensures DictSum(Aggregated(cfg, cache, rows, sizes, mode), LinkAt(m, at)) == Sum(rows, At(m, at))
  {
    ArrangedPermutes(rows);
    FoldedConserves(Arranged(rows, Dsts(rows)), Labelling(cfg, cache, rows, sizes, mode), m, at);
    SumPermuted(Arranged(rows, Dsts(rows)), rows, At(m, at));
  }

  /** The user sets of a destination's links partition its users. */
  lemma AggregatePartitions(cfg: Config, cache: Cache, rows: seq<Row>, sizes: Sizes, mode: Mode, d: string)
    ensures var links := Aggregated(cfg, cache, rows, sizes, mode);
            && DictSum(links, UsersAt(d)) == |SeenAt(rows, d)|
            && forall s, t :: s != t ==> LinkOrNew(links, s, d).users !! LinkOrNew(links, t, d).users
  {
    hide Aggregated;
    var lab := Labelling(cfg, cache, rows, sizes, mode);
    var all := Arranged(rows, Dsts(rows));
    ArrangedPermutes(rows);
    FoldedPartitions(all, lab, d);
    SameMembers(all, rows);
    assert SeenAt(all, d) == SeenAt(rows, d);
    AggregatedIs(cfg, cache, rows, sizes, mode);
    forall s, t | s != t
      ensures var links := Aggregated(cfg, cache, rows, sizes, mode);
              LinkOrNew(links, s, d).users !! LinkOrNew(links, t, d).users
    {
      AggregateIsGrouped(cfg, cache, rows, sizes, mode, s, d);
      AggregateIsGrouped(cfg, cache, rows, sizes, mode, t, d);
      DisjointGroups(rows, lab, s, t, d);
    }
  }

  lemma AggregatedIs(cfg: Config, cache: Cache, rows: seq<Row>, sizes: Sizes, mode: Mode)
    ensures Aggregated(cfg, cache, rows, sizes, mode) ==
            Folded(Arranged(rows, Dsts(rows)), Labelling(cfg, cache, rows, sizes, mode))
  {
  }

  lemma DisjointGroups(rows: seq<Row>, lab: Labels, s: string, t: string, d: string)
    requires s != t
    ensures UsersGoing(rows, lab, s, d) !! UsersGoing(rows, lab, t, d)
  {
  }

  // ---------------------------------------------------------------------------------------------
  // When the cache is invisible
  // ---------------------------------------------------------------------------------------------

  /** Every cached decision is the one `world` and `sizes` would give now. */
  ghost predicate Coherent(cfg: Config, cache: Cache, world: GroupMap, sizes: Sizes) {
    forall users :: users in cache ==> cache[users] == LcdOf(cfg, users, world, sizes)
  }

  /** Every row of a known user carries that user's groups in `world`. */
  ghost predicate Consistent(rows: seq<Row>, world: GroupMap) {
    forall r :: r in rows && r.user != UNKNOWN ==> r.groups == HeldBy(world, r.user)
  }

  lemma {:induction false} GroupsSeenIs(rows: seq<Row>, world: GroupMap, u: string)
    requires Consistent(rows, world) && u != UNKNOWN && u in UsersIn(rows)
    ensures HeldBy(GroupsSeen(rows), u) == HeldBy(world, u)
  {
    var front, r := rows[..|rows| - 1], rows[|rows| - 1];
    assert rows == front + [r];
    assert r in rows;
    if r.user != u {
      assert u in UsersIn(front);
      GroupsSeenIs(front, world, u);
    }
  }

  lemma {:induction false} RowsAtIn(rows: seq<Row>, d: string)
    ensures forall r :: r in RowsAt(rows, d) <==> r in rows && r.dst == d
  {
    if rows != [] {
      RowsAtIn(rows[..|rows| - 1], d);
      assert rows == rows[..|rows| - 1] + [rows[|rows| - 1]];
    }
  }

  lemma KnownLcd(cfg: Config, rows: seq<Row>, world: GroupMap, sizes: Sizes, d: string)
    requires Consistent(rows, world)
    ensures var users := Known(RowsAt(rows, d));
            LcdOf(cfg, users, GroupsSeen(rows), sizes) == LcdOf(cfg, users, world, sizes)
  {
    var users := Known(RowsAt(rows, d));
    RowsAtIn(rows, d);
    forall u | u in users ensures HeldBy(GroupsSeen(rows), u) == HeldBy(world, u) {
      GroupsSeenIs(rows, world, u);
    }
    LcdLocal(users, GroupsSeen(rows), world, sizes, cfg.excluded, cfg.floor);
  }

  /** What a consistent batch must be labelled with, by the world alone. */
  function WorldLabel(cfg: Config, world: GroupMap, sizes: Sizes, users: set<string>, mode: Mode, u: string): string
    requires mode != BySrcIp
  {
    if u == UNKNOWN || mode == ByUser then u
    else LabelFrom(LcdOf(cfg, users, world, sizes), u)
  }

  lemma LabelIsWorldLabel(cfg: Config, cache: Cache, world: GroupMap, rows: seq<Row>, sizes: Sizes, mode: Mode,
                          d: string, u: string)
    requires Coherent(cfg, cache, world, sizes) && Consistent(rows, world) && mode != BySrcIp
    ensures LabelOf(cfg, cache, rows, sizes, mode, d, u) ==
            WorldLabel(cfg, world, sizes, Known(RowsAt(rows, d)), mode, u)
  {
    KnownLcd(cfg, rows, world, sizes, d);
  }

  lemma {:induction false} FoldedSameLabels(rows: seq<Row>, f: Labels, g: Labels)
    requires forall r :: r in rows ==> f(r.dst, r.user) == g(r.dst, r.user)
    ensures Folded(rows, f) == Folded(rows, g)
  {
    if rows != [] {
      FoldedSameLabels(rows[..|rows| - 1], f, g);
      assert rows[|rows| - 1] in rows;
    }
  }

  /** Links tell the labels: each row's user is in the link its label selects, and in no other. */
  lemma FoldedTellsLabels(rows: seq<Row>, f: Labels, g: Labels, r: Row)
    requires r in rows && Folded(rows, f) == Folded(rows, g)
    ensures f(r.dst, r.user) == g(r.dst, r.user)
  {
    hide Folded;
    var s := f(r.dst, r.user);
    FoldedIsGrouped(rows, f, s, r.dst);
    FoldedIsGrouped(rows, g, s, r.dst);
    assert Goes(r, f, s, r.dst);
    assert r.user in UsersGoing(rows, f, s, r.dst);
    assert r.user in UsersGoing(rows, g, s, r.dst);
  }

  ghost predicate Alike(cfg: Config, c1: Cache, c2: Cache, rows: seq<Row>, sizes: Sizes, mode: Mode, r: Row) {
    LabelOf(cfg, c1, rows, sizes, mode, r.dst, r.user) == LabelOf(cfg, c2, rows, sizes, mode, r.dst, r.user)
  }

  /** Two caches give the same links exactly when they give every row the same label. */
  lemma SameLinksIff(cfg: Config, c1: Cache, c2: Cache, rows: seq<Row>, sizes: Sizes, mode: Mode)
    ensures Aggregated(cfg, c1, rows, sizes, mode) == Aggregated(cfg, c2, rows, sizes, mode) <==>
            forall r :: r in rows ==> Alike(cfg, c1, c2, rows, sizes, mode, r)
  {
    hide LabelOf, Folded, Arranged;
    var f, g := Labelling(cfg, c1, rows, sizes, mode), Labelling(cfg, c2, rows, sizes, mode);
    var all := Arranged(rows, Dsts(rows));
    ArrangedPermutes(rows);
    SameMembers(all, rows);
    if Folded(all, f) == Folded(all, g) {
      forall r | r in rows ensures f(r.dst, r.user) == g(r.dst, r.user) {
        FoldedTellsLabels(all, f, g, r);
      }
    }
    if forall r :: r in rows ==> f(r.dst, r.user) == g(r.dst, r.user) {
      FoldedSameLabels(all, f, g);
    }
  }

  /** Two decisions that label all of `users` alike. */
  ghost predicate SameLabels(a: Option<string>, b: Option<string>, users: set<string>) {
    forall u :: u in users ==> LabelFrom(a, u) == LabelFrom(b, u)
  }

  /** They are the same decision, unless the only user is itself named as the group chosen. */
  lemma SameLabelsIff(a: Option<string>, b: Option<string>, users: set<string>)
    requires users != {}
    ensures SameLabels(a, b, users) <==>
            a == b || exists u :: users == {u} && {a, b} == {None, Some(u)}
  {
  }

  /** The cached decision for the known users of `d`, if any, labels them as a fresh one would. */
  ghost predicate FreshAt(cfg: Config, cache: Cache, rows: seq<Row>, sizes: Sizes, d: string) {
    var users := Known(RowsAt(rows, d));
    users in cache ==> SameLabels(cache[users], LcdOf(cfg, users, GroupsSeen(rows), sizes), users)
  }

  lemma FreshAtIff(cfg: Config, cache: Cache, rows: seq<Row>, sizes: Sizes, d: string)
    ensures FreshAt(cfg, cache, rows, sizes, d) <==>
            forall r :: r in rows && r.dst == d ==> Alike(cfg, cache, map[], rows, sizes, ByGroup, r)
  {
    hide LcdOf, RowsAt, GroupsSeen;
    var users := Known(RowsAt(rows, d));
    RowsAtIn(rows, d);
    if forall r :: r in rows && r.dst == d ==> Alike(cfg, cache, map[], rows, sizes, ByGroup, r) {
      forall u | u in users
        ensures LabelOf(cfg, cache, rows, sizes, ByGroup, d, u) == LabelOf(cfg, map[], rows, sizes, ByGroup, d, u)
      {
        var r :| r in RowsAt(rows, d) && r.user == u;
        assert Alike(cfg, cache, map[], rows, sizes, ByGroup, r);
      }
    }
    if FreshAt(cfg, cache, rows, sizes, d) {
      forall r | r in rows && r.dst == d && r.user != UNKNOWN
        ensures Alike(cfg, cache, map[], rows, sizes, ByGroup, r)
      {
        assert r in RowsAt(rows, d);
        assert r.user in users;
      }
    }
  }

  /**
   The exact condition: a call gets the links of a call without a cache if and only if, at each
   destination, the decision cached for its known users labels them as a fresh one would.
   */
  lemma CacheInvisibleIff(cfg: Config, cache: Cache, rows: seq<Row>, sizes: Sizes)
    ensures Aggregated(cfg, cache, rows, sizes, ByGroup) == Aggregated(cfg, map[], rows, sizes, ByGroup) <==>
            forall d :: d in Dsts(rows) ==> FreshAt(cfg, cache, rows, sizes, d)
  {
    hide Alike, Aggregated, FreshAt;
    SameLinksIff(cfg, cache, map[], rows, sizes, ByGroup);
    DstsOnce(rows);
    if forall d :: d in Dsts(rows) ==> FreshAt(cfg, cache, rows, sizes, d) {
      forall r | r in rows ensures Alike(cfg, cache, map[], rows, sizes, ByGroup, r) {
        FreshAtIff(cfg, cache, rows, sizes, r.dst);
      }
    }
    forall d | forall r :: r in rows ==> Alike(cfg, cache, map[], rows, sizes, ByGroup, r)
      ensures FreshAt(cfg, cache, rows, sizes, d)
    {
      FreshAtIff(cfg, cache, rows, sizes, d);
    }
  }

  function Flat(l: Link): FlatLink { FlatLink(l.src, l.dst, l.bytes, l.flows, |l.users|) }

  /** Every entry bears its own key. */
  ghost predicate Keyed(links: Links) {
    forall i :: 0 <= i < |links| ==> links[i].key == (links[i].value.src, links[i].value.dst)
  }

  /** The finished links are those of the entries, with the users counted. */
  lemma FinalizedIff(links: Links, l: FlatLink)
    requires DistinctKeys(links) && Keyed(links)
    ensures l in Finalized(links) <==>
            Lookup(links, (l.src, l.dst)).Some? && l == Flat(Lookup(links, (l.src, l.dst)).value)
  {
    var flat := Finalized(links);
    if l in flat {
      var i :| 0 <= i < |flat| && flat[i] == l;
      EntryLookup(links, i);
    }
    LookupIn(links, (l.src, l.dst));
    if Lookup(links, (l.src, l.dst)).Some? && l == Flat(Lookup(links, (l.src, l.dst)).value) {
      var i :| 0 <= i < |links| && links[i] == Entry((l.src, l.dst), Lookup(links, (l.src, l.dst)).value);
      assert flat[i] == l;
    }
  }

  lemma FoldedKeyed(rows: seq<Row>, lab: Labels)
    ensures DistinctKeys(Folded(rows, lab)) && Keyed(Folded(rows, lab))
  {
    var links := Folded(rows, lab);
    FoldedDistinct(rows, lab);
    hide Folded;
    forall i | 0 <= i < |links| ensures links[i].key == (links[i].value.src, links[i].value.dst) {
      EntryLookup(links, i);
      FoldedIsGrouped(rows, lab, links[i].key.0, links[i].key.1);
    }
  }

  ghost predicate HasLink(flat: seq<FlatLink>, s: string, d: string) {
    exists i :: 0 <= i < |flat| && flat[i].src == s && flat[i].dst == d
  }

  ghost predicate Borne(rows: seq<Row>, lab: Labels, s: string, d: string) {
    exists r :: r in rows && Goes(r, lab, s, d)
  }

  /** A finished link from `s` to `d` is there exactly when some row of `d` bears the label `s`. */
  lemma FlatTells(cfg: Config, cache: Cache, rows: seq<Row>, sizes: Sizes, s: string, d: string)
    ensures HasLink(Finalized(Aggregated(cfg, cache, rows, sizes, ByGroup)), s, d) <==>
            Borne(rows, Labelling(cfg, cache, rows, sizes, ByGroup), s, d)
  {
    hide Labelling, Folded, Arranged;
    var lab := Labelling(cfg, cache, rows, sizes, ByGroup);
    var links := Aggregated(cfg, cache, rows, sizes, ByGroup);
    FoldedDistinct(Arranged(rows, Dsts(rows)), lab);
    AggregateIsGrouped(cfg, cache, rows, sizes, ByGroup, s, d);
    LookupIn(links, (s, d));
    forall i | 0 <= i < |links| ensures links[i].value.src == links[i].key.0 && links[i].value.dst == links[i].key.1 {
      EntryLookup(links, i);
      AggregateIsGrouped(cfg, cache, rows, sizes, ByGroup, links[i].key.0, links[i].key.1);
    }
    var flat := Finalized(links);
    if i :| 0 <= i < |links| && links[i].key == (s, d) {
      assert flat[i].src == s && flat[i].dst == d;
    }
  }

  /** One decision for all known users of a destination. */
  ghost predicate DecidedBy(lab: Labels, d: string, choice: Option<string>) {
    forall u :: lab(d, u) == if u == UNKNOWN then UNKNOWN else LabelFrom(choice, u)
  }

  /** Which labels occur at a destination settles the label of each of its users. */
  lemma LabelsTell(rows: seq<Row>, f: Labels, g: Labels, a: Option<string>, b: Option<string>, r: Row)
    requires r in rows && DecidedBy(f, r.dst, a) && DecidedBy(g, r.dst, b)
    requires forall s :: Borne(rows, f, s, r.dst) <==> Borne(rows, g, s, r.dst)
    ensures f(r.dst, r.user) == g(r.dst, r.user)
  {
    var s, t := f(r.dst, r.user), g(r.dst, r.user);
    assert Goes(r, f, s, r.dst) && Goes(r, g, t, r.dst);
    assert Borne(rows, f, s, r.dst) && Borne(rows, g, t, r.dst);
    assert Borne(rows, g, s, r.dst) && Borne(rows, f, t, r.dst);
  }

  /** Nor can finished deltas, whose users are only counted, hide a difference of the links. */
  lemma FlatSameIff(cfg: Config, cache: Cache, rows: seq<Row>, sizes: Sizes)
    ensures Finalized(Aggregated(cfg, cache, rows, sizes, ByGroup)) == Finalized(Aggregated(cfg, map[], rows, sizes, ByGroup)) <==>
            Aggregated(cfg, cache, rows, sizes, ByGroup) == Aggregated(cfg, map[], rows, sizes, ByGroup)
  {
    hide Aggregated, Finalized, HasLink, Borne, Choice, Known, GroupsSeen, RowsAt;
    if Finalized(Aggregated(cfg, cache, rows, sizes, ByGroup)) == Finalized(Aggregated(cfg, map[], rows, sizes, ByGroup)) {
      var f, g := Labelling(cfg, cache, rows, sizes, ByGroup), Labelling(cfg, map[], rows, sizes, ByGroup);
      forall r | r in rows ensures Alike(cfg, cache, map[], rows, sizes, ByGroup, r) {
        forall s ensures Borne(rows, f, s, r.dst) <==> Borne(rows, g, s, r.dst) {
          FlatTells(cfg, cache, rows, sizes, s, r.dst);
          FlatTells(cfg, map[], rows, sizes, s, r.dst);
        }
        var users := Known(RowsAt(rows, r.dst));
        LabelsTell(rows, f, g, Choice(cfg, cache, users, GroupsSeen(rows), sizes),
                   Choice(cfg, map[], users, GroupsSeen(rows), sizes), r);
      }
      SameLinksIff(cfg, cache, map[], rows, sizes, ByGroup);
    }
  }

  /** From a coherent cache a consistent batch gets exactly the links of a call with no cache at all. */
  lemma CacheTransparent(cfg: Config, cache: Cache, world: GroupMap, rows: seq<Row>, sizes: Sizes, mode: Mode)
    requires Coherent(cfg, cache, world, sizes) && Consistent(rows, world)
    ensures Aggregated(cfg, cache, rows, sizes, mode) == Aggregated(cfg, map[], rows, sizes, mode)
  {
    hide LcdOf;
    var f, g := Labelling(cfg, cache, rows, sizes, mode), Labelling(cfg, map[], rows, sizes, mode);
    forall d, u ensures f(d, u) == g(d, u) {
      if mode != BySrcIp {
        LabelIsWorldLabel(cfg, cache, world, rows, sizes, mode, d, u);
        LabelIsWorldLabel(cfg, map[], world, rows, sizes, mode, d, u);
      }
    }
    FoldedSameLabels(Arranged(rows, Dsts(rows)), f, g);
  }

  lemma {:induction false} CacheWithCoherent(cfg: Config, cache: Cache, world: GroupMap, rows: seq<Row>,
                                             sizes: Sizes, ds: seq<string>)
    requires Coherent(cfg, cache, world, sizes) && Consistent(rows, world)
    ensures Coherent(cfg, CacheWith(cfg, cache, rows, sizes, ds), world, sizes)
    decreases |ds|
  {
    hide LcdOf;
    if ds != [] {
      CacheWithCoherent(cfg, cache, world, rows, sizes, ds[..|ds| - 1]);
      KnownLcd(cfg, rows, world, sizes, ds[|ds| - 1]);
    }
  }

  // ---------------------------------------------------------------------------------------------
  // Order of rows, and the unknown strand
  // ---------------------------------------------------------------------------------------------

  /**
   In group and user modes, when rows of one user agree on its groups, the links depend only on the
   multiset of rows.
   */
  lemma OrderIndependent(cfg: Config, cache: Cache, world: GroupMap, a: seq<Row>, b: seq<Row>, sizes: Sizes,
                         mode: Mode, s: string, d: string)
    requires multiset(a) == multiset(b) && mode != BySrcIp
    requires Coherent(cfg, cache, world, sizes) && Consistent(a, world)
    ensures Lookup(Aggregated(cfg, cache, a, sizes, mode), (s, d)) ==
            Lookup(Aggregated(cfg, cache, b, sizes, mode), (s, d))
  {
    hide Aggregated, Grouped, Labelling, LcdOf;
    SameMembers(a, b);
    AggregateIsGrouped(cfg, cache, a, sizes, mode, s, d);
    AggregateIsGrouped(cfg, cache, b, sizes, mode, s, d);
    GroupedPermuted(a, b, Labelling(cfg, cache, a, sizes, mode), s, d);
    RowsAtIn(a, d);
    RowsAtIn(b, d);
    assert Known(RowsAt(a, d)) == Known(RowsAt(b, d));
    forall u ensures Labelling(cfg, cache, a, sizes, mode)(d, u) == Labelling(cfg, cache, b, sizes, mode)(d, u) {
      LabellingAt(cfg, cache, a, sizes, mode, d, u);
      LabellingAt(cfg, cache, b, sizes, mode, d, u);
      LabelIsWorldLabel(cfg, cache, world, a, sizes, mode, d, u);
      LabelIsWorldLabel(cfg, cache, world, b, sizes, mode, d, u);
    }
    GroupedSameLabels(b, Labelling(cfg, cache, a, sizes, mode), Labelling(cfg, cache, b, sizes, mode), s, d);
  }

  lemma LabellingAt(cfg: Config, cache: Cache, rows: seq<Row>, sizes: Sizes, mode: Mode, d: string, u: string)
    ensures Labelling(cfg, cache, rows, sizes, mode)(d, u) == LabelOf(cfg, cache, rows, sizes, mode, d, u)
  {
  }

  lemma GroupedSameLabels(rows: seq<Row>, f: Labels, g: Labels, s: string, d: string)
    requires forall u :: f(d, u) == g(d, u)
    ensures Grouped(rows, f, s, d) == Grouped(rows, g, s, d)
  {
    assert forall r :: Goes(r, f, s, d) <==> Goes(r, g, s, d);
    SumSame(rows, Going(Bytes, f, s, d), Going(Bytes, g, s, d));
    SumSame(rows, Going(Flows, f, s, d), Going(Flows, g, s, d));
    assert UsersGoing(rows, f, s, d) == UsersGoing(rows, g, s, d);
  }

  lemma {:induction false} OnlyKnownIn(rows: seq<Row>)
    ensures forall r :: r in OnlyKnown(rows) <==> r in rows && r.user != UNKNOWN
  {
    if rows != [] {
      OnlyKnownIn(rows[..|rows| - 1]);
      assert rows == rows[..|rows| - 1] + [rows[|rows| - 1]];
    }
  }

  lemma {:induction false} OnlyKnownTotal(rows: seq<Row>, f: Row -> int)
    requires forall r :: r in rows && r.user == UNKNOWN ==> f(r) == 0
    ensures Sum(OnlyKnown(rows), f) == Sum(rows, f)
  {
    if rows != [] {
      var front, r := rows[..|rows| - 1], rows[|rows| - 1];
      OnlyKnownTotal(front, f);
      assert r in rows;
      if r.user != UNKNOWN {
        assert OnlyKnown(rows)[..|OnlyKnown(front)|] == OnlyKnown(front);
      }
    }
  }

  lemma {:induction false} OnlyKnownGroups(rows: seq<Row>, u: string)
    requires u != UNKNOWN
    ensures u in GroupsSeen(OnlyKnown(rows)) <==> u in GroupsSeen(rows)
    ensures u in GroupsSeen(rows) ==> GroupsSeen(OnlyKnown(rows))[u] == GroupsSeen(rows)[u]
  {
    if rows != [] {
      var front, r := rows[..|rows| - 1], rows[|rows| - 1];
      OnlyKnownGroups(front, u);
      if r.user == UNKNOWN {
        assert OnlyKnown(rows) == OnlyKnown(front);
      } else {
        GroupsSeenSnoc(OnlyKnown(front), r);
        hide OnlyKnown;
      }
    }
  }

  lemma GroupsSeenSnoc(rows: seq<Row>, r: Row)
    ensures GroupsSeen(rows + [r]) == GroupsSeen(rows)[r.user := r.groups]
  {
    assert (rows + [r])[..|rows|] == rows;
  }

  lemma {:induction false} UsersHaveGroups(rows: seq<Row>)
    ensures GroupsSeen(rows).Keys == UsersIn(rows)
  {
    if rows != [] {
      var front, r := rows[..|rows| - 1], rows[|rows| - 1];
      UsersHaveGroups(front);
      assert forall x :: x in rows <==> x in front || x == r by { assert rows == front + [r]; }
      assert UsersIn(rows) == UsersIn(front) + {r.user};
    }
  }

  lemma {:induction false} OnlyKnownSrcIp(rows: seq<Row>, d: string, u: string)
    requires u != UNKNOWN
    ensures LastSrcIp(RowsAt(OnlyKnown(rows), d), u) == LastSrcIp(RowsAt(rows, d), u)
  {
    if rows != [] {
      hide OnlyKnown, RowsAt, LastSrcIp;
      var front, r := rows[..|rows| - 1], rows[|rows| - 1];
      OnlyKnownSrcIp(front, d, u);
      assert rows == front + [r];
      OnlyKnownSnoc(front, r);
      RowsAtSnoc(front, r, d);
      RowsAtSnoc(OnlyKnown(front), r, d);
      KnownSnoc(RowsAt(front, d), r);
      KnownSnoc(RowsAt(OnlyKnown(front), d), r);
    }
  }

  lemma OnlyKnownLabels(cfg: Config, cache: Cache, rows: seq<Row>, sizes: Sizes, mode: Mode, d: string, u: string)
    ensures LabelOf(cfg, cache, OnlyKnown(rows), sizes, mode, d, u) == LabelOf(cfg, cache, rows, sizes, mode, d, u)
  {
    if u != UNKNOWN {
      OnlyKnownSrcIp(rows, d, u);
      RowsAtIn(rows, d);
      RowsAtIn(OnlyKnown(rows), d);
      OnlyKnownIn(rows);
      var users := Known(RowsAt(rows, d));
      assert Known(RowsAt(OnlyKnown(rows), d)) == users;
      forall v | v in users
        ensures v in GroupsSeen(rows) && v in GroupsSeen(OnlyKnown(rows))
                && GroupsSeen(rows)[v] == GroupsSeen(OnlyKnown(rows))[v]
      {
        OnlyKnownGroups(rows, v);
        UsersHaveGroups(rows);
      }
      LcdLocal(users, GroupsSeen(rows), GroupsSeen(OnlyKnown(rows)), sizes, cfg.excluded, cfg.floor);
    }
  }

  /** Unknown users never disturb known ones: dropping their rows changes no other link. */
  lemma UnknownStrandSeparate(cfg: Config, cache: Cache, rows: seq<Row>, sizes: Sizes, mode: Mode, s: string, d: string)
    requires s != UNKNOWN
    ensures Lookup(Aggregated(cfg, cache, rows, sizes, mode), (s, d)) ==
            Lookup(Aggregated(cfg, cache, OnlyKnown(rows), sizes, mode), (s, d))
  {
    hide Aggregated, Grouped, LcdOf;
    var known := OnlyKnown(rows);
    var f, g := Labelling(cfg, cache, rows, sizes, mode), Labelling(cfg, cache, known, sizes, mode);
    AggregateIsGrouped(cfg, cache, rows, sizes, mode, s, d);
    AggregateIsGrouped(cfg, cache, known, sizes, mode, s, d);
    forall u ensures f(d, u) == g(d, u) {
      OnlyKnownLabels(cfg, cache, rows, sizes, mode, d, u);
    }
    GroupedSameLabels(known, f, g, s, d);
    GroupedOnlyKnown(rows, f, s, d);
  }

  lemma GroupedOnlyKnown(rows: seq<Row>, f: Labels, s: string, d: string)
    requires f(d, UNKNOWN) != s
    ensures Grouped(rows, f, s, d) == Grouped(OnlyKnown(rows), f, s, d)
  {
    var known := OnlyKnown(rows);
    OnlyKnownIn(rows);
    OnlyKnownTotal(rows, Going(Bytes, f, s, d));
    OnlyKnownTotal(rows, Going(Flows, f, s, d));
    assert forall r :: r in rows && Goes(r, f, s, d) <==> r in known && Goes(r, f, s, d);
    assert UsersGoing(rows, f, s, d) == UsersGoing(known, f, s, d);
  }

  // ---------------------------------------------------------------------------------------------
  // The object
  // ---------------------------------------------------------------------------------------------

  class GroupAggregator {
    const cfg: Config
    var cache: Cache

    constructor (cfg: Config)
      ensures this.cfg == cfg && cache == map[]
    {
      this.cfg, cache := cfg, map[];
    }

    method ClearCache()
      modifies this
      ensures cache == map[]
    {
      cache := map[];
    }

    /** Builds the links of `Aggregated` and leaves the cache of `CacheAfter`. */
    method Aggregate(rows: seq<Row>, sizes: Sizes, mode: Mode) returns (out: seq<FlatLink>)
      modifies this
      ensures out == Finalized(Aggregated(cfg, old(cache), rows, sizes, mode))
      ensures cache == CacheAfter(cfg, old(cache), rows, sizes, mode)
    {
      hide LabelOf, Labelling, LcdOf, OnlyUnknown, OnlyKnown, RowsAt, Folded, Accumulated;
      var dsts, perDst, ug := Collect(rows);
      ghost var lab := Labelling(cfg, cache, rows, sizes, mode);
      ghost var start := cache;
      var links: Links := [];
      assert dsts[..0] == [];
      FoldedNone(lab);
      for i := 0 to |dsts|
        invariant links == Folded(Arranged(rows, dsts[..i]), lab)
        invariant cache == CacheSoFar(cfg, start, rows, sizes, mode, dsts[..i])
      {
        var d := dsts[i];
        ghost var before := dsts[..i];
        assert dsts[..i + 1] == before + [d];
        ArrangedSnoc(rows, before, d);
        links := OneDestination(links, perDst[d], d, ug, sizes, mode, rows, start, before);
      }
      assert dsts[..|dsts|] == dsts;
      out := Finalized(links);
    }

    /** The loop body: the unknown strand of one destination, then its known users. */
    method OneDestination(links0: Links, here: seq<Row>, d: string, ug: GroupMap, sizes: Sizes, mode: Mode,
                          ghost rows: seq<Row>, ghost start: Cache, ghost before: seq<string>) returns (links: Links)
      requires here == RowsAt(rows, d) && ug == GroupsSeen(rows)
      requires links0 == Folded(Arranged(rows, before), Labelling(cfg, start, rows, sizes, mode))
      requires cache == CacheSoFar(cfg, start, rows, sizes, mode, before)
      modifies this
      ensures links == Folded(Arranged(rows, before) + OnlyUnknown(here) + OnlyKnown(here),
                              Labelling(cfg, start, rows, sizes, mode))
      ensures cache == CacheSoFar(cfg, start, rows, sizes, mode, before + [d])
    {
      hide Arranged, LabelOf, LcdOf, OnlyUnknown, OnlyKnown, RowsAt, Folded, Accumulated, CacheSoFar;
      ghost var lab := Labelling(cfg, start, rows, sizes, mode);
      ghost var done := Arranged(rows, before);
      links := links0;
      var users := UsersIn(here);
      var known := set u | u in users && u != UNKNOWN;
      assert known == Known(here);
      RowsAtIn(rows, d);
      UnknownLabel(cfg, start, rows, sizes, mode, d);
      if UNKNOWN in users {
        links := AccumUnknown(links, here, d, done, lab);
      } else {
        NoUnknown(here);
        assert done + [] == done;
      }
      done := done + OnlyUnknown(here);
      if known == {} {
        NoKnown(here);
        assert done + [] == done;
        CacheUnasked(cfg, start, rows, sizes, mode, before, d);
        return;
      }
      var labelFor := LabelsFor(here, d, known, ug, sizes, mode, rows, start, before);
      links := AccumKnown(links, here, d, labelFor, done, lab);
    }

    /** First pass: destinations in first-seen order with their rows, and the groups seen last. */
    static method Collect(rows: seq<Row>) returns (dsts: seq<string>, perDst: map<string, seq<Row>>, ug: GroupMap)
      ensures dsts == Dsts(rows) && ug == GroupsSeen(rows)
      ensures forall d :: d in dsts ==> d in perDst && perDst[d] == RowsAt(rows, d)
    {
      dsts, perDst, ug := [], map[], map[];
      for i := 0 to |rows|
        invariant dsts == Dsts(rows[..i]) && ug == GroupsSeen(rows[..i])
        invariant perDst.Keys == Among(dsts)
        invariant forall d :: d in perDst ==> perDst[d] == RowsAt(rows[..i], d)
        invariant forall d :: d !in perDst ==> RowsAt(rows[..i], d) == []
      {
        var r := rows[i];
        assert rows[..i + 1][..i] == rows[..i];
        if r.dst in perDst {
          perDst := perDst[r.dst := perDst[r.dst] + [r]];
        } else {
          assert r.dst !in dsts;
          dsts := dsts + [r.dst];
          perDst := perDst[r.dst := [r]];
        }
        ug := ug[r.user := r.groups];
      }
      assert rows[..|rows|] == rows;
    }

    /** The label of every known user of one destination, consulting and filling the cache. */
    method LabelsFor(here: seq<Row>, d: string, known: set<string>, ug: GroupMap, sizes: Sizes, mode: Mode,
                     ghost rows: seq<Row>, ghost start: Cache, ghost before: seq<string>)
      returns (labelFor: map<string, string>)
      requires here == RowsAt(rows, d) && known == Known(here) && known != {} && ug == GroupsSeen(rows)
      requires cache == CacheSoFar(cfg, start, rows, sizes, mode, before)
      modifies this
      ensures labelFor.Keys == known
      ensures forall u :: u in known ==> labelFor[u] == LabelOf(cfg, start, rows, sizes, mode, d, u)
      ensures cache == CacheSoFar(cfg, start, rows, sizes, mode, before + [d])
    {
      hide RowsAt, Lcd;
      match mode
      case ByUser =>
        labelFor := map u | u in known :: u;
      case BySrcIp =>
        labelFor := SrcIpLabels(here);
      case ByGroup =>
        CacheAsked(cfg, start, rows, sizes, before, d);
        CacheWithIs(cfg, start, rows, sizes, before, known);
        var chosen := Decide(known, ug, sizes, rows, d);
        labelFor := map u | u in known :: if chosen.None? then u else chosen.value;
    }

    static method SrcIpLabels(here: seq<Row>) returns (labelFor: map<string, string>)
      ensures labelFor.Keys == Known(here)
      ensures forall u :: u in labelFor ==> labelFor[u] == LastSrcIp(here, u)
    {
      labelFor := map[];
      for i := 0 to |here|
        invariant labelFor.Keys == Known(here[..i])
        invariant forall u :: u in labelFor ==> labelFor[u] == LastSrcIp(here[..i], u)
      {
        assert here[..i + 1] == here[..i] + [here[i]];
        KnownSnoc(here[..i], here[i]);
        if here[i].user != UNKNOWN {
          labelFor := labelFor[here[i].user := here[i].srcIp];
        }
      }
      assert here[..|here|] == here;
    }

    method Decide(known: set<string>, ug: GroupMap, sizes: Sizes, ghost rows: seq<Row>, ghost d: string)
      returns (chosen: Option<string>)
      requires known == Known(RowsAt(rows, d)) && ug == GroupsSeen(rows)
      modifies this
      ensures cache == if known in old(cache) then old(cache) else old(cache)[known := LcdOf(cfg, known, ug, sizes)]
      ensures known in cache && chosen == cache[known]
    {
      hide Lcd;
      if known !in cache {
        UsersHaveGroups(rows);
        KnownAtSeen(rows, d);
        var local := map u | u in known :: ug[u];
        LcdLocal(known, local, ug, sizes, cfg.excluded, cfg.floor);
        cache := cache[known := Lcd(known, local, sizes, cfg.excluded, cfg.floor)];
      }
      chosen := cache[known];
    }

    static method AccumUnknown(before: Links, here: seq<Row>, d: string, ghost done: seq<Row>, ghost lab: Labels)
      returns (links: Links)
      requires before == Folded(done, lab) && lab(d, UNKNOWN) == UNKNOWN
      requires forall r :: r in here ==> r.dst == d
      ensures links == Folded(done + OnlyUnknown(here), lab)
    {
      hide Folded, OnlyUnknown;
      links := before;
      OnlyUnknownNone();
      assert here[..0] == [] && done + [] == done;
      for i := 0 to |here|
        invariant links == Folded(done + OnlyUnknown(here[..i]), lab)
      {
        assert here[..i + 1] == here[..i] + [here[i]];
        OnlyUnknownSnoc(here[..i], here[i]);
        if here[i].user == UNKNOWN {
          FoldedSnoc(done, OnlyUnknown(here[..i]), here[i], lab);
          links := Accumulated(links, UNKNOWN, here[i]);
        }
      }
      assert here[..|here|] == here;
    }

    static method AccumKnown(before: Links, here: seq<Row>, d: string, labelFor: map<string, string>,
                             ghost done: seq<Row>, ghost lab: Labels) returns (links: Links)
      requires before == Folded(done, lab) && labelFor.Keys == Known(here)
      requires forall u :: u in labelFor ==> labelFor[u] == lab(d, u)
      requires forall r :: r in here ==> r.dst == d
      ensures links == Folded(done + OnlyKnown(here), lab)
    {
      hide Folded, OnlyKnown;
      links := before;
      OnlyKnownNone();
      assert here[..0] == [] && done + [] == done;
      for i := 0 to |here|
        invariant links == Folded(done + OnlyKnown(here[..i]), lab)
      {
        assert here[..i + 1] == here[..i] + [here[i]];
        OnlyKnownSnoc(here[..i], here[i]);
        if here[i].user != UNKNOWN {
          assert here[i] in here;
          FoldedSnoc(done, OnlyKnown(here[..i]), here[i], lab);
          links := Accumulated(links, labelFor[here[i].user], here[i]);
        }
      }
      assert here[..|here|] == here;
    }
  }

  lemma CacheAsked(cfg: Config, cache: Cache, rows: seq<Row>, sizes: Sizes, ds: seq<string>, d: string)
    ensures var before := CacheWith(cfg, cache, rows, sizes, ds);
            var users := Known(RowsAt(rows, d));
            CacheWith(cfg, cache, rows, sizes, ds + [d]) ==
            if users == {} || users in before then before
            else before[users := LcdOf(cfg, users, GroupsSeen(rows), sizes)]
  {
    assert (ds + [d])[..|ds|] == ds;
  }

  lemma CacheUnasked(cfg: Config, cache: Cache, rows: seq<Row>, sizes: Sizes, mode: Mode, ds: seq<string>, d: string)
    requires Known(RowsAt(rows, d)) == {}
    ensures CacheSoFar(cfg, cache, rows, sizes, mode, ds + [d]) == CacheSoFar(cfg, cache, rows, sizes, mode, ds)
  {
    CacheAsked(cfg, cache, rows, sizes, ds, d);
  }

  lemma ArrangedSnoc(rows: seq<Row>, ds: seq<string>, d: string)
    ensures Arranged(rows, ds + [d]) == Arranged(rows, ds) + OnlyUnknown(RowsAt(rows, d)) + OnlyKnown(RowsAt(rows, d))
  {
    assert (ds + [d])[..|ds|] == ds;
  }

  lemma UnknownLabel(cfg: Config, cache: Cache, rows: seq<Row>, sizes: Sizes, mode: Mode, d: string)
    ensures Labelling(cfg, cache, rows, sizes, mode)(d, UNKNOWN) == UNKNOWN
  {
  }

  lemma OnlyUnknownNone()
    ensures OnlyUnknown([]) == []
  {
  }

  lemma OnlyKnownNone()
    ensures OnlyKnown([]) == []
  {
  }

  lemma OnlyUnknownSnoc(rows: seq<Row>, r: Row)
    ensures OnlyUnknown(rows + [r]) == if r.user == UNKNOWN then OnlyUnknown(rows) + [r] else OnlyUnknown(rows)
  {
    assert (rows + [r])[..|rows|] == rows;
  }

  lemma OnlyKnownSnoc(rows: seq<Row>, r: Row)
    ensures OnlyKnown(rows + [r]) == if r.user != UNKNOWN then OnlyKnown(rows) + [r] else OnlyKnown(rows)
  {
    assert (rows + [r])[..|rows|] == rows;
  }

  lemma RowsAtSnoc(rows: seq<Row>, r: Row, d: string)
    ensures RowsAt(rows + [r], d) == if r.dst == d then RowsAt(rows, d) + [r] else RowsAt(rows, d)
  {
    assert (rows + [r])[..|rows|] == rows;
  }

  lemma FoldedNone(lab: Labels)
    ensures Folded([], lab) == []
  {
  }

  lemma FoldedSnoc(done: seq<Row>, rows: seq<Row>, r: Row, lab: Labels)
    ensures Folded(done + (rows + [r]), lab) == Accumulated(Folded(done + rows, lab), lab(r.dst, r.user), r)
  {
    var all := done + (rows + [r]);
    assert all[..|all| - 1] == done + rows;
  }

  lemma {:induction false} NoUnknown(rows: seq<Row>)
    requires UNKNOWN !in UsersIn(rows)
    ensures OnlyUnknown(rows) == []
  {
    if rows != [] {
      assert rows[|rows| - 1] in rows;
      NoUnknown(rows[..|rows| - 1]);
    }
  }

  lemma {:induction false} NoKnown(rows: seq<Row>)
    requires Known(rows) == {}
    ensures OnlyKnown(rows) == []
  {
    if rows != [] {
      var front, r := rows[..|rows| - 1], rows[|rows| - 1];
      assert r in rows && r.user in UsersIn(rows);
      assert r.user == UNKNOWN || r.user in Known(rows);
      assert Known(front) <= Known(rows);
      NoKnown(front);
    }
  }

  lemma KnownSnoc(rows: seq<Row>, r: Row)
    ensures Known(rows + [r]) == Known(rows) + if r.user == UNKNOWN then {} else {r.user}
    ensures forall u :: LastSrcIp(rows + [r], u) == if u == r.user then r.srcIp else LastSrcIp(rows, u)
  {
    assert forall x :: x in rows + [r] <==> x in rows || x == r;
    assert (rows + [r])[..|rows|] == rows;
    assert UsersIn(rows + [r]) == UsersIn(rows) + {r.user};
  }

  lemma KnownAtSeen(rows: seq<Row>, d: string)
    ensures Known(RowsAt(rows, d)) <= UsersIn(rows)
  {
    RowsAtIn(rows, d);
  }

  /** The known users of some destination of the batch. */
  ghost predicate Asked(rows: seq<Row>, ds: seq<string>, users: set<string>) {
    users != {} && exists d :: d in ds && Known(RowsAt(rows, d)) == users
  }

  lemma AskedSnoc(rows: seq<Row>, ds: seq<string>, d: string, users: set<string>)
    ensures Asked(rows, ds + [d], users) <==> Asked(rows, ds, users) || (users != {} && Known(RowsAt(rows, d)) == users)
  {
    hide Known, RowsAt;
    assert (ds + [d])[|ds|] == d;
    if e :| e in ds && Known(RowsAt(rows, e)) == users {
      assert e in ds + [d];
    }
  }

  /** A call leaves decisions for the sets it found and for those it was asked about, and no others. */
  lemma {:induction false} CacheWithKeys(cfg: Config, cache: Cache, rows: seq<Row>, sizes: Sizes, ds: seq<string>,
                                         users: set<string>)
    ensures users in CacheWith(cfg, cache, rows, sizes, ds) <==> users in cache || Asked(rows, ds, users)
    decreases |ds|
  {
    hide LcdOf, Known, RowsAt, GroupsSeen;
    if ds != [] {
      var front, d := ds[..|ds| - 1], ds[|ds| - 1];
      CacheWithKeys(cfg, cache, rows, sizes, front, users);
      AskedSnoc(rows, front, d, users);
      assert ds == front + [d];
    }
  }

  /** Within one call a user set has one decision, whichever destination asked first. */
  lemma {:induction false} CacheWithIs(cfg: Config, cache: Cache, rows: seq<Row>, sizes: Sizes, ds: seq<string>,
                                       users: set<string>)
    ensures var c := CacheWith(cfg, cache, rows, sizes, ds);
            users in c ==> c[users] == Choice(cfg, cache, users, GroupsSeen(rows), sizes)
    ensures users in cache ==> users in CacheWith(cfg, cache, rows, sizes, ds)
    decreases |ds|
  {
    hide LcdOf;
    if ds != [] {
      CacheWithIs(cfg, cache, rows, sizes, ds[..|ds| - 1], users);
    }
  }
}
