/**
 The aggregator's cache over whole runs of the correlator: the clear and the reload are separate
 listeners, the reload awaits its fetch, rows carry the groups of the moment they were labelled,
 and sizes are read when a delta is built.  Each of these is one step here.
 */
module CacheRuns {
  import opened Prelude
  import opened Groups
  import opened Aggregation
  import opened Aggregator

  /** What one load of the group index holds. */
  datatype World = World(groups: GroupMap, sizes: Sizes)

  datatype State = State(index: World, cache: Cache, inflight: seq<Row>)

  datatype Step =
    | Reload(w: World)                                                      // the awaited fetch returns; the maps are swapped
    | Clear                                                                 // the other listener runs
    | Label(user: string, dst: string, srcIp: string, bytes: int, flows: int, // a row is enriched;
            stray: set<string>)                                              // groups on a row of the unknown user are ignored
    | Drop(i: nat)                                                          // a full queue evicts a row in flight
    | Publish(n: nat)                                                       // the n oldest rows in flight become a delta

  function Enriched(groups: GroupMap, x: Step): Row
    requires x.Label?
  {
    Row(x.user, if x.user == UNKNOWN then x.stray else HeldBy(groups, x.user), x.dst, x.srcIp, x.bytes, x.flows)
  }

  function Batch(s: State, n: nat): seq<Row> { s.inflight[..Min(n, |s.inflight|)] }

  function Exec(cfg: Config, s: State, x: Step): State {
    match x
    case Reload(w) => s.(index := w)
    case Clear => s.(cache := map[])
    case Label(_, _, _, _, _, _) => s.(inflight := s.inflight + [Enriched(s.index.groups, x)])
    case Drop(i) => s.(inflight := s.inflight[..Min(i, |s.inflight|)] + s.inflight[Min(i + 1, |s.inflight|)..])
    case Publish(n) => s.(cache := CacheAfter(cfg, s.cache, Batch(s, n), s.index.sizes, ByGroup),
                          inflight := s.inflight[|Batch(s, n)|..])
  }

  function ExecAll(cfg: Config, s: State, xs: seq<Step>): State {
    if xs == [] then s else Exec(cfg, ExecAll(cfg, s, xs[..|xs| - 1]), xs[|xs| - 1])
  }

  /** The links of the delta that `Publish(n)` builds. */
  function Published(cfg: Config, s: State, n: nat): Links {
    Aggregated(cfg, s.cache, Batch(s, n), s.index.sizes, ByGroup)
  }

  /** What an aggregator without a cache would publish. */
  function PublishedFresh(cfg: Config, s: State, n: nat): Links {
    Aggregated(cfg, map[], Batch(s, n), s.index.sizes, ByGroup)
  }

  /** No row in flight was labelled from another load of the index. */
  ghost predicate NoStaleRow(s: State) { Consistent(s.inflight, s.index.groups) }

  ghost predicate Settled(cfg: Config, s: State) {
    NoStaleRow(s) && Coherent(cfg, s.cache, s.index.groups, s.index.sizes)
  }

  /** A reload is harmless when it swaps in what is already there. */
  predicate Quiet(s: State, x: Step) { x.Reload? ==> x.w == s.index }

  ghost predicate AllQuiet(cfg: Config, s: State, xs: seq<Step>) {
    forall i :: 0 <= i < |xs| ==> Quiet(ExecAll(cfg, s, xs[..i]), xs[i])
  }

  lemma SettledStep(cfg: Config, s: State, x: Step)
    requires Settled(cfg, s) && Quiet(s, x)
    ensures Settled(cfg, Exec(cfg, s, x))
    ensures x.Publish? ==> Published(cfg, s, x.n) == PublishedFresh(cfg, s, x.n)
  {
    if x.Publish? {
      var batch := Batch(s, x.n);
      assert Consistent(batch, s.index.groups);
      CacheTransparent(cfg, s.cache, s.index.groups, batch, s.index.sizes, ByGroup);
      CacheWithCoherent(cfg, s.cache, s.index.groups, batch, s.index.sizes, Dsts(batch));
    }
  }

  /**
   After a clear that finds no stale row in flight, and until a reload changes the index, every
   state is settled, so every delta is the one an aggregator without a cache would build.
   */
  lemma {:induction false} TransparentAfterClear(cfg: Config, s: State, xs: seq<Step>)
    requires NoStaleRow(s) && AllQuiet(cfg, Exec(cfg, s, Clear), xs)
    ensures Settled(cfg, ExecAll(cfg, Exec(cfg, s, Clear), xs))
    ensures forall n :: Published(cfg, ExecAll(cfg, Exec(cfg, s, Clear), xs), n) ==
                        PublishedFresh(cfg, ExecAll(cfg, Exec(cfg, s, Clear), xs), n)
    decreases |xs|
  {
    hide Settled, Published, PublishedFresh, Exec;
    var s0 := Exec(cfg, s, Clear);
    var t := ExecAll(cfg, s0, xs);
    if xs == [] {
      ClearSettles(cfg, s);
    } else {
      var front, x := xs[..|xs| - 1], xs[|xs| - 1];
      assert forall i :: 0 <= i < |front| ==> front[..i] == xs[..i] && front[i] == xs[i];
      TransparentAfterClear(cfg, s, front);
      SettledStep(cfg, ExecAll(cfg, s0, front), x);
    }
    forall n: nat ensures Published(cfg, t, n) == PublishedFresh(cfg, t, n) {
      SettledStep(cfg, t, Publish(n));
    }
  }

  lemma ClearSettles(cfg: Config, s: State)
    requires NoStaleRow(s)
    ensures Settled(cfg, Exec(cfg, s, Clear))
  {
  }

  // ---------------------------------------------------------------------------------------------
  // Exactly when a delta shows the cache
  // ---------------------------------------------------------------------------------------------

  /**
   In every state: the next delta is the one built without a cache if and only if, at each of its
   destinations, the decision cached for the known users labels them as a fresh one would.  That the
   delta only counts users makes no difference.
   */
  lemma PublishedFreshIff(cfg: Config, s: State, n: nat)
    ensures Finalized(Published(cfg, s, n)) == Finalized(PublishedFresh(cfg, s, n)) <==>
            Published(cfg, s, n) == PublishedFresh(cfg, s, n)
    ensures Published(cfg, s, n) == PublishedFresh(cfg, s, n) <==>
            forall d :: d in Dsts(Batch(s, n)) ==> FreshAt(cfg, s.cache, Batch(s, n), s.index.sizes, d)
  {
    CacheInvisibleIff(cfg, s.cache, Batch(s, n), s.index.sizes);
    FlatSameIff(cfg, s.cache, Batch(s, n), s.index.sizes);
  }

  /** A cached decision shows on the links of every delta in which its users are those of a destination. */
  lemma CachedDecisionShows(cfg: Config, s: State, n: nat, d: string)
    requires Known(RowsAt(Batch(s, n), d)) in s.cache
    ensures var users := Known(RowsAt(Batch(s, n), d));
            forall u :: u in users ==> u in LinkOrNew(Published(cfg, s, n), LabelFrom(s.cache[users], u), d).users
  {
    hide LcdOf, RowsAt, Aggregated;
    var batch := Batch(s, n);
    var users := Known(RowsAt(batch, d));
    RowsAtIn(batch, d);
    forall u | u in users ensures u in LinkOrNew(Published(cfg, s, n), LabelFrom(s.cache[users], u), d).users {
      var lab := Labelling(cfg, s.cache, batch, s.index.sizes, ByGroup);
      var l := LabelFrom(s.cache[users], u);
      AggregateIsGrouped(cfg, s.cache, batch, s.index.sizes, ByGroup, l, d);
      var r :| r in RowsAt(batch, d) && r.user == u;
      assert Goes(r, lab, l, d);
      assert r.user in UsersGoing(batch, lab, l, d);
    }
  }

  /** Only a clear removes or changes a decision, whatever else is reloaded, labelled or published. */
  lemma {:induction false} KeptUntilClear(cfg: Config, s: State, xs: seq<Step>, users: set<string>)
    requires users in s.cache && Clear !in xs
    ensures users in ExecAll(cfg, s, xs).cache && ExecAll(cfg, s, xs).cache[users] == s.cache[users]
    decreases |xs|
  {
    if xs != [] {
      var front, x := xs[..|xs| - 1], xs[|xs| - 1];
      KeptUntilClear(cfg, s, front, users);
      assert x in xs;
      var t := ExecAll(cfg, s, front);
      if x.Publish? {
        CacheWithIs(cfg, t.cache, Batch(t, x.n), t.index.sizes, Dsts(Batch(t, x.n)), users);
      }
    }
  }

  // ---------------------------------------------------------------------------------------------
  // The cache as a plain log
  // ---------------------------------------------------------------------------------------------

  /** Step `x` builds a delta in which `users` are the known users of a destination. */
  ghost predicate AsksFor(s: State, x: Step, users: set<string>) {
    x.Publish? && Asked(Batch(s, x.n), Dsts(Batch(s, x.n)), users)
  }

  /** Step `n` is the first since the last clear that asks for `users`. */
  ghost predicate FirstAsk(cfg: Config, s: State, xs: seq<Step>, users: set<string>, n: int) {
    && 0 <= n < |xs| && AsksFor(ExecAll(cfg, s, xs[..n]), xs[n], users)
    && Clear !in xs[n..]
    && forall k :: 0 <= k < n && AsksFor(ExecAll(cfg, s, xs[..k]), xs[k], users) ==> Clear in xs[k..n]
  }

  /** The decision that step `n` makes: from its own rows' groups and the sizes loaded at that moment. */
  function DecisionAt(cfg: Config, s: State, xs: seq<Step>, users: set<string>, n: nat): Option<string>
    requires n < |xs| && xs[n].Publish?
  {
    var t := ExecAll(cfg, s, xs[..n]);
    LcdOf(cfg, users, GroupsSeen(Batch(t, xs[n].n)), t.index.sizes)
  }

  /** Every ask so far was followed by a clear. */
  ghost predicate NoneOpen(cfg: Config, s: State, xs: seq<Step>, users: set<string>) {
    forall k :: 0 <= k < |xs| && AsksFor(ExecAll(cfg, s, xs[..k]), xs[k], users) ==> Clear in xs[k..]
  }

  lemma FirstAskKept(cfg: Config, s: State, xs: seq<Step>, x: Step, users: set<string>, n: int)
    requires FirstAsk(cfg, s, xs, users, n) && x != Clear
    ensures FirstAsk(cfg, s, xs + [x], users, n)
    ensures DecisionAt(cfg, s, xs + [x], users, n) == DecisionAt(cfg, s, xs, users, n)
  {
    hide AsksFor, ExecAll, LcdOf;
    var all := xs + [x];
    assert all[..n] == xs[..n] && all[n] == xs[n] && all[n..] == xs[n..] + [x];
    forall k | 0 <= k < n && AsksFor(ExecAll(cfg, s, all[..k]), all[k], users) ensures Clear in all[k..n] {
      assert all[..k] == xs[..k] && all[k] == xs[k] && all[k..n] == xs[k..n];
    }
  }

  lemma FirstAskNow(cfg: Config, s: State, xs: seq<Step>, x: Step, users: set<string>)
    requires NoneOpen(cfg, s, xs, users) && AsksFor(ExecAll(cfg, s, xs), x, users)
    ensures x.Publish? && FirstAsk(cfg, s, xs + [x], users, |xs|)
    ensures var t := ExecAll(cfg, s, xs);
            DecisionAt(cfg, s, xs + [x], users, |xs|) == LcdOf(cfg, users, GroupsSeen(Batch(t, x.n)), t.index.sizes)
  {
    hide AsksFor, ExecAll, LcdOf;
    var all, n := xs + [x], |xs|;
    AsksPublishes(ExecAll(cfg, s, xs), x, users);
    assert all[..n] == xs && all[n] == x && all[n..] == [x];
    forall k | 0 <= k < n && AsksFor(ExecAll(cfg, s, all[..k]), all[k], users) ensures Clear in all[k..n] {
      assert all[..k] == xs[..k] && all[k] == xs[k] && all[k..n] == xs[k..];
    }
  }

  lemma AsksPublishes(s: State, x: Step, users: set<string>)
    requires AsksFor(s, x, users)
    ensures x.Publish?
  {
  }

  lemma NoneOpenKept(cfg: Config, s: State, xs: seq<Step>, x: Step, users: set<string>)
    requires x == Clear || (NoneOpen(cfg, s, xs, users) && !AsksFor(ExecAll(cfg, s, xs), x, users))
    ensures NoneOpen(cfg, s, xs + [x], users)
  {
    hide AsksFor, ExecAll;
    var all := xs + [x];
    assert all[..|xs|] == xs;
    forall k | 0 <= k < |all| && AsksFor(ExecAll(cfg, s, all[..k]), all[k], users) ensures Clear in all[k..] {
      if x == Clear {
        assert all[k..][|xs| - k] == Clear;
      } else {
        assert k < |xs| && all[..k] == xs[..k] && all[k] == xs[k] && all[k..] == xs[k..] + [x];
      }
    }
  }

  /** An open ask excludes that every ask was followed by a clear. */
  lemma OpenOrNot(cfg: Config, s: State, xs: seq<Step>, users: set<string>, n: int)
    requires FirstAsk(cfg, s, xs, users, n)
    ensures !NoneOpen(cfg, s, xs, users)
  {
  }

  lemma OneStepCache(cfg: Config, t: State, x: Step, users: set<string>)
    requires x != Clear
    ensures var u := Exec(cfg, t, x);
            && (users in u.cache <==> users in t.cache || AsksFor(t, x, users))
            && (users in t.cache ==> u.cache[users] == t.cache[users])
            && (users !in t.cache && AsksFor(t, x, users) ==>
                  u.cache[users] == LcdOf(cfg, users, GroupsSeen(Batch(t, x.n)), t.index.sizes))
  {
    hide LcdOf, Asked;
    if x.Publish? {
      var batch := Batch(t, x.n);
      CacheWithKeys(cfg, t.cache, batch, t.index.sizes, Dsts(batch), users);
      CacheWithIs(cfg, t.cache, batch, t.index.sizes, Dsts(batch), users);
    }
  }

  lemma FirstAskUnique(cfg: Config, s: State, xs: seq<Step>, users: set<string>, m: int, n: int)
    requires FirstAsk(cfg, s, xs, users, m) && FirstAsk(cfg, s, xs, users, n)
    ensures m == n
  {
    hide AsksFor, ExecAll;
    SliceIn(xs, m, n);
    SliceIn(xs, n, m);
  }

  lemma SliceIn(xs: seq<Step>, m: nat, n: nat)
    requires m <= |xs| && n <= |xs|
    ensures m <= n && Clear in xs[m..n] ==> Clear in xs[m..]
  {
    if m <= n {
      assert xs[m..] == xs[m..n] + xs[n..];
    }
  }

  /** A decision is cached exactly when an ask is open, and it is the one made by the first such ask. */
  ghost predicate MatchesLog(cfg: Config, s: State, xs: seq<Step>, users: set<string>) {
    var cache := ExecAll(cfg, s, xs).cache;
    && (users in cache <==> exists n :: FirstAsk(cfg, s, xs, users, n))
    && (users !in cache <==> NoneOpen(cfg, s, xs, users))
    && (forall n :: FirstAsk(cfg, s, xs, users, n) ==> users in cache && cache[users] == DecisionAt(cfg, s, xs, users, n))
  }

  lemma CacheIsLogStep(cfg: Config, s: State, xs: seq<Step>, x: Step, users: set<string>)
    requires MatchesLog(cfg, s, xs, users)
    ensures MatchesLog(cfg, s, xs + [x], users)
  {
    hide FirstAsk, NoneOpen, AsksFor, ExecAll, DecisionAt, LcdOf, GroupsSeen, CacheAfter;
    var all, t := xs + [x], ExecAll(cfg, s, xs);
    ExecSnoc(cfg, s, xs, x);
    if x == Clear {
      NoneOpenKept(cfg, s, xs, x, users);
    } else {
      OneStepCache(cfg, t, x, users);
      hide Exec;
      if n :| FirstAsk(cfg, s, xs, users, n) {
        FirstAskKept(cfg, s, xs, x, users, n);
        OneDecision(cfg, s, all, users, n);
      } else if AsksFor(t, x, users) {
        FirstAskNow(cfg, s, xs, x, users);
        OneDecision(cfg, s, all, users, |xs|);
      } else {
        NoneOpenKept(cfg, s, xs, x, users);
      }
    }
    forall n | FirstAsk(cfg, s, all, users, n) ensures !NoneOpen(cfg, s, all, users) {
      OpenOrNot(cfg, s, all, users, n);
    }
  }

  lemma ExecSnoc(cfg: Config, s: State, xs: seq<Step>, x: Step)
    ensures ExecAll(cfg, s, xs + [x]) == Exec(cfg, ExecAll(cfg, s, xs), x)
  {
    assert (xs + [x])[..|xs|] == xs;
  }

  lemma OneDecision(cfg: Config, s: State, xs: seq<Step>, users: set<string>, m: int)
    requires FirstAsk(cfg, s, xs, users, m)
    ensures forall n :: FirstAsk(cfg, s, xs, users, n) ==> n == m
  {
    hide FirstAsk;
    forall n | FirstAsk(cfg, s, xs, users, n) ensures n == m {
      FirstAskUnique(cfg, s, xs, users, m, n);
    }
  }

  lemma {:induction false} AlwaysMatchesLog(cfg: Config, s: State, xs: seq<Step>, users: set<string>)
    requires s.cache == map[]
    ensures MatchesLog(cfg, s, xs, users)
    decreases |xs|
  {
    if xs != [] {
      hide MatchesLog;
      var front, x := xs[..|xs| - 1], xs[|xs| - 1];
      AlwaysMatchesLog(cfg, s, front, users);
      CacheIsLogStep(cfg, s, front, x, users);
      assert xs == front + [x];
    }
  }

  /**
   Over every run from an empty cache: a decision is cached if and only if its users were asked for
   since the last clear, and it is the least common group by the rows and sizes of the first delta
   that asked.
   */
  lemma CacheIsLog(cfg: Config, s: State, xs: seq<Step>, users: set<string>)
    requires s.cache == map[]
    ensures users in ExecAll(cfg, s, xs).cache <==> exists n :: FirstAsk(cfg, s, xs, users, n)
    ensures forall n :: FirstAsk(cfg, s, xs, users, n) ==>
              users in ExecAll(cfg, s, xs).cache && ExecAll(cfg, s, xs).cache[users] == DecisionAt(cfg, s, xs, users, n)
  {
    hide FirstAsk, NoneOpen, DecisionAt, ExecAll;
    AlwaysMatchesLog(cfg, s, xs, users);
  }

  // ---------------------------------------------------------------------------------------------
  // Two orders of clear and reload that leave an old decision behind
  // ---------------------------------------------------------------------------------------------

  function Visit(user: string, d: string): Step { Label(user, d, "", 0, 1, {}) }

  function Visits(users: seq<string>, d: string): seq<Step> {
    if users == [] then [] else Visits(users[..|users| - 1], d) + [Visit(users[|users| - 1], d)]
  }

  function VisitRows(groups: GroupMap, users: seq<string>, d: string): (r: seq<Row>)
    ensures |r| == |users|
  {
    if users == [] then []
    else VisitRows(groups, users[..|users| - 1], d) + [Enriched(groups, Visit(users[|users| - 1], d))]
  }

  lemma {:induction false} ExecAllConcat(cfg: Config, s: State, xs: seq<Step>, ys: seq<Step>)
    ensures ExecAll(cfg, s, xs + ys) == ExecAll(cfg, ExecAll(cfg, s, xs), ys)
    decreases |ys|
  {
    if ys == [] {
      assert xs + ys == xs;
    } else {
      ExecAllConcat(cfg, s, xs, ys[..|ys| - 1]);
      assert (xs + ys)[..|xs + ys| - 1] == xs + ys[..|ys| - 1];
    }
  }

  lemma {:induction false} ExecVisits(cfg: Config, s: State, users: seq<string>, d: string)
    ensures ExecAll(cfg, s, Visits(users, d)) == s.(inflight := s.inflight + VisitRows(s.index.groups, users, d))
    decreases |users|
  {
    if users == [] {
      assert s.inflight + [] == s.inflight;
    } else {
      var front, u := users[..|users| - 1], users[|users| - 1];
      ExecVisits(cfg, s, front, d);
      assert Visits(users, d)[..|Visits(front, d)|] == Visits(front, d);
    }
  }

  lemma {:induction false} VisitRowsAt(groups: GroupMap, users: seq<string>, d: string)
    ensures RowsAt(VisitRows(groups, users, d), d) == VisitRows(groups, users, d)
    ensures Dsts(VisitRows(groups, users, d)) == if users == [] then [] else [d]
    decreases |users|
  {
    if users != [] {
      var front := users[..|users| - 1];
      VisitRowsAt(groups, front, d);
      var rows := VisitRows(groups, users, d);
      assert rows[..|rows| - 1] == VisitRows(groups, front, d);
    }
  }

  lemma {:induction false} VisitRowIs(groups: GroupMap, users: seq<string>, d: string, i: nat)
    requires i < |users|
    ensures VisitRows(groups, users, d)[i] == Enriched(groups, Visit(users[i], d))
    decreases |users|
  {
    if i < |users| - 1 {
      VisitRowIs(groups, users[..|users| - 1], d, i);
    }
  }

  lemma VisitRowsAre(groups: GroupMap, users: seq<string>, d: string)
    requires UNKNOWN !in users
    ensures UsersIn(VisitRows(groups, users, d)) == (set u | u in users)
    ensures Consistent(VisitRows(groups, users, d), groups)
  {
    var rows := VisitRows(groups, users, d);
    forall i | 0 <= i < |rows| ensures rows[i] == Enriched(groups, Visit(users[i], d)) {
      VisitRowIs(groups, users, d, i);
    }
    hide VisitRows;
    forall u | u in users ensures u in UsersIn(rows) {
      var i :| 0 <= i < |users| && users[i] == u;
      assert rows[i] in rows;
    }
  }

  /** One delta of these users leaves their decision in the cache. */
  lemma VisitsDecide(cfg: Config, groups: GroupMap, sizes: Sizes, users: seq<string>, d: string)
    requires users != [] && UNKNOWN !in users
    ensures var us := set u | u in users; var cache := CacheAfter(cfg, map[], VisitRows(groups, users, d), sizes, ByGroup);
            us in cache && cache[us] == LcdOf(cfg, us, groups, sizes)
  {
    hide LcdOf, RowsAt, Dsts, VisitRows, GroupsSeen, Known;
    var us := set u | u in users;
    var rows := VisitRows(groups, users, d);
    VisitRowsAre(groups, users, d);
    VisitRowsAt(groups, users, d);
    VisitsKnown(groups, users, d);
    assert users[0] in us;
    CacheAsked(cfg, map[], rows, sizes, [], d);
    assert [] + [d] == [d];
    KnownLcd(cfg, rows, groups, sizes, d);
  }

  lemma VisitsKnown(groups: GroupMap, users: seq<string>, d: string)
    requires UNKNOWN !in users
    ensures Known(RowsAt(VisitRows(groups, users, d), d)) == (set u | u in users)
  {
    VisitRowsAre(groups, users, d);
    VisitRowsAt(groups, users, d);
  }

  /** The decision that the next delta of `users` bears. */
  ghost predicate NextDeltaBears(cfg: Config, s: State, users: seq<string>, d: string, choice: Option<string>) {
    forall u :: u in users ==> u in LinkOrNew(Published(cfg, s, |users|), LabelFrom(choice, u), d).users
  }

  /** With a decision cached for them, the next delta of these users bears it, wrong or right. */
  lemma VisitsShow(cfg: Config, s: State, users: seq<string>, d: string)
    requires users != [] && UNKNOWN !in users && s.inflight == VisitRows(s.index.groups, users, d)
    requires (set u | u in users) in s.cache
    ensures var us := set u | u in users;
            && NextDeltaBears(cfg, s, users, d, s.cache[us])
            && (Published(cfg, s, |users|) == PublishedFresh(cfg, s, |users|) <==>
                SameLabels(s.cache[us], LcdOf(cfg, us, s.index.groups, s.index.sizes), us))
  {
    hide LcdOf, RowsAt, Known, Dsts, VisitRows, Published, PublishedFresh, GroupsSeen;
    var us := set u | u in users;
    var rows := VisitRows(s.index.groups, users, d);
    assert Batch(s, |users|) == rows;
    VisitsKnown(s.index.groups, users, d);
    VisitRowsAre(s.index.groups, users, d);
    VisitRowsAt(s.index.groups, users, d);
    CachedDecisionShows(cfg, s, |users|, d);
    PublishedFreshIff(cfg, s, |users|);
    KnownLcd(cfg, rows, s.index.groups, s.index.sizes, d);
    assert [d][0] in [d];
  }

  /**
   Clear, a delta, then the reload completes: the next delta of the same users bears the decision of
   the old load, and is right only if the new load labels them alike.
   */
  lemma ClearBeforeReloadIsStale(cfg: Config, s: State, w: World, users: seq<string>, d: string)
    requires s.inflight == [] && UNKNOWN !in users && users != []
    ensures var us := set v | v in users;
            var was := LcdOf(cfg, us, s.index.groups, s.index.sizes);
            var t := ExecAll(cfg, s, [Clear] + Visits(users, d) + [Publish(|users|), Reload(w)] + Visits(users, d));
            && t.index == w && NoStaleRow(t) && NextDeltaBears(cfg, t, users, d, was)
            && (Published(cfg, t, |users|) == PublishedFresh(cfg, t, |users|) <==>
                SameLabels(was, LcdOf(cfg, us, w.groups, w.sizes), us))
  {
    hide LcdOf, CacheAfter, ExecAll, Published, PublishedFresh, NextDeltaBears;
    var vs := Visits(users, d);
    var s1 := s.(cache := map[]);
    var first, second := VisitRows(s.index.groups, users, d), VisitRows(w.groups, users, d);
    var s2 := s1.(inflight := first);
    var s3 := State(s.index, CacheAfter(cfg, map[], first, s.index.sizes, ByGroup), []);
    var t := State(w, s3.cache, second);
    ExecOne(cfg, s, Clear);
    ExecVisits(cfg, s1, users, d);
    assert [] + first == first && [] + second == second;
    ExecAllConcat(cfg, s, [Clear], vs);
    ExecTwo(cfg, s2, Publish(|users|), Reload(w));
    assert first[..|users|] == first && first[|users|..] == [];
    ExecAllConcat(cfg, s, [Clear] + vs, [Publish(|users|), Reload(w)]);
    ExecVisits(cfg, s3.(index := w), users, d);
    ExecAllConcat(cfg, s, [Clear] + vs + [Publish(|users|), Reload(w)], vs);
    assert ExecAll(cfg, s, [Clear] + vs + [Publish(|users|), Reload(w)] + vs) == t;
    VisitsDecide(cfg, s.index.groups, s.index.sizes, users, d);
    VisitRowsAre(w.groups, users, d);
    VisitsShow(cfg, t, users, d);
  }

  /**
   Reload, clear, then a delta of rows labelled before the reload: the order that looks right.  The
   next delta bears a decision made of the old groups and the new sizes.
   */
  lemma ReloadBeforeClearIsStale(cfg: Config, s: State, w: World, users: seq<string>, d: string)
    requires s.inflight == [] && UNKNOWN !in users && users != []
    ensures var us := set v | v in users;
            var mixed := LcdOf(cfg, us, s.index.groups, w.sizes);
            var t := ExecAll(cfg, s, Visits(users, d) + [Reload(w), Clear] + [Publish(|users|)] + Visits(users, d));
            && t.index == w && NoStaleRow(t) && NextDeltaBears(cfg, t, users, d, mixed)
            && (Published(cfg, t, |users|) == PublishedFresh(cfg, t, |users|) <==>
                SameLabels(mixed, LcdOf(cfg, us, w.groups, w.sizes), us))
  {
    hide LcdOf, CacheAfter, ExecAll, Published, PublishedFresh, NextDeltaBears;
    var vs := Visits(users, d);
    var first, second := VisitRows(s.index.groups, users, d), VisitRows(w.groups, users, d);
    var s1 := s.(inflight := first);
    var s2 := State(w, map[], first);
    var s3 := State(w, CacheAfter(cfg, map[], first, w.sizes, ByGroup), []);
    var t := s3.(inflight := second);
    ExecVisits(cfg, s, users, d);
    assert [] + first == first && [] + second == second;
    ExecTwo(cfg, s1, Reload(w), Clear);
    ExecAllConcat(cfg, s, vs, [Reload(w), Clear]);
    ExecOne(cfg, s2, Publish(|users|));
    assert first[..|users|] == first && first[|users|..] == [];
    ExecAllConcat(cfg, s, vs + [Reload(w), Clear], [Publish(|users|)]);
    ExecVisits(cfg, s3, users, d);
    ExecAllConcat(cfg, s, vs + [Reload(w), Clear] + [Publish(|users|)], vs);
    assert ExecAll(cfg, s, vs + [Reload(w), Clear] + [Publish(|users|)] + vs) == t;
    VisitsDecide(cfg, s.index.groups, w.sizes, users, d);
    VisitRowsAre(w.groups, users, d);
    VisitsShow(cfg, t, users, d);
  }

  /** Both happen: two users who all move from group g to group h. */
  lemma BothOrdersGoStale()
    ensures var cfg := Config({}, 0); var users := ["ann", "bob"];
            var s := State(World(map["ann" := {"g"}, "bob" := {"g"}], map["g" := 2]), map[], []);
            var w := World(map["ann" := {"h"}, "bob" := {"h"}], map["h" := 2]);
            var vs := Visits(users, "app");
            var t := ExecAll(cfg, s, [Clear] + vs + [Publish(2), Reload(w)] + vs);
            var t' := ExecAll(cfg, s, vs + [Reload(w), Clear] + [Publish(2)] + vs);
            Published(cfg, t, 2) != PublishedFresh(cfg, t, 2) && Published(cfg, t', 2) != PublishedFresh(cfg, t', 2)
  {
    hide LcdOf, ExecAll, Published, PublishedFresh, NextDeltaBears;
    var cfg, users := Config({}, 0), ["ann", "bob"];
    var us := set u | u in users;
    var s := State(World(map["ann" := {"g"}, "bob" := {"g"}], map["g" := 2]), map[], []);
    var w := World(map["ann" := {"h"}, "bob" := {"h"}], map["h" := 2]);
    assert UNKNOWN !in users;
    OnlyGroup(cfg, "g", s.index.sizes);
    OnlyGroup(cfg, "g", w.sizes);
    OnlyGroup(cfg, "h", w.sizes);
    assert users[0] in us && LabelFrom(Some("g"), users[0]) != LabelFrom(Some("h"), users[0]);
    ClearBeforeReloadIsStale(cfg, s, w, users, "app");
    ReloadBeforeClearIsStale(cfg, s, w, users, "app");
  }

  lemma OnlyGroup(cfg: Config, g: string, sizes: Sizes)
    requires cfg.excluded == {}
    ensures LcdOf(cfg, set u | u in ["ann", "bob"], map["ann" := {g}, "bob" := {g}], sizes) == Some(g)
  {
    var us := set u | u in ["ann", "bob"];
    assert us == {"ann", "bob"} && "ann" != "bob";
    LcdIsLeastRank(us, map["ann" := {g}, "bob" := {g}], sizes, cfg.excluded, cfg.floor, g);
  }

  lemma ExecOne(cfg: Config, s: State, x: Step)
    ensures ExecAll(cfg, s, [x]) == Exec(cfg, s, x)
  {
    assert [x][..0] == [];
  }

  lemma ExecTwo(cfg: Config, s: State, x: Step, y: Step)
    ensures ExecAll(cfg, s, [x, y]) == Exec(cfg, Exec(cfg, s, x), y)
  {
    assert [x, y][..1] == [x];
    ExecOne(cfg, s, x);
  }
}
