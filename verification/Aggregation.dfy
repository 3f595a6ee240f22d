/**
 Rolling enriched rows up into Sankey links: what the aggregator computes, independently of its
 memo cache, as a grouping of rows by (label of the user, destination).
 */
module Aggregation {
  import opened Prelude
  import opened Collections
  import opened Groups

  datatype Row = Row(user: string, groups: set<string>, dst: string, srcIp: string, bytes: int, flows: int)

  datatype Link = Link(src: string, dst: string, bytes: int, flows: int, users: set<string>)

  type Links = Dict<(string, string), Link>
  type Labels = (string, string) -> string // destination, user -> left-hand label

  const UNKNOWN := "unknown"

  // ---------------------------------------------------------------------------------------------
  // Per-destination tables
  // ---------------------------------------------------------------------------------------------

  function RowsAt(rows: seq<Row>, d: string): seq<Row> {
    if rows == [] then []
    else
      var front, r := RowsAt(rows[..|rows| - 1], d), rows[|rows| - 1];
      if r.dst == d then front + [r] else front
  }

  /** Destinations in first-seen order. */
  function Dsts(rows: seq<Row>): seq<string> {
    if rows == [] then []
    else
      var front, d := Dsts(rows[..|rows| - 1]), rows[|rows| - 1].dst;
      if d in front then front else front + [d]
  }

  function UsersIn(rows: seq<Row>): set<string> { set r | r in rows :: r.user }

  function Known(rows: seq<Row>): set<string> { UsersIn(rows) - {UNKNOWN} }

  /** Groups as carried by the last row of each user. */
  function GroupsSeen(rows: seq<Row>): GroupMap {
    if rows == [] then map[]
    else GroupsSeen(rows[..|rows| - 1])[rows[|rows| - 1].user := rows[|rows| - 1].groups]
  }

  function OnlyUnknown(rows: seq<Row>): seq<Row> {
    if rows == [] then []
    else
      var front, r := OnlyUnknown(rows[..|rows| - 1]), rows[|rows| - 1];
      if r.user == UNKNOWN then front + [r] else front
  }

  function OnlyKnown(rows: seq<Row>): seq<Row> {
    if rows == [] then []
    else
      var front, r := OnlyKnown(rows[..|rows| - 1]), rows[|rows| - 1];
      if r.user != UNKNOWN then front + [r] else front
  }

  /** The order in which rows are accumulated: by destination, the unknown strand first. */
  function Arranged(rows: seq<Row>, ds: seq<string>): seq<Row> {
    if ds == [] then []
    else
      var here := RowsAt(rows, ds[|ds| - 1]);
      Arranged(rows, ds[..|ds| - 1]) + OnlyUnknown(here) + OnlyKnown(here)
  }

  // ---------------------------------------------------------------------------------------------
  // Accumulation
  // ---------------------------------------------------------------------------------------------

  function LinkOrNew(links: Links, src: string, dst: string): Link {
    match Lookup(links, (src, dst)) case None => Link(src, dst, 0, 0, {}) case Some(l) => l
  }

  function Grown(l: Link, r: Row): Link {
    l.(bytes := l.bytes + r.bytes, flows := l.flows + r.flows, users := l.users + {r.user})
  }

  function Accumulated(links: Links, src: string, r: Row): Links {
    Put(links, (src, r.dst), Grown(LinkOrNew(links, src, r.dst), r))
  }

  function Folded(rows: seq<Row>, lab: Labels): Links {
    if rows == [] then []
    else
      var r := rows[|rows| - 1];
      Accumulated(Folded(rows[..|rows| - 1], lab), lab(r.dst, r.user), r)
  }

  lemma {:induction false} FoldedDistinct(rows: seq<Row>, lab: Labels)
    ensures DistinctKeys(Folded(rows, lab))
  {
    if rows != [] {
      var r := rows[|rows| - 1];
      var before := Folded(rows[..|rows| - 1], lab);
      FoldedDistinct(rows[..|rows| - 1], lab);
      var src := lab(r.dst, r.user);
      PutDistinct(before, (src, r.dst), Grown(LinkOrNew(before, src, r.dst), r));
    }
  }

  // ---------------------------------------------------------------------------------------------
  // The reference: grouping rows by (label, destination)
  // ---------------------------------------------------------------------------------------------

  predicate Goes(r: Row, lab: Labels, s: string, d: string) { r.dst == d && lab(d, r.user) == s }

  datatype Measure = Bytes | Flows

  function Amount(m: Measure, r: Row): int { match m case Bytes => r.bytes case Flows => r.flows }

  function LinkAmount(m: Measure, l: Link): int { match m case Bytes => l.bytes case Flows => l.flows }

  function Going(m: Measure, lab: Labels, s: string, d: string): Row -> int {
    r => if Goes(r, lab, s, d) then Amount(m, r) else 0
  }

  lemma GoingAt(m: Measure, lab: Labels, s: string, d: string, r: Row)
    ensures Going(m, lab, s, d)(r) == if Goes(r, lab, s, d) then Amount(m, r) else 0
  {
  }

  /** One destination, or all of them. */
  predicate Into(at: Option<string>, d: string) { at.None? || at.value == d }

  function At(m: Measure, at: Option<string>): Row -> int { (r: Row) => if Into(at, r.dst) then Amount(m, r) else 0 }

  function UsersGoing(rows: seq<Row>, lab: Labels, s: string, d: string): set<string> {
    set r | r in rows && Goes(r, lab, s, d) :: r.user
  }

  /** The link from `s` to `d` as a summary of the rows that belong to it. */
  ghost function Grouped(rows: seq<Row>, lab: Labels, s: string, d: string): Option<Link> {
    if exists r :: r in rows && Goes(r, lab, s, d) then
      Some(Link(s, d, Sum(rows, Going(Bytes, lab, s, d)), Sum(rows, Going(Flows, lab, s, d)),
                UsersGoing(rows, lab, s, d)))
    else None
  }

  lemma GroupedTotals(rows: seq<Row>, r: Row, lab: Labels, s: string, d: string)
    ensures forall m :: Sum(rows + [r], Going(m, lab, s, d)) ==
                        Sum(rows, Going(m, lab, s, d)) + if Goes(r, lab, s, d) then Amount(m, r) else 0
  {
    assert (rows + [r])[..|rows|] == rows;
  }

  /** Accumulating one more row is grouping one more row. */
  lemma GroupedSnoc(rows: seq<Row>, r: Row, lab: Labels, s: string, d: string)
    ensures Grouped(rows + [r], lab, s, d) ==
            if !Goes(r, lab, s, d) then Grouped(rows, lab, s, d)
            else match Grouped(rows, lab, s, d)
              case None => Some(Grown(Link(s, d, 0, 0, {}), r))
              case Some(l) => Some(Grown(l, r))
  {
    hide Sum;
    var all := rows + [r];
    assert forall x :: x in all <==> x in rows || x == r;
    assert UsersGoing(all, lab, s, d) ==
           UsersGoing(rows, lab, s, d) + if Goes(r, lab, s, d) then {r.user} else {};
    if x :| x in rows && Goes(x, lab, s, d) {
      assert x in all;
    } else {
      SumNone(rows, Going(Bytes, lab, s, d));
      SumNone(rows, Going(Flows, lab, s, d));
      assert UsersGoing(rows, lab, s, d) == {};
    }
    assert r in all;
    assert (exists x :: x in all && Goes(x, lab, s, d)) <==>
           (exists x :: x in rows && Goes(x, lab, s, d)) || Goes(r, lab, s, d);
    GroupedTotals(rows, r, lab, s, d);
    var b, f := Going(Bytes, lab, s, d), Going(Flows, lab, s, d);
    assert Sum(all, b) == Sum(rows, b) + if Goes(r, lab, s, d) then r.bytes else 0;
    assert Sum(all, f) == Sum(rows, f) + if Goes(r, lab, s, d) then r.flows else 0;
    if !Goes(r, lab, s, d) {
      assert UsersGoing(all, lab, s, d) == UsersGoing(rows, lab, s, d);
    }
  }

  /** The accumulated links are exactly the groups of the rows. */
  lemma {:induction false} FoldedIsGrouped(rows: seq<Row>, lab: Labels, s: string, d: string)
    ensures Lookup(Folded(rows, lab), (s, d)) == Grouped(rows, lab, s, d)
  {
    if rows != [] {
      var front, r := rows[..|rows| - 1], rows[|rows| - 1];
      var before := Folded(front, lab);
      var src := lab(r.dst, r.user);
      FoldedIsGrouped(front, lab, s, d);
      GroupedSnoc(front, r, lab, s, d);
      assert front + [r] == rows;
      LookupPut(before, (src, r.dst), Grown(LinkOrNew(before, src, r.dst), r), (s, d));
      assert Goes(r, lab, s, d) <==> (s, d) == (src, r.dst);
    }
  }

  // ---------------------------------------------------------------------------------------------
  // Only the multiset of rows matters
  // ---------------------------------------------------------------------------------------------

  lemma GroupedPermuted(a: seq<Row>, b: seq<Row>, lab: Labels, s: string, d: string)
    requires multiset(a) == multiset(b)
    ensures Grouped(a, lab, s, d) == Grouped(b, lab, s, d)
  {
    SameMembers(a, b);
    SumPermuted(a, b, Going(Bytes, lab, s, d));
    SumPermuted(a, b, Going(Flows, lab, s, d));
    assert UsersGoing(a, lab, s, d) == UsersGoing(b, lab, s, d);
  }

  /** The rows whose destination is among `ds`. */
  function Within(rows: seq<Row>, ds: set<string>): seq<Row> {
    if rows == [] then []
    else
      var front, r := Within(rows[..|rows| - 1], ds), rows[|rows| - 1];
      if r.dst in ds then front + [r] else front
  }

  lemma {:induction false} WithinSplit(rows: seq<Row>, ds: set<string>, d: string)
    requires d !in ds
    ensures multiset(Within(rows, ds + {d})) == multiset(Within(rows, ds)) + multiset(RowsAt(rows, d))
  {
    if rows != [] {
      WithinSplit(rows[..|rows| - 1], ds, d);
    }
  }

  lemma {:induction false} UnknownSplit(rows: seq<Row>)
    ensures multiset(OnlyUnknown(rows)) + multiset(OnlyKnown(rows)) == multiset(rows)
  {
    if rows != [] {
      var front, r := rows[..|rows| - 1], rows[|rows| - 1];
      UnknownSplit(front);
      assert rows == front + [r];
      assert multiset(rows) == multiset(front) + multiset{r};
      assert if r.user == UNKNOWN then OnlyUnknown(rows) == OnlyUnknown(front) + [r] && OnlyKnown(rows) == OnlyKnown(front)
             else OnlyUnknown(rows) == OnlyUnknown(front) && OnlyKnown(rows) == OnlyKnown(front) + [r];
      hide OnlyUnknown, OnlyKnown;
    }
  }

  function Among(ds: seq<string>): set<string> { set d | d in ds }

  lemma {:induction false} ArrangedWithin(rows: seq<Row>, ds: seq<string>)
    requires forall i, j :: 0 <= i < j < |ds| ==> ds[i] != ds[j]
    ensures multiset(Arranged(rows, ds)) == multiset(Within(rows, Among(ds)))
    decreases |ds|
  {
    hide RowsAt, Within, OnlyKnown, OnlyUnknown;
    if ds == [] {
      WithinNone(rows);
      assert Among(ds) == {};
    } else {
      var front, d := ds[..|ds| - 1], ds[|ds| - 1];
      ArrangedWithin(rows, front);
      UnknownSplit(RowsAt(rows, d));
      assert ds == front + [d];
      assert Among(ds) == Among(front) + {d};
      WithinSplit(rows, Among(front), d);
    }
  }

  lemma {:induction false} WithinNone(rows: seq<Row>)
    ensures Within(rows, {}) == []
  {
    if rows != [] { WithinNone(rows[..|rows| - 1]); }
  }

  lemma {:induction false} WithinAll(rows: seq<Row>, ds: set<string>)
    requires forall r :: r in rows ==> r.dst in ds
    ensures Within(rows, ds) == rows
  {
    if rows != [] {
      WithinAll(rows[..|rows| - 1], ds);
      assert rows == rows[..|rows| - 1] + [rows[|rows| - 1]];
    }
  }

  lemma {:induction false} DstsOnce(rows: seq<Row>)
    ensures forall i, j :: 0 <= i < j < |Dsts(rows)| ==> Dsts(rows)[i] != Dsts(rows)[j]
    ensures forall r :: r in rows ==> r.dst in Dsts(rows)
    ensures forall d :: d in Dsts(rows) ==> exists r :: r in rows && r.dst == d
  {
    if rows != [] {
      var front, r := rows[..|rows| - 1], rows[|rows| - 1];
      DstsOnce(front);
      assert rows == front + [r];
      assert r in rows && forall x :: x in front ==> x in rows;
    }
  }

  /** Arranging neither loses nor repeats a row. */
  lemma ArrangedPermutes(rows: seq<Row>)
    ensures multiset(Arranged(rows, Dsts(rows))) == multiset(rows)
  {
    DstsOnce(rows);
    ArrangedWithin(rows, Dsts(rows));
    WithinAll(rows, Among(Dsts(rows)));
  }

  // ---------------------------------------------------------------------------------------------
  // Conservation and partition
  // ---------------------------------------------------------------------------------------------

  function LinkAt(m: Measure, at: Option<string>): ((string, string), Link) -> int {
    (k: (string, string), l: Link) => if Into(at, k.1) then LinkAmount(m, l) else 0
  }

  lemma LinkAtAll(m: Measure, k: (string, string), l: Link)
    ensures LinkAt(m, None)(k, l) == LinkAmount(m, l)
  {
  }

  function UsersAt(d: string): ((string, string), Link) -> int {
    (k: (string, string), l: Link) => if k.1 == d then |l.users| else 0
  }

  /** Link amounts into a destination, or in all, add up to those of its rows. */
  lemma {:induction false} FoldedConserves(rows: seq<Row>, lab: Labels, m: Measure, at: Option<string>)
    ensures DictSum(Folded(rows, lab), LinkAt(m, at)) == Sum(rows, At(m, at))
  {
    if rows != [] {
      var r := rows[|rows| - 1];
      var before := Folded(rows[..|rows| - 1], lab);
      FoldedConserves(rows[..|rows| - 1], lab, m, at);
      var src := lab(r.dst, r.user);
      var l := LinkOrNew(before, src, r.dst);
      assert LinkAmount(m, Grown(l, r)) == LinkAmount(m, l) + Amount(m, r);
      assert Lookup(before, (src, r.dst)).None? ==> LinkAmount(m, l) == 0;
      DictSumPut(before, (src, r.dst), Grown(l, r), LinkAt(m, at));
    }
  }

  function SeenAt(rows: seq<Row>, d: string): set<string> { set r | r in rows && r.dst == d :: r.user }

  lemma SeenSnoc(rows: seq<Row>, r: Row, d: string)
    ensures SeenAt(rows + [r], d) == SeenAt(rows, d) + if r.dst == d then {r.user} else {}
  {
    assert forall x :: x in rows + [r] <==> x in rows || x == r;
  }

  /** A user already seen at a destination is already in the one link its label selects. */
  lemma LinkUsers(rows: seq<Row>, lab: Labels, r: Row)
    ensures r.user in LinkOrNew(Folded(rows, lab), lab(r.dst, r.user), r.dst).users <==> r.user in SeenAt(rows, r.dst)
  {
    var s := lab(r.dst, r.user);
    FoldedIsGrouped(rows, lab, s, r.dst);
    if x :| x in rows && x.dst == r.dst && x.user == r.user {
      assert Goes(x, lab, s, r.dst);
    }
  }

  /** Each user of a destination is counted in exactly one of its links. */
  lemma {:induction false} FoldedPartitions(rows: seq<Row>, lab: Labels, d: string)
    ensures DictSum(Folded(rows, lab), UsersAt(d)) == |SeenAt(rows, d)|
  {
    hide Put, Lookup;
    if rows != [] {
      var front, r := rows[..|rows| - 1], rows[|rows| - 1];
      var before := Folded(front, lab);
      FoldedPartitions(front, lab, d);
      var src := lab(r.dst, r.user);
      var l := LinkOrNew(before, src, r.dst);
      DictSumPut(before, (src, r.dst), Grown(l, r), UsersAt(d));
      LinkUsers(front, lab, r);
      assert rows == front + [r];
      SeenSnoc(front, r, d);
    } else {
      assert SeenAt(rows, d) == {};
    }
  }
}
