/** Keyset pagination: each query as filter, order and limit, and what a whole walk returns. */
module PageWalks {
  import opened Prelude
  import opened Groups

  // ---------------------------------------------------------------------------------------------
  // Group members: a walk over a table that may change between reads
  // ---------------------------------------------------------------------------------------------

  /** ORDER BY user_upn. */
  function SortedUpns(s: set<string>): seq<string>
    decreases |s|
  {
    if s == {} then [] else var m := LeastRank(map[], s); [m] + SortedUpns(s - {m})
  }

  function MembersAfter(table: set<string>, after: string): set<string> { set u | u in table && StrLess(after, u) }

  function Page(table: set<string>, after: string, size: nat): seq<string> {
    var rows := SortedUpns(MembersAfter(table, after));
    rows[..Min(size, |rows|)]
  }

  /** The two reads of one request: the count, then the page. */
  datatype Request = Request(counted: set<string>, paged: set<string>)

  /** `complete` when the last answer carried no cursor, or the group was gone. */
  datatype Walk = Walk(members: seq<string>, complete: bool)

  function MembersWalk(rs: seq<Request>, after: string, size: nat): Walk
    requires size >= 1
    decreases |rs|
  {
    if rs == [] then Walk([], false)
    else if rs[0].counted == {} then Walk([], true)
    else
      var page := Page(rs[0].paged, after, size);
      if |page| == size then
        var rest := MembersWalk(rs[1..], page[|page| - 1], size);
        Walk(page + rest.members, rest.complete)
      else Walk(page, true)
  }

  ghost predicate Ascending(a: seq<string>) {
    forall i, j :: 0 <= i < j < |a| ==> StrLess(a[i], a[j])
  }

  /** In strict alphabetical order. */
  ghost predicate InOrder(a: seq<string>) {
    forall i, j :: 0 <= i < j < |a| ==> Alphabetical(a[i], a[j])
  }

  lemma AscendingIsInOrder(a: seq<string>)
    requires Ascending(a)
    ensures InOrder(a)
  {
    forall i, j | 0 <= i < j < |a| ensures Alphabetical(a[i], a[j]) {
      StrLessIff(a[i], a[j]);
    }
  }

  ghost predicate AllAfter(a: seq<string>, x: string) {
    forall i :: 0 <= i < |a| ==> StrLess(x, a[i])
  }

  lemma LeastUpn(s: set<string>)
    requires s != {}
    ensures var m := LeastRank(map[], s); m in s && forall u :: u in s && u != m ==> StrLess(m, u)
  {
    var m := LeastRank(map[], s);
    assert IsLeastRank(map[], s, m);
    assert forall u :: u in s && u != m ==> RankLess(map[], m, u);
  }

  lemma {:induction false} SortedUpnsAre(s: set<string>)
    ensures Ascending(SortedUpns(s)) && forall u :: u in SortedUpns(s) <==> u in s
    decreases |s|
  {
    if s != {} {
      hide LeastRank;
      var m := LeastRank(map[], s);
      var rest := SortedUpns(s - {m});
      SortedUpnsAre(s - {m});
      LeastUpn(s);
      assert forall i :: 0 <= i < |rest| ==> rest[i] in rest;
      assert SortedUpns(s) == [m] + rest;
    }
  }

  /** A page is in alphabetical order, and skips nobody up to its last member, or nobody at all if it is short. */
  lemma PageIs(table: set<string>, after: string, size: nat)
    ensures var page := Page(table, after, size);
            && InOrder(page) && |page| <= size
            && (forall u :: u in page ==> u in table && Alphabetical(after, u))
            && forall u :: u in table && Alphabetical(after, u) ==>
                 u in page || (|page| == size && forall i :: 0 <= i < |page| ==> Alphabetical(page[i], u))
  {
    hide Alphabetical, StrLess;
    PageIsSorted(table, after, size);
    var page := Page(table, after, size);
    AscendingIsInOrder(page);
    forall u, v ensures StrLess(u, v) <==> Alphabetical(u, v) {
      StrLessIff(u, v);
    }
    hide Page;
    forall u | u in page ensures Alphabetical(after, u) {
      var i :| 0 <= i < |page| && page[i] == u;
    }
  }

  lemma PageIsSorted(table: set<string>, after: string, size: nat)
    ensures var page := Page(table, after, size);
            && Ascending(page) && AllAfter(page, after) && |page| <= size
            && (forall u :: u in page ==> u in table)
            && forall u :: u in table && StrLess(after, u) ==>
                 u in page || (|page| == size && forall i :: 0 <= i < |page| ==> StrLess(page[i], u))
  {
    var rows := SortedUpns(MembersAfter(table, after));
    SortedUpnsAre(MembersAfter(table, after));
    var page := Page(table, after, size);
    assert forall i :: 0 <= i < |page| ==> page[i] == rows[i] && rows[i] in rows;
    forall u | u in table && StrLess(after, u) && u !in page
      ensures |page| == size && forall i :: 0 <= i < |page| ==> StrLess(page[i], u)
    {
      assert u in rows;
      var k :| 0 <= k < |rows| && rows[k] == u;
      assert k >= |page|;
    }
  }

  lemma AscendingConcat(a: seq<string>, b: seq<string>)
    requires Ascending(a) && Ascending(b) && (a != [] ==> AllAfter(b, a[|a| - 1]))
    ensures Ascending(a + b)
  {
    forall i, j | 0 <= i < |a| && 0 <= j < |b| ensures StrLess(a[i], b[j]) {
      if i < |a| - 1 {
        StrTransitive(a[i], a[|a| - 1], b[j]);
      }
    }
  }

  lemma {:induction false} WalkFrom(rs: seq<Request>, after: string, size: nat)
    requires size >= 1
    ensures var w := MembersWalk(rs, after, size);
            && Ascending(w.members) && AllAfter(w.members, after)
            && (forall u :: u in w.members ==> exists i :: 0 <= i < |rs| && u in rs[i].paged)
    ensures var w := MembersWalk(rs, after, size);
            forall u :: w.complete && StrLess(after, u) && PresentThroughout(rs, u) ==> u in w.members
    decreases |rs|
  {
    if rs != [] && rs[0].counted != {} {
      var page := Page(rs[0].paged, after, size);
      PageIsSorted(rs[0].paged, after, size);
      hide Page, Ascending, StrLess, PresentThroughout;
      forall u | PresentThroughout(rs, u) ensures u in rs[0].paged { PresentHead(rs, u); }
      if |page| == size {
        var last := page[|page| - 1];
        WalkFrom(rs[1..], last, size);
        var rest := MembersWalk(rs[1..], last, size);
        AscendingConcat(page, rest.members);
        AfterConcat(page, rest.members, after);
        forall u | rest.complete && StrLess(after, u) && PresentThroughout(rs, u) ensures u in page + rest.members {
          PresentTail(rs, u);
        }
        forall u | u in rest.members ensures exists i :: 0 <= i < |rs| && u in rs[i].paged {
          var i :| 0 <= i < |rs[1..]| && u in rs[1..][i].paged;
          assert u in rs[i + 1].paged;
        }
      }
    }
  }

  lemma AfterConcat(a: seq<string>, b: seq<string>, x: string)
    requires a != [] && AllAfter(a, x) && AllAfter(b, a[|a| - 1])
    ensures AllAfter(a + b, x)
  {
    forall i | 0 <= i < |b| ensures StrLess(x, b[i]) {
      StrTransitive(x, a[|a| - 1], b[i]);
    }
  }

  ghost predicate PresentThroughout(rs: seq<Request>, u: string) {
    forall i :: 0 <= i < |rs| ==> u in rs[i].counted && u in rs[i].paged
  }

  lemma PresentHead(rs: seq<Request>, u: string)
    requires PresentThroughout(rs, u) && rs != []
    ensures u in rs[0].paged
  {
  }

  lemma PresentTail(rs: seq<Request>, u: string)
    requires PresentThroughout(rs, u) && rs != []
    ensures PresentThroughout(rs[1..], u)
  {
  }

  /**
   A completed walk, whatever changes between its reads: members in strict alphabetical order, hence
   nobody twice; nobody who was not there; everybody with a non-empty name who was there throughout.
   */
  lemma MembersWalkSound(rs: seq<Request>, size: nat)
    requires size >= 1 && MembersWalk(rs, "", size).complete
    ensures var ms := MembersWalk(rs, "", size).members;
            && InOrder(ms)
            && (forall u :: u in ms ==> u != "" && exists i :: 0 <= i < |rs| && u in rs[i].paged)
            && (forall u :: u != "" && PresentThroughout(rs, u) ==> u in ms)
  {
    WalkFrom(rs, "", size);
    AscendingIsInOrder(MembersWalk(rs, "", size).members);
  }

  /** The same table at every read. */
  function Unchanged(table: set<string>, n: nat): (rs: seq<Request>)
    ensures |rs| == n
  {
    seq(n, _ => Request(table, table))
  }

  lemma {:induction false} EnoughRequests(table: set<string>, n: nat, after: string, size: nat)
    requires size >= 1 && n * size > |MembersAfter(table, after)|
    ensures MembersWalk(Unchanged(table, n), after, size).complete
    decreases n
  {
    var rs := Unchanged(table, n);
    assert n > 0;
    assert rs[0] == Request(table, table);
    var page := Page(table, after, size);
    if table != {} && |page| == size {
      var last := page[|page| - 1];
      PageAdvances(table, after, size);
      assert rs[1..] == Unchanged(table, n - 1);
      assert n * size == (n - 1) * size + size;
      EnoughRequests(table, n - 1, last, size);
    }
  }

  /** A full page leaves as many fewer members ahead. */
  lemma PageAdvances(table: set<string>, after: string, size: nat)
    requires size >= 1 && |Page(table, after, size)| == size
    ensures |MembersAfter(table, Page(table, after, size)[size - 1])| <= |MembersAfter(table, after)| - size
  {
    var page := Page(table, after, size);
    var last := page[size - 1];
    var seen := set u | u in page;
    PageIsSorted(table, after, size);
    forall u | u in MembersAfter(table, last) ensures u in MembersAfter(table, after) && u !in seen {
      assert page[size - 1] in page;
      assert StrLess(after, last);
      StrTransitive(after, last, u);
      forall i | 0 <= i < size ensures page[i] != u {
        StrTotal(last, u);
        StrTotal(u, u);
      }
    }
    assert forall i :: 0 <= i < |page| ==> page[i] in page && StrLess(after, page[i]);
    assert seen <= MembersAfter(table, after) && MembersAfter(table, last) !! seen;
    DistinctCount(page);
    assert MembersAfter(table, last) + seen <= MembersAfter(table, after);
    SubsetSize(MembersAfter(table, last) + seen, MembersAfter(table, after));
  }

  lemma SubsetSize(a: set<string>, b: set<string>)
    requires a <= b
    ensures |a| <= |b|
  {
    assert |b| == |a| + |b - a| by { assert b == a + (b - a); }
  }

  lemma {:induction false} DistinctCount(a: seq<string>)
    requires Ascending(a)
    ensures |set u | u in a| == |a|
  {
    if a != [] {
      var n := |a| - 1;
      var front := set u | u in a[..n];
      DistinctCount(a[..n]);
      assert a == a[..n] + [a[n]];
      assert (set u | u in a) == front + {a[n]};
      forall i | 0 <= i < n ensures a[i] != a[n] { StrTotal(a[i], a[n]); }
      assert a[n] !in front;
    }
  }

  /** On a table that does not change, enough requests return exactly its named members, in order. */
  lemma MembersWalkReturnsAll(table: set<string>, n: nat, size: nat)
    requires size >= 1 && n * size > |table|
    ensures var w := MembersWalk(Unchanged(table, n), "", size);
            w.complete && InOrder(w.members) && forall u :: u in w.members <==> u in table && u != ""
  {
    SubsetSize(MembersAfter(table, ""), table);
    EnoughRequests(table, n, "", size);
    MembersWalkSound(Unchanged(table, n), size);
  }

  // ---------------------------------------------------------------------------------------------
  // Raw flows: a walk whose cursor is the row that was fetched only to see whether there is more
  // ---------------------------------------------------------------------------------------------

  datatype FlowKey = FlowKey(time: int, src: int, dst: int, port: int)

  /** A row of `flows`; several rows may share a key. */
  datatype FlowRow = FlowRow(key: FlowKey, proto: int, bytes: int, packets: int, flows: int)

  /** SQL row comparison. */
  predicate Less(a: FlowKey, b: FlowKey) {
    || a.time < b.time
    || (a.time == b.time && a.src < b.src)
    || (a.time == b.time && a.src == b.src && a.dst < b.dst)
    || (a.time == b.time && a.src == b.src && a.dst == b.dst && a.port < b.port)
  }

  function Columns(k: FlowKey): seq<int> { [k.time, k.src, k.dst, k.port] }

  /** Lexicographic: less in the first column that differs. */
  lemma LessIff(a: FlowKey, b: FlowKey)
    ensures Less(a, b) <==> exists i :: 0 <= i < 4 && Columns(a)[..i] == Columns(b)[..i] && Columns(a)[i] < Columns(b)[i]
  {
    var x, y := Columns(a), Columns(b);
    assert x[0] == a.time && x[1] == a.src && x[2] == a.dst && x[3] == a.port;
    assert y[0] == b.time && y[1] == b.src && y[2] == b.dst && y[3] == b.port;
    if i :| 0 <= i < 4 && x[..i] == y[..i] && x[i] < y[i] {
      assert forall j :: 0 <= j < i ==> x[..i][j] == x[j] && y[..i][j] == y[j];
    }
    if Less(a, b) {
      var i := if x[0] != y[0] then 0 else if x[1] != y[1] then 1 else if x[2] != y[2] then 2 else 3;
      assert x[..i] == y[..i] && x[i] < y[i];
    }
  }

  /** The filtered table in ORDER BY ... DESC order. */
  ghost predicate Descending(s: seq<FlowRow>) {
    forall i, j :: 0 <= i < j < |s| ==> !Less(s[i].key, s[j].key)
  }

  ghost predicate DistinctKeys(s: seq<FlowRow>) {
    forall i, j :: 0 <= i < j < |s| ==> s[i].key != s[j].key
  }

  /** The rows below the cursor, in table order. */
  function Below(s: seq<FlowRow>, cursor: Option<FlowKey>): seq<FlowRow> {
    if s == [] then []
    else if cursor.None? || Less(s[0].key, cursor.value) then [s[0]] + Below(s[1..], cursor)
    else Below(s[1..], cursor)
  }

  datatype RawPage = RawPage(items: seq<FlowRow>, next: Option<FlowKey>)

  /** One request: fetch `limit + 1`; an extra row is popped and its key becomes the cursor. */
  function RawRequest(s: seq<FlowRow>, cursor: Option<FlowKey>, limit: nat): RawPage {
    var below := Below(s, cursor);
    var rows := below[..Min(limit + 1, |below|)];
    if |rows| > limit then RawPage(rows[..limit], Some(rows[limit].key)) else RawPage(rows, None)
  }

  lemma {:induction false} BelowShrinks(s: seq<FlowRow>, cursor: Option<FlowKey>, r: FlowRow)
    requires cursor.None? || Less(r.key, cursor.value)
    ensures |Below(s, Some(r.key))| <= |Below(s, cursor)|
    ensures r in Below(s, cursor) ==> |Below(s, Some(r.key))| < |Below(s, cursor)|
  {
    if s != [] {
      BelowShrinks(s[1..], cursor, r);
    }
  }

  lemma {:induction false} BelowIsLess(s: seq<FlowRow>, cursor: Option<FlowKey>, r: FlowRow)
    requires r in Below(s, cursor)
    ensures cursor.None? || Less(r.key, cursor.value)
  {
    if !(cursor.None? || Less(s[0].key, cursor.value)) || r != s[0] {
      BelowIsLess(s[1..], cursor, r);
    }
  }

  /** The whole walk: request after request, each with the cursor of the one before. */
  function RawWalk(s: seq<FlowRow>, cursor: Option<FlowKey>, limit: nat): seq<FlowRow>
    decreases |Below(s, cursor)|
  {
    var page := RawRequest(s, cursor, limit);
    if page.next.None? then page.items
    else
      var anchor := Below(s, cursor)[limit];
      assert page.next.value == anchor.key;
      BelowIsLess(s, cursor, anchor);
      BelowShrinks(s, cursor, anchor);
      page.items + RawWalk(s, page.next, limit)
  }

  lemma {:induction false} BelowAll(s: seq<FlowRow>)
    ensures Below(s, None) == s
  {
    if s != [] { BelowAll(s[1..]); }
  }

  /** Where the rows that share key `k` end, looking from position `j`. */
  function AfterTies(s: seq<FlowRow>, k: FlowKey, j: nat): (q: nat)
    requires j <= |s|
    ensures j <= q <= |s| && (forall h :: j <= h < q ==> s[h].key == k) && (q < |s| ==> s[q].key != k)
    decreases |s| - j
  {
    if j < |s| && s[j].key == k then AfterTies(s, k, j + 1) else j
  }

  lemma {:induction false} BelowSuffix(s: seq<FlowRow>, k: FlowKey, q: nat)
    requires q <= |s| && (forall h :: 0 <= h < q ==> !Less(s[h].key, k)) && forall h :: q <= h < |s| ==> Less(s[h].key, k)
    ensures Below(s, Some(k)) == s[q..]
    decreases |s|
  {
    if s != [] {
      BelowSuffix(s[1..], k, if q == 0 then 0 else q - 1);
      if q == 0 {
        assert s == [s[0]] + s[1..];
      }
    }
  }

  /** The strict comparison resumes after the anchor and after every row that shares its key. */
  lemma BelowRow(s: seq<FlowRow>, i: nat)
    requires Descending(s) && i < |s|
    ensures Below(s, Some(s[i].key)) == s[AfterTies(s, s[i].key, i + 1)..]
  {
    hide Below, AfterTies, Less;
    var k, q := s[i].key, AfterTies(s, s[i].key, i + 1);
    NotLessSelf(k);
    forall h | q <= h < |s| ensures Less(s[h].key, k) {
      NotLessThenLess(k, s[q].key, s[h].key);
    }
    BelowSuffix(s, k, q);
  }

  lemma NotLessSelf(k: FlowKey)
    ensures !Less(k, k)
  {
  }

  /** Keys are totally ordered: one that is not above and not equal is below, and so is all below it. */
  lemma NotLessThenLess(k: FlowKey, a: FlowKey, b: FlowKey)
    requires !Less(k, a) && k != a && (a == b || !Less(a, b))
    ensures Less(b, k)
  {
  }

  /** The same walk by positions: stretches of `limit` rows, each followed by a lost anchor with its ties. */
  function RawWalkFrom(s: seq<FlowRow>, from: nat, limit: nat): seq<FlowRow>
    requires from <= |s|
    decreases |s| - from
  {
    if |s| - from > limit then
      s[from..from + limit] + RawWalkFrom(s, AfterTies(s, s[from + limit].key, from + limit + 1), limit)
    else s[from..]
  }

  /** What a request returns once its cursor has brought it to position `from`. */
  lemma RawStep(s: seq<FlowRow>, cursor: Option<FlowKey>, from: nat, limit: nat)
    requires from <= |s| && Below(s, cursor) == s[from..]
    ensures RawRequest(s, cursor, limit) ==
            if |s| - from > limit then RawPage(s[from..from + limit], Some(s[from + limit].key))
            else RawPage(s[from..], None)
  {
    hide Below;
    var below := s[from..];
    if |below| > limit {
      assert below[..limit + 1][..limit] == s[from..from + limit];
    } else {
      assert below[..|below|] == below;
    }
  }

  lemma RawWalkStep(s: seq<FlowRow>, cursor: Option<FlowKey>, limit: nat)
    ensures var page := RawRequest(s, cursor, limit);
            RawWalk(s, cursor, limit) == if page.next.None? then page.items else page.items + RawWalk(s, page.next, limit)
  {
    hide RawRequest;
  }

  lemma {:induction false} RawWalkIs(s: seq<FlowRow>, cursor: Option<FlowKey>, from: nat, limit: nat)
    requires Descending(s) && from <= |s| && Below(s, cursor) == s[from..]
    ensures RawWalk(s, cursor, limit) == RawWalkFrom(s, from, limit)
    decreases |s| - from
  {
    hide Below, RawWalk, RawWalkFrom, RawRequest, AfterTies, Descending;
    RawStep(s, cursor, from, limit);
    RawWalkStep(s, cursor, limit);
    if |s| - from <= limit {
      RawWalkFromEnd(s, from, limit);
    } else {
      var i := from + limit;
      BelowRow(s, i);
      RawWalkIs(s, Some(s[i].key), AfterTies(s, s[i].key, i + 1), limit);
      RawWalkFromStep(s, from, limit);
    }
  }

  lemma RawWalkFromEnd(s: seq<FlowRow>, from: nat, limit: nat)
    requires from <= |s| && |s| - from <= limit
    ensures RawWalkFrom(s, from, limit) == s[from..]
  {
  }

  lemma RawWalkFromStep(s: seq<FlowRow>, from: nat, limit: nat)
    requires from <= |s| && |s| - from > limit
    ensures RawWalkFrom(s, from, limit) ==
            s[from..from + limit] + RawWalkFrom(s, AfterTies(s, s[from + limit].key, from + limit + 1), limit)
  {
    hide AfterTies, Less, Below, RawWalk;
  }

  /** On every fixed table the walk is those stretches, and loses each anchor and all its ties. */
  lemma RawWalkLosesAnchors(s: seq<FlowRow>, limit: nat)
    requires Descending(s)
    ensures RawWalk(s, None, limit) == RawWalkFrom(s, 0, limit)
  {
    BelowAll(s);
    assert s[0..] == s;
    RawWalkIs(s, None, 0, limit);
  }

  lemma {:induction false} WalkIsShorter(s: seq<FlowRow>, from: nat, limit: nat)
    requires from <= |s|
    ensures |RawWalkFrom(s, from, limit)| <= |s| - from
    ensures |s| - from > limit ==> |RawWalkFrom(s, from, limit)| < |s| - from
    decreases |s| - from
  {
    hide AfterTies;
    if |s| - from > limit {
      WalkIsShorter(s, AfterTies(s, s[from + limit].key, from + limit + 1), limit);
    }
  }

  /** The walk returns every row, as intended, exactly when everything fits on the first page. */
  lemma RawWalkCompleteIff(s: seq<FlowRow>, limit: nat)
    requires Descending(s)
    ensures RawWalk(s, None, limit) == s <==> |s| <= limit
  {
    RawWalkLosesAnchors(s, limit);
    WalkIsShorter(s, 0, limit);
  }

  // With distinct keys each anchor is lost alone, which gives the positions in closed form.

  /** Position `i` is the last of a stretch of `limit + 1`. */
  predicate EndsStretch(i: nat, limit: nat) { i % (limit + 1) == limit }

  predicate StartsStretch(i: nat, limit: nat) { i % (limit + 1) == 0 }

  /** The rows at positions that are not the last of a stretch of `limit + 1`. */
  function SkippingEach(s: seq<FlowRow>, i: nat, limit: nat): seq<FlowRow>
    requires i <= |s|
    decreases |s| - i
  {
    if i == |s| then []
    else if EndsStretch(i, limit) then SkippingEach(s, i + 1, limit)
    else [s[i]] + SkippingEach(s, i + 1, limit)
  }

  lemma {:induction false} SkipStretch(s: seq<FlowRow>, start: nat, i: nat, limit: nat)
    requires StartsStretch(start, limit) && start <= i <= |s| && i <= start + limit
    ensures SkippingEach(s, i, limit) ==
            if |s| - start > limit then s[i..start + limit] + SkippingEach(s, start + limit + 1, limit) else s[i..]
    decreases |s| - i
  {
    hide EndsStretch, StartsStretch, SkippingEach;
    SkippingStep(s, i, limit);
    if i < |s| {
      StretchPosition(start, i, limit);
      if i < start + limit {
        SkipStretch(s, start, i + 1, limit);
        if |s| - start > limit {
          assert s[i..start + limit] == [s[i]] + s[i + 1..start + limit];
        } else {
          assert s[i..] == [s[i]] + s[i + 1..];
        }
      } else {
        assert s[i..i] == [];
      }
    }
  }

  lemma SkippingStep(s: seq<FlowRow>, i: nat, limit: nat)
    requires i <= |s|
    ensures SkippingEach(s, i, limit) ==
            if i == |s| then []
            else if EndsStretch(i, limit) then SkippingEach(s, i + 1, limit)
            else [s[i]] + SkippingEach(s, i + 1, limit)
  {
    hide EndsStretch;
  }

  lemma StretchPosition(start: nat, i: nat, limit: nat)
    requires StartsStretch(start, limit) && start <= i <= start + limit
    ensures EndsStretch(i, limit) <==> i == start + limit
  {
    QuotientUnique(i, limit + 1, start / (limit + 1));
  }

  lemma NextStretch(from: nat, limit: nat)
    requires StartsStretch(from, limit)
    ensures StartsStretch(from + limit + 1, limit)
  {
    var n := limit + 1;
    assert n * (from / n + 1) == n * (from / n) + n;
    QuotientUnique(from + n, n, from / n + 1);
  }

  lemma {:induction false} WalkSkips(s: seq<FlowRow>, from: nat, limit: nat)
    requires DistinctKeys(s) && from <= |s| && StartsStretch(from, limit)
    ensures RawWalkFrom(s, from, limit) == SkippingEach(s, from, limit)
    decreases |s| - from
  {
    hide EndsStretch, StartsStretch;
    SkipStretch(s, from, from, limit);
    if |s| - from > limit {
      NextStretch(from, limit);
      WalkSkips(s, from + limit + 1, limit);
      RawWalkFromStep(s, from, limit);
      assert AfterTies(s, s[from + limit].key, from + limit + 1) == from + limit + 1;
    }
  }

  /** With distinct keys the rows returned are exactly those at positions i with i mod (limit + 1) != limit. */
  lemma RawWalkPositions(s: seq<FlowRow>, limit: nat)
    requires Descending(s) && DistinctKeys(s)
    ensures RawWalk(s, None, limit) == SkippingEach(s, 0, limit)
  {
    RawWalkLosesAnchors(s, limit);
    WalkSkips(s, 0, limit);
  }
}
