/**
 Group membership: the index loaded from `user_groups`, and the least common group of a set of
 users ("largest common denominator" in the source's words).
 */
module Groups {
  import opened Prelude
  import opened Collections

  // ---------------------------------------------------------------------------------------------
  // String order
  // ---------------------------------------------------------------------------------------------

  /** Python's `<` on strings: lexicographic by code point. */
  predicate StrLess(a: string, b: string) {
    b != "" && (a == "" || a[0] < b[0] || (a[0] == b[0] && StrLess(a[1..], b[1..])))
  }

  lemma {:induction false} StrTotal(a: string, b: string)
    ensures a == b || StrLess(a, b) || StrLess(b, a)
    ensures !(StrLess(a, b) && StrLess(b, a))
  {
    if a != "" && b != "" && a[0] == b[0] {
      StrTotal(a[1..], b[1..]);
      assert a[1..] == b[1..] ==> a == b by { assert a == [a[0]] + a[1..] && b == [b[0]] + b[1..]; }
    }
  }

  lemma {:induction false} StrTransitive(a: string, b: string, c: string)
    requires StrLess(a, b) && StrLess(b, c)
    ensures StrLess(a, c)
  {
    if a != "" && a[0] == b[0] && b[0] == c[0] {
      StrTransitive(a[1..], b[1..], c[1..]);
    }
  }

  /** Lexicographic order by positions: at the first place where they differ, `a` ends or has the lesser character. */
  ghost predicate Alphabetical(a: string, b: string) {
    exists k :: DiffersAt(a, b, k)
  }

  predicate DiffersAt(a: string, b: string, k: int) {
    0 <= k <= |a| && k < |b| && a[..k] == b[..k] && (k == |a| || a[k] < b[k])
  }

  /** The recursive comparison is that order. */
  lemma {:induction false} StrLessIff(a: string, b: string)
    ensures StrLess(a, b) <==> Alphabetical(a, b)
  {
    if b != "" && (a == "" || a[0] < b[0]) {
      assert DiffersAt(a, b, 0);
    } else if a != "" && b != "" && a[0] == b[0] {
      StrLessIff(a[1..], b[1..]);
      if k :| DiffersAt(a[1..], b[1..], k) {
        assert a[..k + 1] == [a[0]] + a[1..][..k] && b[..k + 1] == [b[0]] + b[1..][..k];
        assert DiffersAt(a, b, k + 1);
      }
      if k :| DiffersAt(a, b, k) {
        assert k > 0;
        assert a[1..][..k - 1] == a[..k][1..] && b[1..][..k - 1] == b[..k][1..];
        assert DiffersAt(a[1..], b[1..], k - 1);
      }
    } else if a != "" && b != "" {
      forall k | DiffersAt(a, b, k) ensures false {
        SameHead(a, b, k);
      }
    }
  }

  lemma SameHead(a: string, b: string, k: int)
    requires DiffersAt(a, b, k) && a != ""
    ensures a[0] < b[0] || a[0] == b[0]
  {
    if k > 0 {
      assert a[..k][0] == b[..k][0];
    }
  }

  // ---------------------------------------------------------------------------------------------
  // The least common group
  // ---------------------------------------------------------------------------------------------

  type GroupMap = map<string, set<string>>
  type Sizes = map<string, nat>

  function SizeOf(sizes: Sizes, g: string): nat { if g in sizes then sizes[g] else 0 }

  /** Strictly smaller group, ties broken by identifier. */
  predicate RankLess(sizes: Sizes, g: string, h: string) {
    SizeOf(sizes, g) < SizeOf(sizes, h) || (SizeOf(sizes, g) == SizeOf(sizes, h) && StrLess(g, h))
  }

  lemma RankTotal(sizes: Sizes, g: string, h: string)
    ensures g == h || RankLess(sizes, g, h) || RankLess(sizes, h, g)
    ensures !(RankLess(sizes, g, h) && RankLess(sizes, h, g))
  {
    StrTotal(g, h);
  }

  lemma RankTransitive(sizes: Sizes, f: string, g: string, h: string)
    requires RankLess(sizes, f, g) && RankLess(sizes, g, h)
    ensures RankLess(sizes, f, h)
  {
    if StrLess(f, g) && StrLess(g, h) {
      StrTransitive(f, g, h);
    }
  }

  predicate IsLeastRank(sizes: Sizes, gs: set<string>, g: string) {
    g in gs && forall h :: h in gs ==> h == g || RankLess(sizes, g, h)
  }

  lemma {:induction false} LeastRankExists(sizes: Sizes, gs: set<string>)
    requires gs != {}
    ensures exists g :: IsLeastRank(sizes, gs, g)
    decreases |gs|
  {
    var x := Pick(gs);
    var rest := gs - {x};
    assert forall y :: y in gs ==> y == x || y in rest;
    if rest == {} {
      assert IsLeastRank(sizes, gs, x);
    } else {
      LeastRankExists(sizes, rest);
      var m :| IsLeastRank(sizes, rest, m);
      RankTotal(sizes, m, x);
      forall h | h in rest && h != m && RankLess(sizes, x, m) ensures RankLess(sizes, x, h) {
        RankTransitive(sizes, x, m, h);
      }
      assert IsLeastRank(sizes, gs, if RankLess(sizes, x, m) then x else m);
    }
  }

  lemma LeastRankUnique(sizes: Sizes, gs: set<string>, g: string, h: string)
    requires IsLeastRank(sizes, gs, g) && IsLeastRank(sizes, gs, h)
    ensures g == h
  {
    RankTotal(sizes, g, h);
  }

  /** Python's `min(gs, key=lambda g: (size(g), g))`. */
  function LeastRank(sizes: Sizes, gs: set<string>): (g: string)
    requires gs != {}
    ensures IsLeastRank(sizes, gs, g)
  {
    LeastRankExists(sizes, gs);
    assert forall g, h :: IsLeastRank(sizes, gs, g) && IsLeastRank(sizes, gs, h) ==> g == h by {
      forall g, h | IsLeastRank(sizes, gs, g) && IsLeastRank(sizes, gs, h) ensures g == h {
        LeastRankUnique(sizes, gs, g, h);
      }
    }
    var g :| IsLeastRank(sizes, gs, g);
    g
  }

  /** Group `g` holds every one of `users` and is not excluded. */
  predicate Common(users: set<string>, ug: GroupMap, excluded: set<string>, g: string) {
    g !in excluded && forall u :: u in users ==> u in ug && g in ug[u]
  }

  function Candidates(users: set<string>, ug: GroupMap, excluded: set<string>): set<string> {
    set u, g | u in users && u in ug && g in ug[u] && Common(users, ug, excluded, g) :: g
  }

  function Lcd(users: set<string>, ug: GroupMap, sizes: Sizes, excluded: set<string>, floor: int): Option<string> {
    if users == {} then None
    else if exists u :: u in users && u !in ug then None
    else
      var candidates := Candidates(users, ug, excluded);
      if candidates == {} then None
      else
        var chosen := LeastRank(sizes, candidates);
        if |users| == 1 && SizeOf(sizes, chosen) > floor then None else Some(chosen)
  }

  lemma CandidatesAreCommon(users: set<string>, ug: GroupMap, excluded: set<string>, g: string)
    requires users != {}
    ensures g in Candidates(users, ug, excluded) <==> Common(users, ug, excluded, g)
  {
    var u := Pick(users);
  }

  /** Fewer members, or as many and alphabetically first. */
  ghost predicate Precedes(sizes: Sizes, g: string, h: string) {
    SizeOf(sizes, g) < SizeOf(sizes, h) || (SizeOf(sizes, g) == SizeOf(sizes, h) && Alphabetical(g, h))
  }

  lemma RankIs(sizes: Sizes, g: string, h: string)
    ensures RankLess(sizes, g, h) <==> Precedes(sizes, g, h)
  {
    StrLessIff(g, h);
  }

  /**
   The result is the one common group that precedes all others by size and then alphabetically,
   unless the single-user floor refuses it.
   */
  lemma LcdIsLeastCommon(users: set<string>, ug: GroupMap, sizes: Sizes, excluded: set<string>, floor: int, g: string)
    ensures Lcd(users, ug, sizes, excluded, floor) == Some(g) <==>
            && users != {} && Common(users, ug, excluded, g)
            && (forall h :: Common(users, ug, excluded, h) ==> h == g || Precedes(sizes, g, h))
            && (|users| == 1 ==> SizeOf(sizes, g) <= floor)
  {
    hide Lcd, Common, Precedes, RankLess;
    LcdIsLeastRank(users, ug, sizes, excluded, floor, g);
    forall h ensures RankLess(sizes, g, h) <==> Precedes(sizes, g, h) {
      RankIs(sizes, g, h);
    }
  }

  lemma LcdIsLeastRank(users: set<string>, ug: GroupMap, sizes: Sizes, excluded: set<string>, floor: int, g: string)
    ensures Lcd(users, ug, sizes, excluded, floor) == Some(g) <==>
            && users != {} && Common(users, ug, excluded, g)
            && (forall h :: Common(users, ug, excluded, h) ==> h == g || RankLess(sizes, g, h))
            && (|users| == 1 ==> SizeOf(sizes, g) <= floor)
  {
    hide LeastRank;
    if users != {} {
      forall h ensures h in Candidates(users, ug, excluded) <==> Common(users, ug, excluded, h) {
        CandidatesAreCommon(users, ug, excluded, h);
      }
      if Common(users, ug, excluded, g) &&
         forall h :: Common(users, ug, excluded, h) ==> h == g || RankLess(sizes, g, h) {
        var candidates := Candidates(users, ug, excluded);
        assert IsLeastRank(sizes, candidates, g);
        LeastRankUnique(sizes, candidates, g, LeastRank(sizes, candidates));
      }
    }
  }

  /**
   Fewer users have a group that ranks no higher; the only way to lose it is the single-user floor,
   and then the larger set's group is above the floor as well.
   */
  lemma LcdMonotone(few: set<string>, many: set<string>, ug: GroupMap, sizes: Sizes,
                    excluded: set<string>, floor: int, h: string)
    requires few != {} && few <= many && Lcd(many, ug, sizes, excluded, floor) == Some(h)
    ensures match Lcd(few, ug, sizes, excluded, floor)
            case Some(g) => g == h || RankLess(sizes, g, h)
            case None => |few| == 1 && SizeOf(sizes, h) > floor
  {
    LcdIsLeastRank(many, ug, sizes, excluded, floor, h);
    CandidatesAreCommon(few, ug, excluded, h);
    var g := LeastRank(sizes, Candidates(few, ug, excluded));
    assert g == h || RankLess(sizes, g, h);
  }

  /** A user without an entry holds no group. */
  function HeldBy(ug: GroupMap, u: string): set<string> { if u in ug then ug[u] else {} }

  lemma MissingHoldsNothing(users: set<string>, ug: GroupMap, excluded: set<string>, u: string)
    requires u in users && u !in ug
    ensures Candidates(users, ug, excluded) == {}
  {
  }

  /** The choice depends only on the groups held by the users asked about. */
  lemma LcdLocal(users: set<string>, ug: GroupMap, ug': GroupMap, sizes: Sizes, excluded: set<string>, floor: int)
    requires forall u :: u in users ==> HeldBy(ug, u) == HeldBy(ug', u)
    ensures Lcd(users, ug, sizes, excluded, floor) == Lcd(users, ug', sizes, excluded, floor)
  {
    if users != {} {
      forall g ensures g in Candidates(users, ug, excluded) <==> g in Candidates(users, ug', excluded) {
        CandidatesAreCommon(users, ug, excluded, g);
        CandidatesAreCommon(users, ug', excluded, g);
        assert Common(users, ug, excluded, g) <==> g !in excluded && forall u :: u in users ==> g in HeldBy(ug, u);
        assert Common(users, ug', excluded, g) <==> g !in excluded && forall u :: u in users ==> g in HeldBy(ug', u);
      }
      assert Candidates(users, ug, excluded) == Candidates(users, ug', excluded);
      if u :| u in users && u !in ug { MissingHoldsNothing(users, ug, excluded, u); }
      if u :| u in users && u !in ug' { MissingHoldsNothing(users, ug', excluded, u); }
    }
  }

  // ---------------------------------------------------------------------------------------------
  // The index
  // ---------------------------------------------------------------------------------------------

  datatype Membership = Membership(user: string, group: string, name: string)

  /** The users of `among` who hold `g`. */
  function Members(ug: GroupMap, among: set<string>, g: string): set<string> {
    set u | u in among && u in ug && g in ug[u]
  }

  /** Sizes count members: every size is the number of users holding the group. */
  ghost predicate Counted(ug: GroupMap, among: set<string>, sizes: Sizes) {
    forall g :: SizeOf(sizes, g) == |Members(ug, among, g)|
  }

  /** A common group of counted size has at least as many members as users asked about. */
  lemma LcdCoversUsers(users: set<string>, ug: GroupMap, sizes: Sizes, excluded: set<string>, floor: int, g: string)
    requires Counted(ug, ug.Keys, sizes) && Lcd(users, ug, sizes, excluded, floor) == Some(g)
    ensures users <= Members(ug, ug.Keys, g) && |users| <= SizeOf(sizes, g)
  {
    LcdIsLeastRank(users, ug, sizes, excluded, floor, g);
    SubsetSize(users, Members(ug, ug.Keys, g));
  }

  lemma SubsetSize<T>(a: set<T>, b: set<T>)
    requires a <= b
    ensures |a| <= |b|
  {
    assert b == a + (b - a);
  }

  /** The name given by the last row of the group. */
  ghost predicate LastName(rows: seq<Membership>, g: string, name: string) {
    exists i :: 0 <= i < |rows| && rows[i].group == g && rows[i].name == name &&
                forall j :: i < j < |rows| ==> rows[j].group != g
  }

  lemma LastNameSnoc(rows: seq<Membership>, n: nat, g: string, name: string)
    requires n < |rows|
    requires if rows[n].group == g then rows[n].name == name else LastName(rows[..n], g, name)
    ensures LastName(rows[..n + 1], g, name)
  {
    var now := rows[..n + 1];
    if rows[n].group == g {
      assert now[n].group == g;
    } else {
      var i :| 0 <= i < n && rows[..n][i].group == g && rows[..n][i].name == name &&
               forall j :: i < j < n ==> rows[..n][j].group != g;
      assert now[i].group == g;
      assert forall j :: i < j < n ==> now[j] == rows[..n][j];
    }
  }

  lemma CountedAdd(ug: GroupMap, done: set<string>, u: string, before: Sizes, sizes: Sizes)
    requires u in ug && u !in done && Counted(ug, done, before)
    requires forall g :: SizeOf(sizes, g) == SizeOf(before, g) + if g in ug[u] then 1 else 0
    ensures Counted(ug, done + {u}, sizes)
  {
    forall g ensures SizeOf(sizes, g) == |Members(ug, done + {u}, g)| {
      MembersAdd(ug, done, u, g);
    }
  }

  lemma MembersAdd(ug: GroupMap, done: set<string>, u: string, g: string)
    requires u in ug && u !in done
    ensures |Members(ug, done + {u}, g)| == |Members(ug, done, g)| + if g in ug[u] then 1 else 0
  {
    var was := Members(ug, done, g);
    assert Members(ug, done + {u}, g) == if g in ug[u] then was + {u} else was;
  }

  class GroupIndex {
    var userGroups: GroupMap
    var groupSize: Sizes
    var groupName: map<string, string>

    constructor ()
      ensures userGroups == map[] && groupSize == map[] && groupName == map[]
    {
      userGroups, groupSize, groupName := map[], map[], map[];
    }

    /** After a load the maps hold exactly the table's memberships, and sizes count members. */
    method Load(rows: seq<Membership>)
      modifies this
      ensures forall u :: u in userGroups <==> exists i :: 0 <= i < |rows| && rows[i].user == u
      ensures forall u, g :: u in userGroups ==>
                (g in userGroups[u] <==> exists i :: 0 <= i < |rows| && rows[i].user == u && rows[i].group == g)
      ensures Counted(userGroups, userGroups.Keys, groupSize)
      ensures forall g :: g in groupName <==> exists i :: 0 <= i < |rows| && rows[i].group == g
      ensures forall g :: g in groupName ==> LastName(rows, g, groupName[g])
    {
      hide Counted, LastName;
      var ug: GroupMap, names: map<string, string> := map[], map[];
      for i := 0 to |rows|
        invariant forall u :: u in ug <==> exists k :: 0 <= k < i && rows[k].user == u
        invariant forall u, g :: u in ug ==>
                    (g in ug[u] <==> exists k :: 0 <= k < i && rows[k].user == u && rows[k].group == g)
        invariant forall g :: g in names <==> exists k :: 0 <= k < i && rows[k].group == g
        invariant forall g :: g in names ==> LastName(rows[..i], g, names[g])
      {
        var r := rows[i];
        ug := ug[r.user := (if r.user in ug then ug[r.user] else {}) + {r.group}];
        LastNameSnoc(rows, i, r.group, r.name);
        forall g | g in names && g != r.group ensures LastName(rows[..i + 1], g, names[g]) {
          LastNameSnoc(rows, i, g, names[g]);
        }
        names := names[r.group := r.name];
      }
      assert rows[..|rows|] == rows;
      var sizes := CountSizes(ug);
      userGroups, groupName, groupSize := ug, names, sizes;
    }

    static method CountSizes(ug: GroupMap) returns (sizes: Sizes)
      ensures Counted(ug, ug.Keys, sizes)
    {
      sizes := map[];
      var todo := ug.Keys;
      assert forall g :: Members(ug, ug.Keys - todo, g) == {};
      while todo != {}
        invariant todo <= ug.Keys
        invariant Counted(ug, ug.Keys - todo, sizes)
        decreases |todo|
      {
        var u :| u in todo;
        var done := ug.Keys - todo;
        todo := todo - {u};
        assert ug.Keys - todo == done + {u};
        sizes := CountUser(ug, done, u, sizes);
      }
      assert ug.Keys - todo == ug.Keys;
    }

    static method CountUser(ug: GroupMap, ghost done: set<string>, u: string, before: Sizes) returns (sizes: Sizes)
      requires u in ug && u !in done && Counted(ug, done, before)
      ensures Counted(ug, done + {u}, sizes)
    {
      hide Counted;
      sizes := before;
      var gs := ug[u];
      while gs != {}
        invariant gs <= ug[u]
        invariant forall g :: SizeOf(sizes, g) == SizeOf(before, g) + if g in ug[u] && g !in gs then 1 else 0
        decreases |gs|
      {
        var g :| g in gs;
        gs := gs - {g};
        sizes := sizes[g := SizeOf(sizes, g) + 1];
      }
      CountedAdd(ug, done, u, before, sizes);
    }

    function GroupsOf(user: string): set<string>
      reads this
    {
      HeldBy(userGroups, user)
    }
  }
}
