/**
 Application catalogues: lists are sorted once and searched for their first hit.  The same suffix
 search runs in the correlator and in the resolver worker.
 */
module Catalogue {
  import opened Prelude
  import opened Collections

  // ---------------------------------------------------------------------------------------------
  // Stable sort and first hit
  // ---------------------------------------------------------------------------------------------

  type Rank = (int, int, int)

  predicate RankBefore(a: Rank, b: Rank) {
    a.0 < b.0 || (a.0 == b.0 && (a.1 < b.1 || (a.1 == b.1 && a.2 < b.2)))
  }

  /** Place `x`, which came earlier in the input, before everything that does not rank strictly before it. */
  function Inserted<T>(x: T, s: seq<T>, rank: T -> Rank): seq<T> {
    if s == [] then [x]
    else if RankBefore(rank(s[0]), rank(x)) then [s[0]] + Inserted(x, s[1..], rank)
    else [x] + s
  }

  /** Python's `sorted`, which is stable. */
  function SortedBy<T>(xs: seq<T>, rank: T -> Rank): seq<T> {
    if xs == [] then [] else Inserted(xs[0], SortedBy(xs[1..], rank), rank)
  }

  function FirstHit<T>(s: seq<T>, hit: T -> bool): Option<T> {
    if s == [] then None else if hit(s[0]) then Some(s[0]) else FirstHit(s[1..], hit)
  }

  ghost predicate InRankOrder<T>(s: seq<T>, rank: T -> Rank) {
    forall i, j :: 0 <= i < j < |s| ==> !RankBefore(rank(s[j]), rank(s[i]))
  }

  lemma OrderCons<T>(x: T, s: seq<T>, rank: T -> Rank)
    requires InRankOrder(s, rank) && forall i :: 0 <= i < |s| ==> !RankBefore(rank(s[i]), rank(x))
    ensures InRankOrder([x] + s, rank)
  {
    hide RankBefore;
  }

  lemma {:induction false} InsertedPermutes<T>(x: T, s: seq<T>, rank: T -> Rank)
    ensures multiset(Inserted(x, s, rank)) == multiset(s) + multiset{x}
  {
    if s != [] && RankBefore(rank(s[0]), rank(x)) {
      InsertedPermutes(x, s[1..], rank);
      assert s == [s[0]] + s[1..];
    }
  }

  lemma {:induction false} InsertedIs<T>(x: T, s: seq<T>, rank: T -> Rank)
    requires InRankOrder(s, rank)
    ensures InRankOrder(Inserted(x, s, rank), rank)
    ensures multiset(Inserted(x, s, rank)) == multiset(s) + multiset{x}
  {
    InsertedPermutes(x, s, rank);
    if s == [] || !RankBefore(rank(s[0]), rank(x)) {
      OrderCons(x, s, rank);
    } else {
      var rest := Inserted(x, s[1..], rank);
      InsertedIs(x, s[1..], rank);
      assert Inserted(x, s, rank) == [s[0]] + rest;
      hide Inserted;
      forall i | 0 <= i < |rest| ensures !RankBefore(rank(rest[i]), rank(s[0])) {
        assert rest[i] in multiset(rest);
        assert rest[i] == x || rest[i] in s[1..];
      }
      OrderCons(s[0], rest, rank);
    }
  }

  /** Sorting permutes and orders. */
  lemma {:induction false} SortedByIs<T>(xs: seq<T>, rank: T -> Rank)
    ensures InRankOrder(SortedBy(xs, rank), rank) && multiset(SortedBy(xs, rank)) == multiset(xs)
  {
    if xs != [] {
      SortedByIs(xs[1..], rank);
      InsertedIs(xs[0], SortedBy(xs[1..], rank), rank);
      assert xs == [xs[0]] + xs[1..];
    }
  }

  /** The hit at `i` outranks every other hit and, among equals, comes first in the input. */
  ghost predicate BestAt<T>(xs: seq<T>, hit: T -> bool, rank: T -> Rank, i: int) {
    && 0 <= i < |xs| && hit(xs[i])
    && forall j :: 0 <= j < |xs| && hit(xs[j]) ==>
         !RankBefore(rank(xs[j]), rank(xs[i])) && (j < i ==> RankBefore(rank(xs[i]), rank(xs[j])))
  }

  lemma {:induction false} FirstHitInserted<T>(x: T, s: seq<T>, hit: T -> bool, rank: T -> Rank)
    requires InRankOrder(s, rank)
    ensures var h := FirstHit(s, hit);
            FirstHit(Inserted(x, s, rank), hit) ==
            if hit(x) && (h.None? || !RankBefore(rank(h.value), rank(x))) then Some(x) else h
  {
    if s != [] && RankBefore(rank(s[0]), rank(x)) {
      FirstHitInserted(x, s[1..], hit, rank);
      assert Inserted(x, s, rank) == [s[0]] + Inserted(x, s[1..], rank);
      FirstHitCons(s[0], Inserted(x, s[1..], rank), hit);
    } else {
      assert Inserted(x, s, rank) == [x] + s;
      FirstHitCons(x, s, hit);
      NothingBefore(x, s, hit, rank);
    }
  }

  lemma FirstHitCons<T>(x: T, s: seq<T>, hit: T -> bool)
    ensures FirstHit([x] + s, hit) == if hit(x) then Some(x) else FirstHit(s, hit)
  {
    assert ([x] + s)[1..] == s;
  }

  /** If the head of an ordered list does not rank before `x`, no hit in it does. */
  lemma NothingBefore<T>(x: T, s: seq<T>, hit: T -> bool, rank: T -> Rank)
    requires InRankOrder(s, rank) && (s != [] ==> !RankBefore(rank(s[0]), rank(x)))
    ensures FirstHit(s, hit).Some? ==> !RankBefore(rank(FirstHit(s, hit).value), rank(x))
  {
    FirstHitIn(s, hit);
    hide FirstHit;
    var h := FirstHit(s, hit);
    if h.Some? {
      var i :| 0 <= i < |s| && s[i] == h.value;
      assert i == 0 || !RankBefore(rank(s[i]), rank(s[0]));
    }
  }

  lemma {:induction false} FirstHitIn<T>(s: seq<T>, hit: T -> bool)
    ensures FirstHit(s, hit).Some? ==> FirstHit(s, hit).value in s && hit(FirstHit(s, hit).value)
    ensures FirstHit(s, hit).None? <==> forall x :: x in s ==> !hit(x)
  {
    if s != [] && !hit(s[0]) {
      FirstHitIn(s[1..], hit);
      assert forall x :: x in s <==> x == s[0] || x in s[1..];
    }
  }

  /**
   The first hit in the sorted list is the best hit of the catalogue, earliest in load order on ties;
   there is none only when nothing matches.
   */
  lemma {:induction false} FirstHitIsBest<T>(xs: seq<T>, hit: T -> bool, rank: T -> Rank)
    ensures match FirstHit(SortedBy(xs, rank), hit)
            case None => forall i :: 0 <= i < |xs| ==> !hit(xs[i])
            case Some(x) => exists i :: BestAt(xs, hit, rank, i) && xs[i] == x
  {
    if xs != [] {
      var x, rest := xs[0], xs[1..];
      FirstHitIsBest(rest, hit, rank);
      SortedByIs(rest, rank);
      FirstHitInserted(x, SortedBy(rest, rank), hit, rank);
      hide BestAt, FirstHit, Inserted, InRankOrder;
      var h := FirstHit(SortedBy(rest, rank), hit);
      assert xs == [x] + rest;
      if h.Some? {
        var i :| BestAt(rest, hit, rank, i) && rest[i] == h.value;
        BestCons(x, rest, hit, rank, i);
      } else {
        BestAlone(x, rest, hit, rank);
      }
    } else {
      NoHits(hit, rank);
    }
  }

  lemma NoHits<T>(hit: T -> bool, rank: T -> Rank)
    ensures FirstHit(SortedBy([], rank), hit) == None
  {
  }

  lemma BestAlone<T>(x: T, rest: seq<T>, hit: T -> bool, rank: T -> Rank)
    requires forall i :: 0 <= i < |rest| ==> !hit(rest[i])
    ensures hit(x) ==> BestAt([x] + rest, hit, rank, 0)
    ensures !hit(x) ==> forall i :: 0 <= i < |rest| + 1 ==> !hit(([x] + rest)[i])
  {
  }

  lemma BestCons<T>(x: T, rest: seq<T>, hit: T -> bool, rank: T -> Rank, i: int)
    requires BestAt(rest, hit, rank, i)
    ensures BestAt([x] + rest, hit, rank, if hit(x) && !RankBefore(rank(rest[i]), rank(x)) then 0 else i + 1)
  {
    var xs := [x] + rest;
    assert forall j :: 0 < j < |xs| ==> xs[j] == rest[j - 1];
  }

  /** When ranks tell entries apart, the hit does not depend on the order the catalogue was loaded in. */
  lemma LoadOrderIrrelevant<T>(a: seq<T>, b: seq<T>, hit: T -> bool, rank: T -> Rank)
    requires multiset(a) == multiset(b)
    requires forall x, y :: x in a && y in a && rank(x) == rank(y) ==> x == y
    ensures FirstHit(SortedBy(a, rank), hit) == FirstHit(SortedBy(b, rank), hit)
  {
    hide SortedBy, FirstHit;
    BestElement(a, hit, rank);
    BestElement(b, hit, rank);
    SameMembers(a, b);
  }

  lemma BestElement<T>(xs: seq<T>, hit: T -> bool, rank: T -> Rank)
    ensures match FirstHit(SortedBy(xs, rank), hit)
            case None => forall y :: y in xs ==> !hit(y)
            case Some(x) => x in xs && hit(x) && forall y :: y in xs && hit(y) ==> !RankBefore(rank(y), rank(x))
  {
    FirstHitIsBest(xs, hit, rank);
    hide SortedBy, FirstHit;
    var h := FirstHit(SortedBy(xs, rank), hit);
    if h.Some? {
      var i :| BestAt(xs, hit, rank, i) && xs[i] == h.value;
    }
  }

  // ---------------------------------------------------------------------------------------------
  // Manual applications
  // ---------------------------------------------------------------------------------------------

  datatype Address = Address(v6: bool, value: nat)
  datatype Network = Network(v6: bool, base: nat, prefixLen: nat)

  datatype ManualApp = ManualApp(id: int, name: string, net: Network, portMin: Option<int>, portMax: Option<int>,
                                 proto: Option<int>, priority: int)

  function Pow2(n: nat): nat
    ensures Pow2(n) > 0
  {
    if n == 0 then 1 else 2 * Pow2(n - 1)
  }

  /** Same family and same leading bits. */
  predicate Contains(net: Network, ip: Address) {
    net.v6 == ip.v6 && ip.value / Pow2(HostBits(net)) == net.base / Pow2(HostBits(net))
  }

  function HostBits(net: Network): nat {
    var width := if net.v6 then 128 else 32;
    if net.prefixLen <= width then width - net.prefixLen else 0
  }

  lemma {:induction false} Pow2Adds(a: nat, b: nat)
    ensures Pow2(a + b) == Pow2(a) * Pow2(b) && Pow2(1) == 2 && Pow2(0) == 1
  {
    if a > 0 {
      Pow2Adds(a - 1, b);
      var x, y, z := Pow2(a - 1), Pow2(b), Pow2(a - 1 + b);
      assert Pow2(a) == 2 * x && Pow2(a + b) == 2 * z;
      hide Pow2;
      Doubled(x, y);
    }
  }

  lemma Doubled(x: nat, y: nat)
    ensures 2 * (x * y) == (2 * x) * y
  {
  }

  /** A network holds the addresses of its family from its base on, two to its host bits of them. */
  lemma ContainsIff(net: Network, ip: Address, size: nat)
    requires net.prefixLen <= (if net.v6 then 128 else 32) && size == Pow2((if net.v6 then 128 else 32) - net.prefixLen)
    requires net.base % size == 0
    ensures Contains(net, ip) <==> net.v6 == ip.v6 && net.base <= ip.value < net.base + size
  {
    hide Pow2;
    var q := net.base / size;
    assert net.base == size * q;
    assert ip.value == size * (ip.value / size) + ip.value % size;
    if net.base <= ip.value < net.base + size {
      QuotientUnique(ip.value, size, q);
    }
  }

  predicate Covers(app: ManualApp, ip: Address, port: int, proto: int) {
    && Contains(app.net, ip)
    && (app.proto.Some? ==> app.proto.value == proto)
    && (app.portMin.Some? ==> port >= app.portMin.value)
    && (app.portMax.Some? ==> port <= app.portMax.value)
  }

  function ManualRank(): ManualApp -> Rank { (a: ManualApp) => (-a.priority, 0 - a.net.prefixLen as int, 0) }

  function Covering(ip: Address, port: int, proto: int): ManualApp -> bool {
    (a: ManualApp) => Covers(a, ip, port, proto)
  }

  /** `a` is preferred to `b`: higher priority, then longer prefix. */
  predicate Preferred(a: ManualApp, b: ManualApp) {
    a.priority > b.priority || (a.priority == b.priority && a.net.prefixLen > b.net.prefixLen)
  }

  /** Entry `i` covers, no covering entry is preferred to it, and it is preferred to earlier covering ones. */
  ghost predicate MostPreferred(apps: seq<ManualApp>, i: int, ip: Address, port: int, proto: int) {
    && 0 <= i < |apps| && Covers(apps[i], ip, port, proto)
    && forall j :: 0 <= j < |apps| && Covers(apps[j], ip, port, proto) ==>
         !Preferred(apps[j], apps[i]) && (j < i ==> Preferred(apps[i], apps[j]))
  }

  /** The manual application of a flow, if its address parses and some entry covers it. */
  function ManualOf(apps: seq<ManualApp>, ip: Option<Address>, port: int, proto: int): Option<ManualApp> {
    if ip.None? then None else FirstHit(SortedBy(apps, ManualRank()), Covering(ip.value, port, proto))
  }

  /** It is the most preferred covering entry, and there is one exactly when some entry covers the flow. */
  lemma ManualIs(apps: seq<ManualApp>, ip: Address, port: int, proto: int)
    ensures var r := ManualOf(apps, Some(ip), port, proto);
            && (r.None? ==> forall i :: 0 <= i < |apps| ==> !Covers(apps[i], ip, port, proto))
            && (r.Some? ==> exists i :: MostPreferred(apps, i, ip, port, proto) && apps[i] == r.value)
  {
    hide Contains, SortedBy;
    var hit := Covering(ip, port, proto);
    FirstHitIsBest(apps, hit, ManualRank());
    if i :| BestAt(apps, hit, ManualRank(), i) && ManualOf(apps, Some(ip), port, proto) == Some(apps[i]) {
      assert MostPreferred(apps, i, ip, port, proto);
    }
  }

  // ---------------------------------------------------------------------------------------------
  // Suffix patterns
  // ---------------------------------------------------------------------------------------------

  datatype SaasEntry = SaasEntry(id: int, name: string, pattern: string, priority: int)

  type Lower = string -> string // Python's `str.lower`

  predicate EndsWith(s: string, suffix: string) { |suffix| <= |s| && s[|s| - |suffix|..] == suffix }

  lemma EndsWithIff(s: string, suffix: string)
    ensures EndsWith(s, suffix) <==> exists front :: s == front + suffix
  {
    if EndsWith(s, suffix) {
      assert s == s[..|s| - |suffix|] + suffix;
    }
  }

  function SaasRank(): SaasEntry -> Rank { (e: SaasEntry) => (-e.priority, -|e.pattern|, e.id) }

  function Suffixes(fqdn: string, lower: Lower): SaasEntry -> bool {
    (e: SaasEntry) => EndsWith(lower(fqdn), lower(e.pattern))
  }

  function SaasHit(catalogue: seq<SaasEntry>, fqdn: string, lower: Lower): Option<SaasEntry> {
    FirstHit(SortedBy(catalogue, SaasRank()), Suffixes(fqdn, lower))
  }

  predicate BetterSaas(a: SaasEntry, b: SaasEntry) {
    || a.priority > b.priority
    || (a.priority == b.priority && |a.pattern| > |b.pattern|)
    || (a.priority == b.priority && |a.pattern| == |b.pattern| && a.id < b.id)
  }

  ghost predicate DistinctIds(catalogue: seq<SaasEntry>) {
    forall x, y :: x in catalogue && y in catalogue && x.id == y.id ==> x == y
  }

  /** Two services that loaded one catalogue in any two orders name the same entry. */
  lemma SaasOrderIrrelevant(a: seq<SaasEntry>, b: seq<SaasEntry>, fqdn: string, lower: Lower)
    requires multiset(a) == multiset(b) && DistinctIds(a)
    ensures SaasHit(a, fqdn, lower) == SaasHit(b, fqdn, lower)
  {
    LoadOrderIrrelevant(a, b, Suffixes(fqdn, lower), SaasRank());
  }

  function ById(catalogue: seq<SaasEntry>, id: int): Option<SaasEntry> {
    FirstHit(SortedBy(catalogue, SaasRank()), (e: SaasEntry) => e.id == id)
  }

  predicate HasId(catalogue: seq<SaasEntry>, id: int) { exists e :: e in catalogue && e.id == id }

  lemma ByIdIs(catalogue: seq<SaasEntry>, id: int)
    ensures ById(catalogue, id).Some? <==> HasId(catalogue, id)
    ensures ById(catalogue, id).Some? ==> ById(catalogue, id).value in catalogue && ById(catalogue, id).value.id == id
  {
    var sorted := SortedBy(catalogue, SaasRank());
    SortedByIs(catalogue, SaasRank());
    SameMembers(sorted, catalogue);
    FirstHitIn(sorted, (e: SaasEntry) => e.id == id);
  }

  lemma SaasHitIn(catalogue: seq<SaasEntry>, name: string, lower: Lower)
    ensures SaasHit(catalogue, name, lower).Some? ==> SaasHit(catalogue, name, lower).value in catalogue
  {
    var sorted := SortedBy(catalogue, SaasRank());
    SortedByIs(catalogue, SaasRank());
    SameMembers(sorted, catalogue);
    FirstHitIn(sorted, Suffixes(name, lower));
  }

  /**
   A stored id leads to the entry that the reader would itself match for a name exactly when the
   reader's own match has that id.
   */
  lemma PtrRouteIff(reader: seq<SaasEntry>, id: int, name: string, lower: Lower)
    requires DistinctIds(reader) && HasId(reader, id)
    ensures ById(reader, id) == SaasHit(reader, name, lower) <==>
            SaasHit(reader, name, lower).Some? && SaasHit(reader, name, lower).value.id == id
  {
    ByIdIs(reader, id);
    SaasHitIn(reader, name, lower);
  }

  /**
   The writer stores only the id of its match for a name.  Whenever the reader knows that id, the
   reader's own match for the name has it too.
   */
  ghost predicate ListsAgree(writer: seq<SaasEntry>, reader: seq<SaasEntry>, lower: Lower) {
    forall name :: name != "" && SaasHit(writer, name, lower).Some? ==>
      IdAgrees(reader, SaasHit(writer, name, lower).value.id, name, lower)
  }

  ghost predicate IdAgrees(reader: seq<SaasEntry>, id: int, name: string, lower: Lower) {
    HasId(reader, id) ==> SaasHit(reader, name, lower).Some? && SaasHit(reader, name, lower).value.id == id
  }

  /** Two loads of the same entries agree, in whatever order they came. */
  lemma SameEntriesAgree(writer: seq<SaasEntry>, reader: seq<SaasEntry>, lower: Lower)
    requires multiset(writer) == multiset(reader) && DistinctIds(writer)
    ensures ListsAgree(writer, reader, lower)
  {
    hide SaasHit;
    forall name ensures SaasHit(writer, name, lower) == SaasHit(reader, name, lower) {
      SaasOrderIrrelevant(writer, reader, name, lower);
    }
  }

  /** Editing an entry after the writer has loaded it breaks the agreement. */
  lemma EditedEntryDisagrees(lower: Lower)
    requires lower(".a") == ".a" && lower(".b") == ".b"
    ensures !ListsAgree([SaasEntry(7, "app", ".a", 100)], [SaasEntry(7, "app", ".b", 100)], lower)
  {
    var before, after := SaasEntry(7, "app", ".a", 100), SaasEntry(7, "app", ".b", 100);
    OnlyEntry(before, ".a", lower);
    OnlyEntry(after, ".a", lower);
    assert after in [after];
    assert EndsWith(".a", ".a") && !EndsWith(".a", ".b");
    hide SaasHit;
    assert SaasHit([before], ".a", lower) == Some(before) && SaasHit([after], ".a", lower) == None;
    assert !IdAgrees([after], 7, ".a", lower);
  }

  lemma OnlyEntry(e: SaasEntry, name: string, lower: Lower)
    ensures SaasHit([e], name, lower) == if EndsWith(lower(name), lower(e.pattern)) then Some(e) else None
  {
    var hit := Suffixes(name, lower);
    assert [e][1..] == [] && [e][0] == e;
    assert SortedBy([e][1..], SaasRank()) == [];
    assert SortedBy([e], SaasRank()) == [e];
    assert FirstHit([e][1..], hit) == None;
    assert FirstHit([e], hit) == if hit(e) then Some(e) else None;
  }

  // ---------------------------------------------------------------------------------------------
  // The object
  // ---------------------------------------------------------------------------------------------

  datatype PortDefault = PortDefault(port: int, proto: int, name: string)

  datatype Kind = ByManual | BySaas | ByPtr | ByPort | ByAddress

  datatype Candidate = Candidate(kind: Kind, name: string, appId: Option<int>)

  /** The last default loaded for the (port, protocol) `key` has that name. */
  ghost predicate LastDefault(defaults: seq<PortDefault>, key: (int, int), name: string) {
    exists i :: 0 <= i < |defaults| && defaults[i] == PortDefault(key.0, key.1, name) &&
                forall j :: i < j < |defaults| ==> (defaults[j].port, defaults[j].proto) != key
  }

  lemma LastDefaultSnoc(defaults: seq<PortDefault>, d: PortDefault, key: (int, int), name: string)
    ensures LastDefault(defaults + [d], key, name) <==>
            if key == (d.port, d.proto) then name == d.name else LastDefault(defaults, key, name)
  {
    var all := defaults + [d];
    assert all[|defaults|] == d && forall i :: 0 <= i < |defaults| ==> all[i] == defaults[i];
    if i :| 0 <= i < |defaults| && defaults[i] == PortDefault(key.0, key.1, name) &&
            forall j :: i < j < |defaults| ==> (defaults[j].port, defaults[j].proto) != key {
      assert all[i] == PortDefault(key.0, key.1, name);
    }
  }

  /** `ports` is the last default of every key. */
  ghost predicate LastDefaults(defaults: seq<PortDefault>, ports: map<(int, int), string>) {
    forall key, name :: key in ports && ports[key] == name <==> LastDefault(defaults, key, name)
  }

  lemma LastDefaultsSnoc(defaults: seq<PortDefault>, d: PortDefault, ports: map<(int, int), string>)
    requires LastDefaults(defaults, ports)
    ensures LastDefaults(defaults + [d], ports[(d.port, d.proto) := d.name])
  {
    var after := ports[(d.port, d.proto) := d.name];
    hide LastDefault;
    forall key, name ensures key in after && after[key] == name <==> LastDefault(defaults + [d], key, name) {
      LastDefaultSnoc(defaults, d, key, name);
      assert key in ports && ports[key] == name <==> LastDefault(defaults, key, name);
    }
  }

  /** The catalogue entry of a stored id; an id that does not parse counts as -1. */
  function StoredEntry(catalogue: seq<SaasEntry>, stored: Option<Option<int>>): Option<SaasEntry> {
    if stored.None? then None else ById(catalogue, if stored.value.Some? then stored.value.value else -1)
  }

  /** A port in decimal. */
  function Text(n: nat): string {
    if n < 10 then [('0' as int + n) as char] else Text(n / 10) + [('0' as int + n % 10) as char]
  }

  function ReadText(s: string): int {
    if s == "" then 0 else 10 * ReadText(s[..|s| - 1]) + (s[|s| - 1] as int - '0' as int)
  }

  lemma {:induction false} TextReads(n: nat)
    ensures ReadText(Text(n)) == n && forall c :: c in Text(n) ==> '0' <= c <= '9'
  {
    if n >= 10 {
      TextReads(n / 10);
      assert Text(n)[..|Text(n)| - 1] == Text(n / 10);
    } else {
      assert Text(n)[..0] == "";
    }
  }

  class AppResolver {
    var manual: seq<ManualApp>
    var saas: seq<SaasEntry>
    var ports: map<(int, int), string>
    ghost var manualLoaded: seq<ManualApp>
    ghost var saasLoaded: seq<SaasEntry>

    ghost predicate Valid()
      reads this
    {
      manual == SortedBy(manualLoaded, ManualRank()) && saas == SortedBy(saasLoaded, SaasRank())
    }

    constructor ()
      ensures Valid() && manualLoaded == [] && saasLoaded == [] && ports == map[]
    {
      manual, saas, manualLoaded, saasLoaded, ports := [], [], [], [], map[];
    }

    /** Of several defaults for one port and protocol the last loaded counts. */
    method Load(manual: seq<ManualApp>, saas: seq<SaasEntry>, defaults: seq<PortDefault>)
      modifies this
      ensures Valid() && manualLoaded == manual && saasLoaded == saas
      ensures LastDefaults(defaults, ports)
    {
      manualLoaded, saasLoaded := manual, saas;
      this.manual := SortedBy(manual, ManualRank());
      this.saas := SortedBy(saas, SaasRank());
      ports := PortTable(defaults);
    }

    static method PortTable(defaults: seq<PortDefault>) returns (ports: map<(int, int), string>)
      ensures LastDefaults(defaults, ports)
    {
      ports := map[];
      for i := 0 to |defaults|
        invariant LastDefaults(defaults[..i], ports)
      {
        assert defaults[..i + 1] == defaults[..i] + [defaults[i]];
        LastDefaultsSnoc(defaults[..i], defaults[i], ports);
        ports := ports[(defaults[i].port, defaults[i].proto) := defaults[i].name];
      }
      assert defaults[..|defaults|] == defaults;
    }

    /**
     The label of a flow: the first of manual application, pattern match of the firewall's name, the
     id stored for the PTR name, port default and plain address that there is.  An address without a
     PTR key is queued for the resolver, unless one of the first two already labelled the flow.
     */
    method Resolve(ip: Option<Address>, text: string, port: nat, proto: int, fqdn: Option<string>,
                   ptr: Option<string>, stored: Option<Option<int>>, lower: Lower)
      returns (c: Candidate, queued: bool)
      requires Valid()
      ensures var m := ManualOf(manualLoaded, ip, port, proto);
              var s := if fqdn.Some? && fqdn.value != "" then SaasHit(saasLoaded, fqdn.value, lower) else None;
              var p := if ptr.Some? && ptr.value != "" then StoredEntry(saasLoaded, stored) else None;
              && (queued <==> m.None? && s.None? && ptr.None?)
              && (m.Some? ==> c == Candidate(ByManual, m.value.name, Some(m.value.id)))
              && (m.None? && s.Some? ==> c == Candidate(BySaas, s.value.name, Some(s.value.id)))
              && (m.None? && s.None? && p.Some? ==> c == Candidate(ByPtr, p.value.name, Some(p.value.id)))
              && (m.None? && s.None? && p.None? && (port, proto) in ports ==> c == Candidate(ByPort, ports[(port, proto)], None))
              && (m.None? && s.None? && p.None? && (port, proto) !in ports ==> c == Candidate(ByAddress, text + ":" + Text(port), None))
    {
      hide SortedBy, FirstHit;
      queued := false;
      var m := ManualHit(ip, port, proto);
      if m.Some? {
        return Candidate(ByManual, m.value.name, Some(m.value.id)), false;
      }
      if fqdn.Some? && fqdn.value != "" {
        var s := FindSaas(fqdn.value, lower);
        if s.Some? {
          return Candidate(BySaas, s.value.name, Some(s.value.id)), false;
        }
      }
      if ptr.None? {
        queued := true;
      } else if ptr.value != "" && stored.Some? {
        var id := if stored.value.Some? then stored.value.value else -1;
        var e := FindId(id);
        if e.Some? {
          return Candidate(ByPtr, e.value.name, Some(e.value.id)), false;
        }
      }
      if (port, proto) in ports {
        return Candidate(ByPort, ports[(port, proto)], None), queued;
      }
      return Candidate(ByAddress, text + ":" + Text(port), None), queued;
    }

    /** The first entry of the sorted list with that id. */
    method FindId(id: int) returns (r: Option<SaasEntry>)
      requires Valid()
      ensures r == ById(saasLoaded, id)
    {
      var hit := (e: SaasEntry) => e.id == id;
      for k := 0 to |saas|
        invariant FirstHit(saas, hit) == FirstHit(saas[k..], hit)
      {
        if saas[k].id == id {
          return Some(saas[k]);
        }
      }
      return None;
    }

    /**
     The covering application of greatest (priority, prefix length), earliest in load order on ties;
     None only if none covers, or the address does not parse.
     */
    method ManualHit(ip: Option<Address>, port: int, proto: int) returns (r: Option<ManualApp>)
      requires Valid()
      ensures r == ManualOf(manualLoaded, ip, port, proto)
      ensures ip.None? ==> r == None
      ensures ip.Some? && r == None ==>
                forall i :: 0 <= i < |manualLoaded| ==> !Covers(manualLoaded[i], ip.value, port, proto)
      ensures r.Some? ==>
                ip.Some? && exists i :: MostPreferred(manualLoaded, i, ip.value, port, proto) && manualLoaded[i] == r.value
    {
      if ip.None? {
        return None;
      }
      ManualIs(manualLoaded, ip.value, port, proto);
      hide Contains, SortedBy;
      ghost var hit := Covering(ip.value, port, proto);
      r := None;
      var k := 0;
      while k < |manual|
        invariant 0 <= k <= |manual|
        invariant FirstHit(manual, hit) == FirstHit(manual[k..], hit)
      {
        var app := manual[k];
        if Contains(app.net, ip.value)
           && !(app.proto.Some? && app.proto.value != proto)
           && !(app.portMin.Some? && port < app.portMin.value)
           && !(app.portMax.Some? && port > app.portMax.value) {
          r := Some(app);
          break;
        }
        k := k + 1;
      }
    }

    /** The loaded entry whose pattern ends the name, of greatest (priority, pattern length), then least id. */
    method FindSaas(fqdn: string, lower: Lower) returns (r: Option<SaasEntry>)
      requires Valid()
      ensures r == SaasHit(saasLoaded, fqdn, lower)
      ensures r.None? <==> forall e :: e in saasLoaded ==> !EndsWith(lower(fqdn), lower(e.pattern))
      ensures r.Some? ==> r.value in saasLoaded && EndsWith(lower(fqdn), lower(r.value.pattern))
      ensures r.Some? ==> forall e :: e in saasLoaded && EndsWith(lower(fqdn), lower(e.pattern)) ==>
                            !BetterSaas(e, r.value)
    {
      BestElement(saasLoaded, Suffixes(fqdn, lower), SaasRank());
      var low := lower(fqdn);
      for k := 0 to |saas|
        invariant FirstHit(saas, Suffixes(fqdn, lower)) == FirstHit(saas[k..], Suffixes(fqdn, lower))
      {
        if EndsWith(low, lower(saas[k].pattern)) {
          return Some(saas[k]);
        }
      }
      return None;
    }
  }
}
