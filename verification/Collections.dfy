/** Insertion-ordered dictionaries, ascending enumeration of a set, and sums over both. */
module Collections {
  import opened Prelude

  // ---------------------------------------------------------------------------------------------
  // Python's insertion-ordered dict
  // ---------------------------------------------------------------------------------------------

  datatype Entry<K, V> = Entry(key: K, value: V)
  type Dict<K, V> = seq<Entry<K, V>>

  function Lookup<K(==), V>(d: Dict<K, V>, k: K): Option<V> {
    if d == [] then None else if d[0].key == k then Some(d[0].value) else Lookup(d[1..], k)
  }

  /** `d[k] = v`: a present key keeps its place, a new key goes last. */
  function Put<K(==), V>(d: Dict<K, V>, k: K, v: V): (r: Dict<K, V>)
    ensures r != []
  {
    if d == [] then [Entry(k, v)]
    else if d[0].key == k then [Entry(k, v)] + d[1..]
    else [d[0]] + Put(d[1..], k, v)
  }

  ghost predicate DistinctKeys<K, V>(d: Dict<K, V>) {
    forall i, j :: 0 <= i < j < |d| ==> d[i].key != d[j].key
  }

  lemma {:induction false} LookupPut<K, V>(d: Dict<K, V>, k: K, v: V, x: K)
    ensures Lookup(Put(d, k, v), x) == if x == k then Some(v) else Lookup(d, x)
  {
    if d != [] && d[0].key != k {
      LookupPut(d[1..], k, v, x);
      assert Put(d, k, v)[1..] == Put(d[1..], k, v);
    }
  }

  lemma {:induction false} LookupIn<K, V>(d: Dict<K, V>, x: K)
    ensures Lookup(d, x).Some? <==> exists i :: 0 <= i < |d| && d[i].key == x
    ensures Lookup(d, x).Some? ==> Entry(x, Lookup(d, x).value) in d
  {
    if d != [] && d[0].key != x {
      LookupIn(d[1..], x);
      if i :| 0 <= i < |d| && d[i].key == x {
        assert d[1..][i - 1].key == x;
      }
    }
  }

  lemma {:induction false} EntryLookup<K, V>(d: Dict<K, V>, i: nat)
    requires DistinctKeys(d) && i < |d|
    ensures Lookup(d, d[i].key) == Some(d[i].value)
  {
    if i > 0 {
      EntryLookup(d[1..], i - 1);
    }
  }

  lemma {:induction false} PutDistinct<K, V>(d: Dict<K, V>, k: K, v: V)
    requires DistinctKeys(d)
    ensures DistinctKeys(Put(d, k, v))
    ensures forall e :: e in Put(d, k, v) ==> e.key == k || e in d
  {
    if d != [] && d[0].key != k {
      PutDistinct(d[1..], k, v);
    }
  }

  function DictSum<K, V>(d: Dict<K, V>, f: (K, V) -> int): int {
    if d == [] then 0 else f(d[0].key, d[0].value) + DictSum(d[1..], f)
  }

  lemma {:induction false} DictSumPut<K, V>(d: Dict<K, V>, k: K, v: V, f: (K, V) -> int)
    ensures DictSum(Put(d, k, v), f) ==
            DictSum(d, f) + f(k, v) - match Lookup(d, k) case None => 0 case Some(w) => f(k, w)
  {
    var r := Put(d, k, v);
    if d != [] {
      if d[0].key == k {
        assert r[1..] == d[1..];
      } else {
        DictSumPut(d[1..], k, v, f);
        assert r[1..] == Put(d[1..], k, v);
      }
    }
  }

  /** When `f` vanishes off one key, the sum is that key's value. */
  lemma {:induction false} DictSumAt<K, V>(d: Dict<K, V>, k: K, f: (K, V) -> int)
    requires DistinctKeys(d) && forall x, v :: x != k ==> f(x, v) == 0
    ensures DictSum(d, f) == match Lookup(d, k) case None => 0 case Some(w) => f(k, w)
  {
    if d != [] {
      DictSumAt(d[1..], k, f);
      LookupIn(d[1..], k);
      if d[0].key == k {
        assert forall i :: 0 <= i < |d[1..]| ==> d[1..][i] == d[i + 1];
      }
    }
  }

  // ---------------------------------------------------------------------------------------------
  // Sums over sequences
  // ---------------------------------------------------------------------------------------------

  function Sum<T>(xs: seq<T>, f: T -> int): int {
    if xs == [] then 0 else Sum(xs[..|xs| - 1], f) + f(xs[|xs| - 1])
  }

  lemma {:induction false} SumConcat<T>(a: seq<T>, b: seq<T>, f: T -> int)
    ensures Sum(a + b, f) == Sum(a, f) + Sum(b, f)
    decreases |b|
  {
    if b == [] {
      assert a + b == a;
    } else {
      SumConcat(a, b[..|b| - 1], f);
      assert (a + b)[..|a + b| - 1] == a + b[..|b| - 1];
    }
  }

  lemma SumOne<T>(x: T, f: T -> int)
    ensures Sum([x], f) == f(x)
  {
    assert [x][..0] == [];
  }

  lemma {:induction false} SumNone<T>(xs: seq<T>, f: T -> int)
    requires forall x :: x in xs ==> f(x) == 0
    ensures Sum(xs, f) == 0
  {
    if xs != [] {
      SumNone(xs[..|xs| - 1], f);
    }
  }

  lemma {:induction false} SumSame<T>(xs: seq<T>, f: T -> int, g: T -> int)
    requires forall x :: x in xs ==> f(x) == g(x)
    ensures Sum(xs, f) == Sum(xs, g)
  {
    if xs != [] {
      SumSame(xs[..|xs| - 1], f, g);
    }
  }

  lemma SumWithout<T>(b: seq<T>, j: nat, f: T -> int)
    requires j < |b|
    ensures Sum(b, f) == Sum(b[..j] + b[j + 1..], f) + f(b[j])
  {
    assert b == b[..j] + ([b[j]] + b[j + 1..]);
    SumConcat(b[..j], [b[j]] + b[j + 1..], f);
    SumConcat([b[j]], b[j + 1..], f);
    SumConcat(b[..j], b[j + 1..], f);
    SumOne(b[j], f);
  }

  lemma MultisetWithout<T>(b: seq<T>, j: nat)
    requires j < |b|
    ensures multiset(b[..j] + b[j + 1..]) == multiset(b) - multiset{b[j]}
  {
    assert b == b[..j] + [b[j]] + b[j + 1..];
    assert multiset(b) == multiset(b[..j] + b[j + 1..]) + multiset{b[j]};
  }

  /** A sum depends only on the multiset of what is summed. */
  lemma {:induction false} SumPermuted<T>(a: seq<T>, b: seq<T>, f: T -> int)
    requires multiset(a) == multiset(b)
    ensures Sum(a, f) == Sum(b, f)
    decreases |a|
  {
    if a == [] {
      assert |multiset(a)| == |multiset(b)|;
    } else {
      var n := |a| - 1;
      assert a[n] in multiset(b);
      var j :| 0 <= j < |b| && b[j] == a[n];
      MultisetWithout(a, n);
      MultisetWithout(b, j);
      SumPermuted(a[..n] + a[n + 1..], b[..j] + b[j + 1..], f);
      SumWithout(a, n, f);
      SumWithout(b, j, f);
    }
  }

  lemma SameMembers<T>(a: seq<T>, b: seq<T>)
    requires multiset(a) == multiset(b)
    ensures forall x :: x in a <==> x in b
  {
    forall x ensures x in a <==> x in b {
      assert x in a <==> x in multiset(a);
      assert x in b <==> x in multiset(b);
    }
  }

  /** Taking the head of a queue. */
  lemma SumHead<T>(xs: seq<T>, f: T -> int)
    requires xs != []
    ensures Sum(xs, f) == f(xs[0]) + Sum(xs[1..], f)
  {
    SumConcat([xs[0]], xs[1..], f);
    SumOne(xs[0], f);
    assert xs == [xs[0]] + xs[1..];
  }

  // ---------------------------------------------------------------------------------------------
  // Sums over finite sets
  // ---------------------------------------------------------------------------------------------

  lemma Pick<T>(s: set<T>) returns (x: T)
    requires s != {}
    ensures x in s
  {
    x :| x in s;
  }

  ghost function SetSum<T>(s: set<T>, f: T -> int): int
    decreases |s|
  {
    if s == {} then 0 else var x :| x in s; f(x) + SetSum(s - {x}, f)
  }

  lemma {:induction false} SetSumRemove<T>(s: set<T>, x: T, f: T -> int)
    requires x in s
    ensures SetSum(s, f) == f(x) + SetSum(s - {x}, f)
    decreases |s|
  {
    var y :| y in s && SetSum(s, f) == f(y) + SetSum(s - {y}, f);
    if y != x {
      SetSumRemove(s - {y}, x, f);
      SetSumRemove(s - {x}, y, f);
      assert s - {y} - {x} == s - {x} - {y};
    }
  }

  lemma {:induction false} SetSumEqual<T>(s: set<T>, f: T -> int, g: T -> int)
    requires forall x :: x in s ==> f(x) == g(x)
    ensures SetSum(s, f) == SetSum(s, g)
    decreases |s|
  {
    if s != {} {
      var x :| x in s;
      SetSumEqual(s - {x}, f, g);
      SetSumRemove(s, x, f);
      SetSumRemove(s, x, g);
    }
  }

  lemma {:induction false} SetSumZero<T>(s: set<T>, f: T -> int)
    requires forall x :: x in s ==> f(x) == 0
    ensures SetSum(s, f) == 0
    decreases |s|
  {
    if s != {} {
      var x :| x in s;
      SetSumZero(s - {x}, f);
      SetSumRemove(s, x, f);
    }
  }

  /** Adding an element, or changing `f` at one element. */
  lemma SetSumUpdate<T>(s: set<T>, x: T, f: T -> int, g: T -> int)
    requires forall y :: y in s && y != x ==> f(y) == g(y)
    ensures SetSum(s + {x}, g) == SetSum(s, f) + g(x) - if x in s then f(x) else 0
  {
    SetSumRemove(s + {x}, x, g);
    SetSumEqual(s - {x}, f, g);
    assert s + {x} - {x} == s - {x};
    if x in s {
      SetSumRemove(s, x, f);
    } else {
      assert s - {x} == s;
    }
  }

  // ---------------------------------------------------------------------------------------------
  // Python's `sorted` on a set of instants
  // ---------------------------------------------------------------------------------------------

  predicate IsLeast(s: set<int>, m: int) {
    m in s && forall x :: x in s ==> m <= x
  }

  lemma {:induction false} LeastExists(s: set<int>)
    requires s != {}
    ensures exists m :: IsLeast(s, m)
    decreases |s|
  {
    var x := Pick(s);
    var rest := s - {x};
    assert forall y :: y in s ==> y == x || y in rest;
    if rest == {} {
      assert IsLeast(s, x);
    } else {
      LeastExists(rest);
      var m :| IsLeast(rest, m);
      assert IsLeast(s, Min(m, x));
    }
  }

  ghost predicate StrictlyAscending(a: seq<int>) {
    forall i, j :: 0 <= i < j < |a| ==> a[i] < a[j]
  }

  function Elements(a: seq<int>): set<int> { set x | x in a }

  function Least(s: set<int>): (m: int)
    requires s != {}
    ensures IsLeast(s, m)
  {
    LeastExists(s);
    var m :| IsLeast(s, m);
    m
  }

  function Ascending(s: set<int>): seq<int>
    decreases |s|
  {
    if s == {} then [] else [Least(s)] + Ascending(s - {Least(s)})
  }

  lemma ElementsCons(m: int, rest: seq<int>)
    ensures Elements([m] + rest) == {m} + Elements(rest)
  {
    assert forall x :: x in [m] + rest <==> x == m || x in rest;
  }

  lemma ElementsSnoc(a: seq<int>, i: nat)
    requires i < |a|
    ensures Elements(a[..i + 1]) == Elements(a[..i]) + {a[i]}
  {
    assert a[..i + 1] == a[..i] + [a[i]];
  }

  lemma ElementAt(a: seq<int>, i: nat)
    requires i < |a|
    ensures a[i] in Elements(a)
  {
  }

  lemma ConsAscending(m: int, rest: seq<int>)
    requires StrictlyAscending(rest) && forall i :: 0 <= i < |rest| ==> m < rest[i]
    ensures StrictlyAscending([m] + rest)
  {
  }

  lemma {:induction false} AscendingElements(s: set<int>)
    ensures Elements(Ascending(s)) == s
    decreases |s|
  {
    if s != {} {
      hide Elements;
      AscendingElements(s - {Least(s)});
      ElementsCons(Least(s), Ascending(s - {Least(s)}));
      assert {Least(s)} + (s - {Least(s)}) == s;
    }
  }

  lemma {:induction false} AscendingSorted(s: set<int>)
    ensures StrictlyAscending(Ascending(s))
    decreases |s|
  {
    if s != {} {
      var m := Least(s);
      var rest := Ascending(s - {m});
      AscendingSorted(s - {m});
      AscendingElements(s - {m});
      forall i | 0 <= i < |rest| ensures m < rest[i] {
        ElementAt(rest, i);
      }
      ConsAscending(m, rest);
    }
  }
}
