/**
 The correlator's identity index: per source IP a set of half-open intervals, changed by logon
 events, by stop events and by `resolve` itself, which evicts what has expired.
 Times are integer seconds.
 */
module Identity {
  import opened Prelude

  type Ip = string

  datatype Binding = Binding(user: string, confidence: int, source: string, tStart: int)
  datatype Interval = Interval(begin: int, end: int, data: Binding)

  /** A missing `event_type` is "", a missing `ttl_seconds` is 0. */
  datatype Event = Event(ip: Ip, ts: int, eventType: string, ttl: int, user: Option<string>,
                         confidence: int, source: string)

  const STOP := "nac-auth-stop"

  predicate IsStop(e: Event) { e.eventType == STOP || e.ttl == 0 }

  /** Otherwise `insert` raises: no user, or an empty interval refused by the tree. */
  predicate Accepted(e: Event) { !IsStop(e) && e.user.Some? && e.ttl > 0 }

  function IntervalOf(e: Event): Interval
    requires Accepted(e)
  {
    Interval(e.ts, e.ts + e.ttl, Binding(e.user.value, e.confidence, e.source, e.ts))
  }

  predicate Covers(iv: Interval, at: int) { iv.begin <= at < iv.end }

  /** `b` ranks at least as high as `a`: confidence first, then the more recent start. */
  predicate RanksBelow(a: Binding, b: Binding) {
    a.confidence < b.confidence || (a.confidence == b.confidence && a.tStart <= b.tStart)
  }

  // ---------------------------------------------------------------------------------------------
  // The index as state
  // ---------------------------------------------------------------------------------------------

  type Trees = map<Ip, set<Interval>>

  function Tree(trees: Trees, ip: Ip): set<Interval> {
    if ip in trees then trees[ip] else {}
  }

  function Invalidated(trees: Trees, ip: Ip, user: Option<string>): Trees {
    if Tree(trees, ip) == {} then trees
    else trees[ip := set iv | iv in trees[ip] && user.Some? && iv.data.user != user.value]
  }

  function Inserted(trees: Trees, e: Event): Trees {
    if IsStop(e) then Invalidated(trees, e.ip, e.user)
    else trees[e.ip := Tree(trees, e.ip) + if Accepted(e) then {IntervalOf(e)} else {}]
  }

  function Probed(trees: Trees, ip: Ip, at: int): Trees {
    if Tree(trees, ip) == {} then trees
    else
      var live := set iv | iv in trees[ip] && iv.end > at;
      if live == {} then trees - {ip} else trees[ip := live]
  }

  datatype Op = Insert(e: Event) | Probe(ip: Ip, at: int)

  function Apply(trees: Trees, op: Op): Trees {
    match op
    case Insert(e) => Inserted(trees, e)
    case Probe(ip, at) => Probed(trees, ip, at)
  }

  function Run(log: seq<Op>): Trees {
    if log == [] then map[] else Apply(Run(log[..|log| - 1]), log[|log| - 1])
  }

  // ---------------------------------------------------------------------------------------------
  // The index as a plain log
  // ---------------------------------------------------------------------------------------------

  predicate Adds(op: Op, ip: Ip, iv: Interval) {
    op.Insert? && op.e.ip == ip && Accepted(op.e) && IntervalOf(op.e) == iv
  }

  predicate Stops(op: Op, ip: Ip, iv: Interval) {
    op.Insert? && op.e.ip == ip && IsStop(op.e) && (op.e.user.None? || op.e.user.value == iv.data.user)
  }

  predicate Expires(op: Op, ip: Ip, iv: Interval) {
    op.Probe? && op.ip == ip && iv.end <= op.at
  }

  /** Some insertion of `iv` has no later stop for its user and no later probe at or past its end. */
  ghost predicate Lives(log: seq<Op>, ip: Ip, iv: Interval) {
    exists i :: 0 <= i < |log| && Adds(log[i], ip, iv) &&
                forall j :: i < j < |log| ==> !Stops(log[j], ip, iv) && !Expires(log[j], ip, iv)
  }

  /** The same with no eviction at all: what the event log alone says. */
  ghost predicate Retained(log: seq<Op>, ip: Ip, iv: Interval) {
    exists i :: 0 <= i < |log| && Adds(log[i], ip, iv) &&
                forall j :: i < j < |log| ==> !Stops(log[j], ip, iv)
  }

  lemma LivesSnoc(log: seq<Op>, op: Op, ip: Ip, iv: Interval)
    ensures Lives(log + [op], ip, iv) <==>
            Adds(op, ip, iv) || (Lives(log, ip, iv) && !Stops(op, ip, iv) && !Expires(op, ip, iv))
  {
    var all := log + [op];
    if Adds(op, ip, iv) {
      assert all[|log|] == op;
    }
    if Lives(log, ip, iv) && !Stops(op, ip, iv) && !Expires(op, ip, iv) {
      var i :| 0 <= i < |log| && Adds(log[i], ip, iv) &&
               forall j :: i < j < |log| ==> !Stops(log[j], ip, iv) && !Expires(log[j], ip, iv);
      assert all[i] == log[i];
    }
    if Lives(all, ip, iv) && !Adds(op, ip, iv) {
      var i :| 0 <= i < |all| && Adds(all[i], ip, iv) &&
               forall j :: i < j < |all| ==> !Stops(all[j], ip, iv) && !Expires(all[j], ip, iv);
      assert all[|log|] == op;
      assert Adds(log[i], ip, iv);
      assert forall j :: i < j < |log| ==> log[j] == all[j];
    }
  }

  /** One operation on one tree. */
  lemma ApplyTree(trees: Trees, op: Op, ip: Ip, iv: Interval)
    ensures iv in Tree(Apply(trees, op), ip) <==>
            Adds(op, ip, iv) || (iv in Tree(trees, ip) && !Stops(op, ip, iv) && !Expires(op, ip, iv))
  {
  }

  /** After any run, the tree of each IP holds exactly the bindings that the log says are alive. */
  lemma {:induction false} TreeIsLog(log: seq<Op>, ip: Ip, iv: Interval)
    ensures iv in Tree(Run(log), ip) <==> Lives(log, ip, iv)
  {
    if log != [] {
      var front, op := log[..|log| - 1], log[|log| - 1];
      TreeIsLog(front, ip, iv);
      ApplyTree(Run(front), op, ip, iv);
      LivesSnoc(front, op, ip, iv);
      assert front + [op] == log;
    }
  }

  /** An operation on one IP never changes the tree of another. */
  lemma OtherTreesUntouched(trees: Trees, op: Op, ip: Ip)
    requires ip != (if op.Insert? then op.e.ip else op.ip)
    ensures Tree(Apply(trees, op), ip) == Tree(trees, ip)
  {
  }

  // ---------------------------------------------------------------------------------------------
  // When lazy eviction is invisible
  // ---------------------------------------------------------------------------------------------

  /** No earlier probe of `ip` looked past `at`. */
  ghost predicate ProbesUpTo(log: seq<Op>, ip: Ip, at: int) {
    forall k :: 0 <= k < |log| && log[k].Probe? && log[k].ip == ip ==> log[k].at <= at
  }

  /** The same history for an index that is never probed, hence never evicts. */
  function WithoutProbes(log: seq<Op>): seq<Op> {
    if log == [] then []
    else
      var front, op := WithoutProbes(log[..|log| - 1]), log[|log| - 1];
      if op.Probe? then front else front + [op]
  }

  lemma RetainedSnoc(log: seq<Op>, op: Op, ip: Ip, iv: Interval)
    ensures Retained(log + [op], ip, iv) <==>
            Adds(op, ip, iv) || (Retained(log, ip, iv) && !Stops(op, ip, iv))
  {
    var all := log + [op];
    if Adds(op, ip, iv) {
      assert all[|log|] == op;
    }
    if Retained(log, ip, iv) && !Stops(op, ip, iv) {
      var i :| 0 <= i < |log| && Adds(log[i], ip, iv) && forall j :: i < j < |log| ==> !Stops(log[j], ip, iv);
      assert all[i] == log[i];
    }
    if Retained(all, ip, iv) && !Adds(op, ip, iv) {
      var i :| 0 <= i < |all| && Adds(all[i], ip, iv) && forall j :: i < j < |all| ==> !Stops(all[j], ip, iv);
      assert all[|log|] == op;
      assert Adds(log[i], ip, iv);
      assert forall j :: i < j < |log| ==> log[j] == all[j];
    }
  }

  /** The never-evicting index holds exactly what the event log alone says. */
  lemma {:induction false} WithoutProbesIsRetained(log: seq<Op>, ip: Ip, iv: Interval)
    ensures iv in Tree(Run(WithoutProbes(log)), ip) <==> Retained(log, ip, iv)
  {
    if log != [] {
      var front, op := log[..|log| - 1], log[|log| - 1];
      WithoutProbesIsRetained(front, ip, iv);
      RetainedSnoc(front, op, ip, iv);
      assert front + [op] == log;
      if op.Insert? {
        var kept := WithoutProbes(front);
        assert WithoutProbes(log) == kept + [op] && (kept + [op])[..|kept|] == kept;
        ApplyTree(Run(kept), op, ip, iv);
      }
    }
  }

  /**
   At an instant that no earlier probe of the IP has passed, the evicting index offers exactly the
   candidates that the never-evicting one offers.
   */
  lemma EvictionInvisible(log: seq<Op>, ip: Ip, at: int)
    requires ProbesUpTo(log, ip, at)
    ensures Hits(Tree(Run(log), ip), at) == Hits(Tree(Run(WithoutProbes(log)), ip), at)
  {
    forall iv | Covers(iv, at)
      ensures iv in Tree(Run(log), ip) <==> iv in Tree(Run(WithoutProbes(log)), ip)
    {
      TreeIsLog(log, ip, iv);
      WithoutProbesIsRetained(log, ip, iv);
      if Retained(log, ip, iv) {
        var i :| 0 <= i < |log| && Adds(log[i], ip, iv) && forall j :: i < j < |log| ==> !Stops(log[j], ip, iv);
        assert forall j :: i < j < |log| ==> !Expires(log[j], ip, iv);
      }
    }
  }

  /** The latest insertion of `iv`. */
  ghost predicate LastAdded(log: seq<Op>, ip: Ip, iv: Interval, i: int) {
    0 <= i < |log| && Adds(log[i], ip, iv) && forall j :: i < j < |log| ==> !Adds(log[j], ip, iv)
  }

  /** After its latest insertion a probe looked at or past the end of `iv`. */
  ghost predicate Passed(log: seq<Op>, ip: Ip, iv: Interval) {
    exists i, j :: LastAdded(log, ip, iv, i) && i < j < |log| && Expires(log[j], ip, iv)
  }

  lemma {:induction false} LastAddedExists(log: seq<Op>, ip: Ip, iv: Interval, i: nat)
    requires i < |log| && Adds(log[i], ip, iv)
    ensures exists k :: i <= k && LastAdded(log, ip, iv, k)
    decreases |log| - i
  {
    if j :| i < j < |log| && Adds(log[j], ip, iv) {
      LastAddedExists(log, ip, iv, j);
    } else {
      assert LastAdded(log, ip, iv, i);
    }
  }

  /** What the event log retains is alive exactly when no probe has passed it since it last arrived. */
  lemma RetainedLivesIff(log: seq<Op>, ip: Ip, iv: Interval)
    requires Retained(log, ip, iv)
    ensures Lives(log, ip, iv) <==> !Passed(log, ip, iv)
  {
    var i :| 0 <= i < |log| && Adds(log[i], ip, iv) && forall j :: i < j < |log| ==> !Stops(log[j], ip, iv);
    LastAddedExists(log, ip, iv, i);
    var k :| i <= k && LastAdded(log, ip, iv, k);
    if Lives(log, ip, iv) {
      var m :| 0 <= m < |log| && Adds(log[m], ip, iv) &&
               forall j :: m < j < |log| ==> !Stops(log[j], ip, iv) && !Expires(log[j], ip, iv);
      assert m <= k;
    }
  }

  lemma LivesIsRetained(log: seq<Op>, ip: Ip, iv: Interval)
    requires Lives(log, ip, iv)
    ensures Retained(log, ip, iv)
  {
  }

  /**
   The exact condition, for every history and instant: eviction is invisible if and only if no
   binding that the event log retains and that covers the instant was passed by a probe since it
   last arrived.
   */
  lemma EvictionInvisibleIff(log: seq<Op>, ip: Ip, at: int)
    ensures Hits(Tree(Run(log), ip), at) == Hits(Tree(Run(WithoutProbes(log)), ip), at) <==>
            !exists iv :: Covers(iv, at) && Retained(log, ip, iv) && Passed(log, ip, iv)
  {
    hide Run, WithoutProbes, Lives, Retained, Passed;
    var a, b := Hits(Tree(Run(log), ip), at), Hits(Tree(Run(WithoutProbes(log)), ip), at);
    forall iv ensures (iv in a <==> Covers(iv, at) && Lives(log, ip, iv)) && (iv in b <==> Covers(iv, at) && Retained(log, ip, iv)) {
      TreeIsLog(log, ip, iv);
      WithoutProbesIsRetained(log, ip, iv);
    }
    forall iv ensures Lives(log, ip, iv) <==> Retained(log, ip, iv) && !Passed(log, ip, iv) {
      if Lives(log, ip, iv) { LivesIsRetained(log, ip, iv); }
      if Retained(log, ip, iv) { RetainedLivesIff(log, ip, iv); }
    }
    if a == b {
      forall iv | Covers(iv, at) && Retained(log, ip, iv) ensures !Passed(log, ip, iv) {
        assert iv in b;
      }
    }
  }

  /** Behind any earlier probe there is a history whose binding eviction has lost. */
  lemma EvictionVisible(ip: Ip, at: int, earlier: int) returns (e: Event)
    requires at < earlier
    ensures Accepted(e) && e.ip == ip
    ensures var log := [Insert(e), Probe(ip, earlier)];
            Hits(Tree(Run(log), ip), at) == {} && Hits(Tree(Run(WithoutProbes(log)), ip), at) == {IntervalOf(e)}
  {
    e := Event(ip, at, "logon", earlier - at, Some("user"), 90, "ad");
    var log := [Insert(e), Probe(ip, earlier)];
    assert log[..1] == [Insert(e)] && [Insert(e)][..0] == [];
    assert WithoutProbes([Insert(e)]) == [Insert(e)];
    assert WithoutProbes(log) == [Insert(e)];
    assert Tree(Run([]), ip) + {IntervalOf(e)} == {IntervalOf(e)};
    assert Run([Insert(e)]) == map[ip := {IntervalOf(e)}];
    forall iv ensures iv !in Tree(Run(log), ip) {
      ApplyTree(Run([Insert(e)]), log[1], ip, iv);
    }
  }

  // ---------------------------------------------------------------------------------------------
  // Choosing a binding
  // ---------------------------------------------------------------------------------------------

  ghost predicate IsBest(hits: set<Interval>, iv: Interval) {
    iv in hits && forall h :: h in hits ==> RanksBelow(h.data, iv.data)
  }

  lemma {:induction false} BestExists(hits: set<Interval>)
    requires hits != {}
    ensures exists iv :: IsBest(hits, iv)
  {
    var x :| x in hits;
    if hits == {x} {
      assert IsBest(hits, x);
    } else {
      var rest := hits - {x};
      assert exists y :: y in rest by {
        var y :| y in hits && y != x;
        assert y in rest;
      }
      BestExists(rest);
      var b :| IsBest(rest, b);
      assert hits == rest + {x};
      assert IsBest(hits, if RanksBelow(x.data, b.data) then b else x);
    }
  }

  function Hits(tree: set<Interval>, at: int): set<Interval> {
    set iv | iv in tree && Covers(iv, at)
  }

  datatype Answer = Answer(user: string, confidence: int, source: string, tStart: int, ttlRemaining: int)

  function AnswerFor(iv: Interval, at: int): Answer {
    Answer(iv.data.user, iv.data.confidence, iv.data.source, iv.data.tStart, iv.end - at)
  }

  /** `a` is an answer the resolution rule allows on a set of bindings. */
  ghost predicate Resolves(a: Option<Answer>, hits: set<Interval>, at: int) {
    match a
    case None => hits == {}
    case Some(x) => exists iv :: IsBest(hits, iv) && x == AnswerFor(iv, at)
  }

  // ---------------------------------------------------------------------------------------------
  // Size
  // ---------------------------------------------------------------------------------------------

  function Pairs(ip: Ip, tree: set<Interval>): set<(Ip, Interval)> {
    set iv | iv in tree :: (ip, iv)
  }

  /** Every (IP, binding) the index holds. */
  function Bindings(trees: Trees): set<(Ip, Interval)> {
    set ip, iv | ip in trees && iv in trees[ip] :: (ip, iv)
  }

  lemma {:induction false} PairsSize(ip: Ip, tree: set<Interval>)
    ensures |Pairs(ip, tree)| == |tree|
    decreases |tree|
  {
    if tree != {} {
      var iv :| iv in tree;
      PairsSize(ip, tree - {iv});
      assert Pairs(ip, tree) == Pairs(ip, tree - {iv}) + {(ip, iv)};
    }
  }

  /** The counted set is exactly what the log says is alive. */
  lemma BindingsAreLog(log: seq<Op>, ip: Ip, iv: Interval)
    ensures (ip, iv) in Bindings(Run(log)) <==> Lives(log, ip, iv)
  {
    TreeIsLog(log, ip, iv);
  }

  // ---------------------------------------------------------------------------------------------
  // The object
  // ---------------------------------------------------------------------------------------------

  class IdentityIndex {
    var trees: Trees
    ghost var log: seq<Op>

    ghost predicate Valid()
      reads this
    {
      trees == Run(log)
    }

    constructor ()
      ensures Valid() && log == []
    {
      trees, log := map[], [];
    }

    /** `ok` is false when the source raises; even then the IP has a (possibly empty) tree. */
    method Insert(e: Event) returns (ok: bool)
      requires Valid()
      modifies this
      ensures Valid() && log == old(log) + [Op.Insert(e)]
      ensures trees == Inserted(old(trees), e)
      ensures ok <==> IsStop(e) || Accepted(e)
    {
      log := log + [Op.Insert(e)];
      assert log[..|log| - 1] == old(log);
      if e.eventType == STOP || e.ttl == 0 {
        Invalidate(e.ip, e.user);
        return true;
      }
      var tree := if e.ip in trees then trees[e.ip] else {};
      ok := e.user.Some? && e.ts < e.ts + e.ttl;
      if ok {
        tree := tree + {Interval(e.ts, e.ts + e.ttl, Binding(e.user.value, e.confidence, e.source, e.ts))};
      }
      assert tree == Tree(trees, e.ip) + if Accepted(e) then {IntervalOf(e)} else {};
      trees := trees[e.ip := tree];
    }

    method Invalidate(ip: Ip, user: Option<string>)
      modifies this`trees
      ensures trees == Invalidated(old(trees), ip, user)
    {
      if ip !in trees || trees[ip] == {} {
        return;
      }
      ghost var kept := set iv | iv in trees[ip] && user.Some? && iv.data.user != user.value;
      if user.None? {
        assert kept == {};
        trees := trees[ip := {}];
        return;
      }
      var tree, todo := trees[ip], trees[ip];
      while todo != {}
        invariant todo <= trees[ip]
        invariant tree == set iv | iv in trees[ip] && (iv in todo || iv.data.user != user.value)
        decreases |todo|
      {
        var iv :| iv in todo;
        todo := todo - {iv};
        if iv.data.user == user.value {
          tree := tree - {iv};
        }
      }
      assert tree == kept;
      trees := trees[ip := tree];
    }

    /** Lazy eviction. */
    static method Unexpired(all: set<Interval>, at: int) returns (tree: set<Interval>)
      ensures tree == set iv | iv in all && iv.end > at
    {
      tree := all;
      var todo := all;
      while todo != {}
        invariant todo <= all
        invariant tree == set iv | iv in all && (iv in todo || iv.end > at)
        decreases |todo|
      {
        var iv :| iv in todo;
        todo := todo - {iv};
        if iv.end <= at {
          tree := tree - {iv};
        }
      }
    }

    /** The binding of highest (confidence, start) among those alive at `at`, or None when there is none. */
    method Resolve(ip: Ip, at: int) returns (r: Option<Answer>)
      requires Valid()
      modifies this
      ensures Valid() && log == old(log) + [Probe(ip, at)]
      ensures trees == Probed(old(trees), ip, at)
      ensures Resolves(r, Hits(Tree(old(trees), ip), at), at)
    {
      log := log + [Probe(ip, at)];
      assert log[..|log| - 1] == old(log);
      if ip !in trees || trees[ip] == {} {
        return None;
      }
      ghost var before := trees[ip];
      var tree := Unexpired(trees[ip], at);
      if tree == {} {
        trees := trees - {ip};
        assert forall iv :: iv in Hits(before, at) ==> iv in tree;
        return None;
      }
      trees := trees[ip := tree];
      var hits := Hits(tree, at);
      assert hits == Hits(before, at);
      if hits == {} {
        return None;
      }
      BestExists(hits);
      var best :| best in hits && forall h :: h in hits ==> RanksBelow(h.data, best.data);
      assert IsBest(hits, best);
      return Some(AnswerFor(best, at));
    }

    /** The number of (IP, binding) pairs held. */
    method Size() returns (n: nat)
      ensures n == |Bindings(trees)|
    {
      n := 0;
      var todo := trees.Keys;
      ghost var counted: set<(Ip, Interval)> := {};
      while todo != {}
        invariant todo <= trees.Keys
        invariant counted == set p | p in Bindings(trees) && p.0 !in todo
        invariant n == |counted|
        decreases |todo|
      {
        var ip :| ip in todo;
        PairsSize(ip, trees[ip]);
        todo := todo - {ip};
        counted := counted + Pairs(ip, trees[ip]);
        n := n + |trees[ip]|;
      }
      assert counted == Bindings(trees);
    }
  }
}
