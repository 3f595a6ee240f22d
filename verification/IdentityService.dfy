/**
 The api's point-in-time resolution over the stored events, and how far it agrees with the
 correlator's index.  The query is read as a filter, an order and its first row.
 */
module IdentityService {
  import opened Prelude
  import opened Identity

  /** The WHERE clause. */
  predicate Matches(e: Event, ip: Ip, at: int) {
    e.ip == ip && e.ts <= at && at <= e.ts + e.ttl && e.eventType != STOP
  }

  /** `e` may be the row the query returns: it matches and no matching row is ordered before it. */
  ghost predicate Selects(log: seq<Op>, ip: Ip, at: int, e: Event) {
    Insert(e) in log && Matches(e, ip, at) &&
    forall f :: Insert(f) in log && Matches(f, ip, at) ==>
      f.confidence < e.confidence || (f.confidence == e.confidence && f.ts <= e.ts)
  }

  function TtlRemaining(e: Event, at: int): int { Max(0, e.ttl - (at - e.ts)) }

  /** A history of logons only: no stop, no zero time to live, every user named. */
  ghost predicate LogonsOnly(log: seq<Op>, ip: Ip) {
    forall e :: Insert(e) in log && e.ip == ip ==> !IsStop(e) && e.user.Some?
  }

  ghost predicate NoneEndsAt(log: seq<Op>, ip: Ip, at: int) {
    forall e :: Insert(e) in log && e.ip == ip ==> e.ts + e.ttl != at
  }

  /** Whatever the history, each of the index's candidates is the interval of a matching row. */
  lemma HitIsRow(log: seq<Op>, ip: Ip, at: int, iv: Interval)
    requires iv in Hits(Tree(Run(log), ip), at)
    ensures exists e :: Insert(e) in log && Matches(e, ip, at) && Accepted(e) && IntervalOf(e) == iv
  {
    TreeIsLog(log, ip, iv);
    var i :| 0 <= i < |log| && Adds(log[i], ip, iv);
    assert Insert(log[i].e) in log;
  }

  /** The row still counts for the index: named user, not yet at its end, and since it last arrived neither stopped nor evicted. */
  ghost predicate StillBinding(log: seq<Op>, at: int, e: Event) {
    e.user.Some? && at < e.ts + e.ttl &&
    Lives(log, e.ip, Interval(e.ts, e.ts + e.ttl, Binding(e.user.value, e.confidence, e.source, e.ts)))
  }

  /** A row that matches the query and still counts for the index. */
  ghost predicate LiveRow(log: seq<Op>, ip: Ip, at: int, e: Event) {
    Insert(e) in log && Matches(e, ip, at) && StillBinding(log, at, e)
  }

  /** For every history and instant: the index's candidates are the intervals of exactly the live rows. */
  lemma HitsAreBinding(log: seq<Op>, ip: Ip, at: int, iv: Interval)
    ensures iv in Hits(Tree(Run(log), ip), at) <==> exists e :: LiveRow(log, ip, at, e) && IntervalOf(e) == iv
  {
    TreeIsLog(log, ip, iv);
    if iv in Hits(Tree(Run(log), ip), at) {
      HitIsRow(log, ip, at, iv);
    }
  }

  /** A matching row is a candidate of the index exactly when it is still binding. */
  lemma RowIsHit(log: seq<Op>, ip: Ip, at: int, e: Event)
    requires Insert(e) in log && Matches(e, ip, at)
    ensures Accepted(e) && IntervalOf(e) in Hits(Tree(Run(log), ip), at) <==> StillBinding(log, at, e)
  {
    if Accepted(e) {
      HitsAreBinding(log, ip, at, IntervalOf(e));
    }
  }

  /**
   Index and query choose from the same candidates if and only if no matching row is at its very
   end, stopped, evicted, or without a user.
   */
  lemma SameCandidatesIff(log: seq<Op>, ip: Ip, at: int)
    ensures (forall e :: Insert(e) in log && Matches(e, ip, at) ==>
               Accepted(e) && IntervalOf(e) in Hits(Tree(Run(log), ip), at))
            <==> (forall e :: Insert(e) in log && Matches(e, ip, at) ==> StillBinding(log, at, e))
  {
    hide StillBinding;
    forall e | Insert(e) in log && Matches(e, ip, at)
      ensures Accepted(e) && IntervalOf(e) in Hits(Tree(Run(log), ip), at) <==> StillBinding(log, at, e)
    {
      RowIsHit(log, ip, at, e);
    }
  }

  /** At an instant no probe has passed, only stops and ends count: eviction plays no part. */
  lemma BindingUnprobed(log: seq<Op>, ip: Ip, at: int, e: Event)
    requires ProbesUpTo(log, ip, at) && e.ip == ip && Accepted(e) && e.ts <= at
    ensures StillBinding(log, at, e) <==> at < e.ts + e.ttl && Retained(log, ip, IntervalOf(e))
  {
    var iv := IntervalOf(e);
    TreeIsLog(log, ip, iv);
    WithoutProbesIsRetained(log, ip, iv);
    EvictionInvisible(log, ip, at);
    hide Lives, Retained, Run, WithoutProbes;
    if at < iv.end {
      assert iv in Hits(Tree(Run(log), ip), at) <==> iv in Hits(Tree(Run(WithoutProbes(log)), ip), at);
    }
  }

  // ---------------------------------------------------------------------------------------------
  // Answers
  // ---------------------------------------------------------------------------------------------

  predicate Tied(e: Event, f: Event) { f.confidence == e.confidence && f.ts == e.ts }

  predicate SameRank(iv: Interval, e: Event) { iv.data.confidence == e.confidence && iv.data.tStart == e.ts }

  /** `f` is a live row of the confidence of `e`, and no live row of that confidence starts later. */
  ghost predicate Latest(log: seq<Op>, ip: Ip, at: int, e: Event, f: Event) {
    && LiveRow(log, ip, at, f) && f.confidence == e.confidence
    && forall g :: LiveRow(log, ip, at, g) && g.confidence == e.confidence ==> g.ts <= f.ts
  }

  /** When the query returns `e`, the index's best bindings of that confidence are its latest live rows. */
  lemma BestAreLatest(log: seq<Op>, ip: Ip, at: int, e: Event, iv: Interval)
    requires Selects(log, ip, at, e)
    ensures IsBest(Hits(Tree(Run(log), ip), at), iv) && iv.data.confidence == e.confidence <==>
            exists f :: Latest(log, ip, at, e, f) && IntervalOf(f) == iv
  {
    hide Lives, Run;
    var hits := Hits(Tree(Run(log), ip), at);
    HitsAreBinding(log, ip, at, iv);
    if IsBest(hits, iv) && iv.data.confidence == e.confidence {
      var f :| LiveRow(log, ip, at, f) && IntervalOf(f) == iv;
      forall g | LiveRow(log, ip, at, g) && g.confidence == e.confidence ensures g.ts <= f.ts {
        RowIsHit(log, ip, at, g);
      }
      assert Latest(log, ip, at, e, f);
    }
    if f :| Latest(log, ip, at, e, f) && IntervalOf(f) == iv {
      forall h | h in hits ensures RanksBelow(h.data, iv.data) {
        HitsAreBinding(log, ip, at, h);
      }
    }
  }

  /** When some live row has the confidence of `e`, every best binding of the index has it. */
  lemma BestHasConfidence(log: seq<Op>, ip: Ip, at: int, e: Event, g: Event, iv: Interval)
    requires Selects(log, ip, at, e) && LiveRow(log, ip, at, g) && g.confidence == e.confidence
    requires IsBest(Hits(Tree(Run(log), ip), at), iv)
    ensures iv.data.confidence == e.confidence
  {
    hide Lives, Run;
    RowIsHit(log, ip, at, g);
    HitIsRow(log, ip, at, iv);
  }

  /**
   The exact condition on rank, for every history and instant: the index's best binding has the
   confidence and start of the row the query returns if and only if some row of that confidence and
   start is still binding.  Then all its best bindings do.
   */
  lemma AnswersAgreeIff(log: seq<Op>, ip: Ip, at: int, e: Event)
    requires Selects(log, ip, at, e)
    ensures (exists iv :: IsBest(Hits(Tree(Run(log), ip), at), iv) && SameRank(iv, e)) <==>
            (exists f :: LiveRow(log, ip, at, f) && Tied(e, f))
    ensures (exists f :: LiveRow(log, ip, at, f) && Tied(e, f)) ==>
            forall iv :: IsBest(Hits(Tree(Run(log), ip), at), iv) ==> SameRank(iv, e)
  {
    hide Lives, Run;
    var hits := Hits(Tree(Run(log), ip), at);
    if iv :| IsBest(hits, iv) && SameRank(iv, e) {
      HitsAreBinding(log, ip, at, iv);
    }
    if f :| LiveRow(log, ip, at, f) && Tied(e, f) {
      assert Latest(log, ip, at, e, f);
      BestAreLatest(log, ip, at, e, IntervalOf(f));
      forall iv | IsBest(hits, iv) ensures SameRank(iv, e) {
        assert RanksBelow(IntervalOf(f).data, iv.data) && RanksBelow(iv.data, IntervalOf(f).data);
      }
    }
  }

  /** The index answers nothing exactly when no matching row is still binding. */
  lemma SilentIff(log: seq<Op>, ip: Ip, at: int)
    ensures Hits(Tree(Run(log), ip), at) == {} <==> !exists e :: LiveRow(log, ip, at, e)
  {
    hide StillBinding, Run;
    if e :| LiveRow(log, ip, at, e) {
      RowIsHit(log, ip, at, e);
    }
    if iv :| iv in Hits(Tree(Run(log), ip), at) {
      HitsAreBinding(log, ip, at, iv);
    }
  }

  /** No live row has a higher confidence, or the same and a later start. */
  ghost predicate Foremost(log: seq<Op>, ip: Ip, at: int, e: Event) {
    && LiveRow(log, ip, at, e)
    && forall f :: LiveRow(log, ip, at, f) ==> f.confidence < e.confidence || (f.confidence == e.confidence && f.ts <= e.ts)
  }

  /**
   The index's answers, field by field, for every history and instant: user, confidence, source and
   start of a live row that no live row outranks, and the time until its end.
   */
  lemma IndexAnswersIff(log: seq<Op>, ip: Ip, at: int, a: Answer)
    ensures Resolves(Some(a), Hits(Tree(Run(log), ip), at), at) <==>
            exists e :: && Foremost(log, ip, at, e) && e.user == Some(a.user) && e.confidence == a.confidence
                        && e.source == a.source && e.ts == a.tStart && e.ts + e.ttl == at + a.ttlRemaining
  {
    hide Lives, Run;
    var hits := Hits(Tree(Run(log), ip), at);
    if iv :| IsBest(hits, iv) && a == AnswerFor(iv, at) {
      HitsAreBinding(log, ip, at, iv);
      var e :| LiveRow(log, ip, at, e) && IntervalOf(e) == iv;
      forall f | LiveRow(log, ip, at, f) ensures f.confidence < e.confidence || (f.confidence == e.confidence && f.ts <= e.ts) {
        RowIsHit(log, ip, at, f);
      }
      assert Foremost(log, ip, at, e);
    }
    if e :| && Foremost(log, ip, at, e) && e.user == Some(a.user) && e.confidence == a.confidence
            && e.source == a.source && e.ts == a.tStart && e.ts + e.ttl == at + a.ttlRemaining {
      var iv := IntervalOf(e);
      RowIsHit(log, ip, at, e);
      forall h | h in hits ensures RanksBelow(h.data, iv.data) {
        HitsAreBinding(log, ip, at, h);
      }
      assert IsBest(hits, iv) && a == AnswerFor(iv, at);
    }
  }

  /** The fields that both services return: user, confidence, source and remaining time. */
  predicate SameReply(a: Answer, e: Event, at: int) {
    && Some(a.user) == e.user && a.confidence == e.confidence && a.source == e.source
    && a.ttlRemaining == TtlRemaining(e, at)
  }

  predicate SameFields(e: Event, f: Event) {
    f.user == e.user && f.source == e.source && f.ts + f.ttl == e.ts + e.ttl
  }

  lemma ReplyOf(ip: Ip, at: int, e: Event, f: Event)
    requires Matches(e, ip, at) && Accepted(f) && f.confidence == e.confidence
    ensures SameReply(AnswerFor(IntervalOf(f), at), e, at) <==> SameFields(e, f)
  {
  }

  /**
   The exact condition on what the services return, for every history and instant: the index may
   reply what the service replies from the row `e` if and only if some latest live row of that
   confidence has the user, source and end of `e`.
   */
  lemma SameAnswerIff(log: seq<Op>, ip: Ip, at: int, e: Event)
    requires Selects(log, ip, at, e)
    ensures (exists a :: Resolves(Some(a), Hits(Tree(Run(log), ip), at), at) && SameReply(a, e, at)) <==>
            (exists f :: Latest(log, ip, at, e, f) && SameFields(e, f))
  {
    hide Lives, Run;
    var hits := Hits(Tree(Run(log), ip), at);
    if a :| Resolves(Some(a), hits, at) && SameReply(a, e, at) {
      var iv :| IsBest(hits, iv) && a == AnswerFor(iv, at);
      BestAreLatest(log, ip, at, e, iv);
      var f :| Latest(log, ip, at, e, f) && IntervalOf(f) == iv;
      ReplyOf(ip, at, e, f);
    }
    if f :| Latest(log, ip, at, e, f) && SameFields(e, f) {
      BestAreLatest(log, ip, at, e, IntervalOf(f));
      ReplyOf(ip, at, e, f);
      assert Resolves(Some(AnswerFor(IntervalOf(f), at)), hits, at);
    }
  }

  /** And it can reply nothing else if and only if there is such a row and all of them agree with `e`. */
  lemma OnlyAnswerIff(log: seq<Op>, ip: Ip, at: int, e: Event)
    requires Selects(log, ip, at, e)
    ensures (forall a :: Resolves(a, Hits(Tree(Run(log), ip), at), at) ==> a.Some? && SameReply(a.value, e, at)) <==>
            (exists f :: Latest(log, ip, at, e, f)) && (forall f :: Latest(log, ip, at, e, f) ==> SameFields(e, f))
  {
    hide Lives, Run;
    var hits := Hits(Tree(Run(log), ip), at);
    if forall a :: Resolves(a, hits, at) ==> a.Some? && SameReply(a.value, e, at) {
      forall f | Latest(log, ip, at, e, f) ensures SameFields(e, f) {
        BestAreLatest(log, ip, at, e, IntervalOf(f));
        ReplyOf(ip, at, e, f);
        assert Resolves(Some(AnswerFor(IntervalOf(f), at)), hits, at);
      }
      assert hits != {} by { assert Resolves(None, hits, at) <==> hits == {}; }
      BestExists(hits);
      var iv :| IsBest(hits, iv);
      assert Resolves(Some(AnswerFor(iv, at)), hits, at);
      BestAreLatest(log, ip, at, e, iv);
    }
    if (exists f :: Latest(log, ip, at, e, f)) && (forall f :: Latest(log, ip, at, e, f) ==> SameFields(e, f)) {
      var g :| Latest(log, ip, at, e, g);
      RowIsHit(log, ip, at, g);
      forall iv | IsBest(hits, iv) ensures SameReply(AnswerFor(iv, at), e, at) {
        BestHasConfidence(log, ip, at, e, g, iv);
        BestAreLatest(log, ip, at, e, iv);
        var f :| Latest(log, ip, at, e, f) && IntervalOf(f) == iv;
        ReplyOf(ip, at, e, f);
      }
    }
  }

  /** The same reply need not come from the row returned: a late logon may take over a stopped one. */
  lemma SameReplyOtherRow()
    ensures exists log, ip, at, e ::
              Selects(log, ip, at, e) && !StillBinding(log, at, e) &&
              exists a :: Resolves(Some(a), Hits(Tree(Run(log), ip), at), at) && SameReply(a, e, at)
  {
    hide Run;
    var e := Event("h", 5, "logon", 10, Some("ann"), 90, "ad");
    var stop := e.(eventType := STOP);
    var f := e.(ts := 3, ttl := 12);
    var log := [Insert(e), Insert(stop), Insert(f)];
    assert log[0] == Insert(e) && log[1] == Insert(stop) && log[2] == Insert(f);
    assert Selects(log, "h", 7, e);
    assert Stops(log[1], "h", IntervalOf(e)) && !Adds(log[2], "h", IntervalOf(e));
    assert !StillBinding(log, 7, e);
    assert Adds(log[2], "h", IntervalOf(f));
    assert LiveRow(log, "h", 7, f);
    forall g | LiveRow(log, "h", 7, g) ensures g.ts <= f.ts {
      assert g == e || g == stop || g == f;
    }
    assert Latest(log, "h", 7, e, f);
    SameAnswerIff(log, "h", 7, e);
  }

  /** In a logon history, off any end, every matching row is still binding. */
  lemma LogonsBind(log: seq<Op>, ip: Ip, at: int, e: Event)
    requires LogonsOnly(log, ip) && NoneEndsAt(log, ip, at) && ProbesUpTo(log, ip, at)
    requires Insert(e) in log && Matches(e, ip, at)
    ensures LiveRow(log, ip, at, e)
  {
    var i :| 0 <= i < |log| && log[i] == Insert(e);
    assert Adds(log[i], ip, IntervalOf(e));
    forall j | i < j < |log| ensures !Stops(log[j], ip, IntervalOf(e)) && !Expires(log[j], ip, IntervalOf(e)) {
      if log[j].Insert? { assert Insert(log[j].e) in log; }
    }
  }

  /** On such histories the index's candidates are the intervals of exactly the matching rows. */
  lemma HitsAreRows(log: seq<Op>, ip: Ip, at: int, iv: Interval)
    requires LogonsOnly(log, ip) && NoneEndsAt(log, ip, at) && ProbesUpTo(log, ip, at)
    ensures iv in Hits(Tree(Run(log), ip), at) <==>
            exists e :: Insert(e) in log && Matches(e, ip, at) && Accepted(e) && IntervalOf(e) == iv
  {
    hide Run, Lives;
    HitsAreBinding(log, ip, at, iv);
    if e :| Insert(e) in log && Matches(e, ip, at) && Accepted(e) && IntervalOf(e) == iv {
      LogonsBind(log, ip, at, e);
    }
  }

  /** Both answer, or neither does. */
  lemma BothAnswer(log: seq<Op>, ip: Ip, at: int)
    requires LogonsOnly(log, ip) && NoneEndsAt(log, ip, at) && ProbesUpTo(log, ip, at)
    ensures Hits(Tree(Run(log), ip), at) == {} <==> !exists e :: Insert(e) in log && Matches(e, ip, at)
  {
    hide StillBinding, Run;
    SilentIff(log, ip, at);
    if e :| Insert(e) in log && Matches(e, ip, at) {
      LogonsBind(log, ip, at, e);
    }
  }

  /**
   Whatever the index chooses and whatever row the service returns, they have the same confidence
   and start; and the same user, or the same remaining time, when equally ranked rows share it.
   */
  lemma AgreesWithIndex(log: seq<Op>, ip: Ip, at: int, iv: Interval, e: Event)
    requires LogonsOnly(log, ip) && NoneEndsAt(log, ip, at) && ProbesUpTo(log, ip, at)
    requires IsBest(Hits(Tree(Run(log), ip), at), iv) && Selects(log, ip, at, e)
    ensures SameRank(iv, e)
    ensures (forall f :: Insert(f) in log && Matches(f, ip, at) && Tied(e, f) ==> f.ttl == e.ttl)
            ==> AnswerFor(iv, at).ttlRemaining == TtlRemaining(e, at)
    ensures (forall f :: Insert(f) in log && Matches(f, ip, at) && Tied(e, f) ==> f.user == e.user)
            ==> Some(AnswerFor(iv, at).user) == e.user
  {
    hide Run, Lives;
    LogonsBind(log, ip, at, e);
    AnswersAgreeIff(log, ip, at, e);
    HitsAreBinding(log, ip, at, iv);
  }

  /** Without the tie hypotheses they may name different users, for different times. */
  lemma TiedRowsDisagree()
    ensures exists log, ip, at, iv, e ::
              LogonsOnly(log, ip) && NoneEndsAt(log, ip, at) && ProbesUpTo(log, ip, at) &&
              IsBest(Hits(Tree(Run(log), ip), at), iv) && Selects(log, ip, at, e) &&
              Some(AnswerFor(iv, at).user) != e.user && AnswerFor(iv, at).ttlRemaining != TtlRemaining(e, at)
  {
    hide Run, Lives;
    var a := Event("h", 0, "logon", 10, Some("ann"), 90, "ad");
    var b := a.(ttl := 20, user := Some("bob"));
    var log := [Insert(a), Insert(b)];
    assert log[0] == Insert(a) && log[1] == Insert(b);
    assert Selects(log, "h", 5, b);
    LogonsBind(log, "h", 5, a);
    LogonsBind(log, "h", 5, b);
    assert Latest(log, "h", 5, b, a);
    BestAreLatest(log, "h", 5, b, IntervalOf(a));
  }

  /** At the very end of a time to live the service still answers and the index no longer does. */
  lemma DisagreeOnTtlEnd(e: Event)
    requires Accepted(e)
    ensures Selects([Insert(e)], e.ip, e.ts + e.ttl, e)
    ensures Hits(Tree(Run([Insert(e)]), e.ip), e.ts + e.ttl) == {}
  {
    var log := [Insert(e)];
    assert log[..0] == [];
    assert log[0] == Insert(e);
  }

  /** The service does not see stop events: it goes on naming a user whose binding the index removed. */
  lemma DisagreeAfterStop(e: Event, stop: Event, at: int)
    requires Accepted(e) && stop.ip == e.ip && stop.eventType == STOP && stop.user == e.user
    requires e.ts <= at <= e.ts + e.ttl
    ensures Selects([Insert(e), Insert(stop)], e.ip, at, e)
    ensures Tree(Run([Insert(e), Insert(stop)]), e.ip) == {}
  {
    var log := [Insert(e), Insert(stop)];
    assert log[0] == Insert(e);
    forall iv ensures iv !in Tree(Run(log), e.ip) {
      TreeIsLog(log, e.ip, iv);
    }
  }
}
