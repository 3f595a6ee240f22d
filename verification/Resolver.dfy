/**
 The PTR resolver worker: a token bucket, and the cache protocol that keeps lookups of one address
 apart.  Clock readings are reals supplied by the environment.
 */
module Resolver {
  import opened Prelude
  import C = Catalogue

  // ---------------------------------------------------------------------------------------------
  // Token bucket
  // ---------------------------------------------------------------------------------------------

  type Rate = r: real | r > 0.0 witness 1.0

  function MinReal(a: real, b: real): real { if a < b then a else b }

  function Capacity(rate: Rate): real { if rate > 1.0 then rate else 1.0 }

  datatype Bucket = Bucket(tokens: real, last: real)

  /** Clock readings of one `take`: on entry, and on waking up if it has to sleep. */
  datatype Call = Call(now: real, wake: real)

  function Refilled(b: Bucket, now: real, rate: Rate): real {
    MinReal(Capacity(rate), b.tokens + (now - b.last) * rate)
  }

  predicate Sleeps(b: Bucket, c: Call, rate: Rate) { Refilled(b, c.now, rate) < 1.0 }

  function Taken(b: Bucket, c: Call, rate: Rate): Bucket {
    if Sleeps(b, c, rate) then Bucket(0.0, c.wake) else Bucket(Refilled(b, c.now, rate) - 1.0, c.now)
  }

  function GrantTime(b: Bucket, c: Call, rate: Rate): real { if Sleeps(b, c, rate) then c.wake else c.now }

  /** The clock does not run backwards and a sleep lasts at least as long as asked. */
  predicate Timely(b: Bucket, c: Call, rate: Rate) {
    b.last <= c.now &&
    (Sleeps(b, c, rate) ==> c.wake >= c.now + (1.0 - Refilled(b, c.now, rate)) / rate)
  }

  predicate Level(b: Bucket, rate: Rate) { 0.0 <= b.tokens <= Capacity(rate) }

  /** The bucket after a run of calls; the lock makes them sequential. */
  function After(rate: Rate, start: real, cs: seq<Call>): Bucket {
    if cs == [] then Bucket(Capacity(rate), start)
    else Taken(After(rate, start, cs[..|cs| - 1]), cs[|cs| - 1], rate)
  }

  function Grant(rate: Rate, start: real, cs: seq<Call>, i: nat): real
    requires i < |cs|
  {
    GrantTime(After(rate, start, cs[..i]), cs[i], rate)
  }

  ghost predicate TimelyRun(rate: Rate, start: real, cs: seq<Call>) {
    forall i :: 0 <= i < |cs| ==> Timely(After(rate, start, cs[..i]), cs[i], rate)
  }

  /** Tokens that flow in during `dt`. */
  function Earned(rate: real, dt: real): real { rate * dt }

  lemma ProductNonNegative(a: real, b: real)
    requires a >= 0.0 && b >= 0.0
    ensures a * b >= 0.0
  {
  }

  /** One call pays for its grant with tokens or with time. */
  lemma TakePays(b: Bucket, c: Call, rate: Rate)
    requires Level(b, rate) && Timely(b, c, rate)
    ensures Level(Taken(b, c, rate), rate) && Taken(b, c, rate).last == GrantTime(b, c, rate)
    ensures Taken(b, c, rate).tokens + 1.0 <= b.tokens + Earned(rate, GrantTime(b, c, rate) - b.last)
    ensures Taken(b, c, rate).tokens + 1.0 <= Capacity(rate)
  {
    ProductNonNegative(c.now - b.last, rate);
    EarnedIs(rate, c.now - b.last);
    if Sleeps(b, c, rate) {
      SleepEarns(rate, 1.0 - Refilled(b, c.now, rate), c.wake - c.now);
      EarnedAdds(rate, c.wake - c.now, c.now - b.last);
      hide Earned;
      assert c.wake - b.last == (c.wake - c.now) + (c.now - b.last);
    }
  }

  lemma EarnedIs(rate: real, dt: real)
    ensures Earned(rate, dt) == dt * rate
  {
  }

  lemma EarnedAdds(rate: real, a: real, b: real)
    ensures Earned(rate, a + b) == Earned(rate, a) + Earned(rate, b)
  {
  }

  /** Sleeping for the missing tokens earns at least those. */
  lemma SleepEarns(rate: Rate, missing: real, slept: real)
    requires slept >= missing / rate
    ensures Earned(rate, slept) >= missing
  {
    var wait := missing / rate;
    assert wait * rate == missing;
    ProductNonNegative(slept - wait, rate);
    assert (slept - wait) * rate == slept * rate - wait * rate;
  }

  lemma {:induction false} LevelAlways(rate: Rate, start: real, cs: seq<Call>, n: nat)
    requires TimelyRun(rate, start, cs) && n <= |cs|
    ensures Level(After(rate, start, cs[..n]), rate)
    ensures n > 0 ==> After(rate, start, cs[..n]).last == Grant(rate, start, cs, n - 1)
  {
    if n > 0 {
      LevelAlways(rate, start, cs, n - 1);
      assert cs[..n][..n - 1] == cs[..n - 1];
      TakePays(After(rate, start, cs[..n - 1]), cs[n - 1], rate);
    }
  }

  lemma {:induction false} WindowPays(rate: Rate, start: real, cs: seq<Call>, i: nat, j: nat)
    requires TimelyRun(rate, start, cs) && i <= j < |cs|
    ensures After(rate, start, cs[..j + 1]).tokens + (j - i + 1) as real
            <= Capacity(rate) + Earned(rate, Grant(rate, start, cs, j) - Grant(rate, start, cs, i))
    decreases j
  {
    hide *;
    StepPays(rate, start, cs, j);
    var gi, gj := Grant(rate, start, cs, i), Grant(rate, start, cs, j);
    if i < j {
      WindowPays(rate, start, cs, i, j - 1);
      Telescopes(rate, gi, Grant(rate, start, cs, j - 1), gj, After(rate, start, cs[..j]).tokens,
                 After(rate, start, cs[..j + 1]).tokens, Capacity(rate), (j - i) as real);
    } else {
      EarnedNothing(rate);
    }
  }

  /** `TakePays` at the j-th call of a run. */
  lemma StepPays(rate: Rate, start: real, cs: seq<Call>, j: nat)
    requires TimelyRun(rate, start, cs) && j < |cs|
    ensures var b, b' := After(rate, start, cs[..j]), After(rate, start, cs[..j + 1]);
            && b'.tokens + 1.0 <= Capacity(rate)
            && (j > 0 ==> b'.tokens + 1.0 <=
                          b.tokens + Earned(rate, Grant(rate, start, cs, j) - Grant(rate, start, cs, j - 1)))
  {
    LevelAlways(rate, start, cs, j);
    AfterSnoc(rate, start, cs, j);
    TakePays(After(rate, start, cs[..j]), cs[j], rate);
    hide Taken, GrantTime, Earned, After;
  }

  lemma EarnedNothing(rate: real)
    ensures Earned(rate, 0.0) == 0.0
  {
  }

  lemma Telescopes(rate: real, gi: real, gk: real, gj: real, before: real, after: real, cap: real, n: real)
    requires before + n <= cap + Earned(rate, gk - gi) && after + 1.0 <= before + Earned(rate, gj - gk)
    ensures after + (n + 1.0) <= cap + Earned(rate, gj - gi)
  {
    assert rate * (gj - gi) == rate * (gj - gk) + rate * (gk - gi);
  }

  lemma AfterSnoc(rate: Rate, start: real, cs: seq<Call>, j: nat)
    requires j < |cs|
    ensures After(rate, start, cs[..j + 1]) == Taken(After(rate, start, cs[..j]), cs[j], rate)
  {
    assert cs[..j + 1][..j] == cs[..j];
  }

  /** In every window of every run: n grants need time (n - capacity) / rate at least. */
  lemma RateBound(rate: Rate, start: real, cs: seq<Call>, i: nat, j: nat)
    requires TimelyRun(rate, start, cs) && i <= j < |cs|
    ensures (j - i + 1) as real <= Capacity(rate) + rate * (Grant(rate, start, cs, j) - Grant(rate, start, cs, i))
  {
    WindowPays(rate, start, cs, i, j);
    LevelAlways(rate, start, cs, j + 1);
  }

  // ---------------------------------------------------------------------------------------------
  // The other half: what the bucket must grant
  // ---------------------------------------------------------------------------------------------

  /** A call that finds a whole token is granted at once and leaves the rest; any other waits and leaves nothing. */
  lemma GrantIs(b: Bucket, c: Call, rate: Rate)
    requires Level(b, rate) && b.last <= c.now
    ensures if b.tokens + rate * (c.now - b.last) >= 1.0 then
              var kept := MinReal(if rate > 1.0 then rate else 1.0, b.tokens + rate * (c.now - b.last)) - 1.0;
              GrantTime(b, c, rate) == c.now && Taken(b, c, rate) == Bucket(kept, c.now)
            else GrantTime(b, c, rate) == c.wake && Taken(b, c, rate) == Bucket(0.0, c.wake)
  {
    assert rate * (c.now - b.last) == (c.now - b.last) * rate;
  }

  /** In a timely call: granted on entry if and only if a whole token was owed. */
  lemma AtOnceIff(b: Bucket, c: Call, rate: Rate)
    requires Level(b, rate) && Timely(b, c, rate)
    ensures GrantTime(b, c, rate) == c.now <==> b.tokens + rate * (c.now - b.last) >= 1.0
  {
    assert rate * (c.now - b.last) == (c.now - b.last) * rate;
    if Sleeps(b, c, rate) {
      PositiveQuotient(1.0 - Refilled(b, c.now, rate), rate);
    }
  }

  lemma PositiveQuotient(x: real, rate: Rate)
    requires x > 0.0
    ensures x / rate > 0.0
  {
  }

  function Burst(now: real, n: nat): (cs: seq<Call>)
    ensures |cs| == n
  {
    seq(n, _ => Call(now, now))
  }

  /** Idle for long enough to earn the whole capacity. */
  predicate Rested(b: Bucket, now: real, rate: Rate) { b.last + Capacity(rate) / rate <= now }

  lemma IdleFills(b: Bucket, now: real, rate: Rate)
    requires Level(b, rate) && Rested(b, now, rate)
    ensures b.last <= now && Refilled(b, now, rate) == Capacity(rate)
  {
    hide Refilled, Earned, Capacity;
    CapacityPositive(rate);
    PositiveQuotient(Capacity(rate), rate);
    SleepEarns(rate, Capacity(rate), now - b.last);
    EarnedIs(rate, now - b.last);
    RefilledFully(b, now, rate);
  }

  lemma CapacityPositive(rate: Rate)
    ensures Capacity(rate) >= 1.0
  {
  }

  lemma RefilledFully(b: Bucket, now: real, rate: Rate)
    requires b.tokens >= 0.0 && (now - b.last) * rate >= Capacity(rate)
    ensures Refilled(b, now, rate) == Capacity(rate)
  {
  }

  /** One call of a burst, the first on a full bucket and the others at the same instant. */
  lemma BurstCall(b: Bucket, now: real, rate: Rate, have: real)
    requires b.last <= now && Refilled(b, now, rate) == have && have >= 1.0
    ensures var c := Call(now, now);
            Timely(b, c, rate) && GrantTime(b, c, rate) == now && Taken(b, c, rate) == Bucket(have - 1.0, now)
  {
  }

  lemma SameInstant(tokens: real, now: real, rate: Rate)
    requires tokens <= Capacity(rate)
    ensures Refilled(Bucket(tokens, now), now, rate) == tokens
  {
    assert (now - now) * rate == 0.0;
  }

  /** The bucket after `i` calls of a burst, and what it then refills to. */
  lemma {:induction false} BurstLeaves(rate: Rate, start: real, cs: seq<Call>, now: real, i: nat)
    requires TimelyRun(rate, start, cs) && i as real <= Capacity(rate)
    requires Rested(After(rate, start, cs), now, rate)
    ensures var b := After(rate, start, cs + Burst(now, i));
            b.last <= now && Refilled(b, now, rate) == Capacity(rate) - i as real
    decreases i
  {
    hide Refilled, Taken, Capacity, Timely, GrantTime, Level, Rested;
    if i == 0 {
      LevelAlways(rate, start, cs, |cs|);
      assert cs[..|cs|] == cs && cs + Burst(now, 0) == cs;
      IdleFills(After(rate, start, cs), now, rate);
    } else {
      BurstLeaves(rate, start, cs, now, i - 1);
      var before := cs + Burst(now, i - 1);
      assert cs + Burst(now, i) == before + [Call(now, now)];
      AfterOne(rate, start, before, Call(now, now));
      BurstCall(After(rate, start, before), now, rate, Capacity(rate) - (i - 1) as real);
      SameInstant(Capacity(rate) - i as real, now, rate);
    }
  }

  lemma AfterOne(rate: Rate, start: real, cs: seq<Call>, c: Call)
    ensures After(rate, start, cs + [c]) == Taken(After(rate, start, cs), c, rate)
  {
    assert (cs + [c])[..|cs|] == cs;
  }

  /**
   Over runs: after an idle time of capacity / rate, as many calls as the capacity has whole tokens
   are all granted at the instant they come.
   */
  lemma BurstGranted(rate: Rate, start: real, cs: seq<Call>, now: real, n: nat, i: nat)
    requires TimelyRun(rate, start, cs) && n as real <= Capacity(rate) && i < n
    requires Rested(After(rate, start, cs), now, rate)
    ensures TimelyRun(rate, start, cs + Burst(now, n))
    ensures Grant(rate, start, cs + Burst(now, n), |cs| + i) == now
  {
    hide TimelyRun, Timely, GrantTime, After, Capacity, Burst, Rested;
    BurstTimely(rate, start, cs, now, n);
    BurstAt(rate, start, cs, now, n, i);
  }

  lemma TimelyOne(rate: Rate, start: real, cs: seq<Call>, c: Call)
    requires TimelyRun(rate, start, cs) && Timely(After(rate, start, cs), c, rate)
    ensures TimelyRun(rate, start, cs + [c])
  {
    hide Timely, After;
    var all := cs + [c];
    forall i | 0 <= i < |all| ensures Timely(After(rate, start, all[..i]), all[i], rate) {
      assert all[..i] == cs[..i];
      assert cs[..|cs|] == cs;
    }
  }

  lemma {:induction false} BurstTimely(rate: Rate, start: real, cs: seq<Call>, now: real, n: nat)
    requires TimelyRun(rate, start, cs) && n as real <= Capacity(rate) && Rested(After(rate, start, cs), now, rate)
    ensures TimelyRun(rate, start, cs + Burst(now, n))
    decreases n
  {
    hide TimelyRun, Timely, GrantTime, After, Capacity, Rested;
    if n == 0 {
      assert cs + Burst(now, 0) == cs;
    } else {
      BurstTimely(rate, start, cs, now, n - 1);
      BurstAt(rate, start, cs, now, n, n - 1);
      BurstPrefix(cs, now, n, n - 1);
      assert cs + Burst(now, n) == cs + Burst(now, n - 1) + [Call(now, now)];
      TimelyOne(rate, start, cs + Burst(now, n - 1), Call(now, now));
    }
  }

  lemma BurstAt(rate: Rate, start: real, cs: seq<Call>, now: real, n: nat, i: nat)
    requires TimelyRun(rate, start, cs) && n as real <= Capacity(rate) && i < n
    requires Rested(After(rate, start, cs), now, rate)
    ensures var all := cs + Burst(now, n); var b := After(rate, start, all[..|cs| + i]);
            Timely(b, all[|cs| + i], rate) && GrantTime(b, all[|cs| + i], rate) == now
  {
    hide Timely, GrantTime, After, Capacity, Refilled, Taken, Burst, TimelyRun, Rested;
    BurstPrefix(cs, now, n, i);
    assert (i + 1) as real <= Capacity(rate);
    BurstLeaves(rate, start, cs, now, i);
    BurstCall(After(rate, start, cs + Burst(now, i)), now, rate, Capacity(rate) - i as real);
  }

  lemma BurstPrefix(cs: seq<Call>, now: real, n: nat, i: nat)
    requires i < n
    ensures var all := cs + Burst(now, n); all[..|cs| + i] == cs + Burst(now, i) && all[|cs| + i] == Call(now, now)
  {
  }

  class TokenBucket {
    const rate: Rate
    var tokens: real
    var last: real

    ghost function Value(): Bucket
      reads this
    {
      Bucket(tokens, last)
    }

    constructor (rate: Rate, now: real)
      ensures this.rate == rate && Value() == After(rate, now, [])
    {
      this.rate := rate;
      tokens := if rate > 1.0 then rate else 1.0;
      last := now;
    }

    /** `c` holds what the clock reads on entry and, if it sleeps, on waking. */
    method Take(c: Call) returns (grant: real)
      requires Level(Value(), rate) && Timely(Value(), c, rate)
      modifies this
      ensures Value() == Taken(old(Value()), c, rate) && grant == GrantTime(old(Value()), c, rate)
      ensures Level(Value(), rate)
    {
      TakePays(Value(), c, rate);
      GrantIs(Value(), c, rate);
      hide Refilled, Earned, Timely, Taken, GrantTime;
      var capacity := if rate > 1.0 then rate else 1.0;
      tokens := tokens + (c.now - last) * rate;
      if capacity < tokens {
        tokens := capacity;
      }
      last := c.now;
      if tokens < 1.0 {
        tokens := 0.0;
        last := c.wake;
      } else {
        tokens := tokens - 1.0;
      }
      grant := last;
    }
  }

  // ---------------------------------------------------------------------------------------------
  // Lookups
  // ---------------------------------------------------------------------------------------------

  /** What the worker is configured with; `lower` is Python's `str.lower`. */
  datatype Plan = Plan(rate: Rate, ptrTtl: real, saasTtl: real, lower: C.Lower)

  type Catalogue = seq<C.SaasEntry>

  /** A Redis key with its expiry. */
  datatype Entry<T> = Entry(value: T, expires: real)

  type Keys<T> = map<string, Entry<T>>

  /** Redis still holds the key. */
  predicate Held<T>(keys: Keys<T>, ip: string, t: real) { ip in keys && t < keys[ip].expires }

  /** A PTR lookup sent at `at`; `written` is false when storing its result failed. */
  datatype Lookup = Lookup(ip: string, at: real, written: bool)

  /** The catalogue loaded at start, `dns:ptr`, `dns:saas`, the `dns_cache` table, the bucket and the lookups sent so far. */
  datatype Worker = Worker(list: Catalogue, ptr: Keys<string>, saas: Keys<int>, table: map<string, Option<string>>,
                           bucket: Bucket, lookups: seq<Lookup>, clock: real)

  function NewWorker(p: Plan, list: Catalogue, start: real): Worker {
    Worker(list, map[], map[], map[], Bucket(Capacity(p.rate), start), [], start)
  }

  /** How far a job gets: each write may raise, which abandons the rest. */
  datatype Reached = PtrFailed | UpsertFailed | SaasFailed | Finished

  /** One address from the queue with the clock readings and outcomes of its processing. */
  datatype Job = Job(ip: string, getAt: real, call: Call, lookupAt: real, name: string, setAt: real, endAt: real,
                     reached: Reached)

  /** A worker that starts again loads the catalogue and a full bucket, and finds Redis and the table as they were. */
  datatype Step = Handle(job: Job) | Restart(list: Catalogue, at: real)

  /** The catalogue id of a looked-up name; a failed lookup leaves "". */
  function Matched(list: Catalogue, name: string, lower: C.Lower): Option<int> {
    if name == "" then None
    else match C.SaasHit(list, name, lower) case None => None case Some(e) => Some(e.id)
  }

  function PtrAfter(ptr: Keys<string>, j: Job, p: Plan): Keys<string> {
    if j.reached.PtrFailed? then ptr else ptr[j.ip := Entry(j.name, j.setAt + p.ptrTtl)]
  }

  function TableAfter(table: map<string, Option<string>>, j: Job): map<string, Option<string>> {
    if j.reached.PtrFailed? || j.reached.UpsertFailed? then table
    else table[j.ip := if j.name == "" then None else Some(j.name)]
  }

  function SaasAfter(saas: Keys<int>, j: Job, list: Catalogue, p: Plan): Keys<int> {
    var id := Matched(list, j.name, p.lower);
    if j.reached.Finished? && id.Some? then saas[j.ip := Entry(id.value, j.endAt + p.saasTtl)] else saas
  }

  function Processed(k: Worker, j: Job, p: Plan): Worker {
    if Held(k.ptr, j.ip, j.getAt) then k.(clock := j.getAt)
    else
      Worker(k.list, PtrAfter(k.ptr, j, p), SaasAfter(k.saas, j, k.list, p), TableAfter(k.table, j),
             Taken(k.bucket, j.call, p.rate), k.lookups + [Lookup(j.ip, j.lookupAt, !j.reached.PtrFailed?)], j.endAt)
  }

  /** Awaits complete in program order on one clock. */
  predicate Sequential(k: Worker, j: Job, p: Plan) {
    k.clock <= j.getAt &&
    (!Held(k.ptr, j.ip, j.getAt) ==>
       && j.getAt <= j.call.now && Timely(k.bucket, j.call, p.rate)
       && GrantTime(k.bucket, j.call, p.rate) <= j.lookupAt <= j.setAt <= j.endAt)
  }

  predicate Allowed(k: Worker, x: Step, p: Plan) {
    match x case Handle(j) => Sequential(k, j, p) case Restart(_, at) => k.clock <= at
  }

  function Next(k: Worker, x: Step, p: Plan): Worker {
    match x
    case Handle(j) => Processed(k, j, p)
    case Restart(list, at) => k.(list := list, bucket := Bucket(Capacity(p.rate), at), clock := at)
  }

  function Work(k: Worker, xs: seq<Step>, p: Plan): Worker {
    if xs == [] then k else Next(Work(k, xs[..|xs| - 1], p), xs[|xs| - 1], p)
  }

  ghost predicate SequentialRun(k: Worker, xs: seq<Step>, p: Plan) {
    forall i :: 0 <= i < |xs| ==> Allowed(Work(k, xs[..i], p), xs[i], p)
  }

  /** A stored lookup is remembered by the cache until its time to live has passed. */
  ghost predicate Remembered(k: Worker, ttl: real) {
    forall l :: l in k.lookups && l.written ==>
      l.at + ttl <= k.clock || (l.ip in k.ptr && l.at + ttl <= k.ptr[l.ip].expires)
  }

  /** A stored lookup is followed by no lookup of the same address within the time to live. */
  ghost predicate Spaced(ls: seq<Lookup>, ttl: real) {
    forall i, j :: 0 <= i < j < |ls| && ls[i].ip == ls[j].ip && ls[i].written ==> ls[i].at + ttl <= ls[j].at
  }

  lemma SpacedStep(k: Worker, j: Job, p: Plan)
    requires Level(k.bucket, p.rate) && Sequential(k, j, p) && p.ptrTtl >= 0.0
    requires Remembered(k, p.ptrTtl) && Spaced(k.lookups, p.ptrTtl)
    ensures var k' := Processed(k, j, p);
            Level(k'.bucket, p.rate) && Remembered(k', p.ptrTtl) && Spaced(k'.lookups, p.ptrTtl)
  {
    if !Held(k.ptr, j.ip, j.getAt) {
      hide SaasAfter, TableAfter, Taken;
      TakePays(k.bucket, j.call, p.rate);
      SleepsForward(k.bucket, j.call, p.rate);
      var k' := Processed(k, j, p);
      assert forall i :: 0 <= i < |k.lookups| ==> k.lookups[i] in k.lookups && k'.lookups[i] == k.lookups[i];
    }
  }

  lemma SleepsForward(b: Bucket, c: Call, rate: Rate)
    requires Timely(b, c, rate)
    ensures c.now <= GrantTime(b, c, rate)
  {
    if Sleeps(b, c, rate) {
      var need := 1.0 - Refilled(b, c.now, rate);
      assert need / rate >= 0.0;
    }
  }

  lemma WorkSnoc(k: Worker, xs: seq<Step>, n: nat, p: Plan)
    requires n < |xs|
    ensures Work(k, xs[..n + 1], p) == Next(Work(k, xs[..n], p), xs[n], p)
  {
    assert xs[..n + 1][..n] == xs[..n];
  }

  ghost predicate Sound(k: Worker, p: Plan) {
    Level(k.bucket, p.rate) && Remembered(k, p.ptrTtl) && Spaced(k.lookups, p.ptrTtl)
  }

  lemma SoundNext(k: Worker, x: Step, p: Plan)
    requires Sound(k, p) && Allowed(k, x, p) && p.ptrTtl >= 0.0
    ensures Sound(Next(k, x, p), p)
  {
    if x.Handle? {
      SpacedStep(k, x.job, p);
    }
  }

  lemma AllowedAt(k0: Worker, xs: seq<Step>, p: Plan, n: nat)
    requires SequentialRun(k0, xs, p) && n < |xs|
    ensures Allowed(Work(k0, xs[..n], p), xs[n], p)
  {
  }

  lemma {:induction false} SoundAlways(k0: Worker, xs: seq<Step>, p: Plan, n: nat)
    requires Sound(k0, p) && p.ptrTtl >= 0.0 && n <= |xs| && SequentialRun(k0, xs, p)
    ensures Sound(Work(k0, xs[..n], p), p)
    decreases n
  {
    hide SequentialRun, Sound, Next, Allowed;
    if n > 0 {
      SoundAlways(k0, xs, p, n - 1);
      WorkSnoc(k0, xs, n - 1, p);
      AllowedAt(k0, xs, p, n - 1);
      SoundNext(Work(k0, xs[..n - 1], p), xs[n - 1], p);
    } else {
      assert xs[..0] == [];
    }
  }

  /**
   However often an address is queued and the worker restarted, lookups of it are at least the
   cache's time to live apart, unless storing the earlier result failed.
   */
  lemma LookupsSpaced(p: Plan, list: Catalogue, start: real, xs: seq<Step>, n: nat)
    requires p.ptrTtl >= 0.0 && n <= |xs| && SequentialRun(NewWorker(p, list, start), xs, p)
    ensures var k := Work(NewWorker(p, list, start), xs[..n], p);
            Level(k.bucket, p.rate) && Remembered(k, p.ptrTtl) && Spaced(k.lookups, p.ptrTtl)
  {
    var k0 := NewWorker(p, list, start);
    assert Sound(k0, p);
    hide SequentialRun, Work, Level, Remembered, Spaced;
    SoundAlways(k0, xs, p, n);
  }

  /** Step `n` looked an address up and its upsert went through. */
  predicate Upserts(k: Worker, x: Step, ip: string) {
    x.Handle? && x.job.ip == ip && !Held(k.ptr, ip, x.job.getAt) && (x.job.reached.SaasFailed? || x.job.reached.Finished?)
  }

  /** Step `n` is the latest whose upsert for `ip` went through. */
  ghost predicate LastUpsert(k0: Worker, xs: seq<Step>, p: Plan, ip: string, n: int) {
    && 0 <= n < |xs| && Upserts(Work(k0, xs[..n], p), xs[n], ip)
    && forall m :: n < m < |xs| ==> !Upserts(Work(k0, xs[..m], p), xs[m], ip)
  }

  lemma UpsertNext(k: Worker, x: Step, p: Plan, ip: string)
    ensures var t := Next(k, x, p).table;
            if Upserts(k, x, ip) then ip in t && t[ip] == if x.job.name == "" then None else Some(x.job.name)
            else (ip in t <==> ip in k.table) && (ip in t ==> t[ip] == k.table[ip])
  {
  }

  function Stored(name: string): Option<string> { if name == "" then None else Some(name) }

  lemma LastUpsertSnoc(k0: Worker, xs: seq<Step>, x: Step, p: Plan, ip: string, n: int)
    ensures LastUpsert(k0, xs + [x], p, ip, n) <==>
            if Upserts(Work(k0, xs, p), x, ip) then n == |xs| else LastUpsert(k0, xs, p, ip, n)
  {
    hide Work, Upserts;
    var all := xs + [x];
    assert all[..|xs|] == xs && all[|xs|] == x;
    assert forall m :: 0 <= m < |xs| ==> all[..m] == xs[..m] && all[m] == xs[m];
  }

  lemma UpsertHandles(k: Worker, x: Step, ip: string)
    requires Upserts(k, x, ip)
    ensures x.Handle?
  {
  }

  lemma WorkOne(k: Worker, xs: seq<Step>, x: Step, p: Plan)
    ensures Work(k, xs + [x], p) == Next(Work(k, xs, p), x, p)
  {
    assert (xs + [x])[..|xs|] == xs;
  }

  ghost predicate TableMatches(k0: Worker, xs: seq<Step>, p: Plan, ip: string) {
    var table := Work(k0, xs, p).table;
    && (ip in table <==> exists n :: LastUpsert(k0, xs, p, ip, n))
    && forall n :: LastUpsert(k0, xs, p, ip, n) ==> xs[n].Handle? && ip in table && table[ip] == Stored(xs[n].job.name)
  }

  lemma TableMatchesOne(k0: Worker, xs: seq<Step>, x: Step, p: Plan, ip: string)
    requires TableMatches(k0, xs, p, ip)
    ensures TableMatches(k0, xs + [x], p, ip)
  {
    hide Work, Next, Upserts, LastUpsert;
    var k, all := Work(k0, xs, p), xs + [x];
    WorkOne(k0, xs, x, p);
    UpsertNext(k, x, p, ip);
    forall n ensures LastUpsert(k0, all, p, ip, n) <==> if Upserts(k, x, ip) then n == |xs| else LastUpsert(k0, xs, p, ip, n) {
      LastUpsertSnoc(k0, xs, x, p, ip, n);
    }
    if Upserts(k, x, ip) {
      UpsertHandles(k, x, ip);
      assert LastUpsert(k0, all, p, ip, |xs|);
    } else {
      forall n | LastUpsert(k0, all, p, ip, n) ensures 0 <= n < |xs| && all[n] == xs[n] {
        LastUpsertIndex(k0, xs, p, ip, n);
      }
      if n :| LastUpsert(k0, xs, p, ip, n) {
        assert LastUpsert(k0, all, p, ip, n);
      }
    }
  }

  lemma LastUpsertIndex(k0: Worker, xs: seq<Step>, p: Plan, ip: string, n: int)
    requires LastUpsert(k0, xs, p, ip, n)
    ensures 0 <= n < |xs|
  {
  }

  lemma {:induction false} AlwaysTableMatches(k0: Worker, xs: seq<Step>, p: Plan, ip: string)
    requires k0.table == map[]
    ensures TableMatches(k0, xs, p, ip)
    decreases |xs|
  {
    if xs != [] {
      hide TableMatches;
      var n := |xs| - 1;
      AlwaysTableMatches(k0, xs[..n], p, ip);
      TableMatchesOne(k0, xs[..n], xs[n], p, ip);
      assert xs == xs[..n] + [xs[n]];
    }
  }

  /**
   Over every run from an empty table: an address has a row if and only if some upsert for it went
   through, and the row holds the name of the latest, or NULL when that lookup found none.
   */
  lemma TableIsLog(k0: Worker, xs: seq<Step>, p: Plan, ip: string)
    requires k0.table == map[]
    ensures ip in Work(k0, xs, p).table <==> exists n :: LastUpsert(k0, xs, p, ip, n)
    ensures forall n :: LastUpsert(k0, xs, p, ip, n) ==>
              && xs[n].Handle? && ip in Work(k0, xs, p).table
              && Work(k0, xs, p).table[ip] == if xs[n].job.name == "" then None else Some(xs[n].job.name)
  {
    AlwaysTableMatches(k0, xs, p, ip);
    hide Work, LastUpsert;
    forall n | LastUpsert(k0, xs, p, ip, n) ensures 0 <= n < |xs| { LastUpsertIndex(k0, xs, p, ip, n); }
  }

  /** The same address again, as soon as the bucket allows. */
  function Repeat(p: Plan, t: real, ip: string): Job {
    var again := if p.rate >= 2.0 then t else t + 1.0 / p.rate;
    Job(ip, t, Call(t, again), again, "", again, again, PtrFailed)
  }

  /**
   When storing a result fails, nothing but the bucket holds the next lookup back: a job repeated at
   once looks up again within one token's time, and immediately when the bucket holds two tokens.
   */
  lemma FailedWriteRepeats(p: Plan, list: Catalogue, t: real, ip: string)
    ensures var k0 := NewWorker(p, list, t);
            var first := Job(ip, t, Call(t, t), t, "", t, t, PtrFailed); var second := Repeat(p, t, ip);
            && Sequential(k0, first, p) && Sequential(Processed(k0, first, p), second, p)
            && Work(k0, [Handle(first), Handle(second)], p).lookups == [Lookup(ip, t, false), Lookup(ip, second.lookupAt, false)]
            && t <= second.lookupAt <= t + 1.0 / p.rate && (p.rate >= 2.0 ==> second.lookupAt == t)
  {
    var k0 := NewWorker(p, list, t);
    var j1, j2 := Job(ip, t, Call(t, t), t, "", t, t, PtrFailed), Repeat(p, t, ip);
    FirstTake(p.rate, t);
    RepeatedTake(p.rate, t, j2.lookupAt);
    assert 1.0 / p.rate >= 0.0;
    hide SaasAfter, TableAfter, Timely, Taken, GrantTime;
    var xs := [Handle(j1), Handle(j2)];
    assert xs[..1] == [xs[0]] && [xs[0]][..0] == [];
    assert Work(k0, [xs[0]], p) == Processed(k0, j1, p);
  }

  lemma FirstTake(rate: Rate, t: real)
    ensures var b := Bucket(Capacity(rate), t); var c := Call(t, t);
            Timely(b, c, rate) && GrantTime(b, c, rate) == t && Taken(b, c, rate) == Bucket(Capacity(rate) - 1.0, t)
  {
    assert (t - t) * rate == 0.0;
  }

  lemma RepeatedTake(rate: Rate, t: real, again: real)
    requires again == if rate >= 2.0 then t else t + 1.0 / rate
    ensures var b := Bucket(Capacity(rate) - 1.0, t); var c := Call(t, again);
            Timely(b, c, rate) && GrantTime(b, c, rate) <= again
  {
    assert (t - t) * rate == 0.0;
    ShortSleep(rate, Refilled(Bucket(Capacity(rate) - 1.0, t), t, rate));
  }

  lemma ShortSleep(rate: Rate, tokens: real)
    requires tokens >= 0.0
    ensures (1.0 - tokens) / rate <= 1.0 / rate
  {
    ProductNonNegative(tokens / rate, 1.0);
    assert (1.0 - tokens) / rate == 1.0 / rate - tokens / rate;
  }

  // ---------------------------------------------------------------------------------------------
  // The two keys of an address
  // ---------------------------------------------------------------------------------------------

  datatype Redis = Redis(ptr: Keys<string>, saas: Keys<int>)

  /** What Redis holds at any instant of a run, also between the two writes of a job. */
  function RedisAt(k0: Worker, xs: seq<Step>, p: Plan, t: real): Redis {
    if xs == [] then Redis(k0.ptr, k0.saas)
    else
      var front, x := xs[..|xs| - 1], xs[|xs| - 1];
      var k := Work(k0, front, p);
      if x.Restart? || Held(k.ptr, x.job.ip, x.job.getAt) || t < x.job.setAt then RedisAt(k0, front, p, t)
      else Midway(k, x.job, p, t)
  }

  /** From the write of the name on: the id follows when the job ends. */
  function Midway(k: Worker, j: Job, p: Plan, t: real): Redis {
    Redis(PtrAfter(k.ptr, j, p), if t < j.endAt then k.saas else SaasAfter(k.saas, j, k.list, p))
  }

  /** The correlator reads the name at one instant, the id at a later one, and looks the id up in its own list. */
  function ReadLabel(first: Redis, second: Redis, reader: Catalogue, ip: string, t1: real, t2: real): Option<C.SaasEntry> {
    if Held(first.ptr, ip, t1) && first.ptr[ip].value != "" && Held(second.saas, ip, t2)
    then C.ById(reader, second.saas[ip].value) else None
  }

  /** Any label read is the reader's own match for the name held when the id was read. */
  ghost predicate LabelsAgree(first: Redis, second: Redis, reader: Catalogue, lower: C.Lower, t1: real, t2: real) {
    forall ip :: ReadLabel(first, second, reader, ip, t1, t2).Some? ==>
      && Held(second.ptr, ip, t2)
      && ReadLabel(first, second, reader, ip, t1, t2) == C.SaasHit(reader, second.ptr[ip].value, lower)
  }

  ghost predicate ReadsAgree(k0: Worker, xs: seq<Step>, p: Plan, reader: Catalogue, t1: real, t2: real) {
    LabelsAgree(RedisAt(k0, xs, p, t1), RedisAt(k0, xs, p, t2), reader, p.lower, t1, t2)
  }

  /** `id` is a match for `name` in one of the lists. */
  ghost predicate FromList(lists: set<Catalogue>, name: string, id: int, lower: C.Lower) {
    exists list :: list in lists && Matched(list, name, lower) == Some(id)
  }

  /** Every id still held belongs to the name still held. */
  ghost predicate IdsFollow(k: Worker, lists: set<Catalogue>, lower: C.Lower) {
    forall ip :: ip in k.saas ==>
      || k.saas[ip].expires <= k.clock
      || (&& ip in k.ptr && k.saas[ip].expires <= k.ptr[ip].expires
          && FromList(lists, k.ptr[ip].value, k.saas[ip].value, lower))
  }

  /** The same for what Redis holds at an instant. */
  ghost predicate Follows(r: Redis, t: real, lists: set<Catalogue>, lower: C.Lower) {
    forall ip :: Held(r.saas, ip, t) ==> Held(r.ptr, ip, t) && FromList(lists, r.ptr[ip].value, r.saas[ip].value, lower)
  }

  /** Jobs finish within `d` of storing the name, and every start loads one of `lists`. */
  predicate Within(x: Step, d: real, lists: set<Catalogue>) {
    match x case Handle(j) => j.endAt <= j.setAt + d case Restart(list, _) => list in lists
  }

  ghost predicate AllWithin(xs: seq<Step>, d: real, lists: set<Catalogue>) {
    forall i :: 0 <= i < |xs| ==> Within(xs[i], d, lists)
  }

  /** An id that is still held when its address is looked up again is one whose name is still held. */
  lemma OldIdExpired(k: Worker, j: Job, p: Plan, lists: set<Catalogue>)
    requires Sequential(k, j, p) && IdsFollow(k, lists, p.lower) && !Held(k.ptr, j.ip, j.getAt)
    ensures !Held(k.saas, j.ip, j.getAt) && j.getAt <= j.setAt
  {
    SleepsForward(k.bucket, j.call, p.rate);
  }

  lemma MidwayFollows(k: Worker, j: Job, p: Plan, lists: set<Catalogue>, t: real)
    requires Sequential(k, j, p) && IdsFollow(k, lists, p.lower) && !Held(k.ptr, j.ip, j.getAt)
    requires k.list in lists && j.endAt + p.saasTtl <= j.setAt + p.ptrTtl && j.setAt <= t
    ensures Follows(Midway(k, j, p, t), t, lists, p.lower)
  {
    hide Matched;
    OldIdExpired(k, j, p, lists);
  }

  lemma IdsFollowNext(k: Worker, x: Step, p: Plan, lists: set<Catalogue>, d: real)
    requires Allowed(k, x, p) && IdsFollow(k, lists, p.lower) && k.list in lists
    requires Within(x, d, lists) && d + p.saasTtl <= p.ptrTtl
    ensures IdsFollow(Next(k, x, p), lists, p.lower) && Next(k, x, p).list in lists
  {
    hide Matched, Taken, TableAfter;
    if x.Handle? && !Held(k.ptr, x.job.ip, x.job.getAt) {
      OldIdExpired(k, x.job, p, lists);
    }
  }

  lemma {:induction false} IdsFollowAlways(k0: Worker, xs: seq<Step>, p: Plan, lists: set<Catalogue>, d: real, n: nat)
    requires SequentialRun(k0, xs, p) && AllWithin(xs, d, lists) && n <= |xs|
    requires IdsFollow(k0, lists, p.lower) && k0.list in lists && d + p.saasTtl <= p.ptrTtl
    ensures IdsFollow(Work(k0, xs[..n], p), lists, p.lower) && Work(k0, xs[..n], p).list in lists
    decreases n
  {
    if n > 0 {
      hide Work, Next, Allowed, IdsFollow, Within;
      IdsFollowAlways(k0, xs, p, lists, d, n - 1);
      WorkSnoc(k0, xs, n - 1, p);
      IdsFollowNext(Work(k0, xs[..n - 1], p), xs[n - 1], p, lists, d);
    } else {
      assert xs[..0] == [];
    }
  }

  lemma {:induction false} FollowsAlways(k0: Worker, xs: seq<Step>, p: Plan, lists: set<Catalogue>, d: real, n: nat, t: real)
    requires SequentialRun(k0, xs, p) && AllWithin(xs, d, lists) && n <= |xs| && k0.clock <= t
    requires IdsFollow(k0, lists, p.lower) && k0.list in lists && d + p.saasTtl <= p.ptrTtl
    ensures Follows(RedisAt(k0, xs[..n], p, t), t, lists, p.lower)
    decreases n
  {
    if n > 0 {
      hide Work, Sequential, IdsFollow, Follows, Midway;
      var front, x := xs[..n - 1], xs[n - 1];
      assert xs[..n][..n - 1] == front;
      var k := Work(k0, front, p);
      if x.Restart? || Held(k.ptr, x.job.ip, x.job.getAt) || t < x.job.setAt {
        FollowsAlways(k0, xs, p, lists, d, n - 1, t);
      } else {
        IdsFollowAlways(k0, xs, p, lists, d, n - 1);
        assert Allowed(k, x, p) && Within(x, d, lists);
        MidwayFollows(k, x.job, p, lists, t);
      }
    } else {
      assert xs[..0] == [];
    }
  }

  lemma FollowingAgrees(first: Redis, second: Redis, reader: Catalogue, p: Plan, lists: set<Catalogue>, t1: real, t2: real)
    requires Follows(second, t2, lists, p.lower) && C.DistinctIds(reader)
    requires forall list :: list in lists ==> C.ListsAgree(list, reader, p.lower)
    ensures LabelsAgree(first, second, reader, p.lower, t1, t2)
  {
    hide C.SaasHit, C.ById, C.DistinctIds, C.HasId;
    forall ip | ReadLabel(first, second, reader, ip, t1, t2).Some?
      ensures Held(second.ptr, ip, t2)
              && ReadLabel(first, second, reader, ip, t1, t2) == C.SaasHit(reader, second.ptr[ip].value, p.lower)
    {
      var name, id := second.ptr[ip].value, second.saas[ip].value;
      var list :| list in lists && Matched(list, name, p.lower) == Some(id);
      assert C.ListsAgree(list, reader, p.lower);
      assert C.IdAgrees(reader, id, name, p.lower);
      C.ByIdIs(reader, id);
      C.PtrRouteIff(reader, id, name, p.lower);
    }
  }

  /**
   When an id cannot outlive its name and the lists agree, every label read at any two instants of
   any run, restarts and half-done jobs included, is the reader's match for the name held.
   */
  lemma LabelsFollowNames(p: Plan, lists: set<Catalogue>, list: Catalogue, reader: Catalogue, start: real,
                          xs: seq<Step>, d: real, t1: real, t2: real)
    requires SequentialRun(NewWorker(p, list, start), xs, p) && AllWithin(xs, d, lists) && list in lists
    requires d + p.saasTtl <= p.ptrTtl && start <= t1 <= t2 && C.DistinctIds(reader)
    requires forall l :: l in lists ==> C.ListsAgree(l, reader, p.lower)
    ensures ReadsAgree(NewWorker(p, list, start), xs, p, reader, t1, t2)
  {
    var k0 := NewWorker(p, list, start);
    assert IdsFollow(k0, lists, p.lower);
    hide SequentialRun, AllWithin, RedisAt, Follows, C.ListsAgree, C.DistinctIds, LabelsAgree;
    FollowsAlways(k0, xs, p, lists, d, |xs|, t2);
    assert xs[..|xs|] == xs;
    FollowingAgrees(RedisAt(k0, xs, p, t1), RedisAt(k0, xs, p, t2), reader, p, lists, t1, t2);
  }

  // ---------------------------------------------------------------------------------------------
  // And only then
  // ---------------------------------------------------------------------------------------------

  function Found(ip: string, name: string, t: real, endAt: real, reached: Reached): Step {
    Handle(Job(ip, t, Call(t, t), t, name, t, endAt, reached))
  }

  /** One lookup, read as soon as it is done. */
  lemma OneLookup(p: Plan, list: Catalogue, name: string, ip: string, d: real)
    requires p.ptrTtl > 0.0 && p.saasTtl > 0.0 && d >= 0.0 && Matched(list, name, p.lower).Some?
    ensures var k0, xs := NewWorker(p, list, 0.0), [Found(ip, name, 0.0, 0.0, Finished)];
            && SequentialRun(k0, xs, p) && AllWithin(xs, d, {list})
            && RedisAt(k0, xs, p, 0.0) == Redis(map[ip := Entry(name, 0.0 + p.ptrTtl)],
                                                map[ip := Entry(Matched(list, name, p.lower).value, 0.0 + p.saasTtl)])
  {
    hide Matched, Timely, Taken, GrantTime;
    var k0, x := NewWorker(p, list, 0.0), Found(ip, name, 0.0, 0.0, Finished);
    assert [x][..0] == [];
    FirstTake(p.rate, 0.0);
  }

  /** Two lookups of one address, the second by a restarted worker as soon as the first name has expired. */
  function Renamed(p: Plan, list: Catalogue, ip: string, a: string, b: string, d: real): seq<Step> {
    [Found(ip, a, 0.0, d, Finished), Restart(list, p.ptrTtl),
     Found(ip, b, p.ptrTtl, p.ptrTtl, if Matched(list, b, p.lower).None? then Finished else SaasFailed)]
  }

  lemma RenamedRuns(p: Plan, list: Catalogue, ip: string, a: string, b: string, d: real)
    requires p.ptrTtl > 0.0 && p.saasTtl > 0.0 && 0.0 <= d <= p.ptrTtl && Matched(list, a, p.lower).Some?
    ensures var k0, xs := NewWorker(p, list, 0.0), Renamed(p, list, ip, a, b, d);
            && SequentialRun(k0, xs, p) && AllWithin(xs, d, {list})
            && RedisAt(k0, xs, p, p.ptrTtl) == Redis(map[ip := Entry(b, p.ptrTtl + p.ptrTtl)],
                                                     map[ip := Entry(Matched(list, a, p.lower).value, d + p.saasTtl)])
  {
    hide Matched, Timely, Taken, GrantTime;
    var k0, xs := NewWorker(p, list, 0.0), Renamed(p, list, ip, a, b, d);
    var t := p.ptrTtl;
    FirstTake(p.rate, 0.0);
    FirstTake(p.rate, t);
    var k1 := Next(k0, xs[0], p);
    var k2 := Next(k1, xs[1], p);
    assert Allowed(k0, xs[0], p) && Allowed(k1, xs[1], p) && Allowed(k2, xs[2], p);
    hide Allowed;
    assert xs[..0] == [];
    WorkSnoc(k0, xs, 0, p);
    WorkSnoc(k0, xs, 1, p);
    hide Work;
    WorkNone(k0, p);
    assert xs[..2] == xs[..|xs| - 1];
    assert !Held(k2.ptr, ip, t);
  }

  lemma WorkNone(k: Worker, p: Plan)
    ensures Work(k, [], p) == k
  {
  }

  /** An id and a name that do not go together are read as a wrong label. */
  lemma WrongLabel(r: Redis, reader: Catalogue, lower: C.Lower, ip: string, t: real)
    requires Held(r.ptr, ip, t) && r.ptr[ip].value != "" && Held(r.saas, ip, t) && C.DistinctIds(reader)
    requires !C.IdAgrees(reader, r.saas[ip].value, r.ptr[ip].value, lower)
    ensures !LabelsAgree(r, r, reader, lower, t, t)
  {
    hide C.SaasHit, C.ById, C.DistinctIds;
    C.ByIdIs(reader, r.saas[ip].value);
    C.PtrRouteIff(reader, r.saas[ip].value, r.ptr[ip].value, lower);
    assert ReadLabel(r, r, reader, ip, t, t).Some?;
  }

  /** Every label read in every run is right. */
  ghost predicate AlwaysRight(p: Plan, lists: set<Catalogue>, reader: Catalogue, d: real) {
    forall list, start, xs, t1, t2 ::
      list in lists && SequentialRun(NewWorker(p, list, start), xs, p) && AllWithin(xs, d, lists) && start <= t1 <= t2
      ==> ReadsAgree(NewWorker(p, list, start), xs, p, reader, t1, t2)
  }

  lemma DisagreeingListFails(p: Plan, lists: set<Catalogue>, reader: Catalogue, d: real, list: Catalogue)
    requires p.ptrTtl > 0.0 && p.saasTtl > 0.0 && d >= 0.0 && C.DistinctIds(reader) && list in lists
    requires !C.ListsAgree(list, reader, p.lower)
    ensures !AlwaysRight(p, lists, reader, d)
  {
    var name :| name != "" && C.SaasHit(list, name, p.lower).Some? &&
                !C.IdAgrees(reader, C.SaasHit(list, name, p.lower).value.id, name, p.lower);
    var k0, xs := NewWorker(p, list, 0.0), [Found("ip", name, 0.0, 0.0, Finished)];
    OneLookup(p, list, name, "ip", d);
    WrongLabel(RedisAt(k0, xs, p, 0.0), reader, p.lower, "ip", 0.0);
    hide C.DistinctIds, C.IdAgrees, SequentialRun, RedisAt, LabelsAgree;
    MoreLists(xs, d, {list}, lists);
    assert !ReadsAgree(k0, xs, p, reader, 0.0, 0.0);
  }

  lemma MoreLists(xs: seq<Step>, d: real, few: set<Catalogue>, many: set<Catalogue>)
    requires AllWithin(xs, d, few) && few <= many
    ensures AllWithin(xs, d, many)
  {
  }

  lemma SlowerIsWithin(xs: seq<Step>, d: real, e: real, lists: set<Catalogue>)
    requires AllWithin(xs, d, lists) && d <= e
    ensures AllWithin(xs, e, lists)
  {
  }

  lemma OutlivingIdFails(p: Plan, lists: set<Catalogue>, reader: Catalogue, d: real, list: Catalogue, a: string, b: string)
    requires p.ptrTtl > 0.0 && p.saasTtl > 0.0 && d >= 0.0 && C.DistinctIds(reader) && list in lists
    requires d + p.saasTtl > p.ptrTtl && b != "" && Matched(list, a, p.lower).Some?
    requires !C.IdAgrees(reader, Matched(list, a, p.lower).value, b, p.lower)
    ensures !AlwaysRight(p, lists, reader, d)
  {
    var e := if d < p.ptrTtl then d else p.ptrTtl;
    var k0, xs := NewWorker(p, list, 0.0), Renamed(p, list, "ip", a, b, e);
    RenamedRuns(p, list, "ip", a, b, e);
    WrongLabel(RedisAt(k0, xs, p, p.ptrTtl), reader, p.lower, "ip", p.ptrTtl);
    hide C.DistinctIds, C.IdAgrees, Matched, SequentialRun, RedisAt, LabelsAgree, Renamed;
    MoreLists(xs, e, {list}, lists);
    SlowerIsWithin(xs, e, d, lists);
    assert !ReadsAgree(k0, xs, p, reader, p.ptrTtl, p.ptrTtl);
  }

  /**
   The exact condition, for a worker that may restart with any of `lists` and a correlator that
   holds `reader`: provided jobs finish within `d` of storing the name, every label read is right if
   and only if an id cannot outlive its name and `reader` agrees with each list.  `a` and `b` are
   names that tell the ids of `list` apart.
   */
  lemma LabelsFollowIff(p: Plan, lists: set<Catalogue>, reader: Catalogue, d: real, list: Catalogue, a: string, b: string)
    requires p.ptrTtl > 0.0 && p.saasTtl > 0.0 && d >= 0.0 && C.DistinctIds(reader) && list in lists
    requires b != "" && Matched(list, a, p.lower).Some? && !C.IdAgrees(reader, Matched(list, a, p.lower).value, b, p.lower)
    ensures AlwaysRight(p, lists, reader, d) <==>
            d + p.saasTtl <= p.ptrTtl && forall l :: l in lists ==> C.ListsAgree(l, reader, p.lower)
  {
    hide C.ListsAgree, C.IdAgrees, C.DistinctIds, Matched, SequentialRun, AllWithin, ReadsAgree;
    if d + p.saasTtl > p.ptrTtl {
      OutlivingIdFails(p, lists, reader, d, list, a, b);
    } else if l :| l in lists && !C.ListsAgree(l, reader, p.lower) {
      DisagreeingListFails(p, lists, reader, d, l);
    } else {
      forall l, start, xs, t1, t2 |
        l in lists && SequentialRun(NewWorker(p, l, start), xs, p) && AllWithin(xs, d, lists) && start <= t1 <= t2
        ensures ReadsAgree(NewWorker(p, l, start), xs, p, reader, t1, t2)
      {
        LabelsFollowNames(p, lists, l, reader, start, xs, d, t1, t2);
      }
    }
  }

  class ResolverWorker {
    const plan: Plan
    const list: Catalogue
    const bucket: TokenBucket
    var ptr: Keys<string>
    var saas: Keys<int>
    var table: map<string, Option<string>>
    var clock: real
    ghost var lookups: seq<Lookup>

    ghost function State(): Worker
      reads this, bucket
    {
      Worker(list, ptr, saas, table, bucket.Value(), lookups, clock)
    }

    ghost predicate Valid()
      reads this, bucket
    {
      && bucket.rate == plan.rate && plan.ptrTtl >= 0.0 && Level(bucket.Value(), plan.rate)
      && Remembered(State(), plan.ptrTtl) && Spaced(lookups, plan.ptrTtl)
    }

    constructor (plan: Plan, list: Catalogue, now: real)
      requires plan.ptrTtl >= 0.0
      ensures Valid() && fresh(bucket) && this.plan == plan && State() == NewWorker(plan, list, now)
    {
      this.plan, this.list := plan, list;
      bucket := new TokenBucket(plan.rate, now);
      ptr, saas, table, clock, lookups := map[], map[], map[], now, [];
    }

    /** One address, up to the write that fails if one does. */
    method ProcessOne(j: Job)
      requires Valid() && Sequential(State(), j, plan)
      modifies this, bucket
      ensures Valid() && State() == Processed(old(State()), j, plan)
    {
      SpacedStep(State(), j, plan);
      hide Remembered, Spaced, Sequential, Taken, GrantTime, Level, Timely, PtrAfter, SaasAfter, TableAfter;
      if j.ip in ptr && j.getAt < ptr[j.ip].expires {
        clock := j.getAt;
        return;
      }
      TimelyCall(State(), j, plan);
      var _ := bucket.Take(j.call);
      lookups := lookups + [Lookup(j.ip, j.lookupAt, !j.reached.PtrFailed?)];
      Store(j);
      clock := j.endAt;
    }

    /** The three writes, in order, up to the one that fails. */
    method Store(j: Job)
      modifies this`ptr, this`saas, this`table
      ensures ptr == PtrAfter(old(ptr), j, plan) && table == TableAfter(old(table), j)
      ensures saas == SaasAfter(old(saas), j, list, plan)
    {
      hide Matched;
      if j.reached.PtrFailed? {
        return;
      }
      ptr := ptr[j.ip := Entry(j.name, j.setAt + plan.ptrTtl)];
      if j.reached.UpsertFailed? {
        return;
      }
      table := table[j.ip := if j.name == "" then None else Some(j.name)];
      var id := Matched(list, j.name, plan.lower);
      if id.Some? && j.reached.Finished? {
        saas := saas[j.ip := Entry(id.value, j.endAt + plan.saasTtl)];
      }
    }
  }

  lemma TimelyCall(k: Worker, j: Job, p: Plan)
    requires Sequential(k, j, p) && !Held(k.ptr, j.ip, j.getAt)
    ensures Timely(k.bucket, j.call, p.rate)
  {
  }
}
