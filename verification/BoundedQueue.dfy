/**
 The bounded `asyncio.Queue` and the drop-oldest insertion that the windower, the demultiplexer
 and the syslog receiver all perform on it.  As in asyncio, `maxsize <= 0` means unbounded.
 */
module BoundedQueue {
  import opened Prelude

  predicate Full(len: nat, maxsize: int) { 0 < maxsize <= len }

  predicate Bounded(len: nat, maxsize: int) { 0 < maxsize ==> len <= maxsize }

  /** How many items a drop-oldest insertion of `n` items evicts from a queue of length `len`. */
  function Overflow(len: nat, n: nat, maxsize: int): nat {
    if maxsize <= 0 || len + n <= maxsize then 0 else len + n - maxsize
  }

  /** The queue left by inserting all of `xs` with drop-oldest: a suffix of `q + xs`. */
  function Keep<T>(q: seq<T>, xs: seq<T>, maxsize: int): (r: seq<T>)
    requires Bounded(|q|, maxsize)
    ensures Bounded(|r|, maxsize)
  {
    (q + xs)[Overflow(|q|, |xs|, maxsize)..]
  }

  /** What the same insertion evicts: the matching prefix of `q + xs`. */
  function Evict<T>(q: seq<T>, xs: seq<T>, maxsize: int): seq<T>
    requires Bounded(|q|, maxsize)
  {
    (q + xs)[..Overflow(|q|, |xs|, maxsize)]
  }

  lemma KeepNone<T>(q: seq<T>, maxsize: int)
    requires Bounded(|q|, maxsize)
    ensures Keep(q, [], maxsize) == q && Evict(q, [], maxsize) == [] && Overflow(|q|, 0, maxsize) == 0
  {
    assert q + [] == q;
  }

  /** What is left of the queue, then what is left of the insertion. */
  lemma KeepParts<T>(q: seq<T>, xs: seq<T>, maxsize: int)
    requires Bounded(|q|, maxsize)
    ensures var k := Overflow(|q|, |xs|, maxsize);
            Keep(q, xs, maxsize) == q[Min(|q|, k)..] + xs[Max(0, k - |q|)..]
  {
  }

  /** Inserting one more item after `xs` is one more drop-oldest insertion. */
  lemma KeepSnoc<T>(q: seq<T>, xs: seq<T>, x: T, maxsize: int)
    requires Bounded(|q|, maxsize)
    ensures Keep(q, xs + [x], maxsize) == Keep(Keep(q, xs, maxsize), [x], maxsize)
    ensures Overflow(|q|, |xs| + 1, maxsize) ==
            Overflow(|q|, |xs|, maxsize) + Overflow(|Keep(q, xs, maxsize)|, 1, maxsize)
    ensures Evict(q, xs + [x], maxsize) == Evict(q, xs, maxsize) + Evict(Keep(q, xs, maxsize), [x], maxsize)
  {
    var mid := Keep(q, xs, maxsize);
    assert q + (xs + [x]) == (q + xs) + [x];
    assert mid + [x] == ((q + xs) + [x])[Overflow(|q|, |xs|, maxsize)..];
  }

  class AsyncQueue<T> {
    const maxsize: int
    var items: seq<T>
    ghost var entered: seq<T>  // everything ever accepted, in order
    ghost var departed: seq<T> // everything taken or evicted, in order

    /** FIFO conservation: what entered is what departed followed by what is queued. */
    ghost predicate Valid()
      reads this
    {
      Bounded(|items|, maxsize) && entered == departed + items
    }

    constructor (maxsize: int)
      ensures Valid() && this.maxsize == maxsize && items == [] && entered == []
    {
      this.maxsize := maxsize;
      items, entered, departed := [], [], [];
    }

    /** `put_nowait`; `full` stands for the QueueFull exception. */
    method PutNowait(x: T) returns (full: bool)
      requires Valid()
      modifies this
      ensures Valid()
      ensures full == Full(|old(items)|, maxsize)
      ensures items == (if full then old(items) else old(items) + [x])
      ensures entered == (if full then old(entered) else old(entered) + [x])
      ensures departed == old(departed)
    {
      full := 0 < maxsize <= |items|;
      if !full {
        items := items + [x];
        entered := entered + [x];
      }
    }

    /** `get_nowait`; `None` stands for the QueueEmpty exception. */
    method GetNowait() returns (r: Option<T>)
      requires Valid()
      modifies this
      ensures Valid() && entered == old(entered)
      ensures old(items) == [] ==> r == None && items == [] && departed == old(departed)
      ensures old(items) != [] ==> r == Some(old(items)[0]) && items == old(items)[1..]
                                   && departed == old(departed) + [old(items)[0]]
    {
      if items == [] {
        r := None;
      } else {
        r := Some(items[0]);
        departed := departed + [items[0]];
        items := items[1..];
      }
    }

    /**
     Put, and on QueueFull take the oldest item out and put again.  The second put cannot fail:
     the item is always accepted and at most one older item is lost.
     */
    method PutDropOldest(x: T) returns (evicted: bool)
      requires Valid()
      modifies this
      ensures Valid()
      ensures items == Keep(old(items), [x], maxsize)
      ensures departed == old(departed) + Evict(old(items), [x], maxsize)
      ensures entered == old(entered) + [x]
      ensures Overflow(|old(items)|, 1, maxsize) == (if evicted then 1 else 0)
    {
      var full := PutNowait(x);
      evicted := full;
      if full {
        var _ := GetNowait();
        var stillFull := PutNowait(x);
        assert !stillFull;
      }
    }
  }
}
