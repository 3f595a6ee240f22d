/** The syslog receiver: framed messages delivered into a bounded drop-oldest queue. */
module Syslog {
  import opened Prelude
  import opened BoundedQueue
  import opened Framing

  datatype Message = Message(peer: string, body: Bytes)

  function Tagged(peer: string, bodies: seq<Bytes>): (r: seq<Message>)
    ensures |r| == |bodies|
  {
    seq(|bodies|, i requires 0 <= i < |bodies| => Message(peer, bodies[i]))
  }

  /** What the rest of the process does to the queue while a connection waits for bytes. */
  datatype Meanwhile = Taken | Offered(msg: Message)

  /** One return of `reader.read`, with what consumers and other peers did in the meantime. */
  datatype Read = Read(meanwhile: seq<Meanwhile>, chunk: Bytes)

  /** The bytes received before end of file, which `read` signals by an empty chunk. */
  function Received(script: seq<Read>): Bytes {
    if script == [] || script[0].chunk == [] then [] else script[0].chunk + Received(script[1..])
  }

  /** A message put into the shared queue, by this connection or by another peer. */
  datatype Arrival = Own(msg: Message) | Other(msg: Message)

  function Others(ms: seq<Meanwhile>): seq<Arrival> {
    if ms == [] then []
    else Others(ms[..|ms| - 1]) + if ms[|ms| - 1].Taken? then [] else [Other(ms[|ms| - 1].msg)]
  }

  function Owns(peer: string, bodies: seq<Bytes>): (r: seq<Arrival>)
    ensures |r| == |bodies|
  {
    seq(|bodies|, i requires 0 <= i < |bodies| => Own(Message(peer, bodies[i])))
  }

  /** Everything put while a connection with residue `buf` runs, in order. */
  function Arrivals(script: seq<Read>, peer: string, buf: Bytes): seq<Arrival> {
    if script == [] then []
    else if script[0].chunk == [] then Others(script[0].meanwhile)
    else
      var d := Drain(buf + script[0].chunk);
      Others(script[0].meanwhile) + Owns(peer, d.msgs) + Arrivals(script[1..], peer, d.rest)
  }

  function Messages(xs: seq<Arrival>): (r: seq<Message>)
    ensures |r| == |xs|
  {
    seq(|xs|, i requires 0 <= i < |xs| => xs[i].msg)
  }

  /** The connection's own bodies among all arrivals. */
  function OwnBodies(xs: seq<Arrival>): seq<Bytes> {
    if xs == [] then []
    else OwnBodies(xs[..|xs| - 1]) + if xs[|xs| - 1].Own? then [xs[|xs| - 1].msg.body] else []
  }

  lemma {:induction false} OwnBodiesConcat(a: seq<Arrival>, b: seq<Arrival>)
    ensures OwnBodies(a + b) == OwnBodies(a) + OwnBodies(b)
    decreases |b|
  {
    if b == [] {
      assert a + b == a;
    } else {
      OwnBodiesConcat(a, b[..|b| - 1]);
      assert (a + b)[..|a + b| - 1] == a + b[..|b| - 1];
    }
  }

  lemma {:induction false} OthersOwnNothing(ms: seq<Meanwhile>)
    ensures OwnBodies(Others(ms)) == []
  {
    if ms != [] {
      OthersOwnNothing(ms[..|ms| - 1]);
      OwnBodiesConcat(Others(ms[..|ms| - 1]), if ms[|ms| - 1].Taken? then [] else [Other(ms[|ms| - 1].msg)]);
    }
  }

  lemma {:induction false} OwnsAreBodies(peer: string, bodies: seq<Bytes>)
    ensures OwnBodies(Owns(peer, bodies)) == bodies
  {
    if bodies != [] {
      OwnsAreBodies(peer, bodies[..|bodies| - 1]);
      assert Owns(peer, bodies)[..|bodies| - 1] == Owns(peer, bodies[..|bodies| - 1]);
    }
  }

  /** The bytes left over when a connection with residue `buf` ends. */
  function Leftover(script: seq<Read>, buf: Bytes): Bytes {
    if script == [] || script[0].chunk == [] then buf else Leftover(script[1..], Drain(buf + script[0].chunk).rest)
  }

  /** A read of some bytes. */
  lemma ReadMore(script: seq<Read>, peer: string, buf: Bytes)
    requires script != [] && script[0].chunk != []
    ensures var d := Drain(buf + script[0].chunk);
            && Arrivals(script, peer, buf) ==
               Others(script[0].meanwhile) + Owns(peer, d.msgs) + Arrivals(script[1..], peer, d.rest)
            && Leftover(script, buf) == Leftover(script[1..], d.rest)
            && Received(script) == script[0].chunk + Received(script[1..])
  {
    hide Drain, Others, Owns;
  }

  /** End of file, or of the connection. */
  lemma ReadEnd(script: seq<Read>, peer: string, buf: Bytes)
    requires script == [] || script[0].chunk == []
    ensures Arrivals(script, peer, buf) == if script == [] then [] else Others(script[0].meanwhile)
    ensures Leftover(script, buf) == buf && Received(script) == []
  {
    hide Drain, Others, Owns;
  }

  /**
   Whatever other peers put in between and however the stream is cut into reads, a connection's own
   messages, and what it leaves over, are those of draining its whole stream at once.
   */
  lemma {:induction false} OwnArrivals(script: seq<Read>, peer: string, buf: Bytes)
    requires Drain(buf) == Drained([], buf)
    ensures OwnBodies(Arrivals(script, peer, buf)) == Drain(buf + Received(script)).msgs
    ensures Leftover(script, buf) == Drain(buf + Received(script)).rest
    decreases |script|
  {
    hide Drain, Arrivals, Leftover, Received, OwnBodies, Others, Owns;
    if script == [] || script[0].chunk == [] {
      ReadEnd(script, peer, buf);
      OwnNothing();
      assert buf + [] == buf;
      if script != [] { OthersOwnNothing(script[0].meanwhile); }
    } else {
      var chunk, rest := script[0].chunk, Received(script[1..]);
      var d := Drain(buf + chunk);
      ReadMore(script, peer, buf);
      ResidueIsStuck(buf + chunk);
      DrainSplit(buf + chunk, rest);
      assert buf + (chunk + rest) == buf + chunk + rest;
      OwnArrivals(script[1..], peer, d.rest);
      OthersOwnNothing(script[0].meanwhile);
      OwnsAreBodies(peer, d.msgs);
      OwnBodiesConcat(Others(script[0].meanwhile), Owns(peer, d.msgs));
      OwnBodiesConcat(Others(script[0].meanwhile) + Owns(peer, d.msgs), Arrivals(script[1..], peer, d.rest));
      assert [] + d.msgs == d.msgs;
    }
  }

  lemma OwnNothing()
    ensures OwnBodies([]) == []
  {
  }

  class SyslogReceiver {
    const queue: AsyncQueue<Message>
    var backpressureDrops: nat

    ghost predicate Valid()
      reads this, queue
    {
      queue.Valid()
    }

    constructor (queueMax: int)
      ensures Valid() && fresh(queue) && queue.maxsize == queueMax && queue.items == []
      ensures backpressureDrops == 0
    {
      queue := new AsyncQueue<Message>(queueMax);
      backpressureDrops := 0;
    }

    /** The newest message is always accepted; `backpressureDrops` counts exactly the evictions. */
    method Enqueue(peer: string, body: Bytes)
      requires Valid()
      modifies this`backpressureDrops, queue
      ensures Valid()
      ensures queue.items == Keep(old(queue.items), [Message(peer, body)], queue.maxsize)
      ensures queue.entered == old(queue.entered) + [Message(peer, body)]
      ensures backpressureDrops == old(backpressureDrops) + Overflow(|old(queue.items)|, 1, queue.maxsize)
    {
      var evicted := queue.PutDropOldest(Message(peer, body));
      if evicted {
        backpressureDrops := backpressureDrops + 1;
      }
    }

    /**
     The drain loop delivers exactly what `Drain` says, in order, and returns its residue.  It never
     awaits, so the queue afterwards is the drop-oldest suffix of the old queue plus the messages.
     */
    method DrainBuffer(data: Bytes, peer: string) returns (buf: Bytes)
      requires Valid()
      modifies this`backpressureDrops, queue
      ensures Valid()
      ensures buf == Drain(data).rest
      ensures queue.entered == old(queue.entered) + Tagged(peer, Drain(data).msgs)
      ensures queue.items == Keep(old(queue.items), Tagged(peer, Drain(data).msgs), queue.maxsize)
      ensures backpressureDrops ==
              old(backpressureDrops) + Overflow(|old(queue.items)|, |Drain(data).msgs|, queue.maxsize)
    {
      hide NextTurn, Drain, Keep, Overflow;
      buf := data;
      DrainEmpty();
      KeepNone(queue.items, queue.maxsize);
      assert Tagged(peer, []) == [];
      ghost var sent: seq<Bytes> := [];
      while buf != []
        invariant Valid()
        invariant Drain(data) == Drained(sent + Drain(buf).msgs, Drain(buf).rest)
        invariant queue.entered == old(queue.entered) + Tagged(peer, sent)
        invariant queue.items == Keep(old(queue.items), Tagged(peer, sent), queue.maxsize)
        invariant backpressureDrops ==
                  old(backpressureDrops) + Overflow(|old(queue.items)|, |sent|, queue.maxsize)
        decreases |buf|
      {
        match NextTurn(buf) {
          case Wait =>
            DrainWait(buf);
            assert sent + [] == sent;
            return;
          case Consume(msg, size) =>
            DrainStep(buf);
            if msg.Some? {
              KeepSnoc(old(queue.items), Tagged(peer, sent), Message(peer, msg.value), queue.maxsize);
              assert Tagged(peer, sent + [msg.value]) == Tagged(peer, sent) + [Message(peer, msg.value)];
              Enqueue(peer, msg.value);
              sent := sent + [msg.value];
            }
            buf := buf[size..];
        }
      }
      assert sent + [] == sent;
    }

    method Wait(ms: seq<Meanwhile>)
      requires Valid()
      modifies this`backpressureDrops, queue
      ensures Valid() && queue.entered == old(queue.entered) + Messages(Others(ms))
    {
      for i := 0 to |ms|
        invariant Valid() && queue.entered == old(queue.entered) + Messages(Others(ms[..i]))
      {
        assert ms[..i + 1][..i] == ms[..i];
        match ms[i]
        case Taken =>
          var _ := queue.GetNowait();
        case Offered(m) =>
          assert Messages(Others(ms[..i]) + [Other(m)]) == Messages(Others(ms[..i])) + [m];
          Enqueue(m.peer, m.body);
      }
      assert ms[..|ms|] == ms;
    }

    /**
     A whole connection on a queue shared with other peers and with consumers.  The accepted messages
     are an interleaving in which this connection's own are those of draining its stream at once.
     */
    method HandleTcpClient(script: seq<Read>, peer: string) returns (buf: Bytes)
      requires Valid()
      modifies this`backpressureDrops, queue
      ensures Valid()
      ensures queue.entered == old(queue.entered) + Messages(Arrivals(script, peer, []))
      ensures OwnBodies(Arrivals(script, peer, [])) == Drain(Received(script)).msgs
      ensures buf == Drain(Received(script)).rest
    {
      hide Drain, Arrivals, Leftover, Received, OwnBodies, Others, Owns, Messages;
      buf := [];
      DrainEmpty();
      MessagesNone();
      OwnArrivals(script, peer, []);
      assert [] + Received(script) == Received(script);
      var i := 0;
      ghost var done: seq<Arrival> := [];
      assert script[0..] == script;
      while i < |script|
        invariant 0 <= i <= |script| && Valid()
        invariant Leftover(script, []) == Leftover(script[i..], buf)
        invariant Arrivals(script, peer, []) == done + Arrivals(script[i..], peer, buf)
        invariant queue.entered == old(queue.entered) + Messages(done)
      {
        ghost var left := script[i..];
        assert left[0] == script[i] && left[1..] == script[i + 1..];
        ghost var others := Others(script[i].meanwhile);
        Wait(script[i].meanwhile);
        MessagesConcat(done, others);
        if script[i].chunk == [] {
          ReadEnd(left, peer, buf);
          return;
        }
        ReadMore(left, peer, buf);
        ghost var own := Owns(peer, Drain(buf + script[i].chunk).msgs);
        MessagesConcat(done + others, own);
        OwnsAreTagged(peer, Drain(buf + script[i].chunk).msgs);
        ghost var tail := Arrivals(script[i + 1..], peer, Drain(buf + script[i].chunk).rest);
        assert done + (others + own + tail) == done + others + own + tail;
        done := done + others + own;
        buf := DrainBuffer(buf + script[i].chunk, peer);
        i := i + 1;
      }
      ReadEnd(script[i..], peer, buf);
      assert done + [] == done;
    }
  }

  lemma MessagesConcat(a: seq<Arrival>, b: seq<Arrival>)
    ensures Messages(a + b) == Messages(a) + Messages(b)
  {
  }

  lemma MessagesNone()
    ensures Messages([]) == []
  {
  }

  lemma OwnsAreTagged(peer: string, bodies: seq<Bytes>)
    ensures Messages(Owns(peer, bodies)) == Tagged(peer, bodies)
  {
  }

  lemma DrainWait(buf: Bytes)
    requires buf != [] && NextTurn(buf) == Wait
    ensures Drain(buf) == Drained([], buf)
  {
    hide NextTurn;
  }

  lemma DrainEmpty()
    ensures Drain([]) == Drained([], [])
  {
  }
}
