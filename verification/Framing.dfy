/**
 Syslog stream framing over TCP: octet counting (section 3.4.1 of RFC 6587) mixed with newline
 framing (section 3.4.2 of RFC 6587), fed in arbitrary chunks.
 */
module Framing {
  import opened Prelude

  newtype Byte = b: int | 0 <= b < 256
  type Bytes = seq<Byte>

  const LF: Byte := 10
  const CR: Byte := 13
  const SP: Byte := 32
  const ZERO: Byte := 48
  const UNDERSCORE: Byte := 95

  /** CPython refuses to convert longer decimal strings (`sys.int_info.default_max_str_digits`). */
  const MAX_STR_DIGITS := 4300

  predicate IsDigit(b: Byte) { 48 <= b <= 57 }

  predicate IsSpace(b: Byte) { 9 <= b <= 13 || b == SP }

  /** `bytes.find` of one byte. */
  function Find(buf: Bytes, x: Byte): (r: Option<nat>)
    ensures r.None? <==> x !in buf
    ensures r.Some? ==> r.value < |buf| && buf[r.value] == x && forall k :: 0 <= k < r.value ==> buf[k] != x
  {
    if buf == [] then None
    else if buf[0] == x then Some(0)
    else match Find(buf[1..], x)
      case None => None
      case Some(i) => Some(i + 1)
  }

  lemma FindUnique(buf: Bytes, x: Byte, i: nat)
    requires i < |buf| && buf[i] == x && forall k :: 0 <= k < i ==> buf[k] != x
    ensures Find(buf, x) == Some(i)
  {
    assert x in buf;
  }

  /** `bytes.rstrip(b"\r")`. */
  function StripCr(s: Bytes): (r: Bytes)
    ensures r <= s
    ensures r != [] ==> r[|r| - 1] != CR
    ensures forall i :: |r| <= i < |s| ==> s[i] == CR
  {
    if s != [] && s[|s| - 1] == CR then StripCr(s[..|s| - 1]) else s
  }

  lemma StripCrUnique(body: Bytes, s: Bytes)
    requires body <= s && (body != [] ==> body[|body| - 1] != CR)
    requires forall i :: |body| <= i < |s| ==> s[i] == CR
    ensures StripCr(s) == body
  {
    var r := StripCr(s);
    assert |body| == 0 || s[|body| - 1] == body[|body| - 1];
    assert |r| == 0 || s[|r| - 1] == r[|r| - 1];
  }

  function TrimRight(h: Bytes): (r: Bytes)
    ensures r <= h
  {
    if h != [] && IsSpace(h[|h| - 1]) then TrimRight(h[..|h| - 1]) else h
  }

  /** The value of digits with single underscores allowed between them, as Python's `int` reads them. */
  function DigitsValue(h: Bytes): Option<nat>
    decreases |h|
  {
    if h == [] || !IsDigit(h[|h| - 1]) then None
    else
      var d := (h[|h| - 1] - ZERO) as int;
      if |h| == 1 then Some(d)
      else
        var front := h[..|h| - 1];
        match DigitsValue(if front[|front| - 1] == UNDERSCORE then front[..|front| - 1] else front)
        case None => None
        case Some(v) => Some(10 * v + d)
  }

  function DigitCount(h: Bytes): nat {
    if h == [] then 0 else (if IsDigit(h[0]) then 1 else 0) + DigitCount(h[1..])
  }

  /** Python's `int(header)` for a header that begins with a digit; None is its ValueError. */
  function ParseLen(h: Bytes): Option<nat>
    requires h != [] && IsDigit(h[0])
  {
    if DigitCount(h) > MAX_STR_DIGITS then None else DigitsValue(TrimRight(h))
  }

  /** One turn of the drain loop: wait for more bytes, or consume `size` bytes. */
  datatype Turn = Wait | Consume(msg: Option<Bytes>, size: nat)

  function NextTurn(buf: Bytes): (t: Turn)
    requires buf != []
    ensures t.Consume? ==> 0 < t.size <= |buf|
  {
    if IsDigit(buf[0]) then
      match Find(buf, SP)
      case None => Wait
      case Some(sp) =>
        match ParseLen(buf[..sp])
        case None => Wait
        case Some(n) =>
          if |buf| >= sp + 1 + n then Consume(Some(buf[sp + 1..sp + 1 + n]), sp + 1 + n) else Wait
    else
      match Find(buf, LF)
      case None => Wait
      case Some(nl) =>
        var line := StripCr(buf[..nl]);
        Consume(if line == [] then None else Some(line), nl + 1)
  }

  datatype Drained = Drained(msgs: seq<Bytes>, rest: Bytes)

  function Delivered(msg: Option<Bytes>): seq<Bytes> {
    match msg case None => [] case Some(m) => [m]
  }

  /** Everything one buffer delivers, and the residue kept for the next chunk. */
  function Drain(buf: Bytes): Drained
    decreases |buf|
  {
    if buf == [] then Drained([], [])
    else match NextTurn(buf)
      case Wait => Drained([], buf)
      case Consume(msg, size) =>
        var d := Drain(buf[size..]);
        Drained(Delivered(msg) + d.msgs, d.rest)
  }

  /** The chunk loop: append a chunk to the residue and drain. */
  function Feed(rest: Bytes, chunks: seq<Bytes>): Drained
    decreases |chunks|
  {
    if chunks == [] then Drained([], rest)
    else
      var d := Drain(rest + chunks[0]);
      var e := Feed(d.rest, chunks[1..]);
      Drained(d.msgs + e.msgs, e.rest)
  }

  function Concat(chunks: seq<Bytes>): Bytes {
    if chunks == [] then [] else chunks[0] + Concat(chunks[1..])
  }

  // ---------------------------------------------------------------------------------------------
  // What one turn does, by the shape of the buffer
  // ---------------------------------------------------------------------------------------------

  /** A line that does not begin with a digit loses its trailing CRs; what is then empty is skipped. */
  lemma LineTurn(body: Bytes, crs: nat, more: Bytes)
    requires LF !in body && (body != [] ==> !IsDigit(body[0]) && body[|body| - 1] != CR)
    ensures var line := body + seq(crs, _ => CR) + [LF];
            NextTurn(line + more) == Consume(if body == [] then None else Some(body), |line|)
  {
    var line := body + seq(crs, _ => CR);
    var w := line + [LF] + more;
    assert w == body + seq(crs, _ => CR) + [LF] + more;
    assert w[..|line|] == line;
    assert forall k :: 0 <= k < |line| ==> w[k] == line[k] && w[k] != LF;
    FindUnique(w, LF, |line|);
    StripCrUnique(body, line);
  }

  /** A line of CRs only, or an empty one, is consumed and delivers nothing. */
  lemma BlankLine(crs: nat, more: Bytes)
    ensures Drain(seq(crs, _ => CR) + [LF] + more) == Drain(more)
  {
    hide NextTurn, Drain;
    var line := [] + seq(crs, _ => CR) + [LF];
    assert line == seq(crs, _ => CR) + [LF];
    LineTurn([], crs, more);
    DrainStep(line + more);
    assert (line + more)[|line|..] == more;
    assert [] + Drain(more).msgs == Drain(more).msgs;
  }

  /** A header that begins with a digit and reads as the length of what follows its space. */
  lemma CountTurn(h: Bytes, body: Bytes, more: Bytes)
    requires h != [] && IsDigit(h[0]) && SP !in h && ParseLen(h) == Some(|body|)
    ensures var w := h + [SP] + body + more; NextTurn(w) == Consume(Some(body), |h| + 1 + |body|)
  {
    hide ParseLen;
    var w := h + [SP] + body + more;
    assert w[..|h|] == h && w[0] == h[0];
    FindUnique(w, SP, |h|);
    assert w[|h| + 1..|h| + 1 + |body|] == body;
  }

  // ---------------------------------------------------------------------------------------------
  // Chunk invariance
  // ---------------------------------------------------------------------------------------------

  /** A frame that is complete at the head of a buffer is the same frame whatever follows it. */
  lemma NextTurnStable(a: Bytes, b: Bytes)
    requires a != [] && NextTurn(a).Consume?
    ensures NextTurn(a + b) == NextTurn(a)
  {
    if IsDigit(a[0]) {
      StableCount(a, b);
    } else {
      StableLine(a, b);
    }
  }

  lemma StableCount(a: Bytes, b: Bytes)
    requires a != [] && IsDigit(a[0]) && NextTurn(a).Consume?
    ensures NextTurn(a + b) == NextTurn(a)
  {
    hide ParseLen;
    var sp := Find(a, SP).value;
    assert (a + b)[..sp] == a[..sp];
    FindUnique(a + b, SP, sp);
    var n := ParseLen(a[..sp]).value;
    assert (a + b)[sp + 1..sp + 1 + n] == a[sp + 1..sp + 1 + n];
  }

  lemma StableLine(a: Bytes, b: Bytes)
    requires a != [] && !IsDigit(a[0]) && NextTurn(a).Consume?
    ensures NextTurn(a + b) == NextTurn(a)
  {
    hide ParseLen, StripCr;
    var nl := Find(a, LF).value;
    assert (a + b)[..nl] == a[..nl];
    FindUnique(a + b, LF, nl);
  }

  lemma DrainStep(buf: Bytes)
    requires buf != [] && NextTurn(buf).Consume?
    ensures var t := NextTurn(buf); var d := Drain(buf[t.size..]);
            Drain(buf) == Drained(Delivered(t.msg) + d.msgs, d.rest)
  {
    hide NextTurn;
  }

  /** Draining `a + b` at once is draining `a`, then draining its residue followed by `b`. */
  lemma {:induction false} DrainSplit(a: Bytes, b: Bytes)
    ensures var d := Drain(a); var e := Drain(d.rest + b);
            Drain(a + b) == Drained(d.msgs + e.msgs, e.rest)
    decreases |a|
  {
    hide NextTurn;
    if a == [] {
      assert a + b == b;
    } else if NextTurn(a).Consume? {
      NextTurnStable(a, b);
      var t := NextTurn(a);
      assert (a + b)[t.size..] == a[t.size..] + b;
      DrainSplit(a[t.size..], b);
    }
  }

  /** The residue is a buffer on which the loop makes no progress. */
  lemma {:induction false} ResidueIsStuck(buf: Bytes)
    ensures var r := Drain(buf).rest; Drain(r) == Drained([], r)
    decreases |buf|
  {
    if buf != [] && NextTurn(buf).Consume? {
      ResidueIsStuck(buf[NextTurn(buf).size..]);
    }
  }

  /** However a stream is cut into chunks, it delivers what draining it whole delivers. */
  lemma {:induction false} ChunkInvariance(rest: Bytes, chunks: seq<Bytes>)
    requires Drain(rest) == Drained([], rest)
    ensures Feed(rest, chunks) == Drain(rest + Concat(chunks))
    decreases |chunks|
  {
    hide Drain;
    if chunks == [] {
      assert rest + Concat(chunks) == rest;
    } else {
      var head := rest + chunks[0];
      ResidueIsStuck(head);
      ChunkInvariance(Drain(head).rest, chunks[1..]);
      DrainSplit(head, Concat(chunks[1..]));
      assert rest + Concat(chunks) == head + Concat(chunks[1..]);
    }
  }

  // ---------------------------------------------------------------------------------------------
  // Round trip
  // ---------------------------------------------------------------------------------------------

  /** Canonical decimal printing, as a sender writes the octet count. */
  function Decimal(n: nat): (r: Bytes)
    ensures r != [] && forall b :: b in r ==> IsDigit(b)
  {
    if n < 10 then [ZERO + n as Byte] else Decimal(n / 10) + [ZERO + (n % 10) as Byte]
  }

  lemma {:induction false} DigitCountAll(h: Bytes)
    requires forall b :: b in h ==> IsDigit(b)
    ensures DigitCount(h) == |h|
  {
    if h != [] { DigitCountAll(h[1..]); }
  }

  lemma {:induction false} DecimalValue(n: nat)
    ensures DigitsValue(Decimal(n)) == Some(n)
  {
    if n >= 10 {
      DecimalValue(n / 10);
      var h := Decimal(n);
      var front := h[..|h| - 1];
      assert front == Decimal(n / 10);
      assert IsDigit(front[|front| - 1]);
    }
  }

  /** The header parser inverts canonical printing up to the interpreter's digit limit, and refuses it beyond. */
  lemma ParseLenDecimal(n: nat)
    ensures ParseLen(Decimal(n)) == if |Decimal(n)| <= MAX_STR_DIGITS then Some(n) else None
  {
    var h := Decimal(n);
    DigitCountAll(h);
    DecimalValue(n);
    assert IsDigit(h[|h| - 1]);
    assert TrimRight(h) == h;
  }

  /** A digit, or an underscore between two digits. */
  predicate Fits(core: Bytes, i: int)
    requires 0 <= i < |core|
  {
    || IsDigit(core[i])
    || (core[i] == UNDERSCORE && 0 < i < |core| - 1 && IsDigit(core[i - 1]) && IsDigit(core[i + 1]))
  }

  /** Digits with single underscores between them. */
  ghost predicate Count(core: Bytes) { core != [] && forall i :: 0 <= i < |core| ==> Fits(core, i) }

  /** The number its digits write in base ten, underscores aside. */
  function Number(core: Bytes): nat {
    if core == [] then 0
    else
      var front, b := Number(core[..|core| - 1]), core[|core| - 1];
      if IsDigit(b) then 10 * front + (b - ZERO) as int else front
  }

  lemma {:induction false} DigitsValueIs(h: Bytes)
    requires h != [] && IsDigit(h[0])
    ensures DigitsValue(h) == if Count(h) then Some(Number(h)) else None
    decreases |h|
  {
    var n := |h| - 1;
    if Count(h) { CountEnds(h); }
    if n > 0 && IsDigit(h[n]) {
      var front := h[..n];
      if front[n - 1] == UNDERSCORE {
        var core := front[..n - 1];
        assert n > 1;
        DigitsValueIs(core);
        CountUnderscore(core, h);
        assert Number(front) == Number(core);
      } else {
        DigitsValueIs(front);
        CountDigit(front, h);
      }
    } else if n == 0 {
      assert h[..0] == [];
    }
  }

  lemma CountUnderscore(core: Bytes, h: Bytes)
    requires |h| == |core| + 2 && core != [] && h[..|core|] == core && h[|core|] == UNDERSCORE && IsDigit(h[|h| - 1])
    ensures Count(h) <==> Count(core)
  {
    assert forall i :: 0 <= i < |core| ==> h[i] == core[i];
    if Count(h) {
      assert Fits(h, |core|);
      forall i | 0 <= i < |core| ensures Fits(core, i) { assert Fits(h, i); }
    }
    if Count(core) {
      assert Fits(core, |core| - 1);
      forall i | 0 <= i < |h| ensures Fits(h, i) {
        if i < |core| { assert Fits(core, i); }
      }
    }
  }

  lemma CountDigit(front: Bytes, h: Bytes)
    requires |h| == |front| + 1 && front != [] && h[..|front|] == front && IsDigit(h[|h| - 1])
    requires front[|front| - 1] != UNDERSCORE
    ensures Count(h) <==> Count(front)
  {
    assert forall i :: 0 <= i < |front| ==> h[i] == front[i];
    if Count(h) {
      forall i | 0 <= i < |front| ensures Fits(front, i) { assert Fits(h, i); }
    }
    if Count(front) {
      forall i | 0 <= i < |h| ensures Fits(h, i) {
        if i < |front| { assert Fits(front, i); }
      }
    }
  }

  lemma CountEnds(core: Bytes)
    requires Count(core)
    ensures IsDigit(core[0]) && IsDigit(core[|core| - 1])
  {
    assert Fits(core, 0) && Fits(core, |core| - 1);
  }

  lemma {:induction false} TrimRightIs(h: Bytes, k: nat)
    requires k <= |h| && (forall i :: k <= i < |h| ==> IsSpace(h[i])) && (k > 0 ==> !IsSpace(h[k - 1]))
    ensures TrimRight(h) == h[..k]
    decreases |h|
  {
    if k < |h| {
      var n := |h| - 1;
      TrimRightIs(h[..n], k);
      assert h[..n][..k] == h[..k];
    } else {
      assert h[..k] == h;
    }
  }

  lemma {:induction false} TrimRightSplits(h: Bytes)
    ensures var k := |TrimRight(h)|; (forall i :: k <= i < |h| ==> IsSpace(h[i])) && (k > 0 ==> !IsSpace(h[k - 1]))
  {
    if h != [] && IsSpace(h[|h| - 1]) {
      var front := h[..|h| - 1];
      TrimRightSplits(front);
      assert TrimRight(h) == TrimRight(front);
      assert forall i :: 0 <= i < |front| ==> front[i] == h[i];
      var k := |TrimRight(front)|;
      assert k > 0 ==> h[k - 1] == front[k - 1];
      forall i | k <= i < |h| ensures IsSpace(h[i]) {
        assert i < |front| ==> IsSpace(front[i]);
      }
    }
  }

  /** Where the digits are. */
  function DigitPlaces(h: Bytes): set<int> { set i | 0 <= i < |h| && IsDigit(h[i]) }

  lemma DigitPlacesSnoc(h: Bytes, b: Byte)
    ensures |DigitPlaces(h + [b])| == |DigitPlaces(h)| + if IsDigit(b) then 1 else 0
  {
    var all := h + [b];
    assert forall i :: 0 <= i < |h| ==> all[i] == h[i];
    assert DigitPlaces(all) == DigitPlaces(h) + if IsDigit(b) then {|h|} else {};
  }

  lemma {:induction false} DigitCountIs(h: Bytes)
    ensures DigitCount(h) == |DigitPlaces(h)|
    decreases |h|
  {
    if h == [] {
      assert DigitPlaces(h) == {};
    } else {
      hide DigitCount, DigitPlaces;
      var n := |h| - 1;
      DigitCountIs(h[..n]);
      DigitCountSnoc(h[..n], h[n]);
      DigitPlacesSnoc(h[..n], h[n]);
      assert h == h[..n] + [h[n]];
    }
  }

  /** Space, tab, line feed, vertical tab, form feed or carriage return. */
  predicate White(b: Byte) { b in {32, 9, 10, 11, 12, 13} }

  /**
   The headers that Python's `int` reads, by their shape: digits with single underscores between
   them, then white space, with at most 4300 digits; the value is the number the digits write.
   */
  lemma ParseLenIff(h: Bytes, v: nat)
    requires h != [] && IsDigit(h[0])
    ensures ParseLen(h) == Some(v) <==>
            && |DigitPlaces(h)| <= 4300
            && exists k :: 0 < k <= |h| && Count(h[..k]) && Number(h[..k]) == v && forall i :: k <= i < |h| ==> White(h[i])
  {
    hide Number, TrimRight, DigitsValue, DigitCount, DigitPlaces;
    DigitCountIs(h);
    var core := TrimRight(h);
    TrimRightSplits(h);
    assert core == h[..|core|] && core != [];
    DigitsValueIs(core);
    forall k | 0 < k <= |h| && Count(h[..k]) && forall i :: k <= i < |h| ==> White(h[i])
      ensures core == h[..k]
    {
      CountEnds(h[..k]);
      TrimRightIs(h, k);
    }
  }

  /** What a sender may put on the wire; a line may end in any number of CRs before its LF. */
  datatype Frame = Counted(body: Bytes) | Line(body: Bytes, crs: nat)

  /** The lines that survive newline framing. */
  predicate PlainLine(body: Bytes) {
    body != [] && LF !in body && body[|body| - 1] != CR && !IsDigit(body[0])
  }

  predicate Sendable(f: Frame) {
    match f
    case Counted(body) => |Decimal(|body|)| <= MAX_STR_DIGITS
    case Line(body, _) => PlainLine(body)
  }

  function Encode(f: Frame): (r: Bytes)
    ensures r != []
  {
    match f
    case Counted(body) => Decimal(|body|) + [SP] + body
    case Line(body, crs) => body + seq(crs, _ => CR) + [LF]
  }

  function EncodeAll(fs: seq<Frame>): Bytes {
    if fs == [] then [] else Encode(fs[0]) + EncodeAll(fs[1..])
  }

  function Bodies(fs: seq<Frame>): seq<Bytes> {
    if fs == [] then [] else [fs[0].body] + Bodies(fs[1..])
  }

  lemma EncodeCounted(body: Bytes)
    requires Sendable(Counted(body))
    ensures var w := Encode(Counted(body)); NextTurn(w) == Consume(Some(body), |w|)
  {
    hide ParseLen, Decimal, Find;
    var w := Encode(Counted(body));
    var h := Decimal(|body|);
    var sp := |h|;
    assert w[0] == h[0] && w[..sp] == h;
    assert forall k :: 0 <= k < sp ==> IsDigit(h[k]) && w[k] == h[k];
    FindUnique(w, SP, sp);
    ParseLenDecimal(|body|);
    assert w[sp + 1..sp + 1 + |body|] == body;
  }

  lemma EncodeLine(body: Bytes, crs: nat)
    requires PlainLine(body)
    ensures var w := Encode(Line(body, crs)); NextTurn(w) == Consume(Some(body), |w|)
  {
    var w := Encode(Line(body, crs));
    var nl := |body| + crs;
    assert w[0] == body[0];
    assert w[..nl] == body + seq(crs, _ => CR);
    FindUnique(w, LF, nl);
    StripCrUnique(body, w[..nl]);
  }

  lemma EncodeOne(f: Frame)
    requires Sendable(f)
    ensures NextTurn(Encode(f)) == Consume(Some(f.body), |Encode(f)|)
  {
    match f
    case Counted(body) => EncodeCounted(body);
    case Line(body, crs) => EncodeLine(body, crs);
  }

  /** One frame at the head of a buffer. */
  lemma FrameStep(f: Frame, more: Bytes)
    requires Sendable(f)
    ensures Drain(Encode(f) + more) == Drained([f.body] + Drain(more).msgs, Drain(more).rest)
  {
    hide NextTurn, Drain, Encode, Sendable;
    var w := Encode(f);
    EncodeOne(f);
    NextTurnStable(w, more);
    DrainStep(w + more);
    assert (w + more)[|w|..] == more;
  }

  /** Any mix of sendable frames, followed by anything, decodes to the bodies in order. */
  lemma {:induction false} RoundTrip(fs: seq<Frame>, tail: Bytes)
    requires forall f :: f in fs ==> Sendable(f)
    ensures Drain(EncodeAll(fs) + tail) == Drained(Bodies(fs) + Drain(tail).msgs, Drain(tail).rest)
    decreases |fs|
  {
    hide Drain, Encode, Sendable;
    if fs == [] {
      assert EncodeAll(fs) + tail == tail;
      assert Bodies(fs) + Drain(tail).msgs == Drain(tail).msgs;
    } else {
      var w := Encode(fs[0]);
      var more := EncodeAll(fs[1..]) + tail;
      assert EncodeAll(fs) + tail == w + more;
      FrameStep(fs[0], more);
      RoundTrip(fs[1..], tail);
      assert Bodies(fs) + Drain(tail).msgs == [fs[0].body] + (Bodies(fs[1..]) + Drain(tail).msgs);
    }
  }

  /** The same through any chunking: nothing is left over and nothing is lost. */
  lemma RoundTripChunked(fs: seq<Frame>, chunks: seq<Bytes>)
    requires forall f :: f in fs ==> Sendable(f)
    requires Concat(chunks) == EncodeAll(fs)
    ensures Feed([], chunks) == Drained(Bodies(fs), [])
  {
    ChunkInvariance([], chunks);
    RoundTrip(fs, []);
    assert [] + Concat(chunks) == EncodeAll(fs) + [];
  }

  // ---------------------------------------------------------------------------------------------
  // What does not survive
  // ---------------------------------------------------------------------------------------------

  /** The bytes that newline framing spends on plain lines. */
  function Lines(bodies: seq<Bytes>): Bytes {
    if bodies == [] then [] else bodies[0] + [LF] + Lines(bodies[1..])
  }

  function Cost(msgs: seq<Bytes>): nat {
    if msgs == [] then 0 else |msgs[0]| + 1 + Cost(msgs[1..])
  }

  /** No framing spends less than one byte on top of each message. */
  lemma TurnCost(buf: Bytes)
    requires buf != [] && NextTurn(buf).Consume? && NextTurn(buf).msg.Some?
    ensures |NextTurn(buf).msg.value| < NextTurn(buf).size
  {
  }

  lemma {:induction false} DrainCost(buf: Bytes)
    ensures Cost(Drain(buf).msgs) + |Drain(buf).rest| <= |buf|
    decreases |buf|
  {
    hide NextTurn;
    if buf != [] && NextTurn(buf).Consume? {
      var t := NextTurn(buf);
      DrainCost(buf[t.size..]);
      if t.msg.Some? {
        TurnCost(buf);
        assert Drain(buf).msgs[1..] == Drain(buf[t.size..]).msgs;
      } else {
        assert Drain(buf).msgs == Drain(buf[t.size..]).msgs;
      }
    }
  }

  lemma {:induction false} LinesCost(bodies: seq<Bytes>)
    ensures Cost(bodies) == |Lines(bodies)|
  {
    if bodies != [] { LinesCost(bodies[1..]); }
  }

  /** A turn that delivers `body` for one byte more than its length takes it from a plain line. */
  lemma ThriftyTurn(body: Bytes, more: Bytes)
    requires var w := body + [LF] + more; NextTurn(w) == Consume(Some(body), |body| + 1)
    ensures PlainLine(body)
  {
    var w := body + [LF] + more;
    if !IsDigit(w[0]) {
      assert w[..|body|] == body;
      assert forall k :: 0 <= k < |body| ==> w[k] == body[k];
    }
  }

  /** Newline-framed lines come out as sent exactly when each of them is a plain line. */
  lemma {:induction false} LinesSurviveIff(bodies: seq<Bytes>)
    ensures Drain(Lines(bodies)) == Drained(bodies, []) <==> forall b :: b in bodies ==> PlainLine(b)
  {
    if bodies != [] {
      hide NextTurn, PlainLine, Drain;
      var body, more := bodies[0], Lines(bodies[1..]);
      LinesSurviveIff(bodies[1..]);
      assert bodies == [body] + bodies[1..];
      if PlainLine(body) {
        assert Encode(Line(body, 0)) == body + [LF];
        FrameStep(Line(body, 0), more);
        assert ([body] + Drain(more).msgs)[1..] == Drain(more).msgs;
      } else {
        if Drain(Lines(bodies)) == Drained(bodies, []) {
          LinesArePlain(bodies);
        }
        assert body in bodies;
      }
    }
  }

  /** In particular for one line. */
  lemma LineSurvivesIff(body: Bytes)
    ensures Drain(body + [LF]) == Drained([body], []) <==> PlainLine(body)
  {
    LinesSurviveIff([body]);
    assert Lines([body]) == body + [LF] + [];
    assert body + [LF] + [] == body + [LF];
    assert [body][0] in [body];
  }

  /** Lines that come out as sent leave no byte to spare, so the first turn takes the first line. */
  lemma LinesArePlain(bodies: seq<Bytes>)
    requires bodies != [] && Drain(Lines(bodies)) == Drained(bodies, [])
    ensures PlainLine(bodies[0])
  {
    var w, more := Lines(bodies), Lines(bodies[1..]);
    var t := NextTurn(w);
    assert t.Consume?;
    hide NextTurn, PlainLine;
    var later := Drain(w[t.size..]);
    DrainStep(w);
    DrainCost(w[t.size..]);
    LinesCost(bodies);
    LinesCost(bodies[1..]);
    assert t.msg.None? ==> later.msgs == bodies;
    if t.msg.Some? {
      assert bodies == [t.msg.value] + later.msgs;
      assert later.msgs == bodies[1..];
      TurnCost(w);
      ThriftyTurn(bodies[0], more);
    }
  }

  // ---------------------------------------------------------------------------------------------
  // Buffers that never deliver again
  // ---------------------------------------------------------------------------------------------

  /** A header that `int` reads, as it is or after one more digit. */
  predicate Readable(h: Bytes)
    requires h != [] && IsDigit(h[0])
  {
    ParseLen(h).Some? || ParseLen(h + [ZERO]).Some?
  }

  lemma {:induction false} DigitCountSnoc(h: Bytes, b: Byte)
    ensures DigitCount(h + [b]) == DigitCount(h) + if IsDigit(b) then 1 else 0
  {
    if h != [] {
      DigitCountSnoc(h[1..], b);
      assert (h + [b])[1..] == h[1..] + [b];
    }
  }

  lemma TrimRightSnoc(h: Bytes, b: Byte)
    ensures TrimRight(h + [b]) == if IsSpace(b) then TrimRight(h) else h + [b]
  {
    assert (h + [b])[..|h|] == h;
  }

  /** Only a digit can end the digits, and what it follows reads on its own or ends in an underscore. */
  lemma DigitsValueSnoc(h: Bytes, b: Byte)
    requires h != []
    ensures DigitsValue(h + [b]).Some? <==>
            IsDigit(b) && DigitsValue(if h[|h| - 1] == UNDERSCORE then h[..|h| - 1] else h).Some?
  {
    assert (h + [b])[..|h|] == h;
  }

  lemma ReadsWhole(h: Bytes)
    requires h != [] && IsDigit(h[0]) && DigitsValue(h).Some? && DigitCount(h) <= MAX_STR_DIGITS
    ensures ParseLen(h).Some?
  {
  }

  /** Taking a byte off a header that `int` reads leaves one that is readable. */
  lemma ReadsBack(h: Bytes, b: Byte)
    requires h != [] && IsDigit(h[0]) && ParseLen(h + [b]).Some?
    ensures Readable(h)
  {
    hide DigitsValue, TrimRight, DigitCount;
    DigitCountSnoc(h, b);
    TrimRightSnoc(h, b);
    if !IsSpace(b) {
      DigitsValueSnoc(h, b);
      DigitsValueSnoc(h, ZERO);
      DigitCountSnoc(h, ZERO);
      TrimRightSnoc(h, ZERO);
      if h[|h| - 1] != UNDERSCORE {
        ReadsWhole(h);
      }
    }
  }

  lemma ReadableBack(h: Bytes, b: Byte)
    requires h != [] && IsDigit(h[0]) && Readable(h + [b])
    ensures Readable(h)
  {
    if ParseLen(h + [b]).Some? {
      ReadsBack(h, b);
    } else if b != UNDERSCORE {
      UnreadStays(h, b);
    } else {
      BeforeUnderscore(h);
    }
  }

  lemma UnreadStays(h: Bytes, b: Byte)
    requires h != [] && IsDigit(h[0]) && b != UNDERSCORE && ParseLen(h + [b] + [ZERO]).Some?
    ensures ParseLen(h + [b]).Some?
  {
    hide DigitsValue, TrimRight, DigitCount;
    var g := h + [b];
    DigitCountSnoc(g, ZERO);
    TrimRightSnoc(g, ZERO);
    DigitsValueSnoc(g, ZERO);
    ReadsWhole(g);
  }

  lemma BeforeUnderscore(h: Bytes)
    requires h != [] && IsDigit(h[0]) && ParseLen(h + [UNDERSCORE] + [ZERO]).Some?
    ensures ParseLen(h).Some?
  {
    hide DigitsValue, TrimRight, DigitCount;
    var g := h + [UNDERSCORE];
    assert g[..|g| - 1] == h;
    DigitCountSnoc(g, ZERO);
    DigitCountSnoc(h, UNDERSCORE);
    TrimRightSnoc(g, ZERO);
    DigitsValueSnoc(g, ZERO);
    ReadsWhole(h);
  }

  lemma {:induction false} UnreadableGrows(h: Bytes, x: Bytes)
    requires h != [] && IsDigit(h[0]) && !Readable(h)
    ensures !Readable(h + x)
    decreases |x|
  {
    hide ParseLen;
    if x == [] {
      assert h + x == h;
    } else {
      var n := |x| - 1;
      UnreadableGrows(h, x[..n]);
      assert h + x == h + x[..n] + [x[n]];
      if Readable(h + x) {
        ReadableBack(h + x[..n], x[n]);
      }
    }
  }

  /** A leading digit with a header that `int` refuses, or that no continuation can make it read. */
  predicate Jammed(buf: Bytes) {
    buf != [] && IsDigit(buf[0]) &&
    match Find(buf, SP)
    case Some(sp) => ParseLen(buf[..sp]).None?
    case None => !Readable(buf)
  }

  lemma JammedGrows(buf: Bytes, more: Bytes)
    requires Jammed(buf)
    ensures Jammed(buf + more)
    ensures Drain(buf + more) == Drained([], buf + more)
  {
    hide ParseLen;
    var all := buf + more;
    match Find(buf, SP)
    case Some(sp) =>
      assert all[..sp] == buf[..sp];
      FindUnique(all, SP, sp);
    case None =>
      match Find(all, SP)
      case None => UnreadableGrows(buf, more);
      case Some(sp) =>
        assert all[..sp] == buf + more[..sp - |buf|];
        UnreadableGrows(buf, more[..sp - |buf|]);
  }

  /** Jamming is absorbing: no continuation ever delivers another message and the buffer only grows. */
  lemma {:induction false} JammedForever(buf: Bytes, chunks: seq<Bytes>)
    requires Jammed(buf)
    ensures Feed(buf, chunks) == Drained([], buf + Concat(chunks))
    decreases |chunks|
  {
    hide Jammed, Drain;
    if chunks == [] {
      assert buf + Concat(chunks) == buf;
    } else {
      JammedGrows(buf, chunks[0]);
      JammedForever(buf + chunks[0], chunks[1..]);
      assert buf + Concat(chunks) == buf + chunks[0] + Concat(chunks[1..]);
    }
  }

  /** A readable header, a space and as many bytes as it says make a message. */
  lemma HeaderDelivers(buf: Bytes, sp: nat, more: Bytes)
    requires buf != [] && IsDigit(buf[0]) && sp < |buf| && Find(buf, SP) == Some(sp) && ParseLen(buf[..sp]).Some?
    requires |more| == ParseLen(buf[..sp]).value
    ensures NextTurn(buf + more).Consume? && NextTurn(buf + more).msg.Some?
  {
    hide ParseLen;
    var all := buf + more;
    assert all[..sp] == buf[..sp];
    FindUnique(all, SP, sp);
  }

  lemma LineDelivers(r: Bytes) returns (more: Bytes)
    requires LF !in r && (r != [] ==> !IsDigit(r[0]))
    ensures r + more != [] && NextTurn(r + more).Consume? && NextTurn(r + more).msg.Some?
  {
    hide NextTurn;
    more := [65, LF];
    var body := r + [65];
    assert PlainLine(body);
    assert Encode(Line(body, 0)) == r + more;
    EncodeLine(body, 0);
  }

  lemma CountDelivers(r: Bytes) returns (more: Bytes)
    requires r != [] && IsDigit(r[0]) && SP !in r && Readable(r)
    ensures NextTurn(r + more).Consume? && NextTurn(r + more).msg.Some?
  {
    hide ParseLen, NextTurn, Find;
    var x := if ParseLen(r).Some? then [] else [ZERO];
    var h := r + x;
    assert h == r || h == r + [ZERO];
    var w := h + [SP];
    assert w[..|h|] == h;
    FindUnique(w, SP, |h|);
    var body := seq(ParseLen(h).value, _ => LF);
    HeaderDelivers(w, |h|, body);
    more := x + [SP] + body;
    assert r + more == w + body;
  }

  lemma StuckHasNoLine(r: Bytes)
    requires Drain(r) == Drained([], r) && (r != [] ==> !IsDigit(r[0]))
    ensures LF !in r
  {
    if r != [] && NextTurn(r).Consume? {
      DrainCost(r[NextTurn(r).size..]);
    }
  }

  /** Every residue that is not jammed has a continuation that delivers a message. */
  lemma Unjammed(r: Bytes) returns (more: Bytes)
    requires Drain(r) == Drained([], r) && !Jammed(r)
    ensures r + more != [] && NextTurn(r + more).Consume? && NextTurn(r + more).msg.Some?
  {
    hide ParseLen, NextTurn, Drain, Readable;
    if r == [] || !IsDigit(r[0]) {
      StuckHasNoLine(r);
      more := LineDelivers(r);
    } else {
      match Find(r, SP)
      case Some(sp) =>
        more := seq(ParseLen(r[..sp]).value, _ => LF);
        HeaderDelivers(r, sp, more);
      case None =>
        more := CountDelivers(r);
    }
  }

  /**
   The exact condition, for every buffer: no continuation ever delivers a message if and only if the
   buffer delivers none and its residue is jammed.
   */
  lemma NeverDeliversIff(buf: Bytes)
    ensures (forall more :: Drain(buf + more).msgs == []) <==> Drain(buf).msgs == [] && Jammed(Drain(buf).rest)
  {
    hide Drain, NextTurn, Jammed;
    var d := Drain(buf);
    ResidueIsStuck(buf);
    if d.msgs != [] {
      assert buf + [] == buf;
      assert Drain(buf + []).msgs != [];
    } else if Jammed(d.rest) {
      forall more ensures Drain(buf + more).msgs == [] {
        DrainSplit(buf, more);
        JammedGrows(d.rest, more);
      }
    } else {
      var more := Unjammed(d.rest);
      DrainSplit(buf, more);
      DrainStep(d.rest + more);
      assert Drain(buf + more).msgs != [];
    }
  }
}
