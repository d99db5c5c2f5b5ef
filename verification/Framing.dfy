/** Message framing (scripts/lsp.ts; the base protocol of LSP 3.17): the writer's frames and the incremental
    reader, over bytes. */
module Framing {
  import opened Utf16
  import opened Graph

  type Bytes = seq<Byte>

  /** `Content-Length: ` and the blank line. */
  const FIELD: Bytes := [67, 111, 110, 116, 101, 110, 116, 45, 76, 101, 110, 103, 116, 104, 58, 32]
  const CR: Byte := 13
  const SEP: Bytes := [13, 10, 13, 10]

  predicate Spelled(bytes: Bytes, text: string) {
    |bytes| == |text| && forall i | 0 <= i < |text| :: bytes[i] as int == text[i] as int
  }

  lemma FieldAndSeparatorAreSpelled()
    ensures Spelled(FIELD, "Content-Length: ") && Spelled(SEP, "\r\n\r\n")
  {
  }

  predicate Digit(b: int) { 48 <= b <= 57 }

  // ---------- the writer ----------

  lemma {:induction false} DecimalIsDigits(n: nat)
    ensures Decimal(n) != [] && forall i | 0 <= i < |Decimal(n)| :: Digit(Decimal(n)[i])
  {
    if n >= 10 { DecimalIsDigits(n / 10); }
  }

  function DigitsOf(n: nat): Bytes {
    DecimalIsDigits(n);
    seq(|Decimal(n)|, i requires 0 <= i < |Decimal(n)| => Decimal(n)[i])
  }

  /** A message on the wire: a header that announces the body's length, a blank line, the body. */
  datatype Frame = Frame(header: Bytes, body: Bytes)

  function Wire(f: Frame): Bytes { f.header + SEP + f.body }

  function Wires(fs: seq<Frame>): Bytes {
    if fs == [] then [] else Wire(fs[0]) + Wires(fs[1..])
  }

  function Bodies(fs: seq<Frame>): seq<Bytes> {
    seq(|fs|, i requires 0 <= i < |fs| => fs[i].body)
  }

  /** The frame `send` writes for a body. */
  function Written(body: Bytes): Frame { Frame(FIELD + DigitsOf(|body|), body) }

  // ---------- what one look at the buffer finds ----------

  /** `buf.indexOf('\r\n\r\n')`. */
  function SepAt(buf: Bytes): Option<nat> {
    if |buf| < 4 then None
    else if buf[..4] == SEP then Some(0)
    else
      match SepAt(buf[1..])
      case None => None
      case Some(i) => Some(i + 1)
  }

  /** The longest run of digits in front. */
  function DigitsIn(s: Bytes): Bytes {
    if s != [] && Digit(s[0]) then [s[0]] + DigitsIn(s[1..]) else []
  }

  function NumberOf(digits: Bytes): nat
    requires forall i | 0 <= i < |digits| :: Digit(digits[i])
  {
    if digits == [] then 0
    else
      var last := digits[|digits| - 1];
      assert Digit(last);
      10 * NumberOf(digits[..|digits| - 1]) + (last as int - 48)
  }

  lemma {:induction false} DigitsInAreDigits(s: Bytes)
    ensures forall i | 0 <= i < |DigitsIn(s)| :: Digit(DigitsIn(s)[i])
  {
    if s != [] && Digit(s[0]) { DigitsInAreDigits(s[1..]); }
  }

  /** `/Content-Length: (\d+)/` on the header: the leftmost field with a digit after it. */
  function HeaderLength(header: Bytes): Option<nat> {
    if |header| < |FIELD| then None
    else
      var digits := DigitsIn(header[|FIELD|..]);
      DigitsInAreDigits(header[|FIELD|..]);
      if header[..|FIELD|] == FIELD && digits != [] then Some(NumberOf(digits))
      else HeaderLength(header[1..])
  }

  datatype Look = More | Broken | Found(body: Bytes, rest: Bytes)

  /** A header with no length makes the reader parse an empty body, which raises. */
  function Next(buf: Bytes): (look: Look)
    ensures look.Found? ==> |look.rest| < |buf|
  {
    match SepAt(buf)
    case None => More
    case Some(sep) =>
      SepAtBounds(buf);
      match HeaderLength(buf[..sep])
      case None => Broken
      case Some(n) =>
        if |buf| < sep + 4 + n then More else Found(buf[sep + 4..sep + 4 + n], buf[sep + 4 + n..])
  }

  lemma {:induction false} SepAtBounds(buf: Bytes)
    ensures SepAt(buf).Some? ==> SepAt(buf).value + 4 <= |buf|
  {
    if |buf| >= 4 && buf[..4] != SEP { SepAtBounds(buf[1..]); }
  }

  /** The blank line found is the first one. */
  lemma {:induction false} SepAtIsFirst(buf: Bytes)
    ensures SepAt(buf).Some? ==> SepAt(buf).value + 4 <= |buf| && buf[SepAt(buf).value..][..4] == SEP
    ensures forall i | 0 <= i <= |buf| - 4 && buf[i..][..4] == SEP :: SepAt(buf).Some? && SepAt(buf).value <= i
  {
    if |buf| >= 4 && buf[..4] != SEP {
      SepAtIsFirst(buf[1..]);
      forall i | 0 <= i <= |buf| - 4 && buf[i..][..4] == SEP ensures SepAt(buf).Some? && SepAt(buf).value <= i {
        assert buf[0..] == buf;
        assert i > 0 ==> buf[1..][i - 1..] == buf[i..];
      }
      if SepAt(buf).Some? { assert buf[1..][SepAt(buf).value - 1..] == buf[SepAt(buf).value..]; }
    }
  }

  /** The field stands at `i`, with a digit behind it. */
  predicate FieldAt(header: Bytes, i: int) {
    0 <= i < |header| - |FIELD| && header[i..i + |FIELD|] == FIELD && Digit(header[i + |FIELD|])
  }

  lemma {:induction false} DigitsInIsLongest(s: Bytes)
    ensures var n := |DigitsIn(s)|; n <= |s| && s[..n] == DigitsIn(s) && (n < |s| ==> !Digit(s[n]))
  {
    if s != [] && Digit(s[0]) { DigitsInIsLongest(s[1..]); }
  }

  /** The length a header announces is the run of digits behind its first field, wherever that stands in it. */
  lemma {:induction false} HeaderLengthIsFirst(header: Bytes)
    ensures HeaderLength(header).None? ==> forall i :: !FieldAt(header, i)
    ensures HeaderLength(header).Some? ==> exists i ::
      && FieldAt(header, i) && (forall j | j < i :: !FieldAt(header, j))
      && HeaderLength(header) == Some(LengthAt(header, i))
  {
    if |header| > |FIELD| {
      var s := header[|FIELD|..];
      DigitsInIsLongest(s);
      assert FieldAt(header, 0) <==> header[..|FIELD|] == FIELD && DigitsIn(s) != [];
      if FieldAt(header, 0) {
        assert HeaderLength(header) == Some(LengthAt(header, 0));
      } else {
        HeaderLengthIsFirst(header[1..]);
        forall i | i > 0 ensures FieldAt(header, i) <==> FieldAt(header[1..], i - 1) { FieldMoves(header, i); }
        if HeaderLength(header).Some? {
          var i :| FieldAt(header[1..], i) && (forall j | j < i :: !FieldAt(header[1..], j))
            && HeaderLength(header[1..]) == Some(LengthAt(header[1..], i));
          assert header[1..][i + |FIELD|..] == header[i + 1 + |FIELD|..];
          assert FieldAt(header, i + 1);
        }
      }
    } else {
      NoFieldInShort(header);
    }
  }

  function LengthAt(header: Bytes, i: int): nat
    requires FieldAt(header, i)
  {
    DigitsInAreDigits(header[i + |FIELD|..]);
    NumberOf(DigitsIn(header[i + |FIELD|..]))
  }

  lemma FieldMoves(header: Bytes, i: int)
    requires i > 0 && header != []
    ensures FieldAt(header, i) <==> FieldAt(header[1..], i - 1)
  {
    if 0 <= i < |header| - |FIELD| { assert header[1..][i - 1..i - 1 + |FIELD|] == header[i..i + |FIELD|]; }
  }

  lemma {:induction false} NoFieldInShort(header: Bytes)
    requires |header| <= |FIELD|
    ensures HeaderLength(header).None? && forall i :: !FieldAt(header, i)
  {
    if header != [] { NoFieldInShort(header[1..]); }
  }

  // ---------- the reader ----------

  /** The messages a buffer holds, what is left of it, and whether reading it raised. */
  datatype Drained = Drained(bodies: seq<Bytes>, rest: Bytes, broken: bool)

  function Drain(buf: Bytes): Drained
    decreases |buf|
  {
    match Next(buf)
    case More => Drained([], buf, false)
    case Broken => Drained([], buf, true)
    case Found(body, rest) => Before([body], Drain(rest))
  }

  function Before(bodies: seq<Bytes>, d: Drained): Drained {
    d.(bodies := bodies + d.bodies)
  }

  class Reader {
    var buf: Bytes
    var delivered: seq<Bytes>
    var broken: bool

    constructor ()
      ensures buf == [] && delivered == [] && !broken
    {
      buf, delivered, broken := [], [], false;
    }

    /** One chunk of the stream: deliver every message it completes. */
    method Receive(chunk: Bytes)
      requires !broken
      modifies this
      ensures Drained(delivered, buf, broken) == Before(old(delivered), Drain(old(buf) + chunk))
    {
      buf := buf + chunk;
      var more := true;
      while more
        invariant more ==> !broken
        invariant if more then Before(delivered, Drain(buf)) == Before(old(delivered), Drain(old(buf) + chunk))
                  else Drained(delivered, buf, broken) == Before(old(delivered), Drain(old(buf) + chunk))
        decreases more, |buf|
      {
        match Next(buf) {
          case More => more := false;
          case Broken => more, broken := false, true;
          case Found(body, rest) =>
            assert delivered + ([body] + Drain(rest).bodies) == (delivered + [body]) + Drain(rest).bodies;
            delivered, buf := delivered + [body], rest;
        }
      }
    }

    /** The whole stream, chunk by chunk; a raise ends the reading. */
    method Read(chunks: seq<Bytes>)
      requires buf == [] && delivered == [] && !broken
      modifies this
      ensures broken == Drain(Joined(chunks)).broken && delivered == Drain(Joined(chunks)).bodies
      ensures !broken ==> buf == Drain(Joined(chunks)).rest
    {
      for i := 0 to |chunks|
        invariant Drained(delivered, buf, false) == Drain(Joined(chunks[..i])) && !broken
      {
        assert chunks[..i + 1][..i] == chunks[..i];
        DrainInTwo(Joined(chunks[..i]), chunks[i]);
        Receive(chunks[i]);
        if broken {
          BrokenStays(chunks, i + 1);
          return;
        }
      }
      assert chunks[..|chunks|] == chunks;
    }
  }

  function Joined(chunks: seq<Bytes>): Bytes {
    if chunks == [] then [] else Joined(chunks[..|chunks| - 1]) + chunks[|chunks| - 1]
  }

  // ---------- chunking does not matter ----------

  lemma {:induction false} SepStays(a: Bytes, b: Bytes)
    requires SepAt(a).Some?
    ensures SepAt(a + b) == SepAt(a)
  {
    assert (a + b)[..4] == a[..4];
    if a[..4] != SEP {
      assert (a + b)[1..] == a[1..] + b;
      SepStays(a[1..], b);
    }
  }

  /** What has been found is found again when more of the stream has arrived. */
  lemma NextStays(a: Bytes, b: Bytes)
    requires !Next(a).More?
    ensures Next(a).Broken? ==> Next(a + b).Broken?
    ensures Next(a).Found? ==> Next(a + b) == Found(Next(a).body, Next(a).rest + b)
  {
    SepStays(a, b);
    SepAtBounds(a);
    var sep := SepAt(a).value;
    assert (a + b)[..sep] == a[..sep];
    if Next(a).Found? {
      var n := HeaderLength(a[..sep]).value;
      assert (a + b)[sep + 4..sep + 4 + n] == a[sep + 4..sep + 4 + n];
      assert (a + b)[sep + 4 + n..] == a[sep + 4 + n..] + b;
    }
  }

  lemma DrainStops(buf: Bytes)
    ensures Next(buf).More? ==> Drain(buf) == Drained([], buf, false)
    ensures Next(buf).Broken? ==> Drain(buf) == Drained([], buf, true)
  {
  }

  lemma DrainMoves(buf: Bytes, body: Bytes, rest: Bytes)
    requires Next(buf) == Found(body, rest)
    ensures Drain(buf) == Before([body], Drain(rest))
  {
  }

  lemma BeforeTwice(a: seq<Bytes>, b: seq<Bytes>, d: Drained)
    ensures Before(a, Before(b, d)) == Before(a + b, d) && Before([], d) == d
  {
    assert a + (b + d.bodies) == (a + b) + d.bodies;
    assert [] + d.bodies == d.bodies;
  }

  /** Reading in two parts is reading the whole. */
  lemma {:induction false} DrainInTwo(a: Bytes, b: Bytes)
    ensures Drain(a).broken ==> Drain(a + b).broken && Drain(a + b).bodies == Drain(a).bodies
    ensures !Drain(a).broken ==> Drain(a + b) == Before(Drain(a).bodies, Drain(Drain(a).rest + b))
    decreases |a|
  {
    hide Drain;
    DrainStops(a);
    DrainStops(a + b);
    match Next(a)
    case More => BeforeTwice([], [], Drain(a + b));
    case Broken => NextStays(a, b);
    case Found(body, rest) =>
      NextStays(a, b);
      hide Next;
      DrainMoves(a, body, rest);
      DrainMoves(a + b, body, rest + b);
      DrainInTwo(rest, b);
      BeforeTwice([body], Drain(rest).bodies, Drain(Drain(rest).rest + b));
  }

  lemma {:induction false} BrokenStays(chunks: seq<Bytes>, i: nat)
    requires i <= |chunks| && Drain(Joined(chunks[..i])).broken
    ensures Drain(Joined(chunks)).broken && Drain(Joined(chunks)).bodies == Drain(Joined(chunks[..i])).bodies
    decreases |chunks|
  {
    if i == |chunks| {
      assert chunks[..i] == chunks;
    } else {
      var front := chunks[..|chunks| - 1];
      assert front[..i] == chunks[..i];
      BrokenStays(front, i);
      DrainInTwo(Joined(front), chunks[|chunks| - 1]);
    }
  }

  // ---------- reading undoes writing ----------

  /** A frame any LSP peer may send: the first blank line ends its header, which announces the body. */
  predicate Sound(f: Frame) {
    HeaderLength(f.header) == Some(|f.body|) && SepAt(f.header + SEP) == Some(|f.header|)
  }

  lemma {:induction false} NoSepBefore(h: Bytes)
    requires forall i | 0 <= i < |h| :: h[i] != CR
    ensures SepAt(h + SEP) == Some(|h|)
  {
    if h == [] {
      assert h + SEP == SEP;
    } else {
      assert (h + SEP)[..4][0] == h[0];
      assert (h + SEP)[1..] == h[1..] + SEP;
      NoSepBefore(h[1..]);
    }
  }

  lemma {:induction false} AllDigits(s: Bytes)
    requires forall i | 0 <= i < |s| :: Digit(s[i])
    ensures DigitsIn(s) == s
  {
    if s != [] { AllDigits(s[1..]); }
  }

  lemma {:induction false} DigitsReadBack(n: nat)
    ensures DigitsOf(n) != [] && (forall i | 0 <= i < |DigitsOf(n)| :: Digit(DigitsOf(n)[i]))
    ensures NumberOf(DigitsOf(n)) == n
  {
    DecimalIsDigits(n);
    if n >= 10 {
      DigitsReadBack(n / 10);
      assert DigitsOf(n)[..|DigitsOf(n)| - 1] == DigitsOf(n / 10);
    }
  }

  lemma WrittenIsSound(body: Bytes)
    ensures Sound(Written(body))
  {
    var digits := DigitsOf(|body|);
    var h := FIELD + digits;
    DigitsReadBack(|body|);
    AllDigits(digits);
    NoSepBefore(h);
    assert h[|FIELD|..] == digits && h[..|FIELD|] == FIELD;
  }

  /** A whole frame in front of the buffer is the next message, whatever the body holds and whatever follows. */
  lemma FrameIsNext(f: Frame, after: Bytes)
    requires Sound(f)
    ensures Next(Wire(f) + after) == Found(f.body, after)
  {
    var buf := Wire(f) + after;
    assert buf == (f.header + SEP) + (f.body + after);
    SepStays(f.header + SEP, f.body + after);
    assert buf[..|f.header|] == f.header;
    assert buf[|f.header| + 4..|f.header| + 4 + |f.body|] == f.body;
    assert buf[|f.header| + 4 + |f.body|..] == after;
  }

  /** Less than a whole frame is no message yet. */
  lemma PartOfFrameIsNotNext(f: Frame, n: nat)
    requires Sound(f) && n < |Wire(f)|
    ensures Next(Wire(f)[..n]) == More
  {
    var part := Wire(f)[..n];
    if SepAt(part).Some? {
      assert Wire(f) == part + Wire(f)[n..];
      SepStays(part, Wire(f)[n..]);
      assert Wire(f) == (f.header + SEP) + f.body;
      SepStays(f.header + SEP, f.body);
      SepAtBounds(part);
      assert part[..|f.header|] == f.header;
    }
  }

  lemma {:induction false} DrainFrames(fs: seq<Frame>, part: Bytes)
    requires forall i | 0 <= i < |fs| :: Sound(fs[i])
    requires Next(part) == More
    ensures Drain(Wires(fs) + part) == Drained(Bodies(fs), part, false)
  {
    if fs == [] {
      assert Wires(fs) + part == part;
    } else {
      var after := Wires(fs[1..]) + part;
      assert Wires(fs) + part == Wire(fs[0]) + after;
      FrameIsNext(fs[0], after);
      DrainFrames(fs[1..], part);
      assert Bodies(fs) == [fs[0].body] + Bodies(fs[1..]);
    }
  }

  /** The `n` bytes received so far hold the first `k` frames whole, and a proper prefix of the next. */
  predicate HoldsFrames(fs: seq<Frame>, n: nat, k: nat) {
    && k <= |fs| && n <= |Wires(fs)|
    && |Wires(fs[..k])| <= n
    && (if k < |fs| then n < |Wires(fs[..k + 1])| else n == |Wires(fs)|)
  }

  lemma {:induction false} WiresInTwo(fs: seq<Frame>, k: nat)
    requires k <= |fs|
    ensures Wires(fs) == Wires(fs[..k]) + Wires(fs[k..])
  {
    if k > 0 {
      WiresInTwo(fs[1..], k - 1);
      assert fs[1..][..k - 1] == fs[..k][1..] && fs[1..][k - 1..] == fs[k..];
    } else {
      assert fs[k..] == fs;
    }
  }

  /** DEFRAMING. However the stream is cut into chunks, after any `n` of its bytes the reader has delivered
      exactly the messages that have arrived whole, in order: none late, none early, whatever their bodies hold.
      What it keeps is a proper prefix of one frame. */
  lemma DeliversWhatArrived(fs: seq<Frame>, chunks: seq<Bytes>, k: nat)
    requires forall i | 0 <= i < |fs| :: Sound(fs[i])
    requires Joined(chunks) <= Wires(fs) && HoldsFrames(fs, |Joined(chunks)|, k)
    ensures var d := Drain(Joined(chunks));
      && d.bodies == Bodies(fs[..k]) && !d.broken
      && Joined(chunks) == Wires(fs[..k]) + d.rest
      && if k < |fs| then d.rest < Wire(fs[k]) else d.rest == []
  {
    hide Drain, Next, Wires, Wire, Sound, Bodies, Joined;
    var got := Joined(chunks);
    ArrivedPart(fs, got, k);
    var part := got[|Wires(fs[..k])|..];
    if k < |fs| {
      PartOfFrameIsNotNext(fs[k], |part|);
    } else {
      EmptyIsMore();
    }
    DrainFrames(fs[..k], part);
  }

  lemma EmptyIsMore()
    ensures Next([]) == More
  {
  }

  lemma ArrivedPart(fs: seq<Frame>, got: Bytes, k: nat)
    requires got <= Wires(fs) && HoldsFrames(fs, |got|, k)
    ensures |Wires(fs[..k])| <= |got|
    ensures var part := got[|Wires(fs[..k])|..];
      && got == Wires(fs[..k]) + part
      && if k < |fs| then part < Wire(fs[k]) && part == Wire(fs[k])[..|part|] else part == []
  {
    WiresInTwo(fs, k);
    var part := got[|Wires(fs[..k])|..];
    assert got == Wires(fs[..k]) + part;
    if k < |fs| {
      PartIsProper(fs, k, part);
    } else {
      assert fs[..k] == fs;
    }
  }

  lemma PartIsProper(fs: seq<Frame>, k: nat, part: Bytes)
    requires k < |fs| && Wires(fs[..k]) + part <= Wires(fs) && |Wires(fs[..k]) + part| < |Wires(fs[..k + 1])|
    ensures part < Wire(fs[k]) && part == Wire(fs[k])[..|part|]
  {
    WiresInTwo(fs, k + 1);
    WiresInTwo(fs[..k + 1], k);
    assert fs[..k + 1][..k] == fs[..k] && fs[..k + 1][k..] == [fs[k]] && [fs[k]][1..] == [];
    assert Wires([fs[k]]) == Wire(fs[k]);
    assert Wires(fs) == Wires(fs[..k]) + Wire(fs[k]) + Wires(fs[k + 1..]);
    assert part == (Wires(fs[..k]) + part)[|Wires(fs[..k])|..];
  }

  lemma MoreFrames(fs: seq<Frame>, n: nat, k: nat)
    requires fs != [] && n < |Wires(fs[..|fs| - 1])| && HoldsFrames(fs[..|fs| - 1], n, k)
    ensures HoldsFrames(fs, n, k)
  {
    var front := fs[..|fs| - 1];
    WiresInTwo(fs, |fs| - 1);
    assert k < |front|;
    assert front[..k] == fs[..k] && front[..k + 1] == fs[..k + 1];
  }

  /** Such a `k` always exists. */
  lemma {:induction false} SomeFramesHeld(fs: seq<Frame>, n: nat)
    requires n <= |Wires(fs)|
    ensures exists k :: HoldsFrames(fs, n, k)
  {
    if fs == [] {
      assert HoldsFrames(fs, n, 0);
    } else {
      var last := |fs| - 1;
      WiresInTwo(fs, last);
      if |Wires(fs[..last])| <= n < |Wires(fs)| {
        assert fs[..last + 1] == fs;
        assert HoldsFrames(fs, n, last);
      } else if n == |Wires(fs)| {
        assert fs[..|fs|] == fs;
        assert HoldsFrames(fs, n, |fs|);
      } else {
        SomeFramesHeld(fs[..last], n);
        if k: nat :| HoldsFrames(fs[..last], n, k) { MoreFrames(fs, n, k); }
      }
    }
  }

  /** Every message the writer sends is read back, in order, under every chunking of the stream. */
  lemma ReadingUndoesWriting(bodies: seq<Bytes>, chunks: seq<Bytes>)
    requires Joined(chunks) == Wires(seq(|bodies|, i requires 0 <= i < |bodies| => Written(bodies[i])))
    ensures Drain(Joined(chunks)) == Drained(bodies, [], false)
  {
    var fs := seq(|bodies|, i requires 0 <= i < |bodies| => Written(bodies[i]));
    forall i | 0 <= i < |fs| ensures Sound(fs[i]) { WrittenIsSound(bodies[i]); }
    assert Wires(fs) + [] == Wires(fs);
    DrainFrames(fs, []);
    assert Bodies(fs) == bodies;
  }
}
