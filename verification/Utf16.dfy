/** JavaScript strings as sequences of UTF-16 code units, and the two encodings the database puts them
    through: the well-formed spelling every string is stored in, and its UTF-8 bytes. */
module Utf16 {

  type Unit = u: int | 0 <= u < 0x1_0000
  type Text = seq<Unit>
  type Byte = b: int | 0 <= b < 0x100

  /** A Unicode scalar value: any code point but a surrogate. */
  type Scalar = c: int | 0 <= c < 0xD800 || 0xE000 <= c < 0x11_0000

  const REPLACEMENT: Scalar := 0xFFFD

  predicate High(u: Unit) { 0xD800 <= u <= 0xDBFF }
  predicate Low(u: Unit) { 0xDC00 <= u <= 0xDFFF }
  predicate Paired(s: Text) { |s| >= 2 && High(s[0]) && Low(s[1]) }

  /** The code points of a UTF-16 text; a surrogate that is not half of a pair reads as U+FFFD. */
  function Scalars(s: Text): seq<Scalar> {
    if s == [] then []
    else if Paired(s) then [0x1_0000 + (s[0] - 0xD800) * 0x400 + (s[1] - 0xDC00)] + Scalars(s[2..])
    else if High(s[0]) || Low(s[0]) then [REPLACEMENT] + Scalars(s[1..])
    else [s[0]] + Scalars(s[1..])
  }

  /** `String.prototype.toWellFormed`: each lone surrogate becomes U+FFFD. */
  function WellFormed(s: Text): Text {
    if s == [] then []
    else if Paired(s) then s[..2] + WellFormed(s[2..])
    else if High(s[0]) || Low(s[0]) then [REPLACEMENT] + WellFormed(s[1..])
    else [s[0]] + WellFormed(s[1..])
  }

  /** Writing a text well-formed changes none of the code points a reader sees. */
  lemma {:induction false} WellFormedKeepsScalars(s: Text)
    ensures Scalars(WellFormed(s)) == Scalars(s)
  {
    if s == [] {
    } else if Paired(s) {
      WellFormedKeepsScalars(s[2..]);
      assert WellFormed(s)[2..] == WellFormed(s[2..]);
    } else {
      WellFormedKeepsScalars(s[1..]);
      assert WellFormed(s)[1..] == WellFormed(s[1..]);
    }
  }

  lemma {:induction false} WellFormedTwice(s: Text)
    ensures WellFormed(WellFormed(s)) == WellFormed(s)
  {
    if s != [] {
      if Paired(s) {
        WellFormedTwice(s[2..]);
        assert WellFormed(s)[2..] == WellFormed(s[2..]);
      } else {
        WellFormedTwice(s[1..]);
        assert WellFormed(s)[1..] == WellFormed(s[1..]);
      }
    }
  }

  /** No surrogate without its other half. */
  predicate NoLoneSurrogate(s: Text) {
    && (forall i | 0 <= i < |s| && High(s[i]) :: i + 1 < |s| && Low(s[i + 1]))
    && forall i | 0 <= i < |s| && Low(s[i]) :: i > 0 && High(s[i - 1])
  }

  lemma {:induction false} WellFormedHasNoLoneSurrogate(s: Text)
    ensures NoLoneSurrogate(WellFormed(s))
    ensures WellFormed(s) != [] ==> !Low(WellFormed(s)[0])
  {
    if s != [] {
      var head, rest := if Paired(s) then 2 else 1, if Paired(s) then s[2..] else s[1..];
      WellFormedHasNoLoneSurrogate(rest);
      var w, tail := WellFormed(s), WellFormed(rest);
      assert w == w[..head] + tail;
      assert head == 1 ==> !High(w[0]) && !Low(w[0]);
      SurrogatesStayPaired(w[..head], tail);
    }
  }

  lemma SurrogatesStayPaired(head: Text, tail: Text)
    requires (|head| == 1 && !High(head[0]) && !Low(head[0])) || (|head| == 2 && Paired(head))
    requires NoLoneSurrogate(tail)
    ensures NoLoneSurrogate(head + tail) && !Low((head + tail)[0])
  {
    var w := head + tail;
    assert forall i | |head| <= i < |w| :: w[i] == tail[i - |head|];
  }

  /** The units of a code point: itself, or a surrogate pair. */
  function Units(c: Scalar): Text {
    if c < 0x1_0000 then [c]
    else [0xD800 + (c - 0x1_0000) / 0x400, 0xDC00 + (c - 0x1_0000) % 0x400]
  }

  function AllUnits(cs: seq<Scalar>): Text {
    if cs == [] then [] else Units(cs[0]) + AllUnits(cs[1..])
  }

  /** The code points a reader sees, written in UTF-16 again, are the well-formed spelling. */
  lemma {:induction false} ScalarsSpellWellFormed(s: Text)
    ensures AllUnits(Scalars(s)) == WellFormed(s)
  {
    if s != [] {
      var rest := if Paired(s) then s[2..] else s[1..];
      ScalarsSpellWellFormed(rest);
      assert Scalars(s)[1..] == Scalars(rest);
    }
  }

  /** The decimal spelling of a number, `String(n)`. */
  function Decimal(n: int): Text
    decreases n < 0, if n < 0 then -n else n
  {
    if n < 0 then [45] + Decimal(-n)
    else if n < 10 then [48 + n]
    else Decimal(n / 10) + [48 + n % 10]
  }

  /** The number a decimal spelling stands for. */
  function ReadDecimal(t: Text): int {
    if t == [] then 0
    else if t[0] == 45 then -ReadDigits(t[1..])
    else ReadDigits(t)
  }

  function ReadDigits(t: Text): int {
    if t == [] then 0 else 10 * ReadDigits(t[..|t| - 1]) + t[|t| - 1] - 48
  }

  lemma {:induction false} DigitsReadBack(n: nat)
    ensures ReadDigits(Decimal(n)) == n && Decimal(n) != [] && forall i | 0 <= i < |Decimal(n)| ::
      48 <= Decimal(n)[i] < 58
  {
    if n < 10 {
      assert ReadDigits([]) == 0 && Decimal(n)[..0] == [];
    } else {
      DigitsReadBack(n / 10);
      assert Decimal(n)[..|Decimal(n)| - 1] == Decimal(n / 10);
    }
  }

  /** A number can be told from its spelling. */
  lemma DecimalReadsBack(n: int)
    ensures ReadDecimal(Decimal(n)) == n
  {
    DigitsReadBack(if n < 0 then -n else n);
    if n < 0 { assert Decimal(n)[1..] == Decimal(-n); }
  }

  lemma {:induction false} PlainIsWellFormed(s: Text)
    requires forall i | 0 <= i < |s| :: s[i] < 0x80
    ensures WellFormed(s) == s
  {
    if s != [] { PlainIsWellFormed(s[1..]); }
  }

  lemma DecimalIsWellFormed(n: int)
    ensures WellFormed(Decimal(n)) == Decimal(n)
  {
    DigitsReadBack(if n < 0 then -n else n);
    PlainIsWellFormed(Decimal(n));
  }

  // ---------- UTF-8 (RFC 3629, section 3) ----------

  function EncodeScalar(c: Scalar): seq<Byte> {
    if c < 0x80 then [c]
    else if c < 0x800 then [0xC0 + c / 0x40, 0x80 + c % 0x40]
    else if c < 0x1_0000 then [0xE0 + c / 0x1000, 0x80 + c / 0x40 % 0x40, 0x80 + c % 0x40]
    else [0xF0 + c / 0x4_0000, 0x80 + c / 0x1000 % 0x40, 0x80 + c / 0x40 % 0x40, 0x80 + c % 0x40]
  }

  function Encode(cs: seq<Scalar>): seq<Byte> {
    if cs == [] then [] else EncodeScalar(cs[0]) + Encode(cs[1..])
  }

  /** The bytes a JavaScript string is stored as. */
  function Utf8(s: Text): seq<Byte> { Encode(Scalars(s)) }

  /** How many bytes the sequence starting with lead byte `b` has. */
  function SequenceLength(b: Byte): nat {
    if b < 0x80 then 1 else if b < 0xE0 then 2 else if b < 0xF0 then 3 else 4
  }

  /** Read one encoded scalar back from its bytes. */
  function DecodeScalar(bs: seq<Byte>): int
    requires bs != [] && |bs| >= SequenceLength(bs[0])
  {
    var lead: int := bs[0];
    var next := (i: nat) requires i < |bs| => (bs[i] as int) - 0x80;
    match SequenceLength(bs[0])
    case 1 => lead
    case 2 => (lead - 0xC0) * 0x40 + next(1)
    case 3 => (lead - 0xE0) * 0x1000 + next(1) * 0x40 + next(2)
    case _ => (lead - 0xF0) * 0x4_0000 + next(1) * 0x1000 + next(2) * 0x40 + next(3)
  }

  function Decode(bs: seq<Byte>): seq<int> {
    if bs == [] || |bs| < SequenceLength(bs[0]) then []
    else [DecodeScalar(bs)] + Decode(bs[SequenceLength(bs[0])..])
  }

  lemma EncodedScalarReadsBack(c: Scalar)
    ensures SequenceLength(EncodeScalar(c)[0]) == |EncodeScalar(c)|
    ensures DecodeScalar(EncodeScalar(c)) == c
  {
    assert c == c / 0x40 * 0x40 + c % 0x40;
    assert c / 0x40 == c / 0x1000 * 0x40 + c / 0x40 % 0x40;
    assert c / 0x1000 == c / 0x4_0000 * 0x40 + c / 0x1000 % 0x40;
  }

  /** The encoder loses nothing: decoding its bytes gives back the code points. */
  lemma {:induction false} DecodeUndoesEncode(cs: seq<Scalar>)
    ensures Decode(Encode(cs)) == cs
  {
    if cs != [] {
      var head, tail := EncodeScalar(cs[0]), Encode(cs[1..]);
      EncodedScalarReadsBack(cs[0]);
      DecodeUndoesEncode(cs[1..]);
      assert Encode(cs)[|head|..] == tail;
      assert DecodeScalar(Encode(cs)) == DecodeScalar(head);
    }
  }
}
