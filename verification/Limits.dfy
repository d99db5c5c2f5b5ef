/** The platform limits: exact UTF-8 sizing (src/do-limits.ts) and the statement check built on it
    (src/cf-limits.ts). */
module Limits {
  import opened Utf16

  const CF_MAX_BINDS := 100
  const CF_MAX_SQL_BYTES := 100 * 1024
  const CF_MAX_VALUE_BYTES := 2 * 1024 * 1024

  /** The byte count by cases on the leading unit, as the counting loop meets them. */
  function Size(s: Text): nat {
    if s == [] then 0
    else if Paired(s) then 4 + Size(s[2..])
    else (if s[0] < 0x80 then 1 else if s[0] < 0x800 then 2 else 3) + Size(s[1..])
  }

  lemma {:induction false} SizeIsUtf8Length(s: Text)
    ensures Size(s) == |Utf8(s)|
  {
    if s != [] {
      var rest := if Paired(s) then s[2..] else s[1..];
      SizeIsUtf8Length(rest);
      assert Scalars(s)[1..] == Scalars(rest);
    }
  }

  /** Exact UTF-8 byte length of a text, counted without building the encoding. */
  method Utf8Bytes(text: Text) returns (bytes: nat)
    ensures bytes == |Utf8(text)|
  {
    SizeIsUtf8Length(text);
    bytes := |text|;
    var at := 0;
    while at < |text|
      invariant 0 <= at <= |text|
      invariant bytes + Size(text[at..]) == Size(text) + |text| - at
    {
      var unit := text[at];
      assert text[at..][1..] == text[at + 1..];
      assert at + 1 < |text| ==> text[at..][1] == text[at + 1] && text[at..][2..] == text[at + 2..];
      if unit < 0x80 {
      } else if unit < 0x800 {
        bytes := bytes + 1;
      } else if High(unit) && at + 1 < |text| && Low(text[at + 1]) {
        bytes := bytes + 2;
        at := at + 1;
      } else {
        bytes := bytes + 2;
      }
      at := at + 1;
    }
  }

  /** No UTF-16 unit costs more than three bytes, which is what makes the length-only short cut sound. */
  lemma {:induction false} ThreeBytesPerUnit(s: Text)
    ensures |s| <= |Utf8(s)| <= 3 * |s|
  {
    SizeIsUtf8Length(s);
    if s != [] {
      var rest := if Paired(s) then s[2..] else s[1..];
      SizeIsUtf8Length(rest);
      ThreeBytesPerUnit(rest);
    }
  }

  predicate SplitsPair(a: Text, b: Text) {
    a != [] && b != [] && High(a[|a| - 1]) && Low(b[0])
  }

  /** Sizing is additive over concatenation, except that two lone halves (3 bytes each) meeting at the
      join become one 4-byte code point. */
  lemma Utf8Additive(a: Text, b: Text)
    ensures |Utf8(a + b)| == |Utf8(a)| + |Utf8(b)| - (if SplitsPair(a, b) then 2 else 0)
  {
    SizeIsUtf8Length(a);
    SizeIsUtf8Length(b);
    SizeIsUtf8Length(a + b);
    SizeAdditive(a, b);
  }

  lemma {:induction false} SizeAdditive(a: Text, b: Text)
    ensures Size(a + b) == Size(a) + Size(b) - (if SplitsPair(a, b) then 2 else 0)
  {
    if a == [] {
      assert a + b == b;
    } else if Paired(a) {
      assert (a + b)[2..] == a[2..] + b;
      SizeAdditive(a[2..], b);
    } else if |a| == 1 {
      assert (a + b)[1..] == b;
      assert Paired(a + b) ==> (a + b)[2..] == b[1..];
    } else {
      assert (a + b)[1..] == a[1..] + b;
      SizeAdditive(a[1..], b);
    }
  }

  /** `fitsUtf8`: decided from the length alone when three bytes per unit already fit. */
  method FitsUtf8(text: Text, cap: nat) returns (fits: bool)
    ensures fits <==> |Utf8(text)| <= cap
  {
    ThreeBytesPerUnit(text);
    if |text| * 3 <= cap { return true; }
    var bytes := Utf8Bytes(text);
    return bytes <= cap;
  }

  /** A bound parameter: only text and blobs have a size that can matter. */
  datatype Bind = TextBind(text: Text) | BlobBind(bytes: nat) | OtherBind

  function BindBytes(b: Bind): nat {
    match b
    case TextBind(text) => |Utf8(text)|
    case BlobBind(bytes) => bytes
    case OtherBind => 0
  }

  datatype Limit = BindCount | SqlText | BindValue(at: nat)

  /** What a violation names: the limit and the measured figure. */
  datatype Violation = None | Exceeds(limit: Limit, figure: nat)

  predicate Legal(sql: Text, binds: seq<Bind>) {
    && |binds| <= CF_MAX_BINDS
    && |Utf8(sql)| <= CF_MAX_SQL_BYTES
    && forall i | 0 <= i < |binds| :: BindBytes(binds[i]) <= CF_MAX_VALUE_BYTES
  }

  method ValueBytes(bind: Bind) returns (size: nat)
    ensures size <= CF_MAX_VALUE_BYTES <==> BindBytes(bind) <= CF_MAX_VALUE_BYTES
    ensures size > CF_MAX_VALUE_BYTES ==> size == BindBytes(bind)
  {
    match bind
    case TextBind(text) =>
      var fits := FitsUtf8(text, CF_MAX_VALUE_BYTES);
      if fits { return 0; }
      size := Utf8Bytes(text);
    case BlobBind(bytes) => size := bytes;
    case OtherBind => size := 0;
  }

  /** The statement check: silent exactly on a legal statement, and otherwise naming the first limit
      broken (count, then text, then the first oversized bind) with its exact figure. */
  method FindViolation(sql: Text, binds: seq<Bind>) returns (v: Violation)
    ensures v.None? <==> Legal(sql, binds)
    ensures v.Exceeds? ==>
      match v.limit
      case BindCount => v.figure == |binds| > CF_MAX_BINDS
      case SqlText => |binds| <= CF_MAX_BINDS && v.figure == |Utf8(sql)| > CF_MAX_SQL_BYTES
      case BindValue(at) =>
        && |binds| <= CF_MAX_BINDS && |Utf8(sql)| <= CF_MAX_SQL_BYTES
        && at < |binds| && v.figure == BindBytes(binds[at]) > CF_MAX_VALUE_BYTES
        && forall i | 0 <= i < at :: BindBytes(binds[i]) <= CF_MAX_VALUE_BYTES
  {
    if |binds| > CF_MAX_BINDS { return Exceeds(BindCount, |binds|); }
    var fits := FitsUtf8(sql, CF_MAX_SQL_BYTES);
    if !fits {
      var bytes := Utf8Bytes(sql);
      return Exceeds(SqlText, bytes);
    }
    for at := 0 to |binds|
      invariant forall i | 0 <= i < at :: BindBytes(binds[i]) <= CF_MAX_VALUE_BYTES
    {
      var size := ValueBytes(binds[at]);
      if size > CF_MAX_VALUE_BYTES { return Exceeds(BindValue(at), size); }
    }
    return None;
  }
}
