/** Byte strings and the handful of Python conversions that the wire formats rely on.
    Text is represented by its encoded bytes throughout. */
module Bytes {

  type byte = x: int | 0 <= x < 256
  type bytes = seq<byte>

  datatype Option<+T> = None | Some(value: T)

  function Min(a: int, b: int): int { if a < b then a else b }
  function Max(a: int, b: int): int { if a < b then b else a }

  /** `s[lo:hi]` for non-negative bounds: out-of-range bounds are clamped, never an error. */
  function Slice<T>(s: seq<T>, lo: nat, hi: nat): seq<T> {
    if lo < Min(hi, |s|) then s[lo..Min(hi, |s|)] else []
  }

  /** `int.from_bytes(b, "big")`; an empty string reads as zero. */
  function FromBigEndian(b: bytes): (n: nat)
    ensures (|b| <= 1 ==> n < 0x100) && (|b| <= 2 ==> n < 0x1_0000)
  {
    if |b| == 0 then 0 else 256 * FromBigEndian(b[..|b| - 1]) + b[|b| - 1]
  }

  function U16(n: nat): bytes
    requires n < 0x1_0000
  {
    [n / 256, n % 256]
  }

  function U32(n: nat): bytes
    requires n < 0x1_0000_0000
  {
    [n / 0x100_0000, n / 0x1_0000 % 256, n / 256 % 256, n % 256]
  }

  /** The most significant byte comes first. */
  lemma BigEndian(a: byte, b: byte, c: byte, d: byte)
    ensures FromBigEndian([a]) == a
    ensures FromBigEndian([a, b]) == 0x100 * a + b
    ensures FromBigEndian([a, b, c]) == 0x1_0000 * a + 0x100 * b + c
    ensures FromBigEndian([a, b, c, d]) == 0x100_0000 * a + 0x1_0000 * b + 0x100 * c + d
  {
    assert [a][..0] == [] && [a, b][..1] == [a] && [a, b, c][..2] == [a, b] && [a, b, c, d][..3] == [a, b, c];
    assert FromBigEndian([a]) == 256 * FromBigEndian([]) + a;
    assert FromBigEndian([a, b]) == 256 * FromBigEndian([a]) + b;
    assert FromBigEndian([a, b, c]) == 256 * FromBigEndian([a, b]) + c;
  }

  lemma U32RoundTrip(n: nat)
    requires n < 0x1_0000_0000
    ensures |U32(n)| == 4 && FromBigEndian(U32(n)) == n
  {
    TwoDigits(n);
    TwoDigits(n / 256);
    BigEndian(n / 0x100_0000, n / 0x1_0000 % 256, n / 256 % 256, n % 256);
  }

  /** Base 256. */
  lemma TwoDigits(n: nat)
    ensures n == 256 * (n / 256) + n % 256 && n / 256 / 256 == n / 0x1_0000 && n / 256 / 0x1_0000 == n / 0x100_0000
  {
  }

  lemma U16RoundTrip(n: nat)
    requires n < 0x1_0000
    ensures FromBigEndian(U16(n)) == n
  {
    assert U16(n)[..1] == [n / 256];
    assert FromBigEndian([n / 256]) == 256 * FromBigEndian([]) + n / 256;
  }

  /** `b.ljust(width, b"\x00")[:width]`: exactly `width` bytes, zero filled or cut. */
  function Fit(b: bytes, width: nat): (r: bytes)
    ensures |r| == width
  {
    if |b| >= width then b[..width] else b + Zeros(width - |b|)
  }

  function Zeros(n: nat): (z: bytes)
    ensures |z| == n
  {
    seq(n, _ => 0)
  }

  /** A text in single-byte characters. */
  function Text(s: string): (b: bytes)
    requires forall i :: 0 <= i < |s| ==> s[i] as int < 0x100
    ensures |b| == |s| && forall i :: 0 <= i < |s| ==> b[i] == s[i] as int
  {
    seq(|s|, i requires 0 <= i < |s| => s[i] as int)
  }

  /** A text that is none of finitely many. */
  lemma NewText(known: set<bytes>) returns (text: bytes)
    ensures text !in known
  {
    var n := LongerThanAll(known);
    text := Zeros(n);
  }

  lemma LongerThanAll(known: set<bytes>) returns (n: nat)
    ensures forall m :: m in known ==> |m| < n
    decreases known
  {
    n := 0;
    if m :| m in known {
      n := LongerThanAll(known - {m});
      if |m| >= n { n := |m| + 1; }
    }
  }

  // ---------- split and join ----------

  /** `text.split(sep)` for a one-byte separator: always at least one field. */
  function Split(sep: byte, text: bytes): (fields: seq<bytes>)
    ensures |fields| >= 1
  {
    if sep !in text then [text]
    else
      var i := IndexOf(sep, text);
      [text[..i]] + Split(sep, text[i + 1..])
  }

  function IndexOf(b: byte, text: bytes): (i: nat)
    requires b in text
    ensures i < |text| && text[i] == b && b !in text[..i]
  {
    if text[0] == b then 0
    else
      var i := IndexOf(b, text[1..]);
      assert text[..i + 1] == [text[0]] + text[1..][..i];
      i + 1
  }

  lemma SplitFirst(sep: byte, field: bytes, rest: bytes)
    requires sep !in field
    ensures Split(sep, field + [sep] + rest) == [field] + Split(sep, rest)
  {
    var text := field + [sep] + rest;
    assert text[|field|] == sep;
    var i := IndexOf(sep, text);
    assert forall j :: 0 <= j < |field| ==> text[j] == field[j] && field[j] != sep;
    assert forall j :: 0 <= j < i ==> text[j] == text[..i][j] != sep;
    assert text[..i] == field && text[i + 1..] == rest;
  }

  function Join(sep: byte, fields: seq<bytes>): bytes {
    if |fields| == 0 then []
    else if |fields| == 1 then fields[0]
    else fields[0] + [sep] + Join(sep, fields[1..])
  }

  lemma {:induction false} SplitInvertsJoin(sep: byte, fields: seq<bytes>)
    requires |fields| >= 1
    requires forall f :: f in fields ==> sep !in f
    ensures Split(sep, Join(sep, fields)) == fields
  {
    if |fields| > 1 {
      SplitInvertsJoin(sep, fields[1..]);
      SplitFirst(sep, fields[0], Join(sep, fields[1..]));
    }
  }

  // ---------- decimal text ----------

  const MINUS: byte := 45
  const PLUS: byte := 43
  const DOT: byte := 46
  const COLON: byte := 58

  predicate IsDigit(b: byte) { 48 <= b <= 57 }

  /** `str(n).encode()` */
  function PrintNat(n: nat): (text: bytes)
    ensures |text| >= 1 && forall d :: d in text ==> IsDigit(d)
  {
    if n < 10 then [48 + n] else PrintNat(n / 10) + [48 + n % 10]
  }

  function ParseDigits(text: bytes): Option<nat> {
    if |text| == 0 || !IsDigit(text[|text| - 1]) then None
    else if |text| == 1 then Some(text[0] - 48)
    else match ParseDigits(text[..|text| - 1])
      case None => None
      case Some(v) => Some(10 * v + (text[|text| - 1] - 48))
  }

  /** `int(text)`: an optional sign and decimal digits; None stands for ValueError. */
  function ParseInt(text: bytes): Option<int> {
    var signed := |text| > 0 && (text[0] == MINUS || text[0] == PLUS);
    var digits := ParseDigits(if signed then text[1..] else text);
    if digits.None? then None
    else
      var v: int := digits.value;
      Some(if signed && text[0] == MINUS then -v else v)
  }

  lemma {:induction false} ParseDigitsInvertsPrint(n: nat)
    ensures ParseDigits(PrintNat(n)) == Some(n)
  {
    if n >= 10 {
      ParseDigitsInvertsPrint(n / 10);
      var text := PrintNat(n);
      assert text[..|text| - 1] == PrintNat(n / 10);
    }
  }

  lemma ParseIntInvertsPrint(n: nat)
    ensures ParseInt(PrintNat(n)) == Some(n)
  {
    ParseDigitsInvertsPrint(n);
    assert IsDigit(PrintNat(n)[0]) by { assert PrintNat(n)[0] in PrintNat(n); }
  }

  // ---------- hexadecimal text ----------

  function HexDigit(d: nat): byte
    requires d < 16
  {
    if d < 10 then 48 + d else 87 + d
  }

  /** `f"{b:02x}"` */
  function Hex2(b: byte): bytes { [HexDigit(b / 16), HexDigit(b % 16)] }

  lemma Hex2Injective(a: byte, b: byte)
    requires Hex2(a) == Hex2(b)
    ensures a == b
  {
    assert Hex2(a)[0] == Hex2(b)[0] && Hex2(a)[1] == Hex2(b)[1];
  }
}
