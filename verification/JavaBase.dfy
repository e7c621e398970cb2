/** The client's bytes, remainders and array copies, as Java has them. */
module JavaBase {
  type sbyte = b: int | -0x80 <= b < 0x80
  type jint = n: int | -0x8000_0000 <= n < 0x8000_0000

  datatype Error =
    | TooShort
    | BadLength
    | BadCheckSum
    | BadHeader
    | BadPayloadLength
    | BadPayloadType
    | IllegalArgument
    | IndexOutOfBounds

  datatype Result<+T> = Ok(value: T) | Err(error: Error)

  /** The remainder of a division that truncates towards zero: it has the sign of `a`. */
  function Rem(a: int, m: int): int
    requires m > 0
  {
    if a >= 0 then a % m else -((-a) % m)
  }

  /** The narrowing cast to a byte. */
  function ToByte(n: int): sbyte {
    (n + 0x80) % 0x100 - 0x80
  }

  /** A copy of the range, filled up with zeros behind the end of the array. */
  function CopyOfRange(bytes: seq<sbyte>, from: nat, to: int): Result<seq<sbyte>> {
    if to < from then Err(IllegalArgument)
    else if from > |bytes| then Err(IndexOutOfBounds)
    else Ok(seq(to - from, k requires 0 <= k < to - from => if from + k < |bytes| then bytes[from + k] else 0))
  }

  /** The default character set of the Java machine. */
  datatype Charset = Charset(encode: string -> seq<sbyte>, decode: seq<sbyte> -> string)

  predicate IsAsciiText(s: string) {
    forall k :: 0 <= k < |s| ==> s[k] as int < 0x80
  }

  predicate IsAscii(bytes: seq<sbyte>) {
    forall k :: 0 <= k < |bytes| ==> bytes[k] >= 0
  }

  function AsciiBytes(s: string): seq<sbyte>
    requires IsAsciiText(s)
  {
    seq(|s|, k requires 0 <= k < |s| => s[k] as int)
  }

  function AsciiText(bytes: seq<sbyte>): string
    requires IsAscii(bytes)
  {
    seq(|bytes|, k requires 0 <= k < |bytes| => bytes[k] as char)
  }

  /** All the usual character sets are: they agree with ASCII where ASCII is defined. */
  ghost predicate AsciiCompatible(cs: Charset) {
    && (forall s :: IsAsciiText(s) ==> cs.encode(s) == AsciiBytes(s))
    && (forall b :: IsAscii(b) ==> cs.decode(b) == AsciiText(b))
  }

  lemma AsciiRoundTrip(cs: Charset, s: string)
    requires AsciiCompatible(cs) && IsAsciiText(s)
    ensures |cs.encode(s)| == |s| && IsAscii(cs.encode(s)) && cs.decode(cs.encode(s)) == s
  {
    assert AsciiText(AsciiBytes(s)) == s;
  }

  lemma AsciiBytesRoundTrip(cs: Charset, b: seq<sbyte>)
    requires AsciiCompatible(cs) && IsAscii(b)
    ensures |cs.decode(b)| == |b| && IsAsciiText(cs.decode(b)) && cs.encode(cs.decode(b)) == b
  {
    assert AsciiBytes(AsciiText(b)) == b;
  }

  /** The remainder is what a multiple of `m` leaves over, smaller than `m`, and never of the other sign than `a`. */
  lemma RemIsRemainder(a: int, m: int)
    requires m > 0
    ensures -m < Rem(a, m) < m && (a >= 0 ==> Rem(a, m) >= 0) && (a <= 0 ==> Rem(a, m) <= 0)
    ensures exists q :: a == m * q + Rem(a, m)
  {
    if a >= 0 {
      assert a == m * (a / m) + Rem(a, m);
    } else {
      assert -a == m * ((-a) / m) + (-a) % m;
      assert m * (-((-a) / m)) == -(m * ((-a) / m));
      assert a == m * (-((-a) / m)) + Rem(a, m);
    }
  }

  /** A cast keeps the lowest byte. */
  lemma CastKeepsLowestByte(n: int)
    ensures exists q :: n == 0x100 * q + ToByte(n)
    ensures -0x80 <= n < 0x80 ==> ToByte(n) == n
  {
    assert n == 0x100 * ((n + 0x80) / 0x100) + ToByte(n);
  }
}
