/**
 * Byte-level conversions of the .NET runtime the decoder relies on:
 * BitConverter.ToInt32 (little-endian two's complement), BitConverter.ToString
 * (dash-separated upper-case hex), Encoding.ASCII.GetString, and C#'s unchecked
 * 32-bit integer arithmetic. A 4-byte float is kept as its raw bytes.
 */
module Bytes {

  /** An unsigned 8-bit value, as read from the file. */
  newtype byte = x: int | 0 <= x < 0x100

  /** A System.Single kept opaque: its four bytes in file (little-endian) order. */
  type Float32 = b: seq<byte> | |b| == 4 witness [0, 0, 0, 0]

  /** The bytes of 0f, the value of every element of a freshly allocated float[]. */
  const ZeroFloat: Float32 := [0, 0, 0, 0]

  const TwoTo31: int := 0x8000_0000
  const TwoTo32: int := 0x1_0000_0000

  predicate IsInt32(x: int) { -TwoTo31 <= x < TwoTo31 }

  /**
   * The result of unchecked C# int arithmetic whose exact value is x: x moved
   * by whole multiples of 2^32 into the int range.
   */
  function WrapInt32(x: int): (r: int)
    ensures IsInt32(r)
    ensures IsInt32(x) ==> r == x
    decreases if x >= TwoTo31 then x else if x < -TwoTo31 then -x else 0
  {
    if x >= TwoTo31 then WrapInt32(x - TwoTo32)
    else if x < -TwoTo31 then WrapInt32(x + TwoTo32)
    else x
  }

  /** WrapInt32 keeps x modulo 2^32, so it is the two's-complement truncation. */
  lemma {:induction false} WrapInt32Congruent(x: int)
    ensures (x - WrapInt32(x)) % TwoTo32 == 0
    decreases if x >= TwoTo31 then x else if x < -TwoTo31 then -x else 0
  {
    if x >= TwoTo31 {
      WrapInt32Congruent(x - TwoTo32);
    } else if x < -TwoTo31 {
      WrapInt32Congruent(x + TwoTo32);
    }
  }

  /** Unsigned value of four little-endian bytes. */
  function LittleEndian(b: seq<byte>): (u: nat)
    requires |b| == 4
    ensures u < TwoTo32
  {
    b[0] as nat + 0x100 * b[1] as nat + 0x1_0000 * b[2] as nat + 0x100_0000 * b[3] as nat
  }

  /** BitConverter.ToInt32(b, 0) for an array of exactly four bytes. */
  function ToInt32(b: seq<byte>): (r: int)
    requires |b| == 4
    ensures IsInt32(r)
    ensures r >= 0 <==> b[3] < 0x80
  {
    var u := LittleEndian(b);
    if u >= TwoTo31 then u - TwoTo32 else u
  }

  /** BitConverter.GetBytes(int): the inverse of ToInt32. */
  function Int32Bytes(x: int): (b: seq<byte>)
    requires IsInt32(x)
    ensures |b| == 4
  {
    var u := if x < 0 then x + TwoTo32 else x;
    var u1 := u / 0x100;
    var u2 := u1 / 0x100;
    var u3 := u2 / 0x100;
    [(u % 0x100) as byte, (u1 % 0x100) as byte, (u2 % 0x100) as byte, u3 as byte]
  }

  /** Splitting off the low byte of 0x100 * hi + lo. */
  lemma ByteStep(hi: nat, lo: nat)
    requires lo < 0x100
    ensures (0x100 * hi + lo) / 0x100 == hi && (0x100 * hi + lo) % 0x100 == lo
  {
  }

  /** Every int32 survives GetBytes followed by ToInt32. */
  lemma Int32RoundTrip(x: int)
    requires IsInt32(x)
    ensures ToInt32(Int32Bytes(x)) == x
  {
    var u := if x < 0 then x + TwoTo32 else x;
    var u1 := u / 0x100;
    var u2 := u1 / 0x100;
    var u3 := u2 / 0x100;
    assert u == 0x100 * u1 + u % 0x100;
    assert u1 == 0x100 * u2 + u1 % 0x100;
    assert u2 == 0x100 * u3 + u2 % 0x100;
    assert LittleEndian(Int32Bytes(x)) == u;
  }

  /** Every 4-byte pattern survives ToInt32 followed by GetBytes. */
  lemma Int32BytesRoundTrip(b: seq<byte>)
    requires |b| == 4
    ensures Int32Bytes(ToInt32(b)) == b
  {
    var b0, b1, b2, b3 := b[0] as nat, b[1] as nat, b[2] as nat, b[3] as nat;
    var v2 := b2 + 0x100 * b3;
    var v1 := b1 + 0x100 * v2;
    var u := LittleEndian(b);
    assert u == 0x100 * v1 + b0;
    ByteStep(v1, b0);
    ByteStep(v2, b1);
    ByteStep(b3, b2);
    assert Int32Bytes(ToInt32(b)) == [b0 as byte, b1 as byte, b2 as byte, b3 as byte];
  }

  /** Encoding.ASCII.GetString of one byte: bytes above 0x7F decode to '?'. */
  function AsciiChar(b: byte): (c: char)
    ensures b < 0x80 ==> c as int == b as int
    ensures b >= 0x80 ==> c == '?'
  {
    if b < 0x80 then (b as int) as char else '?'
  }

  function Ascii(bs: seq<byte>): (s: string)
    ensures |s| == |bs|
  {
    seq(|bs|, i requires 0 <= i < |bs| => AsciiChar(bs[i]))
  }

  /** s.Replace(c.ToString(), ""): every occurrence of c removed. */
  function Remove(s: string, c: char): (r: string)
    ensures |r| <= |s|
  {
    if s == [] then []
    else (if s[0] == c then [] else [s[0]]) + Remove(s[1..], c)
  }

  /** Remove takes out every c and keeps every other character of s as often as it occurs. */
  lemma {:induction false} RemoveChars(s: string, c: char)
    ensures c !in Remove(s, c)
    ensures forall x :: x != c ==> (x in Remove(s, c) <==> x in s)
    ensures multiset(Remove(s, c)) == multiset(s)[c := 0]
  {
    if s != [] {
      RemoveChars(s[1..], c);
      assert s == [s[0]] + s[1..];
      assert multiset(s) == multiset([s[0]]) + multiset(s[1..]);
    }
  }

  /** Remove works piece by piece, so the kept characters stay in their order. */
  lemma {:induction false} RemoveAppend(a: string, b: string, c: char)
    ensures Remove(a + b, c) == Remove(a, c) + Remove(b, c)
  {
    if a == [] {
      assert a + b == b;
    } else {
      var head: string := if a[0] == c then [] else [a[0]];
      assert (a + b)[0] == a[0];
      assert (a + b)[1..] == a[1..] + b;
      calc {
        Remove(a + b, c);
        head + Remove(a[1..] + b, c);
        { RemoveAppend(a[1..], b, c); }
        head + (Remove(a[1..], c) + Remove(b, c));
        (head + Remove(a[1..], c)) + Remove(b, c);
      }
    }
  }

  /** Text without c is left as it is. */
  lemma {:induction false} RemoveAbsent(s: string, c: char)
    requires c !in s
    ensures Remove(s, c) == s
  {
    if s != [] {
      RemoveAbsent(s[1..], c);
      assert s == [s[0]] + s[1..];
    }
  }

  /** Text made only of c disappears. */
  lemma {:induction false} RemoveOnly(s: string, c: char)
    requires forall i :: 0 <= i < |s| ==> s[i] == c
    ensures Remove(s, c) == []
  {
    if s != [] {
      RemoveOnly(s[1..], c);
    }
  }

  function HexDigit(n: nat): (c: char)
    requires n < 16
  {
    if n < 10 then ('0' as int + n) as char else ('A' as int + n - 10) as char
  }

  function HexDigitValue(c: char): Option<nat>
  {
    if '0' <= c <= '9' then Some(c as int - '0' as int)
    else if 'A' <= c <= 'F' then Some(c as int - 'A' as int + 10)
    else None
  }

  /** The two upper-case hex digits of one byte. */
  function HexPair(b: byte): (s: string)
    ensures |s| == 2 && s[0] != '-' && s[1] != '-'
  {
    [HexDigit(b as nat / 16), HexDigit(b as nat % 16)]
  }

  /** BitConverter.ToString(bytes, 0): "0A-FF-..." */
  function ToHexString(bs: seq<byte>): (s: string)
    ensures |s| == if bs == [] then 0 else 3 * |bs| - 1
  {
    if bs == [] then ""
    else if |bs| == 1 then HexPair(bs[0])
    else HexPair(bs[0]) + "-" + ToHexString(bs[1..])
  }

  function ParsePair(c0: char, c1: char): Option<byte>
  {
    match (HexDigitValue(c0), HexDigitValue(c1))
    case (Some(h), Some(l)) => if h < 16 && l < 16 then Some((16 * h + l) as byte) else None
    case _ => None
  }

  /** Reads a dash-separated hex rendering back into its bytes. */
  function ParseHexString(s: string): Option<seq<byte>>
  {
    if s == [] then Some([])
    else if |s| == 2 then
      match ParsePair(s[0], s[1])
      case Some(b) => Some([b])
      case None => None
    else if |s| >= 5 && s[2] == '-' then
      match (ParsePair(s[0], s[1]), ParseHexString(s[3..]))
      case (Some(b), Some(rest)) => Some([b] + rest)
      case _ => None
    else None
  }

  lemma HexDigitRoundTrip(n: nat)
    requires n < 16
    ensures HexDigitValue(HexDigit(n)) == Some(n)
  {
  }

  lemma HexPairRoundTrip(b: byte)
    ensures ParsePair(HexPair(b)[0], HexPair(b)[1]) == Some(b)
  {
    var h, l := b as nat / 16, b as nat % 16;
    HexDigitRoundTrip(h);
    HexDigitRoundTrip(l);
    assert 16 * h + l == b as nat;
  }

  /** The hex rendering of a byte string determines the bytes. */
  lemma {:induction false} HexStringRoundTrip(bs: seq<byte>)
    ensures ParseHexString(ToHexString(bs)) == Some(bs)
  {
    if bs == [] {
    } else if |bs| == 1 {
      HexPairRoundTrip(bs[0]);
      assert bs == [bs[0]];
    } else {
      ParseAfterPair(bs[0], ToHexString(bs[1..]));
      HexStringRoundTrip(bs[1..]);
      assert bs == [bs[0]] + bs[1..];
    }
  }

  /** A leading "XX-" contributes its byte in front of what the rest parses to. */
  lemma ParseAfterPair(b: byte, rest: string)
    requires |rest| >= 2
    ensures ParseHexString(HexPair(b) + "-" + rest)
      == match ParseHexString(rest) case Some(r) => Some([b] + r) case None => None
  {
    var s := HexPair(b) + "-" + rest;
    HexPairRoundTrip(b);
    assert s[3..] == rest;
    assert s[0] == HexPair(b)[0] && s[1] == HexPair(b)[1] && s[2] == '-';
  }

  import opened Wrappers
}
