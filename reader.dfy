/**
 * The forward-only BinaryReader the decoder consumes, over the file's bytes.
 * ReadBytes returns fewer bytes than asked at the end of the stream; the
 * 4-byte conversions (BitConverter.ToInt32 / ToSingle) then throw.
 */
module Reader {
  import opened Wrappers
  import opened Bytes

  /** Why a decode stops (each is an exception in the modelled code). */
  datatype DecodeError =
    | NegativeCount        // ReadBytes with a negative count
    | ShortRead            // ToInt32 / ToSingle given fewer than 4 bytes
    | NegativeArraySize    // new T[n] with n < 0
    | NullAxisEnumeration  // the snapshot stage iterates an unset AxisEnumeration
    | MissingLine(line: nat)     // metadata: ElementAt(line) past the last line
    | MissingColon(line: nat)    // metadata: ElementAt(1) of a line without ':'
    | NotANumber(line: nat)      // metadata: Convert.ToDouble rejects the text

  function Min(a: int, b: int): int { if a < b then a else b }

  /** Where a cursor that was asked to skip to offset off actually is. */
  function Clamp(data: seq<byte>, off: nat): (p: nat)
    ensures p <= |data|
    ensures off <= |data| ==> p == off
  {
    Min(off, |data|)
  }

  /** ReadBytes(n) issued with the stream positioned at off (n >= 0). */
  function Slice(data: seq<byte>, off: nat, n: nat): (s: seq<byte>)
    ensures |s| <= n
    ensures off + n <= |data| ==> s == data[off..off + n]
  {
    data[Clamp(data, off)..Clamp(data, off + n)]
  }

  /** ToInt32(ReadBytes(4)) at offset off: fails unless four bytes remain. */
  function Int32At(data: seq<byte>, off: nat): (r: Option<int>)
    ensures r.Some? <==> off + 4 <= |data|
    ensures r.Some? ==> IsInt32(r.value)
  {
    if off + 4 <= |data| then Some(ToInt32(data[off..off + 4])) else None
  }

  /** ToSingle(ReadBytes(4)) at offset off, the float kept as its bytes. */
  function SingleAt(data: seq<byte>, off: nat): (r: Option<Float32>)
    ensures r.Some? <==> off + 4 <= |data|
    ensures r.Some? ==> r.value == data[off..off + 4]
  {
    if off + 4 <= |data| then Some(data[off..off + 4]) else None
  }

  /** A BinaryReader over an in-memory copy of the file. */
  class LogReader {
    const data: seq<byte>
    var pos: nat

    ghost predicate Valid()
      reads this
    {
      pos <= |data|
    }

    constructor (data: seq<byte>)
      ensures Valid() && this.data == data && pos == 0
    {
      this.data := data;
      pos := 0;
    }

    /** Reads up to count bytes; a negative count throws. */
    method ReadBytes(count: int) returns (r: Result<seq<byte>, DecodeError>)
      requires Valid()
      modifies this
      ensures Valid()
      ensures count < 0 ==> r == Failure(NegativeCount) && pos == old(pos)
      ensures count >= 0 ==> r == Success(Slice(data, old(pos), count))
      ensures count >= 0 ==> pos == Clamp(data, old(pos) + count)
    {
      if count < 0 {
        return Failure(NegativeCount);
      }
      var next := Min(pos + count, |data|);
      r := Success(data[pos..next]);
      pos := next;
    }

    /** BitConverter.ToInt32(ReadBytes(4), 0). */
    method ReadInt32() returns (r: Result<int, DecodeError>)
      requires Valid()
      modifies this
      ensures Valid()
      ensures r == Need(Int32At(data, old(pos)), ShortRead)
      ensures pos == Clamp(data, old(pos) + 4)
    {
      var b :- ReadSingle();
      r := Success(ToInt32(b));
    }

    /**
     * BitConverter.ToSingle(ReadBytes(4), 0), kept as the four bytes read:
     * ReadBytes followed by the length check BitConverter makes.
     */
    method ReadSingle() returns (r: Result<Float32, DecodeError>)
      requires Valid()
      modifies this
      ensures Valid()
      ensures r == Need(SingleAt(data, old(pos)), ShortRead)
      ensures pos == Clamp(data, old(pos) + 4)
    {
      var b := ReadBytes(4);
      if |b.value| < 4 {
        return Failure(ShortRead);
      }
      r := Success(b.value);
    }
  }

  // A cursor left at the end of the data stays there: reading from where it
  // was clamped to is reading from where it was asked to go.

  lemma ClampShift(data: seq<byte>, off: nat, n: nat)
    ensures Clamp(data, Clamp(data, off) + n) == Clamp(data, off + n)
  {
  }

  lemma SliceClamp(data: seq<byte>, off: nat, n: nat)
    ensures Slice(data, Clamp(data, off), n) == Slice(data, off, n)
  {
  }

  lemma Int32AtClamp(data: seq<byte>, off: nat)
    ensures Int32At(data, Clamp(data, off)) == Int32At(data, off)
  {
  }
}
