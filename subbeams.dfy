/**
 * Subbeam records: NumberOfSubbeams fixed 560-byte records following the
 * header, each CP (int32), Mu (float), RadTime (float), Seq (int32) and 544
 * name/reserved bytes rendered by BitConverter.ToString.
 */
module Subbeams {
  import opened Wrappers
  import opened Bytes
  import opened Reader
  import Layout

  datatype Subbeam = Subbeam(CP: int, Mu: Float32, RadTime: Float32, Seq: int, Name: string)

  const NameBytes: nat := 544

  /**
   * The record whose first byte is at offset off. Each 4-byte field throws on
   * a short read, so the record decodes exactly when its first 16 bytes are
   * present; the name renders whatever of its 544 bytes remain.
   */
  function SubbeamAt(data: seq<byte>, off: nat): Result<Subbeam, DecodeError>
  {
    if off + 16 > |data| then Failure(ShortRead)
    else Success(Subbeam(ToInt32(data[off..off + 4]), data[off + 4..off + 8], data[off + 8..off + 12],
                         ToInt32(data[off + 12..off + 16]), ToHexString(Slice(data, off + 16, NameBytes))))
  }

  /** The first count records of a block starting at off, in file order. */
  function SubbeamsAt(data: seq<byte>, off: nat, count: nat): Result<seq<Subbeam>, DecodeError>
  {
    if count == 0 then Success([])
    else
      var first :- SubbeamsAt(data, off, count - 1);
      var last :- SubbeamAt(data, off + Layout.SubbeamsBytes(count - 1));
      Success(first + [last])
  }

  /**
   * Records are appended in file order: the k-th decoded record is the one at
   * off + 560k, and a complete record has a 1631-character name that gives back
   * its 544 bytes.
   */
  lemma {:induction false} SubbeamsInFileOrder(data: seq<byte>, off: nat, count: nat, k: nat)
    requires SubbeamsAt(data, off, count).Success?
    requires k < count
    ensures |SubbeamsAt(data, off, count).value| == count
    ensures SubbeamAt(data, off + Layout.SubbeamsBytes(k)) == Success(SubbeamsAt(data, off, count).value[k])
  {
    SubbeamsLast(data, off, count);
    var prev := SubbeamsAt(data, off, count - 1).value;
    if count > 1 {
      SubbeamsInFileOrder(data, off, count - 1, if k < count - 1 then k else 0);
    }
    assert |prev| == count - 1;
  }

  /** A decoded block of count records is the first count - 1 records followed by the last one. */
  lemma SubbeamsLast(data: seq<byte>, off: nat, count: nat)
    requires 0 < count && SubbeamsAt(data, off, count).Success?
    ensures SubbeamsAt(data, off, count - 1).Success?
    ensures SubbeamAt(data, off + Layout.SubbeamsBytes(count - 1)).Success?
    ensures SubbeamsAt(data, off, count).value
         == SubbeamsAt(data, off, count - 1).value + [SubbeamAt(data, off + Layout.SubbeamsBytes(count - 1)).value]
  {
  }

  /** A complete record: the fields sit at fixed offsets and the name renders all 544 bytes. */
  lemma CompleteRecord(data: seq<byte>, off: nat)
    requires off + Layout.SubbeamRecordBytes <= |data|
    ensures SubbeamAt(data, off).Success?
    ensures var sb := SubbeamAt(data, off).value;
      && sb.CP == ToInt32(data[off..off + 4])
      && sb.Mu == data[off + 4..off + 8]
      && sb.RadTime == data[off + 8..off + 12]
      && sb.Seq == ToInt32(data[off + 12..off + 16])
      && |sb.Name| == 1631
      && ParseHexString(sb.Name) == Some(data[off + 16..off + Layout.SubbeamRecordBytes])
  {
    HexStringRoundTrip(data[off + 16..off + Layout.SubbeamRecordBytes]);
  }

  /** A record asked for past the end of the data is read from the end, and fails alike. */
  lemma SubbeamAtClamp(data: seq<byte>, off: nat)
    ensures SubbeamAt(data, Clamp(data, off)) == SubbeamAt(data, off)
  {
    Int32AtClamp(data, off);
  }

  /** One more record: its decoding is appended, or its failure is the block's. */
  lemma AppendRecord(data: seq<byte>, off: nat, i: nat, done: seq<Subbeam>)
    requires SubbeamsAt(data, off, i) == Success(done)
    ensures var next := SubbeamAt(data, off + Layout.SubbeamsBytes(i));
      && (next.Success? ==> SubbeamsAt(data, off, i + 1) == Success(done + [next.value]))
      && (next.Failure? ==> SubbeamsAt(data, off, i + 1) == Failure(next.error))
  {
  }

  /** The first record that fails ends the loop with its error. */
  lemma {:induction false} FirstFailureStops(data: seq<byte>, off: nat, i: nat, count: nat)
    requires i <= count
    requires SubbeamsAt(data, off, i).Failure?
    ensures SubbeamsAt(data, off, count) == SubbeamsAt(data, off, i)
  {
    if i < count {
      FirstFailureStops(data, off, i, count - 1);
    }
  }

  /** The Subbeam loop body: the five fields in SubbeamSizes order. */
  method ReadSubbeam(reader: LogReader) returns (r: Result<Subbeam, DecodeError>)
    requires reader.Valid()
    modifies reader
    ensures reader.Valid()
    ensures r == SubbeamAt(reader.data, old(reader.pos))
    ensures r.Success? ==> reader.pos == Clamp(reader.data, old(reader.pos) + Layout.SubbeamRecordBytes)
  {
    var cp :- reader.ReadInt32();
    var mu :- reader.ReadSingle();
    var radTime :- reader.ReadSingle();
    var seqNo :- reader.ReadInt32();
    var name := reader.ReadBytes(NameBytes);
    r := Success(Subbeam(cp, mu, radTime, seqNo, ToHexString(name.value)));
  }
}
