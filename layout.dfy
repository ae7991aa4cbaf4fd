/**
 * The trajectory-log file layout: the ordered field table the decoder walks
 * (TrajectoryAPI.LogSizes), the subbeam record table (SubbeamSizes), and the
 * byte offsets they imply once the number of sampled axes N is known.
 */
module Layout {
  import opened Bytes

  datatype LogField =
    | Signature | Version | HeaderSize | SamplingIntervalMS | NumberOfAxesSampled
    | AxisEnumeration | SamplesPerAxis | AxisScale | NumberOfSubbeams | IsTruncated
    | NumberOfSnapshots | MLCModel | MetaData | Subbeam | Snapshot

  /** The decoder's field table, in the order it is walked, with each entry's byte size. */
  const LogSizes: seq<(LogField, nat)> := [
    (Signature, 16), (Version, 16), (HeaderSize, 4), (SamplingIntervalMS, 4),
    (NumberOfAxesSampled, 4), (AxisEnumeration, 4), (SamplesPerAxis, 4), (AxisScale, 4),
    (NumberOfSubbeams, 4), (IsTruncated, 4), (NumberOfSnapshots, 4), (MLCModel, 4),
    (MetaData, 745), (Subbeam, 560), (Snapshot, 4)]

  datatype SubbeamField = Cp | Mu | RadTime | Seq | Name

  /** One subbeam record; Name covers the 512-byte name and the 32 reserved bytes. */
  const SubbeamSizes: seq<(SubbeamField, nat)> := [(Cp, 4), (Mu, 4), (RadTime, 4), (Seq, 4), (Name, 544)]

  /** The header is a fixed 1024-byte block ahead of the subbeam records. */
  const HeaderBlock: int := 1024

  /**
   * Bytes an entry of the header part of the table occupies when the log has
   * n axes: AxisEnumeration and SamplesPerAxis repeat their 4-byte entry n times.
   */
  function FieldBytes(f: LogField, size: nat, n: nat): nat
  {
    if f == AxisEnumeration || f == SamplesPerAxis then size * n else size
  }

  function FieldsBytes(fields: seq<(LogField, nat)>, n: nat): nat
  {
    if fields == [] then 0 else FieldBytes(fields[0].0, fields[0].1, n) + FieldsBytes(fields[1..], n)
  }

  function SubbeamFieldsBytes(fields: seq<(SubbeamField, nat)>): nat
  {
    if fields == [] then 0 else fields[0].1 + SubbeamFieldsBytes(fields[1..])
  }

  /** Number of header-table entries before the metadata entry. */
  const FixedFieldCount: nat := 12

  /** Offset of AxisEnumeration, the first field sized by N. */
  const AxisTablesOffset: int := 44

  /**
   * headerReserveSize: the metadata block fills the rest of the 1024-byte header.
   * It is computed with C# int arithmetic, so it wraps for huge N.
   */
  function ReserveSize(n: int): (r: int)
    requires IsInt32(n)
    ensures 0 <= n <= 120 ==> r == HeaderBlock - (64 + 8 * n) && r >= 0
    ensures 120 < n < 0x1000_0000 ==> r < 0
  {
    WrapInt32(HeaderBlock - (64 + n * 8))
  }

  /** Offset of the metadata block when the log has n >= 0 axes. */
  function MetaDataOffset(n: nat): int { 64 + 8 * n }

  /** Offset of the first subbeam record: right after the metadata block. */
  function SubbeamOffset(n: nat): int
    requires IsInt32(n)
  {
    MetaDataOffset(n) + ReserveSize(n)
  }

  const SubbeamRecordBytes: int := 560

  /** Bytes of count consecutive subbeam records. */
  function SubbeamsBytes(count: nat): nat
  {
    560 * count
  }

  /**
   * Walking the table's header entries (Signature .. MLCModel) consumes 64 + 8N
   * bytes, so the metadata block starts where MetaDataOffset says.
   */
  lemma HeaderFieldsBytes(n: nat)
    ensures FieldsBytes(LogSizes[..FixedFieldCount], n) == MetaDataOffset(n)
    ensures FieldsBytes(LogSizes[..5], n) == AxisTablesOffset
    ensures LogSizes[FixedFieldCount].0 == MetaData
  {
    var h := LogSizes[..FixedFieldCount];
    assert FieldsBytes(h[11..], n) == 4;
    assert FieldsBytes(h[10..], n) == 8;
    assert FieldsBytes(h[9..], n) == 12;
    assert FieldsBytes(h[8..], n) == 16;
    assert FieldsBytes(h[7..], n) == 20;
    assert FieldsBytes(h[6..], n) == 20 + 4 * n;
    assert FieldsBytes(h[5..], n) == 20 + 8 * n;
    var f := LogSizes[..5];
    assert FieldsBytes(f[4..], n) == 4;
    assert FieldsBytes(f[3..], n) == 8;
    assert FieldsBytes(f[2..], n) == 12;
    assert FieldsBytes(f[1..], n) == 28;
    assert h[..5] == f;
    assert FieldsBytes(h[4..], n) == 24 + 8 * n;
    assert FieldsBytes(h[3..], n) == 28 + 8 * n;
    assert FieldsBytes(h[2..], n) == 32 + 8 * n;
    assert FieldsBytes(h[1..], n) == 48 + 8 * n;
  }

  /** A subbeam record is 4+4+4+4+544 = 560 bytes, the table's Subbeam entry. */
  lemma SubbeamRecordSize()
    ensures SubbeamFieldsBytes(SubbeamSizes) == SubbeamRecordBytes
    ensures LogSizes[13] == (Subbeam, SubbeamRecordBytes as nat)
  {
    assert SubbeamSizes[1..][1..][1..][1..][1..] == [];
  }

  /**
   * For 0 <= N <= 120 the metadata block spans exactly 1024 - (64 + 8N) bytes,
   * so the subbeam records always begin at offset 1024.
   */
  lemma SubbeamBlockAt1024(n: nat)
    requires n <= 120
    ensures MetaDataOffset(n) + ReserveSize(n) == HeaderBlock
    ensures SubbeamOffset(n) == HeaderBlock
  {
  }
}
