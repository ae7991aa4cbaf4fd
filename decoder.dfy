/**
 * LoadLog: the trajectory log read front to back through one cursor. The
 * header fields come in LogSizes order (Signature, Version, HeaderSize,
 * SamplingIntervalMS, NumberOfAxesSampled, AxisEnumeration, SamplesPerAxis,
 * AxisScale, NumberOfSubbeams, IsTruncated, NumberOfSnapshots, MLCModel), then
 * the metadata text, the subbeam records and the snapshot block. Decode states
 * the outcome by offsets into the file; LoadLog is proved to produce it.
 */
module Trajectory {
  import opened Wrappers
  import opened Bytes
  import opened Reader
  import Layout
  import opened MetaDataText
  import opened Subbeams
  import opened AxisStore
  import AD = AxisData

  /** The messages LoadLog appends to HeaderError. */
  datatype HeaderMessage = AxisEnumerationWithoutAxes | SamplesPerAxisWithoutAxes

  /** The exact text each message appends. */
  function MessageText(m: HeaderMessage): string
  {
    match m
    case AxisEnumerationWithoutAxes => "Axis enumeration attempted without number of axes known. "
    case SamplesPerAxisWithoutAxes => "Samples per axis attempted without number of axes known."
  }

  /** The HeaderError string built by appending the messages in order. */
  function ErrorText(messages: seq<HeaderMessage>): string
  {
    if messages == [] then "" else ErrorText(messages[..|messages| - 1]) + MessageText(messages[|messages| - 1])
  }

  /** The header fields before the metadata, and what HeaderError holds once they are read. */
  datatype Fixed = Fixed(
    Signature: string,
    Version: string,
    HeaderSize: int,
    SampleIntervalMS: int,
    NumberOfAxesSampled: int,
    AxisEnumeration: Option<seq<int>>,
    SamplesPerAxis: Option<seq<int>>,
    AxisScale: int,
    NumberOfSubbeams: int,
    IsTruncated: int,
    NumberOfSnapshots: int,
    MLCModel: int,
    HeaderError: seq<HeaderMessage>)

  /** A decoded log: the fixed header, the metadata, the subbeams and the sample store. */
  datatype LogValue = LogValue(fixed: Fixed, metaData: MetaData, subbeams: seq<Subbeam>,
                               expected: Store, actual: Store)

  /** n little-endian int32 values starting at off, or None if the data ends first. */
  function IntsAt(data: seq<byte>, off: nat, n: nat): (r: Option<seq<int>>)
    ensures r.Some? <==> off + 4 * n <= |data|
    ensures r.Some? ==> |r.value| == n
    ensures r.Some? ==> forall i :: 0 <= i < n ==> r.value[i] == ToInt32(data[off + 4 * i..off + 4 * i + 4])
  {
    if off + 4 * n <= |data| then Some(seq(n, i requires 0 <= i < n => ToInt32(data[off + 4 * i..off + 4 * i + 4])))
    else None
  }

  /**
   * AxisEnumeration and SamplesPerAxis: n ints each when n > 0; nothing read,
   * both left unset and one message each when n == 0.
   */
  function AxisTables(data: seq<byte>, n: nat): (r: Result<(Option<seq<int>>, Option<seq<int>>, seq<HeaderMessage>), DecodeError>)
    ensures r.Success? ==> (r.value.0.Some? <==> n > 0) && (r.value.1.Some? <==> n > 0)
    ensures r.Success? && n > 0 ==> |r.value.0.value| == n && |r.value.1.value| == n
  {
    if n == 0 then Success((None, None, [AxisEnumerationWithoutAxes, SamplesPerAxisWithoutAxes]))
    else
      var enumeration :- Need(IntsAt(data, Layout.AxisTablesOffset, n), ShortRead);
      var samples :- Need(IntsAt(data, Layout.AxisTablesOffset + 4 * n, n), ShortRead);
      Success((Some(enumeration), Some(samples), []))
  }

  /** Signature (every NUL removed), Version, HeaderSize, SamplingIntervalMS and NumberOfAxesSampled at 0, 16, 32, 36, 40. */
  function LeadAt(data: seq<byte>): (r: Result<(string, string, int, int, int), DecodeError>)
    ensures r.Success? ==> IsInt32(r.value.4)
  {
    var signature := Remove(Ascii(Slice(data, 0, 16)), '\0');
    var version := Ascii(Slice(data, 16, 16));
    var headerSize :- Need(Int32At(data, 32), ShortRead);
    var interval :- Need(Int32At(data, 36), ShortRead);
    var n :- Need(Int32At(data, 40), ShortRead);
    Success((signature, version, headerSize, interval, n))
  }

  /** AxisScale, NumberOfSubbeams, IsTruncated, NumberOfSnapshots and MLCModel from off on. */
  function TailAt(data: seq<byte>, off: nat): Result<(int, int, int, int, int), DecodeError>
  {
    var scale :- Need(Int32At(data, off), ShortRead);
    var subbeams :- Need(Int32At(data, off + 4), ShortRead);
    var truncated :- Need(Int32At(data, off + 8), ShortRead);
    var snapshots :- Need(Int32At(data, off + 12), ShortRead);
    var mlc :- Need(Int32At(data, off + 16), ShortRead);
    Success((scale, subbeams, truncated, snapshots, mlc))
  }

  /** The fixed header fields: a negative N fails at new int[N]; the tail starts at 44 + 8N. */
  function FixedAt(data: seq<byte>): (r: Result<Fixed, DecodeError>)
    ensures r.Success? ==> IsInt32(r.value.NumberOfAxesSampled) && r.value.NumberOfAxesSampled >= 0
    ensures r.Success? && r.value.AxisEnumeration.Some? ==>
      r.value.SamplesPerAxis.Some? && |r.value.AxisEnumeration.value| == |r.value.SamplesPerAxis.value|
  {
    var lead :- LeadAt(data);
    var n := lead.4;
    if n < 0 then Failure(NegativeArraySize)
    else
      var rest :- RestAt(data, n);
      var (tables, tail) := rest;
      Success(Fixed(lead.0, lead.1, lead.2, lead.3, n, tables.0, tables.1,
                    tail.0, tail.1, tail.2, tail.3, tail.4, tables.2))
  }

  /** The axis tables from 44 on, then the five tail fields from 44 + 8n. */
  function RestAt(data: seq<byte>, n: nat)
    : Result<((Option<seq<int>>, Option<seq<int>>, seq<HeaderMessage>), (int, int, int, int, int)), DecodeError>
  {
    var tables :- AxisTables(data, n);
    var tail :- TailAt(data, Layout.AxisTablesOffset + 8 * n);
    Success((tables, tail))
  }

  /**
   * The whole file. After the fixed fields the cursor is at 64 + 8N; the
   * metadata takes ReserveSize(N) bytes, each subbeam 560, then the snapshot
   * block. A read that ran off the end leaves the cursor at the end (Clamp).
   */
  function Decode(data: seq<byte>, toDouble: string -> Option<real>): Result<LogValue, DecodeError>
  {
    var fixed :- FixedAt(data);
    DecodeBody(data, fixed, toDouble)
  }

  /** Everything after the fixed fields, given them. */
  function DecodeBody(data: seq<byte>, fixed: Fixed, toDouble: string -> Option<real>): Result<LogValue, DecodeError>
    requires IsInt32(fixed.NumberOfAxesSampled) && fixed.NumberOfAxesSampled >= 0
    requires fixed.AxisEnumeration.Some? ==>
      fixed.SamplesPerAxis.Some? && |fixed.AxisEnumeration.value| == |fixed.SamplesPerAxis.value|
  {
    match MetaDataAt(data, fixed.NumberOfAxesSampled, toDouble)
    case Failure(e) => Failure(e)
    case Success((metaData, next)) => DecodeRecords(data, fixed, metaData, next)
  }

  /**
   * ConvertMetaData on the ReserveSize(n) bytes at 64 + 8n: a negative size
   * fails in ReadBytes, otherwise the text is parsed; with the offset the
   * cursor is left at.
   */
  function MetaDataAt(data: seq<byte>, n: nat, toDouble: string -> Option<real>): Result<(MetaData, nat), DecodeError>
    requires IsInt32(n)
  {
    var reserve := Layout.ReserveSize(n);
    if reserve < 0 then Failure(NegativeCount)
    else
      WithEnd(ParseMetaData(Slice(data, Layout.MetaDataOffset(n), reserve), toDouble),
              Clamp(data, Layout.MetaDataOffset(n) + reserve))
  }

  /** A negative reserve fails in ReadBytes; otherwise the metadata is the parse of the bytes read. */
  lemma MetaDataRead(data: seq<byte>, n: nat, toDouble: string -> Option<real>)
    requires IsInt32(n)
    ensures var off, reserve := Layout.MetaDataOffset(n), Layout.ReserveSize(n);
      && (reserve < 0 ==> MetaDataAt(data, n, toDouble) == Failure(NegativeCount))
      && (reserve >= 0 ==>
            MetaDataAt(data, n, toDouble) ==
            WithEnd(ParseMetaData(Slice(data, off, reserve), toDouble), Clamp(data, off + reserve)))
  {
  }

  /** A parse outcome paired, on success, with the offset the cursor was left at. */
  function WithEnd<T>(parsed: Result<T, DecodeError>, end: nat): Result<(T, nat), DecodeError>
  {
    match parsed
    case Failure(e) => Failure(e)
    case Success(v) => Success((v, end))
  }

  /** The subbeam records from subbeamOff on, then the snapshot block after them. */
  function DecodeRecords(data: seq<byte>, fixed: Fixed, metaData: MetaData, subbeamOff: nat): Result<LogValue, DecodeError>
    requires fixed.AxisEnumeration.Some? ==>
      fixed.SamplesPerAxis.Some? && |fixed.AxisEnumeration.value| == |fixed.SamplesPerAxis.value|
  {
    var count := NatOf(fixed.NumberOfSubbeams);
    var subbeams :- SubbeamsAt(data, subbeamOff, count);
    var snapshotOff := Clamp(data, subbeamOff + Layout.SubbeamsBytes(count));
    WithBlock(fixed, metaData, subbeams,
              SnapshotBlock(data, snapshotOff, fixed.AxisEnumeration, fixed.SamplesPerAxis, fixed.NumberOfSnapshots))
  }

  /** Once the subbeams have decoded, the records are the snapshot block after them. */
  lemma RecordsAfterSubbeams(data: seq<byte>, fixed: Fixed, metaData: MetaData, off: nat, subbeams: seq<Subbeam>)
    requires fixed.AxisEnumeration.Some? ==>
      fixed.SamplesPerAxis.Some? && |fixed.AxisEnumeration.value| == |fixed.SamplesPerAxis.value|
    requires SubbeamsAt(data, off, NatOf(fixed.NumberOfSubbeams)) == Success(subbeams)
    ensures DecodeRecords(data, fixed, metaData, off) ==
      WithBlock(fixed, metaData, subbeams,
                SnapshotBlock(data, Clamp(data, off + Layout.SubbeamsBytes(NatOf(fixed.NumberOfSubbeams))),
                              fixed.AxisEnumeration, fixed.SamplesPerAxis, fixed.NumberOfSnapshots))
  {
  }

  /** The log value once the snapshot block is read, or the block's failure. */
  function WithBlock(fixed: Fixed, metaData: MetaData, subbeams: seq<Subbeam>, block: Result<(Store, Store), DecodeError>)
    : Result<LogValue, DecodeError>
  {
    match block
    case Failure(e) => Failure(e)
    case Success((expected, actual)) => Success(LogValue(fixed, metaData, subbeams, expected, actual))
  }

  /** Once the metadata block has parsed, the body is the records after it. */
  lemma BodyAfterMetaData(data: seq<byte>, fixed: Fixed, toDouble: string -> Option<real>, metaData: MetaData, next: nat)
    requires IsInt32(fixed.NumberOfAxesSampled) && fixed.NumberOfAxesSampled >= 0
    requires fixed.AxisEnumeration.Some? ==>
      fixed.SamplesPerAxis.Some? && |fixed.AxisEnumeration.value| == |fixed.SamplesPerAxis.value|
    requires MetaDataAt(data, fixed.NumberOfAxesSampled, toDouble) == Success((metaData, next))
    ensures DecodeBody(data, fixed, toDouble) == DecodeRecords(data, fixed, metaData, next)
  {
  }

  // ---------------------------------------------------------------------------
  // Properties of the decoded header.

  /** The two messages, appended in order, give HeaderError's exact text. */
  lemma ZeroAxesText()
    ensures ErrorText([AxisEnumerationWithoutAxes, SamplesPerAxisWithoutAxes]) ==
      "Axis enumeration attempted without number of axes known. " + "Samples per axis attempted without number of axes known."
  {
    var both := [AxisEnumerationWithoutAxes, SamplesPerAxisWithoutAxes];
    assert both[..1] == [AxisEnumerationWithoutAxes];
    assert [AxisEnumerationWithoutAxes][..0] == [];
  }

  /** Signature and Version never throw, but HeaderSize, SamplingIntervalMS and NumberOfAxesSampled do on a file shorter than 44 bytes. */
  lemma ShortLead(data: seq<byte>, toDouble: string -> Option<real>)
    requires |data| < 44
    ensures Decode(data, toDouble) == Failure(ShortRead)
  {
    assert Int32At(data, 32).None? || Int32At(data, 36).None? || Int32At(data, 40).None?;
  }

  /**
   * The signature keeps none of its NULs and every other character as often
   * as it occurs; the version is kept verbatim.
   */
  lemma SignatureWithoutNul(data: seq<byte>)
    requires FixedAt(data).Success?
    ensures '\0' !in FixedAt(data).value.Signature
    ensures forall c :: c != '\0' ==> (c in FixedAt(data).value.Signature <==> c in Ascii(Slice(data, 0, 16)))
    ensures multiset(FixedAt(data).value.Signature) == multiset(Ascii(Slice(data, 0, 16)))['\0' := 0]
    ensures FixedAt(data).value.Version == Ascii(Slice(data, 16, 16))
  {
    RemoveChars(Ascii(Slice(data, 0, 16)), '\0');
  }

  /**
   * A signature of p non-NUL bytes padded with NULs to 16 reads as those p
   * bytes, in order.
   */
  lemma PaddedSignature(data: seq<byte>, p: nat)
    requires 16 <= |data| && p <= 16
    requires FixedAt(data).Success?
    requires forall i :: 0 <= i < p ==> data[i] != 0
    requires forall i :: p <= i < 16 ==> data[i] == 0
    ensures FixedAt(data).value.Signature == Ascii(data[..p])
  {
    var text, pad := Ascii(data[..p]), Ascii(data[p..16]);
    assert Ascii(Slice(data, 0, 16)) == text + pad;
    RemoveAppend(text, pad, '\0');
    assert '\0' !in text by {
      forall i | 0 <= i < |text| ensures text[i] != '\0' {
        assert data[..p][i] == data[i];
      }
    }
    RemoveAbsent(text, '\0');
    RemoveOnly(pad, '\0');
  }

  /** AxisTables sets both tables and adds no message exactly when N > 0; N == 0 adds the two messages. */
  lemma FixedTables(data: seq<byte>)
    requires FixedAt(data).Success?
    ensures var f := FixedAt(data).value;
      && (f.AxisEnumeration.Some? <==> f.NumberOfAxesSampled > 0)
      && (f.NumberOfAxesSampled > 0 ==> f.HeaderError == [])
      && (f.NumberOfAxesSampled == 0 ==>
            f.SamplesPerAxis.None? && f.HeaderError == [AxisEnumerationWithoutAxes, SamplesPerAxisWithoutAxes])
  {
    var n := LeadAt(data).value.4;
    assert RestAt(data, n).Success?;
    assert AxisTables(data, n).Success?;
  }

  /** Decode after the fixed fields: the metadata's failure, or the records after it. */
  lemma DecodeSplit(data: seq<byte>, toDouble: string -> Option<real>)
    requires FixedAt(data).Success?
    ensures var f := FixedAt(data).value;
      var m := MetaDataAt(data, f.NumberOfAxesSampled, toDouble);
      && (m.Failure? ==> Decode(data, toDouble) == Failure(m.error))
      && (m.Success? ==> Decode(data, toDouble) == DecodeRecords(data, f, m.value.0, m.value.1))
  {
  }

  /** The records: the subbeams' failure, or the snapshot block after them. */
  lemma RecordsSplit(data: seq<byte>, fixed: Fixed, metaData: MetaData, off: nat)
    requires fixed.AxisEnumeration.Some? ==>
      fixed.SamplesPerAxis.Some? && |fixed.AxisEnumeration.value| == |fixed.SamplesPerAxis.value|
    ensures var count := NatOf(fixed.NumberOfSubbeams);
      var sb := SubbeamsAt(data, off, count);
      && (sb.Failure? ==> DecodeRecords(data, fixed, metaData, off) == Failure(sb.error))
      && (sb.Success? ==>
            DecodeRecords(data, fixed, metaData, off) == WithBlock(fixed, metaData, sb.value,
              SnapshotBlock(data, Clamp(data, off + Layout.SubbeamsBytes(count)),
                            fixed.AxisEnumeration, fixed.SamplesPerAxis, fixed.NumberOfSnapshots)))
  {
  }

  /** Decoded records carry the given fixed fields and metadata, and the subbeams read at the offset. */
  lemma RecordsParts(data: seq<byte>, fixed: Fixed, metaData: MetaData, off: nat, v: LogValue)
    requires fixed.AxisEnumeration.Some? ==>
      fixed.SamplesPerAxis.Some? && |fixed.AxisEnumeration.value| == |fixed.SamplesPerAxis.value|
    requires DecodeRecords(data, fixed, metaData, off) == Success(v)
    ensures v.fixed == fixed && v.metaData == metaData
    ensures SubbeamsAt(data, off, NatOf(fixed.NumberOfSubbeams)) == Success(v.subbeams)
  {
    RecordsSplit(data, fixed, metaData, off);
  }

  /**
   * N == 0: both tables stay unset with one message each, and once the
   * metadata and the subbeams have been read the snapshot stage fails on the
   * unset enumeration.
   */
  lemma ZeroAxes(data: seq<byte>, toDouble: string -> Option<real>)
    requires FixedAt(data).Success? && FixedAt(data).value.NumberOfAxesSampled == 0
    ensures var f := FixedAt(data).value;
      && f.AxisEnumeration.None? && f.SamplesPerAxis.None?
      && f.HeaderError == [AxisEnumerationWithoutAxes, SamplesPerAxisWithoutAxes]
      && Decode(data, toDouble).Failure?
      && (MetaDataAt(data, 0, toDouble).Success? &&
          SubbeamsAt(data, MetaDataAt(data, 0, toDouble).value.1, NatOf(f.NumberOfSubbeams)).Success? ==>
            Decode(data, toDouble) == Failure(NullAxisEnumeration))
  {
    var f := FixedAt(data).value;
    FixedTables(data);
    DecodeSplit(data, toDouble);
    var m := MetaDataAt(data, 0, toDouble);
    if m.Success? {
      RecordsSplit(data, f, m.value.0, m.value.1);
    }
  }

  /** Every decoded log has sampled axes, both tables set, and an empty HeaderError. */
  lemma DecodedHasAxes(data: seq<byte>, toDouble: string -> Option<real>)
    requires Decode(data, toDouble).Success?
    ensures FixedAt(data).Success?
    ensures var f := Decode(data, toDouble).value.fixed;
      && f == FixedAt(data).value
      && f.NumberOfAxesSampled > 0 && f.AxisEnumeration.Some? && f.SamplesPerAxis.Some? && f.HeaderError == []
  {
    var f := FixedAt(data).value;
    FixedTables(data);
    DecodeSplit(data, toDouble);
    var m := MetaDataAt(data, f.NumberOfAxesSampled, toDouble);
    RecordsSplit(data, f, m.value.0, m.value.1);
  }

  /** 120 < N < 2^28: the metadata size is negative and ReadBytes throws. */
  lemma TooManyAxes(data: seq<byte>, toDouble: string -> Option<real>)
    requires FixedAt(data).Success? && 120 < FixedAt(data).value.NumberOfAxesSampled < 0x1000_0000
    ensures Decode(data, toDouble) == Failure(NegativeCount)
  {
    MetaDataRead(data, FixedAt(data).value.NumberOfAxesSampled, toDouble);
    DecodeSplit(data, toDouble);
  }

  /** For N <= 120 on a file of at least 1024 bytes the metadata ends exactly at 1024. */
  lemma StandardMetaData(data: seq<byte>, n: nat, toDouble: string -> Option<real>)
    requires |data| >= Layout.HeaderBlock && n <= 120
    ensures MetaDataAt(data, n, toDouble) ==
      WithEnd(ParseMetaData(data[64 + 8 * n..Layout.HeaderBlock], toDouble), Layout.HeaderBlock)
  {
    MetaDataRead(data, n, toDouble);
    Layout.SubbeamBlockAt1024(n);
    assert Slice(data, 64 + 8 * n, Layout.ReserveSize(n)) == data[64 + 8 * n..Layout.HeaderBlock];
    assert Clamp(data, Layout.HeaderBlock) == Layout.HeaderBlock;
  }

  /** A metadata block that parsed leaves the cursor after its reserve (or at the end of the file). */
  lemma MetaDataEnd(data: seq<byte>, n: nat, toDouble: string -> Option<real>)
    requires IsInt32(n) && MetaDataAt(data, n, toDouble).Success?
    ensures Layout.ReserveSize(n) >= 0
    ensures MetaDataAt(data, n, toDouble).value.1 == Clamp(data, Layout.MetaDataOffset(n) + Layout.ReserveSize(n))
  {
    MetaDataRead(data, n, toDouble);
  }

  /**
   * For N <= 120 on a file of at least 1024 bytes: the metadata block ends
   * at 1024 (StandardMetaData: it is the parse of bytes 64 + 8N up to 1024),
   * and the subbeam records start there.
   */
  lemma StandardLayout(data: seq<byte>, toDouble: string -> Option<real>, v: LogValue)
    requires |data| >= Layout.HeaderBlock
    requires Decode(data, toDouble) == Success(v)
    requires v.fixed.NumberOfAxesSampled <= 120
    ensures 0 < v.fixed.NumberOfAxesSampled
    ensures MetaDataAt(data, v.fixed.NumberOfAxesSampled, toDouble) == Success((v.metaData, Layout.HeaderBlock))
    ensures SubbeamsAt(data, Layout.HeaderBlock, NatOf(v.fixed.NumberOfSubbeams)) == Success(v.subbeams)
  {
    DecodedHasAxes(data, toDouble);
    var f := v.fixed;
    DecodeSplit(data, toDouble);
    var m := MetaDataAt(data, f.NumberOfAxesSampled, toDouble);
    MetaDataEnd(data, f.NumberOfAxesSampled, toDouble);
    Layout.SubbeamBlockAt1024(f.NumberOfAxesSampled);
    assert m.value.1 == Layout.HeaderBlock;
    RecordsParts(data, f, m.value.0, m.value.1, v);
  }

  // ---------------------------------------------------------------------------
  // The record classes.

  class TrajectoryHeader {
    var Signature: string
    var Version: string
    var HeaderSize: int
    var SampleIntervalMS: int
    var NumberOfAxesSampled: int
    var AxisEnumeration: Option<seq<int>>
    var SamplesPerAxis: Option<seq<int>>
    var AxisScale: int
    var NumberOfSubbeams: int
    var IsTruncated: int
    var NumberOfSnapshots: int
    var MLCModel: int
    var MetaData: Option<MetaData>
    var Subbeams: seq<Subbeam>
    const AxisData: AD.AxisData

    /** Everything unset, no subbeams, and an empty AxisData. */
    constructor ()
      ensures fresh(AxisData)
      ensures AxisData.Valid() && AxisData.expected == EmptyStore() && AxisData.actual == EmptyStore()
      ensures AxisEnumeration.None? && SamplesPerAxis.None? && MetaData.None? && Subbeams == []
    {
      Signature := "";
      Version := "";
      HeaderSize := 0;
      SampleIntervalMS := 0;
      NumberOfAxesSampled := 0;
      AxisEnumeration := None;
      SamplesPerAxis := None;
      AxisScale := 0;
      NumberOfSubbeams := 0;
      IsTruncated := 0;
      NumberOfSnapshots := 0;
      MLCModel := 0;
      MetaData := None;
      Subbeams := [];
      AxisData := new AD.AxisData();
    }

    /** The fixed fields as a value, with the log's HeaderError. */
    function Fields(headerError: seq<HeaderMessage>): Fixed
      reads this`Signature, this`Version, this`HeaderSize, this`SampleIntervalMS, this`NumberOfAxesSampled,
        this`AxisEnumeration, this`SamplesPerAxis, this`AxisScale, this`NumberOfSubbeams, this`IsTruncated,
        this`NumberOfSnapshots, this`MLCModel
    {
      Fixed(Signature, Version, HeaderSize, SampleIntervalMS, NumberOfAxesSampled, AxisEnumeration,
            SamplesPerAxis, AxisScale, NumberOfSubbeams, IsTruncated, NumberOfSnapshots, MLCModel, headerError)
    }
  }

  class TrajectoryLogInfo {
    const Header: TrajectoryHeader
    /** The StringBuilder's appends, in order; its text is ErrorText(HeaderError). */
    var HeaderError: seq<HeaderMessage>

    constructor ()
      ensures fresh(Header) && fresh(Header.AxisData)
      ensures Header.AxisData.Valid()
      ensures Header.AxisData.expected == EmptyStore() && Header.AxisData.actual == EmptyStore()
      ensures Header.AxisEnumeration.None? && Header.SamplesPerAxis.None?
      ensures Header.MetaData.None? && Header.Subbeams == []
      ensures HeaderError == []
    {
      Header := new TrajectoryHeader();
      HeaderError := [];
    }

    /** The log holds exactly the decoded value v. */
    ghost predicate Holds(v: LogValue)
      reads this, Header, Header.AxisData
    {
      && Header.Fields(HeaderError) == v.fixed
      && Header.MetaData == Some(v.metaData)
      && Header.Subbeams == v.subbeams
      && Header.AxisData.Valid()
      && Header.AxisData.expected == v.expected
      && Header.AxisData.actual == v.actual
    }
  }

  // ---------------------------------------------------------------------------
  // The reading steps.

  /** new int[n] filled by n successive ToInt32(ReadBytes(4)). */
  method ReadInts(reader: LogReader, n: nat) returns (r: Result<seq<int>, DecodeError>)
    requires reader.Valid()
    modifies reader
    ensures reader.Valid()
    ensures r == Need(IntsAt(reader.data, old(reader.pos), n), ShortRead)
    ensures r.Success? ==> reader.pos == old(reader.pos) + 4 * n
  {
    ghost var p0 := reader.pos;
    var values := new int[n];
    var i := 0;
    while i < n
      invariant 0 <= i <= n
      invariant reader.Valid()
      invariant reader.pos == p0 + 4 * i
      invariant forall j :: 0 <= j < i ==> values[j] == ToInt32(reader.data[p0 + 4 * j..p0 + 4 * j + 4])
    {
      var v := reader.ReadInt32();
      if v.Failure? {
        return Failure(ShortRead);
      }
      values[i] := v.value;
      i := i + 1;
    }
    assert values[..] == IntsAt(reader.data, p0, n).value;
    r := Success(values[..]);
  }

  /**
   * ConvertMetaData: ReadBytes(headerReserveSize), then the text parse; a
   * negative size throws.
   */
  method ConvertMetaData(reader: LogReader, reserve: int, toDouble: string -> Option<real>, ghost n: nat)
    returns (r: Result<MetaData, DecodeError>)
    requires reader.Valid()
    requires IsInt32(n) && reserve == Layout.ReserveSize(n) && reader.pos == Layout.MetaDataOffset(n)
    modifies reader
    ensures reader.Valid()
    ensures MetaDataAt(reader.data, n, toDouble) == WithEnd(r, reader.pos)
  {
    MetaDataRead(reader.data, n, toDouble);
    var block :- reader.ReadBytes(reserve);
    r := ParseMetaData(block, toDouble);
  }

  /** The Subbeam loop: NumberOfSubbeams records appended in file order. */
  method ReadSubbeams(reader: LogReader, count: int, header: TrajectoryHeader)
    returns (r: Result<(), DecodeError>)
    requires reader.Valid() && header.Subbeams == []
    modifies reader, header`Subbeams
    ensures reader.Valid()
    ensures var spec := SubbeamsAt(reader.data, old(reader.pos), NatOf(count));
      && (r.Success? <==> spec.Success?)
      && (r.Failure? ==> r.error == spec.error)
      && (r.Success? ==> header.Subbeams == spec.value)
    ensures r.Success? ==>
      reader.pos == Clamp(reader.data, old(reader.pos) + Layout.SubbeamsBytes(NatOf(count)))
  {
    ghost var p0 := reader.pos;
    var i := 0;
    while i < count
      invariant 0 <= i <= NatOf(count)
      invariant reader.Valid()
      invariant reader.pos == Clamp(reader.data, p0 + Layout.SubbeamsBytes(i))
      invariant SubbeamsAt(reader.data, p0, i) == Success(header.Subbeams)
    {
      SubbeamAtClamp(reader.data, p0 + Layout.SubbeamsBytes(i));
      AppendRecord(reader.data, p0, i, header.Subbeams);
      var sb := ReadSubbeam(reader);
      if sb.Failure? {
        FirstFailureStops(reader.data, p0, i + 1, NatOf(count));
        return Failure(sb.error);
      }
      ClampShift(reader.data, p0 + Layout.SubbeamsBytes(i), Layout.SubbeamRecordBytes);
      header.Subbeams := header.Subbeams + [sb.value];
      i := i + 1;
    }
    assert i == NatOf(count);
    r := Success(());
  }

  /** Signature .. NumberOfAxesSampled, in LogSizes order. */
  method ReadLead(reader: LogReader, header: TrajectoryHeader) returns (r: Result<(), DecodeError>)
    requires reader.Valid() && reader.pos == 0
    modifies reader, header`Signature, header`Version, header`HeaderSize, header`SampleIntervalMS,
      header`NumberOfAxesSampled
    ensures reader.Valid()
    ensures LeadAt(reader.data).Success? <==> r.Success?
    ensures r.Failure? ==> r.error == LeadAt(reader.data).error
    ensures r.Success? ==> reader.pos == Layout.AxisTablesOffset
    ensures r.Success? ==>
      LeadAt(reader.data).value == (header.Signature, header.Version, header.HeaderSize, header.SampleIntervalMS, header.NumberOfAxesSampled)
  {
    var signature := reader.ReadBytes(16);
    header.Signature := Remove(Ascii(signature.value), '\0');
    SliceClamp(reader.data, 16, 16);
    var version := reader.ReadBytes(16);
    header.Version := Ascii(version.value);
    Int32AtClamp(reader.data, 32);
    header.HeaderSize :- reader.ReadInt32();
    header.SampleIntervalMS :- reader.ReadInt32();
    header.NumberOfAxesSampled :- reader.ReadInt32();
    r := Success(());
  }

  /** AxisEnumeration then SamplesPerAxis: N ints each, or one HeaderError message each when N is 0. */
  method ReadAxisTables(reader: LogReader, n: nat, log: TrajectoryLogInfo) returns (r: Result<(), DecodeError>)
    requires reader.Valid() && reader.pos == Layout.AxisTablesOffset && log.HeaderError == []
    requires log.Header.AxisEnumeration.None? && log.Header.SamplesPerAxis.None?
    modifies reader, log`HeaderError, log.Header`AxisEnumeration, log.Header`SamplesPerAxis
    ensures reader.Valid()
    ensures AxisTables(reader.data, n).Success? <==> r.Success?
    ensures r.Failure? ==> r.error == AxisTables(reader.data, n).error
    ensures r.Success? ==> reader.pos == Layout.AxisTablesOffset + 8 * n
    ensures r.Success? ==>
      AxisTables(reader.data, n).value == (log.Header.AxisEnumeration, log.Header.SamplesPerAxis, log.HeaderError)
  {
    var header := log.Header;
    if n != 0 {
      var enumeration :- ReadInts(reader, n);
      header.AxisEnumeration := Some(enumeration);
    } else {
      log.HeaderError := log.HeaderError + [AxisEnumerationWithoutAxes];
    }
    if n != 0 {
      var samples :- ReadInts(reader, n);
      header.SamplesPerAxis := Some(samples);
    } else {
      log.HeaderError := log.HeaderError + [SamplesPerAxisWithoutAxes];
      assert log.HeaderError == [AxisEnumerationWithoutAxes, SamplesPerAxisWithoutAxes];
    }
    r := Success(());
  }

  /** AxisScale .. MLCModel. */
  method ReadTail(reader: LogReader, header: TrajectoryHeader) returns (r: Result<(), DecodeError>)
    requires reader.Valid()
    modifies reader, header`AxisScale, header`NumberOfSubbeams, header`IsTruncated, header`NumberOfSnapshots,
      header`MLCModel
    ensures reader.Valid()
    ensures TailAt(reader.data, old(reader.pos)).Success? <==> r.Success?
    ensures r.Failure? ==> r.error == TailAt(reader.data, old(reader.pos)).error
    ensures r.Success? ==> reader.pos == old(reader.pos) + 20
    ensures r.Success? ==>
      TailAt(reader.data, old(reader.pos)).value == (header.AxisScale, header.NumberOfSubbeams, header.IsTruncated, header.NumberOfSnapshots, header.MLCModel)
  {
    header.AxisScale :- reader.ReadInt32();
    header.NumberOfSubbeams :- reader.ReadInt32();
    header.IsTruncated :- reader.ReadInt32();
    header.NumberOfSnapshots :- reader.ReadInt32();
    header.MLCModel :- reader.ReadInt32();
    r := Success(());
  }

  /** AxisEnumeration .. MLCModel, once NumberOfAxesSampled is known to be n >= 0. */
  method ReadRest(reader: LogReader, n: nat, log: TrajectoryLogInfo) returns (r: Result<(), DecodeError>)
    requires reader.Valid() && reader.pos == Layout.AxisTablesOffset && log.HeaderError == []
    requires log.Header.AxisEnumeration.None? && log.Header.SamplesPerAxis.None?
    modifies reader, log`HeaderError, log.Header`AxisEnumeration, log.Header`SamplesPerAxis,
      log.Header`AxisScale, log.Header`NumberOfSubbeams, log.Header`IsTruncated,
      log.Header`NumberOfSnapshots, log.Header`MLCModel
    ensures reader.Valid()
    ensures RestAt(reader.data, n).Success? <==> r.Success?
    ensures r.Failure? ==> r.error == RestAt(reader.data, n).error
    ensures r.Success? ==> reader.pos == Layout.AxisTablesOffset + 8 * n + 20
    ensures r.Success? ==>
      RestAt(reader.data, n).value ==
        ((log.Header.AxisEnumeration, log.Header.SamplesPerAxis, log.HeaderError),
         (log.Header.AxisScale, log.Header.NumberOfSubbeams, log.Header.IsTruncated,
          log.Header.NumberOfSnapshots, log.Header.MLCModel))
  {
    r := ReadAxisTables(reader, n, log);
    if r.Failure? {
      return;
    }
    r := ReadTail(reader, log.Header);
  }

  /** The header fields Signature .. MLCModel, in LogSizes order. */
  method ReadFixed(reader: LogReader, log: TrajectoryLogInfo) returns (r: Result<(), DecodeError>)
    requires reader.Valid() && reader.pos == 0 && log.HeaderError == []
    requires log.Header.AxisEnumeration.None? && log.Header.SamplesPerAxis.None?
    modifies reader, log`HeaderError, log.Header`Signature, log.Header`Version, log.Header`HeaderSize,
      log.Header`SampleIntervalMS, log.Header`NumberOfAxesSampled, log.Header`AxisEnumeration,
      log.Header`SamplesPerAxis, log.Header`AxisScale, log.Header`NumberOfSubbeams, log.Header`IsTruncated,
      log.Header`NumberOfSnapshots, log.Header`MLCModel
    ensures reader.Valid()
    ensures FixedAt(reader.data).Success? <==> r.Success?
    ensures r.Failure? ==> r.error == FixedAt(reader.data).error
    ensures r.Success? ==> log.Header.Fields(log.HeaderError) == FixedAt(reader.data).value
    ensures r.Success? ==> reader.pos == Layout.MetaDataOffset(log.Header.NumberOfAxesSampled)
  {
    var header := log.Header;
    r := ReadLead(reader, header);
    if r.Failure? {
      return;
    }
    var n := header.NumberOfAxesSampled;
    if n < 0 {
      // new int[n] with n < 0
      return Failure(NegativeArraySize);
    }
    r := ReadRest(reader, n, log);
  }

  /** Everything after the fixed fields: the metadata, then the records. */
  method ReadBody(reader: LogReader, log: TrajectoryLogInfo, toDouble: string -> Option<real>, ghost fixed: Fixed)
    returns (r: Result<(), DecodeError>)
    requires reader.Valid()
    requires IsInt32(fixed.NumberOfAxesSampled) && fixed.NumberOfAxesSampled >= 0
    requires fixed.AxisEnumeration.Some? ==>
      fixed.SamplesPerAxis.Some? && |fixed.AxisEnumeration.value| == |fixed.SamplesPerAxis.value|
    requires log.Header.Fields(log.HeaderError) == fixed
    requires reader.pos == Layout.MetaDataOffset(fixed.NumberOfAxesSampled)
    requires log.Header.Subbeams == []
    requires log.Header.AxisData.Valid()
    requires log.Header.AxisData.expected == EmptyStore() && log.Header.AxisData.actual == EmptyStore()
    modifies reader, log.Header`MetaData, log.Header`Subbeams, log.Header.AxisData
    ensures DecodeBody(reader.data, fixed, toDouble).Success? <==> r.Success?
    ensures r.Failure? ==> r.error == DecodeBody(reader.data, fixed, toDouble).error
    ensures r.Success? ==> log.Holds(DecodeBody(reader.data, fixed, toDouble).value)
  {
    var header := log.Header;
    var reserve := Layout.ReserveSize(header.NumberOfAxesSampled);
    var metaData :- ConvertMetaData(reader, reserve, toDouble, fixed.NumberOfAxesSampled);
    BodyAfterMetaData(reader.data, fixed, toDouble, metaData, reader.pos);
    header.MetaData := Some(metaData);
    r := ReadRecords(reader, log, fixed, metaData);
  }

  /** The subbeam loop, then CollectAxisData on the log's fresh AxisData. */
  method ReadRecords(reader: LogReader, log: TrajectoryLogInfo, ghost fixed: Fixed, ghost metaData: MetaData)
    returns (r: Result<(), DecodeError>)
    requires reader.Valid()
    requires fixed.AxisEnumeration.Some? ==>
      fixed.SamplesPerAxis.Some? && |fixed.AxisEnumeration.value| == |fixed.SamplesPerAxis.value|
    requires log.Header.Fields(log.HeaderError) == fixed
    requires log.Header.MetaData == Some(metaData)
    requires log.Header.Subbeams == []
    requires log.Header.AxisData.Valid()
    requires log.Header.AxisData.expected == EmptyStore() && log.Header.AxisData.actual == EmptyStore()
    modifies reader, log.Header`Subbeams, log.Header.AxisData
    ensures DecodeRecords(reader.data, fixed, metaData, old(reader.pos)).Success? <==> r.Success?
    ensures r.Failure? ==> r.error == DecodeRecords(reader.data, fixed, metaData, old(reader.pos)).error
    ensures r.Success? ==> log.Holds(DecodeRecords(reader.data, fixed, metaData, old(reader.pos)).value)
  {
    var header := log.Header;
    ghost var p0 := reader.pos;
    r := ReadSubbeams(reader, header.NumberOfSubbeams, header);
    if r.Failure? {
      return;
    }
    assert header.NumberOfSubbeams == fixed.NumberOfSubbeams;
    ghost var snapshotOff := reader.pos;
    assert snapshotOff == Clamp(reader.data, p0 + Layout.SubbeamsBytes(NatOf(fixed.NumberOfSubbeams)));
    RecordsAfterSubbeams(reader.data, fixed, metaData, p0, header.Subbeams);
    ghost var v := WithBlock(fixed, metaData, header.Subbeams,
      SnapshotBlock(reader.data, snapshotOff, fixed.AxisEnumeration, fixed.SamplesPerAxis, fixed.NumberOfSnapshots));
    assert DecodeRecords(reader.data, fixed, metaData, p0) == v;
    r := ReadBlock(reader, log, fixed, metaData, header.Subbeams);
  }

  /** CollectAxisData on the log's fresh AxisData, once the subbeams are read. */
  method ReadBlock(reader: LogReader, log: TrajectoryLogInfo, ghost fixed: Fixed, ghost metaData: MetaData,
                   ghost subbeams: seq<Subbeam>)
    returns (r: Result<(), DecodeError>)
    requires reader.Valid()
    requires fixed.AxisEnumeration.Some? ==>
      fixed.SamplesPerAxis.Some? && |fixed.AxisEnumeration.value| == |fixed.SamplesPerAxis.value|
    requires log.Header.Fields(log.HeaderError) == fixed
    requires log.Header.MetaData == Some(metaData)
    requires log.Header.Subbeams == subbeams
    requires log.Header.AxisData.Valid()
    requires log.Header.AxisData.expected == EmptyStore() && log.Header.AxisData.actual == EmptyStore()
    modifies reader, log.Header.AxisData
    ensures var v := WithBlock(fixed, metaData, subbeams,
      SnapshotBlock(reader.data, old(reader.pos), fixed.AxisEnumeration, fixed.SamplesPerAxis, fixed.NumberOfSnapshots));
      && (v.Success? <==> r.Success?)
      && (r.Failure? ==> r.error == v.error)
      && (r.Success? ==> log.Holds(v.value))
  {
    var header := log.Header;
    r := AD.CollectAxisData(header.AxisEnumeration, header.SamplesPerAxis, header.NumberOfSnapshots,
                            header.AxisData, reader);
  }

  /**
   * LoadLog over the file's bytes: the log it returns holds Decode's value, and
   * it fails exactly when Decode does, with the same error.
   */
  method LoadLog(data: seq<byte>, toDouble: string -> Option<real>) returns (r: Result<TrajectoryLogInfo, DecodeError>)
    ensures Decode(data, toDouble).Success? <==> r.Success?
    ensures r.Failure? ==> r.error == Decode(data, toDouble).error
    ensures r.Success? ==> fresh(r.value) && r.value.Holds(Decode(data, toDouble).value)
  {
    var reader := new LogReader(data);
    var log := new TrajectoryLogInfo();
    var fixed := ReadFixed(reader, log);
    if fixed.Failure? {
      return Failure(fixed.error);
    }
    var body := ReadBody(reader, log, toDouble, log.Header.Fields(log.HeaderError));
    if body.Failure? {
      return Failure(body.error);
    }
    r := Success(log);
  }
}
