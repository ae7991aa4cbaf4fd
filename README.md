# TrajectoryLog.NET decoder and fluence, modelled in Dafny

TrajectoryLog.NET reads Varian TrueBeam/Halcyon trajectory log files (`.bin`). This project models its core,
the static class `TrajectoryAPI`. It covers four areas:

- **The decoder (`LoadLog`).** One `BinaryReader` walks the file front to back, following the `LogSizes`
  table. It reads:
  - the fixed header fields;
  - `NumberOfAxesSampled` (N) and the two N-entry axis tables;
  - the metadata text block (`ConvertMetaData`);
  - `NumberOfSubbeams` subbeam records, 560 bytes each (`SubbeamSizes`);
  - the snapshot block.

  `CollectAxisData` first allocates one `float[NumberOfSnapshots]` per sample of every known axis. It then
  reads, snapshot by snapshot and axis by axis, an expected/actual pair of floats for each sample
  (`GetAxisData`).
- **The metadata parser.** It removes NUL, CR and TAB, splits the text on line feeds, and takes the second
  `:`-separated field of each of the first seven lines: the text between the first and the second colon, or
  to the end of the line when there is only one. Lines 3 and 4 (MU planned and remaining) go
  through `Convert.ToDouble`.
- **The fluence map (`BuildFluence`, `AddFluenceFromMLCData`).**
  - The grid is a `double[,]`, 400×400 or 280×280 for the Halcyon SX2 MLC.
  - For every control point, each leaf pair adds the MU increment to the cells between its two leaf tips.
  - The increment is relative to the log's maximum MU. It is always taken from the *expected* MU trace.
  - The rows a leaf pair covers depend on the MLC model (NDS120, NDS120HD, SX2).
- **RMS deviation (`CalculateRMS`).** It computes the root mean square of actual − expected, plus the
  largest deviation and where it occurs. The MLC variant averages the per-leaf roots.

Modules, one per file:

| file | module | what it holds |
|---|---|---|
| wrappers.dfy | Wrappers | `Option`, `Result`, `Need` |
| bytes.dfy | Bytes | `BitConverter.ToInt32` and its inverse, int32 truncation, ASCII decoding, `String.Replace`, `BitConverter.ToString` and its inverse |
| layout.dfy | Layout | the `LogSizes` and `SubbeamSizes` tables and the offsets they imply |
| reader.dfy | Reader | `class LogReader`, a `BinaryReader` over the file's bytes, plus pure `Slice`/`Int32At` views of it |
| metadata.dfy | MetaDataText | `ConvertMetaData` after its `ReadBytes`, as functions over strings |
| subbeams.dfy | Subbeams | the subbeam record and the record block |
| axisstore.dfy | AxisStore, AxisData | the axis-code catalogue and the closed-form snapshot block; `class AxisData` and the imperative `CollectAxisData` / `GetAxisData` |
| decoder.dfy | Trajectory | `Decode`, the whole file as a function of its bytes; the classes `TrajectoryHeader` and `TrajectoryLogInfo`; `LoadLog`, proved to build exactly `Decode`'s value |
| fluence.dfy | Fluence | the leaf geometry as a plan of bands, the dose each cell receives, and the in-place `array2<real>` methods proved against it |
| deviation.dfy | Deviation | `CalculateRMS` as a function, with its peak selection |

How the source is represented:

- Each exception the source can throw becomes an error value of a `Result`, except the `OverflowException` of
  `Convert.ToInt32` (see "Left out"):
  - `ReadBytes` with a negative count;
  - `BitConverter` given fewer than four bytes;
  - `new T[n]` with n < 0;
  - iterating a null `AxisEnumeration`;
  - `ElementAt` past the end;
  - a `Convert.ToDouble` failure;
  - `NotImplementedException` for an unsupported MLC model;
  - `First()` or `Average()` of an empty sequence.
- The methods return that `Result` and state the exact success condition, both ways.
- Floats are kept as their four bytes (`Float32`).
- Arithmetic on them goes through a parameter `value: Float32 -> real`.
- `Convert.ToInt32(x * 10)` is a parameter `cell`, `Convert.ToDouble` is `toDouble`, and `Math.Sqrt` is
  `root`.

## Model

| member | source | states |
|---|---|---|
| Bytes.WrapInt32Congruent | TrajectoryLog.NET/Trajectory.cs:119 | the 32-bit reserve computation keeps its value modulo 2^32 (two's-complement truncation) |
| Bytes.ToInt32 | TrajectoryLog.NET/Trajectory.cs:110 | `BitConverter.ToInt32` yields an int32, negative exactly when the last byte's top bit is set |
| Bytes.Int32RoundTrip | TrajectoryLog.NET/Trajectory.cs:110 | every int32 is recovered from its four little-endian bytes |
| Bytes.Int32BytesRoundTrip | TrajectoryLog.NET/Trajectory.cs:110 | every 4-byte pattern is recovered from the int it decodes to, so decoding loses nothing |
| Bytes.AsciiChar | TrajectoryLog.NET/Trajectory.cs:101 | ASCII decoding keeps bytes below 0x80 and turns the others into '?' |
| Bytes.RemoveChars | TrajectoryLog.NET/Trajectory.cs:102 | `Replace("\0", "")` leaves no NUL and keeps every other character, and only those, each as often as it occurs |
| Bytes.RemoveAppend | TrajectoryLog.NET/Trajectory.cs:102 | removing a character works piecewise, so the order of the kept characters is the original order |
| Bytes.RemoveAbsent | TrajectoryLog.NET/Trajectory.cs:102 | text without the character is left unchanged |
| Bytes.RemoveOnly | TrajectoryLog.NET/Trajectory.cs:102 | text made only of the character becomes empty |
| Bytes.ToHexString | TrajectoryLog.NET/Trajectory.cs:249 | `BitConverter.ToString` of n bytes is 3n−1 characters long |
| Bytes.HexStringRoundTrip | TrajectoryLog.NET/Trajectory.cs:249 | the dash-separated hex rendering parses back to exactly the bytes it renders |
| Layout.HeaderFieldsBytes | TrajectoryLog.NET/Trajectory.cs:26-43 | the table entries before MetaData take 64 + 8N bytes, AxisEnumeration starts at byte 44, and MetaData follows the fixed fields |
| Layout.SubbeamRecordSize | TrajectoryLog.NET/Trajectory.cs:57-64 | the subbeam fields add up to 560 bytes, the table's Subbeam entry |
| Layout.ReserveSize | TrajectoryLog.NET/Trajectory.cs:119 | the metadata reserve is 1024 − (64 + 8N) ≥ 0 for 0 ≤ N ≤ 120, and negative for 120 < N < 2^28 |
| Layout.SubbeamBlockAt1024 | TrajectoryLog.NET/Trajectory.cs:119 | for N ≤ 120 the metadata block ends at byte 1024 |
| Reader.Clamp | TrajectoryLog.NET/Trajectory.cs:96-218 | a cursor never passes the end of the file, and stays where it was sent when that is inside |
| Reader.Slice | TrajectoryLog.NET/Trajectory.cs:618 | `ReadBytes(n)` returns at most n bytes, and exactly the next n when they exist |
| Reader.Int32At | TrajectoryLog.NET/Trajectory.cs:110 | reading an int succeeds exactly when four bytes remain |
| Reader.SingleAt | TrajectoryLog.NET/Trajectory.cs:237 | reading a float succeeds exactly when four bytes remain, and yields those bytes |
| Reader.LogReader.ReadBytes | TrajectoryLog.NET/Trajectory.cs:618 | a negative count fails and does not move; otherwise the result is the slice and the cursor advances, stopping at the end |
| Reader.LogReader.ReadInt32 | TrajectoryLog.NET/Trajectory.cs:110 | returns `Int32At` at the cursor, or a short-read error, and advances 4 bytes (at most to the end) |
| Reader.LogReader.ReadSingle | TrajectoryLog.NET/Trajectory.cs:237 | returns the float at the cursor, or a short-read error, and advances 4 bytes |
| MetaDataText.CleanChars | TrajectoryLog.NET/Trajectory.cs:619-622 | the cleaned text has no NUL, CR or TAB and keeps every other character, each as often as it occurs |
| MetaDataText.CleanAppend | TrajectoryLog.NET/Trajectory.cs:619-622 | cleaning works piecewise, so the kept characters stay in their order |
| MetaDataText.CleanPlain | TrajectoryLog.NET/Trajectory.cs:619-622 | text without NUL, CR and TAB is left unchanged |
| MetaDataText.SplitJoin | TrajectoryLog.NET/Trajectory.cs:624 | `Split('\n')` loses nothing: joining the pieces gives back the text |
| MetaDataText.JoinSplit | TrajectoryLog.NET/Trajectory.cs:624 | splitting separator-free pieces joined by the separator gives the pieces back |
| MetaDataText.SplitPiecesSepFree | TrajectoryLog.NET/Trajectory.cs:624 | no piece of a split contains the separator |
| MetaDataText.SecondTokenExists | TrajectoryLog.NET/Trajectory.cs:625 | `Split(':').ElementAt(1)` exists exactly when the line contains a colon |
| MetaDataText.SecondTokenBetweenColons | TrajectoryLog.NET/Trajectory.cs:625-631 | the field of "key:value" or "key:value:tail" is value |
| MetaDataText.TokensFrom | TrajectoryLog.NET/Trajectory.cs:625-631 | on success there is one token per remaining line, and the MU lines' tokens convert to numbers |
| MetaDataText.ParseMetaData | TrajectoryLog.NET/Trajectory.cs:615-631 | the definition of `ConvertMetaData` after its `ReadBytes`: clean, split on line feeds, take the field of lines 0–6 and convert lines 3–4; its outcomes are characterised by `TooFewLines`, `ParsedFields`, `ExtraLinesIgnored` and `FieldCharacters` |
| MetaDataText.TooFewLines | TrajectoryLog.NET/Trajectory.cs:625-631 | fewer than seven lines always fails: either at the first missing line or at an earlier line's colon or number |
| MetaDataText.ParsedFields | TrajectoryLog.NET/Trajectory.cs:625-631 | a parsed record holds exactly the second tokens of lines 0–6, and lines 3–4 hold their converted numbers |
| MetaDataText.ExtraLinesIgnored | TrajectoryLog.NET/Trajectory.cs:624-631 | lines after the seventh do not affect the result |
| MetaDataText.ParsesExactly | TrajectoryLog.NET/Trajectory.cs:624-631 | the parse succeeds exactly when there are seven lines, each with a colon, and the two MU fields convert |
| MetaDataText.TokensFromSucceeds | TrajectoryLog.NET/Trajectory.cs:625-631 | lines that all have a field, with convertible MU fields, yield their tokens |
| MetaDataText.MetaDataRoundTrip | TrajectoryLog.NET/Trajectory.cs:615-631 | a reserve that reads as seven lines "key:value" joined by line feeds and padded with NULs parses to exactly those values |
| MetaDataText.JoinFree | TrajectoryLog.NET/Trajectory.cs:624 | a character in no piece, other than the separator, is not in the joined text |
| MetaDataText.FieldCharacters | TrajectoryLog.NET/Trajectory.cs:618-631 | no text field contains a line feed, colon, NUL, CR or TAB |
| Subbeams.SubbeamAt | TrajectoryLog.NET/Trajectory.cs:223-256 | the definition of one pass of the `Subbeam` loop: the five `SubbeamSizes` fields at off, failing with a short read when fewer than 16 bytes remain; `CompleteRecord` states the decoded fields |
| Subbeams.SubbeamsAt | TrajectoryLog.NET/Trajectory.cs:223-256 | the definition of the whole `Subbeam` loop: records in file order, the first failing record ending it; `SubbeamsInFileOrder`, `AppendRecord` and `FirstFailureStops` state its properties |
| Subbeams.CompleteRecord | TrajectoryLog.NET/Trajectory.cs:228-252 | a complete record decodes: CP, Mu, RadTime and Seq sit at +0/+4/+8/+12, and Name is the 1631-character hex rendering of all 544 remaining bytes, which parses back to them |
| Subbeams.SubbeamsInFileOrder | TrajectoryLog.NET/Trajectory.cs:224-255 | the k-th decoded subbeam is the record at offset + 560k, in file order |
| Subbeams.AppendRecord | TrajectoryLog.NET/Trajectory.cs:224-255 | one more loop iteration appends the next record, or fails with its error |
| Subbeams.FirstFailureStops | TrajectoryLog.NET/Trajectory.cs:224-255 | the first record that fails decides the block's error |
| Subbeams.ReadSubbeam | TrajectoryLog.NET/Trajectory.cs:227-253 | the five `SubbeamSizes` reads produce exactly `SubbeamAt` and advance 560 bytes |
| AxisStore.AxisCatalog | TrajectoryLog.NET/Trajectory.cs:664-811 | exactly the codes 0–11, 40, 41, 42, 50 and 60–64 have an axis list, and the code is recovered from it |
| AxisStore.ChannelCodeRoundTrip | TrajectoryLog.NET/Trajectory.cs:664-811 | every axis list's code maps back to that list |
| AxisStore.EmptyStore | TrajectoryLog.NET/TrajectoryLog.Specifications/AxisHelpers/AxisData.cs:54-98 | a new `AxisData` has every list empty |
| AxisStore.Zeros | TrajectoryLog.NET/Trajectory.cs:669-670 | `new float[n]` is n zero floats |
| AxisStore.LastWriter | TrajectoryLog.NET/Trajectory.cs:821-998 | the axis that finally writes array i of a list is an earlier enumeration entry with that code and more than i samples |
| AxisStore.OwnArraysExist | TrajectoryLog.NET/Trajectory.cs:664-998 | every array an axis entry reads into was allocated by then |
| AxisStore.AbsentChannel | TrajectoryLog.NET/Trajectory.cs:664-811 | a list whose code was not yet listed holds no arrays and has no writer |
| AxisStore.SingleOccurrence | TrajectoryLog.NET/Trajectory.cs:664-998 | an axis listed once gets SamplesPerAxis arrays, and that entry writes each of them |
| AxisStore.SlotOfSample | TrajectoryLog.NET/Trajectory.cs:818-1014 | in a decoded block, sample i of snapshot t of an axis listed once holds the 4 bytes at its offset (expected) and the next 4 (actual); every array is snapshot-long |
| AxisStore.SampleInsideBlock | TrajectoryLog.NET/Trajectory.cs:818-1014 | every sample's 8 bytes lie inside the snapshot block |
| AxisStore.Known | TrajectoryLog.NET/Trajectory.cs:664-811 | dropping the entries of unknown codes keeps the two tables aligned, and every entry left is recognised |
| AxisStore.SamplesBeforeSamePrefix | TrajectoryLog.NET/Trajectory.cs:818-998 | the offset of axis k depends on the first k entries only |
| AxisStore.KnownGrows | TrajectoryLog.NET/Trajectory.cs:664-811 | the known entries of a prefix of the tables begin the known entries of a longer prefix |
| AxisStore.KnownSamples | TrajectoryLog.NET/Trajectory.cs:818-998 | the known entries of the first k axes take as many samples per snapshot as those k axes |
| AxisStore.UnknownCodesFree | TrajectoryLog.NET/Trajectory.cs:818-998 | axis codes without a list consume no bytes: with their entries dropped from both tables, the snapshot row and the whole block keep their length |
| AxisStore.KnownOffsets | TrajectoryLog.NET/Trajectory.cs:818-1014 | with the unknown entries dropped, a recognised axis keeps its table entries, and each of its samples is read from the same offset |
| AxisStore.SnapshotBlock | TrajectoryLog.NET/Trajectory.cs:657-998 | the definition of what `CollectAxisData` leaves: a null enumeration fails, a negative snapshot count with arrays due fails, a block past the end fails, otherwise both stores hold `FilledStore`; `LastWriter`, `SingleOccurrence`, `SlotOfSample` and `UnknownCodesFree` state its properties |
| AxisData.AxisData.constructor | TrajectoryLog.NET/TrajectoryLog.Specifications/AxisHelpers/AxisData.cs:54-98 | the new object has empty expected and actual stores |
| AxisData.Allocated | TrajectoryLog.NET/Trajectory.cs:667-671 | the allocation loop yields n arrays of m zeros |
| AxisData.Column | TrajectoryLog.NET/Trajectory.cs:1010-1014 | sample i of a `GetAxisData` call is the word at p + 8i (+4 for actual) |
| AxisData.WriteColumn | TrajectoryLog.NET/Trajectory.cs:1012-1013 | writing column t changes exactly element t of the first k arrays and keeps all shapes |
| AxisData.GetAxisData | TrajectoryLog.NET/Trajectory.cs:1007-1016 | succeeds exactly when 8·count bytes remain; then column `snapshot` of the expected and actual lists holds the words read, nothing else changes, and the cursor advances 8·count |
| AxisData.ReadSample | TrajectoryLog.NET/Trajectory.cs:1012-1013 | one loop iteration writes one expected and one actual word at [sample][snapshot] |
| AxisData.FilledAfterAxis | TrajectoryLog.NET/Trajectory.cs:822-998 | reading axis k keeps every array's shape and extends the filled prefix to k + 1 axes |
| AxisData.FilledComplete | TrajectoryLog.NET/Trajectory.cs:818-998 | once every snapshot is read, the store equals the closed-form `FilledStore` |
| AxisData.AddArrays | TrajectoryLog.NET/Trajectory.cs:667-671 | fails only when a positive count meets a negative snapshot count; otherwise appends count zero arrays to both lists |
| AxisData.SetUpLists | TrajectoryLog.NET/Trajectory.cs:661-815 | fails exactly when arrays are due and the snapshot count is negative; otherwise each list holds one zero array per sample of every entry with its code |
| AxisData.ReadAxis | TrajectoryLog.NET/Trajectory.cs:824-996 | reads one axis of one snapshot at its offset, extending the filled prefix, or reports the short read |
| AxisData.ReadSnapshot | TrajectoryLog.NET/Trajectory.cs:820-997 | reads one snapshot row, or reports that the row runs past the end |
| AxisData.ReadSnapshots | TrajectoryLog.NET/Trajectory.cs:818-998 | fills both stores with `FilledStore`, or fails exactly when the block runs past the end |
| AxisData.CollectAxisData | TrajectoryLog.NET/Trajectory.cs:657-998 | the outcome is exactly `SnapshotBlock` (failing on an unset enumeration); on success the cursor is past the block |
| Trajectory.Decode | TrajectoryLog.NET/Trajectory.cs:89-339 | the definition of the whole file as a function of its bytes: fixed fields, metadata, subbeams and snapshot block at their offsets, or the first failing read's error; `DecodedHasAxes`, `ZeroAxes`, `TooManyAxes`, `StandardLayout` and `LoadLog` state its properties |
| Trajectory.IntsAt | TrajectoryLog.NET/Trajectory.cs:125-129 | n ints are read exactly when 4n bytes remain, the i-th from bytes 4i..4i+4 |
| Trajectory.AxisTables | TrajectoryLog.NET/Trajectory.cs:122-198 | both tables are set exactly when N > 0, each with N entries |
| Trajectory.LeadAt | TrajectoryLog.NET/Trajectory.cs:100-121 | the decoded N is an int32 |
| Trajectory.FixedAt | TrajectoryLog.NET/Trajectory.cs:96-218 | a decoded N is non-negative and both tables have the same length |
| Trajectory.MetaDataRead | TrajectoryLog.NET/Trajectory.cs:615-618 | a negative reserve fails in `ReadBytes`; otherwise the metadata is the parse of the reserve bytes at 64 + 8N |
| Trajectory.ZeroAxesText | TrajectoryLog.NET/Trajectory.cs:181 | the two N = 0 messages concatenate to the source's exact `HeaderError` text |
| Trajectory.ShortLead | TrajectoryLog.NET/Trajectory.cs:100-118 | a file shorter than 44 bytes fails with a short read |
| Trajectory.SignatureWithoutNul | TrajectoryLog.NET/Trajectory.cs:100-107 | the signature has no NUL and keeps every other character of bytes 0–15, each as often as it occurs; the version is bytes 16–31 as ASCII |
| Trajectory.PaddedSignature | TrajectoryLog.NET/Trajectory.cs:100-103 | a signature of non-NUL bytes padded with NULs to 16 bytes is read as exactly those bytes, in order |
| Trajectory.FixedTables | TrajectoryLog.NET/Trajectory.cs:122-198 | the enumeration is set exactly when N > 0; then `HeaderError` is empty; N = 0 leaves both tables unset with both messages |
| Trajectory.ZeroAxes | TrajectoryLog.NET/Trajectory.cs:122-198 | N = 0 gives both messages and always fails; once the metadata and subbeams are read, it fails on the null enumeration |
| Trajectory.DecodedHasAxes | TrajectoryLog.NET/Trajectory.cs:96-260 | every decoded log has N > 0, both tables set and an empty `HeaderError` |
| Trajectory.TooManyAxes | TrajectoryLog.NET/Trajectory.cs:119 | 120 < N < 2^28 makes the reserve negative, and `ReadBytes` fails |
| Trajectory.StandardMetaData | TrajectoryLog.NET/Trajectory.cs:219-221 | for N ≤ 120 on a file of at least 1024 bytes, the metadata is the parse of bytes 64 + 8N..1024 and ends at 1024 |
| Trajectory.MetaDataEnd | TrajectoryLog.NET/Trajectory.cs:615-618 | after metadata that parsed, the read position is the end of the reserve (64 + 8N + reserve), or the end of the file when the file is shorter |
| Trajectory.StandardLayout | TrajectoryLog.NET/Trajectory.cs:89-260 | in a decoded file of at least 1024 bytes with N ≤ 120, N > 0, the metadata block ends exactly at 1024 and the subbeams are the records read from 1024 on |
| Trajectory.TrajectoryHeader.constructor | TrajectoryLog.NET/TrajectoryLog.Specifications/TrajectoryHeader.cs:30-34 | a new header has no subbeams, unset tables and a fresh empty `AxisData` |
| Trajectory.TrajectoryLogInfo.constructor | TrajectoryLog.NET/TrajectoryLog.Specifications/TrajectoryLogInfo.cs:13-17 | a new log has a fresh header and an empty `HeaderError` |
| Trajectory.ReadInts | TrajectoryLog.NET/Trajectory.cs:125-129 | the loop reads exactly `IntsAt` and advances 4n |
| Trajectory.ConvertMetaData | TrajectoryLog.NET/Trajectory.cs:615-631 | reads the reserve and parses it, with the outcome and cursor `MetaDataAt` states |
| Trajectory.ReadSubbeams | TrajectoryLog.NET/Trajectory.cs:223-256 | the subbeam loop has `SubbeamsAt`'s outcome, stores its records, and advances 560 per record |
| Trajectory.ReadLead | TrajectoryLog.NET/Trajectory.cs:100-121 | the first five fields hold `LeadAt`'s values, and the cursor ends at 44 |
| Trajectory.ReadAxisTables | TrajectoryLog.NET/Trajectory.cs:122-198 | the tables and messages are `AxisTables`', and the cursor ends at 44 + 8N |
| Trajectory.ReadTail | TrajectoryLog.NET/Trajectory.cs:199-218 | the five tail fields are `TailAt`'s, 20 bytes on |
| Trajectory.ReadRest | TrajectoryLog.NET/Trajectory.cs:122-218 | the tables and tail are `RestAt`'s |
| Trajectory.ReadFixed | TrajectoryLog.NET/Trajectory.cs:96-218 | the header fields are `FixedAt`'s, and the cursor ends at 64 + 8N |
| Trajectory.ReadBody | TrajectoryLog.NET/Trajectory.cs:219-260 | the metadata, subbeams and snapshots make up `DecodeBody`'s value, or fail with its error |
| Trajectory.ReadRecords | TrajectoryLog.NET/Trajectory.cs:223-260 | the subbeams and snapshots are `DecodeRecords`', or fail with its error |
| Trajectory.ReadBlock | TrajectoryLog.NET/Trajectory.cs:258-260 | the snapshot stage stores `SnapshotBlock`'s lists, or fails with its error |
| Trajectory.LoadLog | TrajectoryLog.NET/Trajectory.cs:89-343 | succeeds exactly when `Decode` does, with its error otherwise; on success the fresh log holds `Decode`'s value |
| Fluence.RowsAt | TrajectoryLog.NET/Trajectory.cs:1093-1113 | the k-th band of a leaf covers row first + k between the leaf's two tips |
| Fluence.GainCoverage | TrajectoryLog.NET/Trajectory.cs:1058-1063 | a cell gains delta once for every band that covers it |
| Fluence.GainAppend | TrajectoryLog.NET/Trajectory.cs:1028-1117 | the gain of consecutive leaves adds up |
| Fluence.SX2BandsShape | TrajectoryLog.NET/Trajectory.cs:1049-1067 | an SX2 leaf covers rows 10i..10i+9, never outside its own pair of tips |
| Fluence.SX2WithinOwnLeaf | TrajectoryLog.NET/Trajectory.cs:1041-1067 | every cell an SX2 leaf covers lies between that leaf's own X1 and X2 tips |
| Fluence.PlanFailureStops | TrajectoryLog.NET/Trajectory.cs:1026-1122 | the first leaf that fails decides the outcome of the whole control point |
| Fluence.Plan | TrajectoryLog.NET/Trajectory.cs:1026-1122 | the definition of the bands one `AddFluenceFromMLCData` call writes: an unsupported model fails, otherwise the leaves in loop order, the first failing leaf ending it; `LeafRowsInGrid`, `SX2WithinOwnLeaf`, `NDS120Tiles` and `PlanFailureStops` state its properties |
| Fluence.RowStartClosed | TrajectoryLog.NET/Trajectory.cs:1080-1114 | closed forms of each leaf's starting row: NDS120 from 0 in steps of 10/5/10; NDS120HD from 90 in steps of 5/2.5/5 |
| Fluence.NDS120Tiles | TrajectoryLog.NET/Trajectory.cs:1080-1114 | NDS120 leaves tile rows 0..400 with no gap and no overlap |
| Fluence.NDS120HDRows | TrajectoryLog.NET/Trajectory.cs:1080-1114 | NDS120HD leaves stay within rows 90..285 |
| Fluence.HDNarrowLeavesShareRow | TrajectoryLog.NET/Trajectory.cs:1104-1113 | an NDS120HD narrow leaf covers 3 rows from 160 while the next starts at 162, so a row gets two leaves |
| Fluence.HDFieldSpan | TrajectoryLog.NET/Trajectory.cs:1080-1114 | the NDS120 leaf stack ends at row 400, symmetric about row 200; as coded the NDS120HD stack ends at row 285, not symmetric about row 200 |
| Fluence.LeafRowsInGrid | TrajectoryLog.NET/Trajectory.cs:1026-1117 | every row any leaf writes is inside the grid |
| Fluence.MaxValue | TrajectoryLog.NET/Trajectory.cs:472 | `Max()` is an upper bound of the array and is attained |
| Fluence.StepsFailureStops | TrajectoryLog.NET/Trajectory.cs:475-481 | the first failing control point decides the outcome |
| Fluence.StepsUseExpectedMU | TrajectoryLog.NET/Trajectory.cs:474-478 | every step's MU is the expected MU trace's sample, whichever MLC trace is selected, and its plan is that control point's |
| Fluence.AlwaysOpen | TrajectoryLog.NET/Trajectory.cs:461-482 | a cell covered once at every control point ends at the last MU over the total |
| Fluence.NeverOpen | TrajectoryLog.NET/Trajectory.cs:461-482 | a cell never covered stays zero |
| Fluence.ZeroSnapshots | TrajectoryLog.NET/Trajectory.cs:461-482 | with no control points the result is the all-zero grid, whatever the MLC model |
| Fluence.OtherModelFails | TrajectoryLog.NET/Trajectory.cs:1118-1121 | an unsupported MLC model fails at the first control point |
| Fluence.AddBand | TrajectoryLog.NET/Trajectory.cs:1058-1062 | adds delta to exactly the cells of one band row, or reports a band outside the grid |
| Fluence.AddRows | TrajectoryLog.NET/Trajectory.cs:1095-1112 | the `ii` loop adds the gain of its rows (a real bound, as with `halfStep`), or reports a row outside the grid |
| Fluence.AddSX2Leaf | TrajectoryLog.NET/Trajectory.cs:1041-1067 | one SX2 leaf adds its bands' gain, or fails as its plan does |
| Fluence.AddNDSLeaf | TrajectoryLog.NET/Trajectory.cs:1083-1114 | one NDS leaf adds its bands' gain and advances `rowStart` to the next leaf's start |
| Fluence.AddSX2 | TrajectoryLog.NET/Trajectory.cs:1028-1068 | the 28-leaf loop adds the SX2 plan's gain, or fails with its error |
| Fluence.AddNDS | TrajectoryLog.NET/Trajectory.cs:1077-1117 | the 60-leaf loop adds the NDS plan's gain, or fails with its error |
| Fluence.AddFluenceFromMLCData | TrajectoryLog.NET/Trajectory.cs:1026-1122 | every cell gains (muCurrent − muStart) per band of `Plan` covering it, or the call fails with `Plan`'s error |
| Fluence.Dose | TrajectoryLog.NET/Trajectory.cs:475-479 | the definition of a cell's value after the loop: per control point, its plan's gain at (muCurrent − muStart) / totalMU; `AlwaysOpen`, `NeverOpen` and `DoseStep` state its properties |
| Fluence.FluenceSpec | TrajectoryLog.NET/Trajectory.cs:461-483 | the definition of `BuildFluence`'s outcome: total MU from the selected trace's first array, the MLC lists of that trace, one step per entry of list 2 with the expected MU; `StepsUseExpectedMU`, `ZeroSnapshots` and `OtherModelFails` state its properties |
| Fluence.DoseStep | TrajectoryLog.NET/Trajectory.cs:477-479 | one more control point adds its plan's gain at the MU increment over the total |
| Fluence.AddStep | TrajectoryLog.NET/Trajectory.cs:478 | after one call the grid holds the dose of the steps so far plus this one |
| Fluence.AddSnapshot | TrajectoryLog.NET/Trajectory.cs:477-479 | reads the expected MU, fails on a zero total, and extends `Steps` by one |
| Fluence.Accumulate | TrajectoryLog.NET/Trajectory.cs:475-481 | the control-point loop leaves `Dose(Steps)` in every cell, or fails with `Steps`' error |
| Fluence.BuildFluence | TrajectoryLog.NET/Trajectory.cs:461-482 | a fresh grid of the model's size (400 or 280) holding `FluenceSpec`'s dose in every cell, or `FluenceSpec`'s error |
| Deviation.CalculateRMS | TrajectoryLog.NET/Trajectory.cs:1132-1171 | the definition of `CalculateRMS`: root of the mean square and the earliest largest deviation for one axis, the mean of the per-leaf roots for MLC; `AxisSucceeds`, `AxisPeak`, `MlcSucceeds`, `MlcResult`, `MlcPeak` and `Identical` state its properties |
| Deviation.PeakIndex | TrajectoryLog.NET/Trajectory.cs:1146 | `OrderByDescending(Math.Abs(diff)).First()` is the earliest sample of largest absolute difference |
| Deviation.PeakUnique | TrajectoryLog.NET/Trajectory.cs:1146 | largest-and-earliest determines the peak |
| Deviation.AxisSucceeds | TrajectoryLog.NET/Trajectory.cs:1134-1150 | an axis comparison succeeds exactly when both first arrays exist and the actual one is non-empty and no longer |
| Deviation.AxisPeak | TrajectoryLog.NET/Trajectory.cs:1136-1149 | rms is root of the mean square, and maxDiff/maxDiffLoc are the difference and actual value at the earliest largest deviation |
| Deviation.CompareLocated | TrajectoryLog.NET/Trajectory.cs:1159-1161 | MLC differences are located at their leaf index |
| Deviation.LeavesStep | TrajectoryLog.NET/Trajectory.cs:1152-1164 | one more leaf appends its differences and its root mean square |
| Deviation.LeavesValid | TrajectoryLog.NET/Trajectory.cs:1152-1164 | on success there is one root per leaf 2..n−1, each non-empty and matched |
| Deviation.LeavesRootSum | TrajectoryLog.NET/Trajectory.cs:1152-1164 | the roots add up to `RootSum` |
| Deviation.LeavesLocated | TrajectoryLog.NET/Trajectory.cs:1152-1164 | every difference is located at an integer leaf index in [2, n) |
| Deviation.LeafOffsetMonotone | TrajectoryLog.NET/Trajectory.cs:1152-1164 | later lists start later among the MLC samples |
| Deviation.AllLeavesStep | TrajectoryLog.NET/Trajectory.cs:1152-1164 | one more list keeps the earlier leaves in place and puts its own leaves after them |
| Deviation.LeavesSamples | TrajectoryLog.NET/Trajectory.cs:1152-1164 | the MLC samples are every leaf of lists 2..n−1 in list-then-leaf order, each Actual − Expected located at its list index |
| Deviation.LeafAt | TrajectoryLog.NET/Trajectory.cs:1152-1164 | every MLC sample belongs to one leaf of one list from 2 on |
| Deviation.EarlierList | TrajectoryLog.NET/Trajectory.cs:1152-1164 | every leaf of an earlier list comes before the leaves of a later one |
| Deviation.BelowPeak | TrajectoryLog.NET/Trajectory.cs:1166-1168 | no leaf exceeds the peak leaf in magnitude, and a leaf before it falls short |
| Deviation.PeakLeaf | TrajectoryLog.NET/Trajectory.cs:1166-1168 | the selected MLC sample is a leaf of largest magnitude, and the earliest one in list-then-leaf order |
| Deviation.MlcSamples | TrajectoryLog.NET/Trajectory.cs:1151-1168 | an MLC result holds the peak of the samples of every leaf |
| Deviation.MlcPeak | TrajectoryLog.NET/Trajectory.cs:1151-1168 | MLC maxDiff is Actual − Expected of the earliest leaf, in list-then-leaf order, of largest magnitude, and maxDiffLoc is that leaf's list index |
| Deviation.ValidListsLast | TrajectoryLog.NET/Trajectory.cs:1152-1164 | valid lists up to n are valid up to n − 1, including list n − 1 itself |
| Deviation.LeavesSucceed | TrajectoryLog.NET/Trajectory.cs:1152-1164 | the leaf loop succeeds when every list from 2 on has an Expected partner, is non-empty and is no longer |
| Deviation.MlcSucceeds | TrajectoryLog.NET/Trajectory.cs:1151-1168 | MLC succeeds exactly when there is a list from index 2 on and every such list is non-empty and matched; with at most two lists it fails on the empty sequence |
| Deviation.MlcResult | TrajectoryLog.NET/Trajectory.cs:1151-1168 | the MLC rms is the mean of the leaf roots, and maxDiffLoc is a leaf index in [2, count) |
| Deviation.ZeroError | TrajectoryLog.NET/Trajectory.cs:1141 | an array compared with itself has zero squared error |
| Deviation.RootSumIdentical | TrajectoryLog.NET/Trajectory.cs:1152-1164 | identical MLC traces give each leaf the root of zero |
| Deviation.IdenticalSamples | TrajectoryLog.NET/Trajectory.cs:1152-1164 | identical MLC traces give only zero differences |
| Deviation.Identical | TrajectoryLog.NET/Trajectory.cs:1132-1169 | identical traces give maxDiff 0 and rms root(0) |

## Behaviour of the source worth knowing

- `LoadLog` removes every NUL from the signature, wherever it occurs (TrajectoryLog.NET/Trajectory.cs:100-103).
- A subbeam's `Name` is `BitConverter.ToString` of the whole 544-byte name field: uppercase hex pairs joined by
  `-` (TrajectoryLog.NET/Trajectory.cs:248-249, 57-64).
- Axis codes outside the switch's 21 cases get no lists in `CollectAxisData` and consume no bytes, so the
  samples after them are read from earlier offsets (TrajectoryLog.NET/Trajectory.cs:664-811, 818-1000).
- Subbeams are stored in the order of the file; their `Seq` field is kept but not used for ordering
  (TrajectoryLog.NET/Trajectory.cs:223-256).
- With N = 0 both `HeaderError` messages are appended (TrajectoryLog.NET/Trajectory.cs:179-197), but
  `CollectAxisData` then iterates the unset enumeration (TrajectoryLog.NET/Trajectory.cs:259, 662), so no
  such file decodes.
- The `default` branch of `LoadLog`'s switch (TrajectoryLog.NET/Trajectory.cs:331-333) is unreachable: every
  key of `LogSizes` (TrajectoryLog.NET/Trajectory.cs:26-43) has a case.
- `BuildFluence` uses a 400×400 grid for every model but SX2, which gets 280×280
  (TrajectoryLog.NET/Trajectory.cs:463-470), and every model scales leaf positions by 10
  (TrajectoryLog.NET/Trajectory.cs:1041-1046, 1085-1086).
- `BuildFluence` always takes the MU increment from the expected MU trace; only the MLC positions and the
  total MU follow `MLCstring` (TrajectoryLog.NET/Trajectory.cs:472-478).
- For NDS120HD, `halfLeafEnd` is 55 (TrajectoryLog.NET/Trajectory.cs:1090), so leaves 14..55, 42 of them,
  are narrow; the comment at line 1088 counts 32. The HD leaf stack therefore covers rows 90..285 rather
  than 90..310, and is not centred on row 200 (`Fluence.HDFieldSpan`). The model follows the code.

## Left out

- File I/O: `LoadLog` takes the file's bytes instead of a file name. Debug console output (`bDebug`) is
  not modelled.
- Floating point:
  - floats are opaque 4-byte words;
  - MU and positions become reals through the parameter `value`;
  - `Convert.ToInt32(x * 10)` is the parameter `cell`;
  - `Convert.ToDouble` is `toDouble`;
  - `Math.Sqrt` is `root`.
  - Rounding and float-to-double widening are therefore not modelled.
- Fluence.BuildFluence: a total MU of zero gives IEEE infinities or NaN in the source. Here it is the error
  `ZeroTotalMU`, because real division by zero is undefined.
- `MLCModelEnum` and `AxisScaleEnum` numeric values are not part of this model. The MLC model enters the
  fluence as a classified `MlcModel`, and the header keeps the raw int.
- Fluence.AddFluenceFromMLCData: out-of-grid and missing-element exceptions are errors. The cells already
  written when the exception happens are not described, because the exception escapes `BuildFluence` and
  the grid is lost.
- Trajectory.LoadLog: likewise, the partly filled log is not described on failure, because the exception
  escapes.
- MetaDataText.ParseMetaData and Trajectory.ConvertMetaData: the reserve bytes become text one character per
  byte, each byte of 0x80 or above a `?`, whereas the source decodes them as UTF-8
  (TrajectoryLog.NET/Trajectory.cs:618). A field holding a multibyte character therefore differs. Line breaks,
  colons, NUL, CR and TAB are found at the same places, because UTF-8 never uses bytes below 0x80 inside a
  multibyte sequence.
- Fluence.AddFluenceFromMLCData: `Convert.ToInt32(x * 10)` throws `OverflowException` for NaN or a value
  outside the int32 range (TrajectoryLog.NET/Trajectory.cs:1041-1046, 1085-1086). `cell` is a total function,
  so that exception is not modelled and such a position gives whatever cell `cell` returns.
- Deviation.CalculateRMS: the result is a function of the arrays as reals, so float subtraction is exact
  here.
- `ToCSV`, `PublishPDF`, `BuildFluenceImage`, `EnableDebug`/`DisableDebug` and the client program are
  reporting and UI code outside the core.
- The static `headerReserveSize` is passed as a parameter rather than shared between calls.
