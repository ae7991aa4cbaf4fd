/**
 * The per-axis sample store (AxisData) and the snapshot block that fills it
 * (CollectAxisData, GetAxisData). Each recognised axis code owns a channel:
 * a list of Expected arrays and a list of Actual arrays, one array per
 * physical sample, each with one float per snapshot.
 */
module AxisStore {
  import opened Wrappers
  import opened Bytes
  import opened Reader

  /** The 21 channels of AxisData, one per recognised axis code. */
  datatype Channel =
    | CollRtn | GantryRtn | Y1 | Y2 | X1 | X2
    | CouchVrt | CouchLng | CouchLat | CouchRtn | CouchPit | CouchRol
    | MU | BeamHold | ControlPoint | MLC
    | TargetPosition | TrackingTarget | TrackingBase | TrackingPhase | TCI

  const AllChannels: set<Channel> := {
    CollRtn, GantryRtn, Y1, Y2, X1, X2, CouchVrt, CouchLng, CouchLat, CouchRtn, CouchPit, CouchRol,
    MU, BeamHold, ControlPoint, MLC, TargetPosition, TrackingTarget, TrackingBase, TrackingPhase, TCI}

  lemma AllChannelsComplete(ch: Channel)
    ensures ch in AllChannels
  {
  }

  /** The switch on the axis code; any other code has no channel. */
  function ChannelOf(code: int): Option<Channel>
  {
    match code
    case 0 => Some(CollRtn)
    case 1 => Some(GantryRtn)
    case 2 => Some(Y1)
    case 3 => Some(Y2)
    case 4 => Some(X1)
    case 5 => Some(X2)
    case 6 => Some(CouchVrt)
    case 7 => Some(CouchLng)
    case 8 => Some(CouchLat)
    case 9 => Some(CouchRtn)
    case 10 => Some(CouchPit)
    case 11 => Some(CouchRol)
    case 40 => Some(MU)
    case 41 => Some(BeamHold)
    case 42 => Some(ControlPoint)
    case 50 => Some(MLC)
    case 60 => Some(TargetPosition)
    case 61 => Some(TrackingTarget)
    case 62 => Some(TrackingBase)
    case 63 => Some(TrackingPhase)
    case 64 => Some(TCI)
    case _ => None
  }

  /** The axis code of a channel. */
  function CodeOf(ch: Channel): int
  {
    match ch
    case CollRtn => 0 case GantryRtn => 1 case Y1 => 2 case Y2 => 3 case X1 => 4 case X2 => 5
    case CouchVrt => 6 case CouchLng => 7 case CouchLat => 8 case CouchRtn => 9
    case CouchPit => 10 case CouchRol => 11
    case MU => 40 case BeamHold => 41 case ControlPoint => 42 case MLC => 50
    case TargetPosition => 60 case TrackingTarget => 61 case TrackingBase => 62
    case TrackingPhase => 63 case TCI => 64
  }

  /** Exactly the codes 0-11, 40, 41, 42, 50 and 60-64 are recognised, one channel each. */
  lemma AxisCatalog(code: int)
    ensures ChannelOf(code).Some? <==> (0 <= code <= 11 || code == 40 || code == 41 || code == 42
                                       || code == 50 || 60 <= code <= 64)
    ensures ChannelOf(code).Some? ==> CodeOf(ChannelOf(code).value) == code
  {
  }

  lemma ChannelCodeRoundTrip(ch: Channel)
    ensures ChannelOf(CodeOf(ch)) == Some(ch)
  {
  }

  /** List<float[]>: one array per physical sample. */
  type Lists = seq<seq<Float32>>

  /** Every channel's lists, Expected or Actual. */
  type Store = map<Channel, Lists>

  ghost predicate Total(st: Store)
  {
    forall ch: Channel :: ch in st
  }

  /** The store after `new AxisData()`: every list empty. */
  function EmptyStore(): (st: Store)
    ensures Total(st)
    ensures forall ch :: st[ch] == []
  {
    var st := map ch | ch in AllChannels :: [];
    assert forall ch: Channel :: ch in st by {
      forall ch: Channel ensures ch in st { AllChannelsComplete(ch); }
    }
    st
  }

  function NatOf(x: int): nat { if x > 0 then x else 0 }

  /** new float[n]: n zero floats. */
  function Zeros(n: nat): (z: seq<Float32>)
    ensures |z| == n && forall t :: 0 <= t < n ==> z[t] == ZeroFloat
  {
    seq(n, _ => ZeroFloat)
  }

  // ---------------------------------------------------------------------------
  // The snapshot block as a function of the file's bytes.
  // enumeration / samples are AxisEnumeration / SamplesPerAxis (equal lengths).

  predicate Tables(enumeration: seq<int>, samples: seq<int>)
  {
    |enumeration| == |samples|
  }

  /** Samples read and stored per snapshot for axis k: none for an unknown code or a count <= 0. */
  function Samples(enumeration: seq<int>, samples: seq<int>, k: nat): nat
    requires Tables(enumeration, samples) && k < |enumeration|
  {
    if ChannelOf(enumeration[k]).Some? then NatOf(samples[k]) else 0
  }

  /** Samples of the axes before axis k in one snapshot. */
  function SamplesBefore(enumeration: seq<int>, samples: seq<int>, k: nat): nat
    requires Tables(enumeration, samples) && k <= |enumeration|
  {
    if k == 0 then 0 else SamplesBefore(enumeration, samples, k - 1) + Samples(enumeration, samples, k - 1)
  }

  /** Samples in one snapshot: the sum of SamplesPerAxis over recognised codes. */
  function RowSamples(enumeration: seq<int>, samples: seq<int>): nat
    requires Tables(enumeration, samples)
  {
    SamplesBefore(enumeration, samples, |enumeration|)
  }

  /** Arrays allocated for channel ch by the axes before axis k. */
  function ChannelCount(enumeration: seq<int>, samples: seq<int>, ch: Channel, k: nat): nat
    requires Tables(enumeration, samples) && k <= |enumeration|
  {
    if k == 0 then 0
    else
      var own := if ChannelOf(enumeration[k - 1]) == Some(ch) then Samples(enumeration, samples, k - 1) else 0;
      ChannelCount(enumeration, samples, ch, k - 1) + own
  }

  /** The last axis before k that writes array i of channel ch (GetAxisData indexes from 0). */
  function LastWriter(enumeration: seq<int>, samples: seq<int>, ch: Channel, i: nat, k: nat): (w: Option<nat>)
    requires Tables(enumeration, samples) && k <= |enumeration|
    ensures w.Some? ==> w.value < k && ChannelOf(enumeration[w.value]) == Some(ch)
                        && i < Samples(enumeration, samples, w.value)
  {
    if k == 0 then None
    else if ChannelOf(enumeration[k - 1]) == Some(ch) && i < Samples(enumeration, samples, k - 1) then Some(k - 1)
    else LastWriter(enumeration, samples, ch, i, k - 1)
  }

  /** Four bytes at off, or 0f outside the data (never used there: see SnapshotBlock). */
  function WordAt(data: seq<byte>, off: int): Float32
  {
    if 0 <= off && off + 4 <= |data| then data[off..off + 4] else ZeroFloat
  }

  /**
   * Offset of sample i of axis k in snapshot t, for a block starting at p0:
   * snapshot-major, then axis order, then sample; 8 bytes (Expected, Actual) each.
   */
  function SampleOffset(p0: int, enumeration: seq<int>, samples: seq<int>, t: nat, k: nat, i: nat): int
    requires Tables(enumeration, samples) && k <= |enumeration|
  {
    p0 + 8 * (t * RowSamples(enumeration, samples) + SamplesBefore(enumeration, samples, k) + i)
  }

  /** The value held at [i][t] when w is the axis that last wrote it (none: still 0f). */
  function Sample(data: seq<byte>, p0: int, enumeration: seq<int>, samples: seq<int>,
                  w: Option<nat>, i: nat, t: nat, actual: bool): Float32
    requires Tables(enumeration, samples)
    requires w.Some? ==> w.value < |enumeration|
  {
    match w
    case None => ZeroFloat
    case Some(k) => WordAt(data, SampleOffset(p0, enumeration, samples, t, k, i) + (if actual then 4 else 0))
  }

  /** One channel's lists after the whole block is read. */
  function FilledLists(data: seq<byte>, p0: int, enumeration: seq<int>, samples: seq<int>,
                       snapshots: nat, ch: Channel, actual: bool): (l: Lists)
    requires Tables(enumeration, samples)
  {
    var n := |enumeration|;
    seq(ChannelCount(enumeration, samples, ch, n), (i: int) requires 0 <= i =>
      FilledArray(data, p0, enumeration, samples, snapshots, LastWriter(enumeration, samples, ch, i, n), i, actual))
  }

  /** Array i of a channel after the whole block is read; w last wrote it. */
  function FilledArray(data: seq<byte>, p0: int, enumeration: seq<int>, samples: seq<int>,
                       snapshots: nat, w: Option<nat>, i: nat, actual: bool): (a: seq<Float32>)
    requires Tables(enumeration, samples)
    requires w.Some? ==> w.value < |enumeration|
  {
    seq(snapshots, (t: int) requires 0 <= t => Sample(data, p0, enumeration, samples, w, i, t, actual))
  }

  /** The Expected (actual = false) or Actual lists after the whole block is read. */
  function FilledStore(data: seq<byte>, p0: int, enumeration: seq<int>, samples: seq<int>,
                       snapshots: nat, actual: bool): (st: Store)
    requires Tables(enumeration, samples)
    ensures Total(st)
  {
    var st := map ch | ch in AllChannels :: FilledLists(data, p0, enumeration, samples, snapshots, ch, actual);
    assert forall ch: Channel :: ch in st by {
      forall ch: Channel ensures ch in st { AllChannelsComplete(ch); }
    }
    st
  }

  /** Bytes the block occupies: 8 per sample per snapshot. */
  function BlockBytes(enumeration: seq<int>, samples: seq<int>, snapshots: int): nat
    requires Tables(enumeration, samples)
  {
    8 * (NatOf(snapshots) * RowSamples(enumeration, samples))
  }

  /**
   * CollectAxisData on a fresh store, with the block starting at p0: an unset
   * enumeration is dereferenced, a negative snapshot count fails at the first
   * allocation, and a block running past the data fails on the short read.
   */
  function SnapshotBlock(data: seq<byte>, p0: nat, enumeration: Option<seq<int>>, samples: Option<seq<int>>,
                         snapshots: int): Result<(Store, Store), DecodeError>
    requires enumeration.Some? ==> samples.Some? && Tables(enumeration.value, samples.value)
  {
    if enumeration.None? then Failure(NullAxisEnumeration)
    else
      var e, s := enumeration.value, samples.value;
      if snapshots < 0 && RowSamples(e, s) > 0 then Failure(NegativeArraySize)
      else if p0 + BlockBytes(e, s, snapshots) > |data| && BlockBytes(e, s, snapshots) > 0 then Failure(ShortRead)
      else Success((FilledStore(data, p0, e, s, NatOf(snapshots), false),
                    FilledStore(data, p0, e, s, NatOf(snapshots), true)))
  }

  // ---------------------------------------------------------------------------
  // Properties of the block.

  lemma {:induction false} SamplesBeforeMonotone(enumeration: seq<int>, samples: seq<int>, j: nat, k: nat)
    requires Tables(enumeration, samples) && j <= k <= |enumeration|
    ensures SamplesBefore(enumeration, samples, j) <= SamplesBefore(enumeration, samples, k)
  {
    if j < k {
      SamplesBeforeMonotone(enumeration, samples, j, k - 1);
    }
  }

  lemma {:induction false} ChannelCountMonotone(enumeration: seq<int>, samples: seq<int>, ch: Channel, j: nat, k: nat)
    requires Tables(enumeration, samples) && j <= k <= |enumeration|
    ensures ChannelCount(enumeration, samples, ch, j) <= ChannelCount(enumeration, samples, ch, k)
  {
    if j < k {
      ChannelCountMonotone(enumeration, samples, ch, j, k - 1);
    }
  }

  /** Axis k's samples all have arrays: its channel holds at least Samples(k) of them. */
  lemma OwnArraysExist(enumeration: seq<int>, samples: seq<int>, k: nat)
    requires Tables(enumeration, samples) && k < |enumeration|
    requires ChannelOf(enumeration[k]).Some?
    ensures Samples(enumeration, samples, k)
            <= ChannelCount(enumeration, samples, ChannelOf(enumeration[k]).value, |enumeration|)
  {
    ChannelCountMonotone(enumeration, samples, ChannelOf(enumeration[k]).value, k + 1, |enumeration|);
  }

  /** No axis before k names channel ch: nothing has been allocated or written for it. */
  predicate AbsentBefore(enumeration: seq<int>, ch: Channel, k: nat)
    requires k <= |enumeration|
  {
    forall j :: 0 <= j < k ==> ChannelOf(enumeration[j]) != Some(ch)
  }

  lemma {:induction false} AbsentChannel(enumeration: seq<int>, samples: seq<int>, ch: Channel, i: nat, k: nat)
    requires Tables(enumeration, samples) && k <= |enumeration|
    requires AbsentBefore(enumeration, ch, k)
    ensures ChannelCount(enumeration, samples, ch, k) == 0
    ensures LastWriter(enumeration, samples, ch, i, k) == None
  {
    if k > 0 {
      AbsentChannel(enumeration, samples, ch, i, k - 1);
    }
  }

  /**
   * A channel named by exactly one axis k gets exactly SamplesPerAxis[k] arrays
   * (none when the count is not positive), and array i holds, at snapshot t,
   * the Expected and Actual words of sample i of axis k in snapshot t.
   */
  lemma {:induction false} SingleOccurrence(enumeration: seq<int>, samples: seq<int>, k: nat, m: nat, i: nat)
    requires Tables(enumeration, samples) && k < m <= |enumeration|
    requires ChannelOf(enumeration[k]).Some?
    requires forall j :: 0 <= j < m && j != k ==> enumeration[j] != enumeration[k]
    ensures ChannelCount(enumeration, samples, ChannelOf(enumeration[k]).value, m) == NatOf(samples[k])
    ensures i < NatOf(samples[k]) ==> LastWriter(enumeration, samples, ChannelOf(enumeration[k]).value, i, m) == Some(k)
  {
    var ch := ChannelOf(enumeration[k]).value;
    AxisCatalog(enumeration[k]);
    if m == k + 1 {
      assert AbsentBefore(enumeration, ch, k) by {
        forall j | 0 <= j < k ensures ChannelOf(enumeration[j]) != Some(ch) {
          AxisCatalog(enumeration[j]);
        }
      }
      AbsentChannel(enumeration, samples, ch, i, k);
    } else {
      SingleOccurrence(enumeration, samples, k, m - 1, i);
      AxisCatalog(enumeration[m - 1]);
    }
  }

  /**
   * The bytes land in the right slot: for an axis code that occurs once, the
   * decoded Expected and Actual words of sample i at snapshot t are the two
   * 4-byte words at the sample's offset in the block.
   */
  lemma SlotOfSample(data: seq<byte>, p0: nat, enumeration: seq<int>, samples: seq<int>, snapshots: int,
                     k: nat, i: nat, t: nat)
    requires Tables(enumeration, samples) && k < |enumeration|
    requires SnapshotBlock(data, p0, Some(enumeration), Some(samples), snapshots).Success?
    requires ChannelOf(enumeration[k]).Some?
    requires forall j :: 0 <= j < |enumeration| && j != k ==> enumeration[j] != enumeration[k]
    requires i < NatOf(samples[k]) && t < NatOf(snapshots)
    ensures var (exp, act) := SnapshotBlock(data, p0, Some(enumeration), Some(samples), snapshots).value;
      var ch := ChannelOf(enumeration[k]).value;
      var off := SampleOffset(p0, enumeration, samples, t, k, i);
      && |exp[ch]| == NatOf(samples[k]) && |act[ch]| == NatOf(samples[k])
      && |exp[ch][i]| == NatOf(snapshots) && |act[ch][i]| == NatOf(snapshots)
      && off + 8 <= |data|
      && exp[ch][i][t] == data[off..off + 4]
      && act[ch][i][t] == data[off + 4..off + 8]
  {
    var n := |enumeration|;
    SingleOccurrence(enumeration, samples, k, n, i);
    SampleInsideBlock(enumeration, samples, snapshots, k, i, t);
  }

  /** Every sample's 8 bytes lie inside the block. */
  lemma SampleInsideBlock(enumeration: seq<int>, samples: seq<int>, snapshots: int, k: nat, i: nat, t: nat)
    requires Tables(enumeration, samples) && k < |enumeration|
    requires i < Samples(enumeration, samples, k) && t < NatOf(snapshots)
    ensures 0 <= SampleOffset(0, enumeration, samples, t, k, i)
    ensures SampleOffset(0, enumeration, samples, t, k, i) + 8 <= BlockBytes(enumeration, samples, snapshots)
  {
    var row := RowSamples(enumeration, samples);
    var before := SamplesBefore(enumeration, samples, k);
    SamplesBeforeMonotone(enumeration, samples, k + 1, |enumeration|);
    assert before + i + 1 <= row;
    RowBound(t, NatOf(snapshots), row);
    var first := t * row;
    var total := NatOf(snapshots) * row;
    assert first + before + i + 1 <= total;
    assert SampleOffset(0, enumeration, samples, t, k, i) == 8 * (first + before + i);
    assert BlockBytes(enumeration, samples, snapshots) == 8 * total;
  }

  lemma RowBound(t: nat, snapshots: nat, row: nat)
    requires t < snapshots
    ensures t * row + row <= snapshots * row
  {
    assert t * row + row == (t + 1) * row;
    assert (t + 1) * row <= snapshots * row by {
      if row > 0 {
        assert t + 1 <= snapshots;
      }
    }
  }

  /**
   * The tables with the entries of unknown codes dropped, the two kept
   * aligned and in order: the entries of axes 0 .. k-1 the switch recognises.
   */
  function Known(enumeration: seq<int>, samples: seq<int>, k: nat): (r: (seq<int>, seq<int>))
    requires Tables(enumeration, samples) && k <= |enumeration|
    ensures Tables(r.0, r.1) && |r.0| <= k
    ensures forall j :: 0 <= j < |r.0| ==> ChannelOf(r.0[j]).Some?
  {
    if k == 0 then ([], [])
    else
      var r := Known(enumeration, samples, k - 1);
      if ChannelOf(enumeration[k - 1]).Some? then (r.0 + [enumeration[k - 1]], r.1 + [samples[k - 1]]) else r
  }

  /** SamplesBefore(k) depends on the first k entries only. */
  lemma {:induction false} SamplesBeforeSamePrefix(e: seq<int>, s: seq<int>, e': seq<int>, s': seq<int>, k: nat)
    requires Tables(e, s) && Tables(e', s') && k <= |e| && k <= |e'|
    requires e[..k] == e'[..k] && s[..k] == s'[..k]
    ensures SamplesBefore(e, s, k) == SamplesBefore(e', s', k)
  {
    if k > 0 {
      assert e[..k - 1] == e[..k][..k - 1] && e'[..k - 1] == e'[..k][..k - 1];
      assert s[..k - 1] == s[..k][..k - 1] && s'[..k - 1] == s'[..k][..k - 1];
      SamplesBeforeSamePrefix(e, s, e', s', k - 1);
      assert e[k - 1] == e[..k][k - 1] && s[k - 1] == s[..k][k - 1];
    }
  }

  /** The known entries of the first k axes begin the known entries of the first m. */
  lemma {:induction false} KnownGrows(enumeration: seq<int>, samples: seq<int>, k: nat, m: nat)
    requires Tables(enumeration, samples) && k <= m <= |enumeration|
    ensures var r, q := Known(enumeration, samples, k), Known(enumeration, samples, m);
      |r.0| <= |q.0| && r.0 == q.0[..|r.0|] && r.1 == q.1[..|r.0|]
  {
    if k < m {
      KnownGrows(enumeration, samples, k, m - 1);
      var q := Known(enumeration, samples, m - 1);
      var r := Known(enumeration, samples, k);
      if ChannelOf(enumeration[m - 1]).Some? {
        assert (q.0 + [enumeration[m - 1]])[..|q.0|] == q.0;
        assert (q.1 + [samples[m - 1]])[..|q.0|] == q.1;
      }
    }
  }

  /** The known entries of the first k axes take as many samples as those k axes. */
  lemma {:induction false} KnownSamples(enumeration: seq<int>, samples: seq<int>, k: nat)
    requires Tables(enumeration, samples) && k <= |enumeration|
    ensures var r := Known(enumeration, samples, k);
      SamplesBefore(r.0, r.1, |r.0|) == SamplesBefore(enumeration, samples, k)
  {
    if k > 0 {
      KnownSamples(enumeration, samples, k - 1);
      var r := Known(enumeration, samples, k - 1);
      if ChannelOf(enumeration[k - 1]).Some? {
        var q := Known(enumeration, samples, k);
        assert q.0[..|r.0|] == r.0 && q.1[..|r.0|] == r.1;
        SamplesBeforeSamePrefix(q.0, q.1, r.0, r.1, |r.0|);
        assert r.0[..|r.0|] == r.0 && r.1[..|r.0|] == r.1;
      }
    }
  }

  /**
   * Unknown codes consume no bytes: with their entries dropped from both
   * tables, every entry left is recognised and a snapshot, hence the block,
   * has the same length.
   */
  lemma UnknownCodesFree(enumeration: seq<int>, samples: seq<int>, snapshots: int)
    requires Tables(enumeration, samples)
    ensures var r := Known(enumeration, samples, |enumeration|);
      && Tables(r.0, r.1)
      && (forall j :: 0 <= j < |r.0| ==> ChannelOf(r.0[j]).Some?)
      && RowSamples(r.0, r.1) == RowSamples(enumeration, samples)
      && BlockBytes(r.0, r.1, snapshots) == BlockBytes(enumeration, samples, snapshots)
  {
    KnownSamples(enumeration, samples, |enumeration|);
  }

  /**
   * A recognised axis k keeps its place once the unknown entries are dropped:
   * it is the entry at the number of known axes before it, and each of its
   * samples is read from the same offset.
   */
  lemma KnownOffsets(enumeration: seq<int>, samples: seq<int>, k: nat, p0: int, t: nat, i: nat)
    requires Tables(enumeration, samples) && k < |enumeration|
    requires ChannelOf(enumeration[k]).Some?
    ensures var r, pos := Known(enumeration, samples, |enumeration|), |Known(enumeration, samples, k).0|;
      && pos < |r.0| && r.0[pos] == enumeration[k] && r.1[pos] == samples[k]
      && SampleOffset(p0, r.0, r.1, t, pos, i) == SampleOffset(p0, enumeration, samples, t, k, i)
  {
    var r := Known(enumeration, samples, |enumeration|);
    var before := Known(enumeration, samples, k);
    var pos := |before.0|;
    var upTo := Known(enumeration, samples, k + 1);
    assert upTo == (before.0 + [enumeration[k]], before.1 + [samples[k]]);
    KnownGrows(enumeration, samples, k + 1, |enumeration|);
    assert r.0[pos] == upTo.0[pos] && r.1[pos] == upTo.1[pos];
    assert r.0[..pos] == before.0 && r.1[..pos] == before.1 by {
      assert r.0[..pos] == upTo.0[..pos] && r.1[..pos] == upTo.1[..pos];
    }
    assert before.0[..pos] == before.0 && before.1[..pos] == before.1;
    SamplesBeforeSamePrefix(r.0, r.1, before.0, before.1, pos);
    KnownSamples(enumeration, samples, k);
    UnknownCodesFree(enumeration, samples, 0);
  }
}

module AxisData {
  import opened Wrappers
  import opened Bytes
  import opened Reader
  import opened AxisStore

  /** The per-axis sample store: for each channel its Expected and its Actual lists. */
  class AxisData {
    var expected: Store
    var actual: Store

    ghost predicate Valid()
      reads this
    {
      Total(expected) && Total(actual)
    }

    /** Every list starts empty. */
    constructor ()
      ensures Valid() && expected == EmptyStore() && actual == EmptyStore()
    {
      expected := EmptyStore();
      actual := EmptyStore();
    }
  }

  /** n freshly allocated float[m] arrays. */
  function Allocated(n: nat, m: nat): (l: Lists)
    ensures |l| == n && forall i :: 0 <= i < n ==> l[i] == Zeros(m)
  {
    seq(n, _ => Zeros(m))
  }

  /** Every channel holds its final number of arrays, each of the final length. */
  ghost predicate Shaped(st: Store, enumeration: seq<int>, samples: seq<int>, snapshots: nat)
    requires Tables(enumeration, samples)
  {
    && Total(st)
    && (forall ch :: |st[ch]| == ChannelCount(enumeration, samples, ch, |enumeration|))
    && (forall ch, i :: 0 <= i < |st[ch]| ==> |st[ch][i]| == snapshots)
  }

  /** The value at [i][u] once snapshots before t, and axes before k of snapshot t, are read. */
  function Partial(data: seq<byte>, p0: int, enumeration: seq<int>, samples: seq<int>,
                   ch: Channel, i: nat, u: nat, t: nat, k: nat, actual: bool): Float32
    requires Tables(enumeration, samples) && k <= |enumeration|
  {
    if u < t then Sample(data, p0, enumeration, samples, LastWriter(enumeration, samples, ch, i, |enumeration|), i, u, actual)
    else if u == t then Sample(data, p0, enumeration, samples, LastWriter(enumeration, samples, ch, i, k), i, u, actual)
    else ZeroFloat
  }

  ghost predicate Filled(st: Store, data: seq<byte>, p0: int, enumeration: seq<int>, samples: seq<int>,
                         t: nat, k: nat, actual: bool)
    requires Tables(enumeration, samples) && k <= |enumeration| && Total(st)
  {
    forall ch, i, u :: 0 <= i < |st[ch]| && 0 <= u < |st[ch][i]| ==>
      st[ch][i][u] == Partial(data, p0, enumeration, samples, ch, i, u, t, k, actual)
  }

  /** The n words of one axis in one snapshot: Expected at +0, Actual at +4 of each 8-byte sample. */
  function Column(data: seq<byte>, p0: int, n: nat, actual: bool): (w: seq<Float32>)
    ensures |w| == n
    ensures forall i :: 0 <= i < n ==> w[i] == WordAt(data, p0 + 8 * i + (if actual then 4 else 0))
  {
    seq(n, i => WordAt(data, p0 + 8 * i + (if actual then 4 else 0)))
  }

  /** One more sample extends the column by the word at its offset. */
  lemma ColumnStep(data: seq<byte>, p0: int, n: nat, actual: bool, w: Float32)
    requires w == WordAt(data, p0 + 8 * n + (if actual then 4 else 0))
    ensures Column(data, p0, n + 1, actual) == Column(data, p0, n, actual) + [w]
  {
    var longer, shorter := Column(data, p0, n + 1, actual), Column(data, p0, n, actual);
    forall i | 0 <= i < n + 1
      ensures longer[i] == (shorter + [w])[i]
    {
    }
  }

  /** Lists with words[i] stored at [i][t] for every i < |words| (whose array is long enough). */
  function WriteColumn(lists: Lists, t: nat, words: seq<Float32>): (r: Lists)
    ensures |r| == |lists|
    ensures forall i :: 0 <= i < |lists| ==> |r[i]| == |lists[i]|
    ensures forall i, u :: 0 <= i < |lists| && 0 <= u < |lists[i]| ==>
      r[i][u] == if i < |words| && u == t then words[i] else lists[i][u]
  {
    seq(|lists|, i requires 0 <= i < |lists| =>
      if i < |words| && t < |lists[i]| then lists[i][t := words[i]] else lists[i])
  }

  /** Storing one more word extends the column by one. */
  lemma WriteColumnStep(lists: Lists, t: nat, words: seq<Float32>, w: Float32)
    requires |words| < |lists| && t < |lists[|words|]|
    ensures var before := WriteColumn(lists, t, words);
      var row: seq<Float32> := before[|words|][t := w];
      WriteColumn(lists, t, words + [w]) == before[|words| := row]
  {
    var before := WriteColumn(lists, t, words);
    var after := WriteColumn(lists, t, words + [w]);
    var n := |words|;
    var row: seq<Float32> := before[n][t := w];
    var updated: Lists := before[n := row];
    forall i | 0 <= i < |lists|
      ensures after[i] == updated[i]
    {
      if i == n {
        assert after[i] == row;
      } else {
        assert after[i] == before[i];
      }
    }
  }

  /**
   * GetAxisData: for each of the axis's samples, the Expected then the Actual
   * word of this snapshot, stored at [sample][snapshot] of the channel's lists.
   */
  method GetAxisData(snapshot: nat, sampleCount: int, ch: Channel, axisData: AxisData, reader: LogReader)
    returns (r: Result<(), DecodeError>)
    requires axisData.Valid() && reader.Valid()
    requires NatOf(sampleCount) <= |axisData.expected[ch]| && NatOf(sampleCount) <= |axisData.actual[ch]|
    requires forall i :: 0 <= i < NatOf(sampleCount) ==>
      snapshot < |axisData.expected[ch][i]| && snapshot < |axisData.actual[ch][i]|
    modifies axisData, reader
    ensures axisData.Valid() && reader.Valid()
    ensures r.Success? <==> old(reader.pos) + 8 * NatOf(sampleCount) <= |reader.data|
    ensures r.Failure? ==> r.error == ShortRead
    ensures r.Success? ==> reader.pos == old(reader.pos) + 8 * NatOf(sampleCount)
    ensures r.Success? ==> axisData.expected == old(axisData.expected)[ch :=
      WriteColumn(old(axisData.expected[ch]), snapshot, Column(reader.data, old(reader.pos), NatOf(sampleCount), false))]
    ensures r.Success? ==> axisData.actual == old(axisData.actual)[ch :=
      WriteColumn(old(axisData.actual[ch]), snapshot, Column(reader.data, old(reader.pos), NatOf(sampleCount), true))]
  {
    ghost var p0 := reader.pos;
    ghost var exp0, act0 := axisData.expected, axisData.actual;
    assert WriteColumn(exp0[ch], snapshot, Column(reader.data, p0, 0, false)) == exp0[ch];
    assert WriteColumn(act0[ch], snapshot, Column(reader.data, p0, 0, true)) == act0[ch];
    var sample := 0;
    while sample < sampleCount
      invariant 0 <= sample <= NatOf(sampleCount)
      invariant axisData.Valid() && reader.Valid()
      invariant reader.pos == p0 + 8 * sample
      invariant axisData.expected == exp0[ch := WriteColumn(exp0[ch], snapshot, Column(reader.data, p0, sample, false))]
      invariant axisData.actual == act0[ch := WriteColumn(act0[ch], snapshot, Column(reader.data, p0, sample, true))]
    {
      StoreStep(exp0[ch], snapshot, reader.data, p0, sample, false);
      StoreStep(act0[ch], snapshot, reader.data, p0, sample, true);
      ghost var w0, w1 := axisData.expected[ch], axisData.actual[ch];
      r := ReadSample(snapshot, sample, ch, axisData, reader);
      if r.Failure? {
        return;
      }
      UpdateTwice(exp0, ch, w0, axisData.expected[ch]);
      UpdateTwice(act0, ch, w1, axisData.actual[ch]);
      sample := sample + 1;
    }
    r := Success(());
  }

  /** Reading sample n of the column writes its word at [n][t] of the lists. */
  lemma StoreStep(lists: Lists, t: nat, data: seq<byte>, p0: int, n: nat, actual: bool)
    requires n < |lists| && t < |lists[n]|
    ensures var before := WriteColumn(lists, t, Column(data, p0, n, actual));
      && |before| == |lists| && |before[n]| == |lists[n]|
      && var row: seq<Float32> := before[n][t := WordAt(data, p0 + 8 * n + (if actual then 4 else 0))];
         before[n := row] == WriteColumn(lists, t, Column(data, p0, n + 1, actual))
  {
    var w := WordAt(data, p0 + 8 * n + (if actual then 4 else 0));
    WriteColumnStep(lists, t, Column(data, p0, n, actual), w);
    ColumnStep(data, p0, n, actual, w);
  }

  lemma UpdateTwice(st: Store, ch: Channel, a: Lists, b: Lists)
    ensures st[ch := a][ch := b] == st[ch := b]
  {
  }

  /** One sample of GetAxisData: the Expected then the Actual word, stored at [sample][snapshot]. */
  method ReadSample(snapshot: nat, sample: nat, ch: Channel, axisData: AxisData, reader: LogReader)
    returns (r: Result<(), DecodeError>)
    requires axisData.Valid() && reader.Valid()
    requires sample < |axisData.expected[ch]| && snapshot < |axisData.expected[ch][sample]|
    requires sample < |axisData.actual[ch]| && snapshot < |axisData.actual[ch][sample]|
    modifies axisData, reader
    ensures axisData.Valid() && reader.Valid()
    ensures r.Success? <==> old(reader.pos) + 8 <= |reader.data|
    ensures r.Failure? ==> r.error == ShortRead
    ensures r.Success? ==> reader.pos == old(reader.pos) + 8
    ensures r.Success? ==> axisData.expected == old(axisData.expected)[ch := old(axisData.expected[ch])[sample :=
      old(axisData.expected[ch][sample])[snapshot := WordAt(reader.data, old(reader.pos))]]]
    ensures r.Success? ==> axisData.actual == old(axisData.actual)[ch := old(axisData.actual[ch])[sample :=
      old(axisData.actual[ch][sample])[snapshot := WordAt(reader.data, old(reader.pos) + 4)]]]
  {
    var e :- reader.ReadSingle();
    var a :- reader.ReadSingle();
    var exp := axisData.expected[ch];
    axisData.expected := axisData.expected[ch := exp[sample := exp[sample][snapshot := e]]];
    var act := axisData.actual[ch];
    axisData.actual := axisData.actual[ch := act[sample := act[sample][snapshot := a]]];
    r := Success(());
  }

  /** After axis k of snapshot t: only the arrays axis k wrote change, to the words it read. */
  lemma FilledAfterAxis(st: Store, st': Store, data: seq<byte>, p0: int, enumeration: seq<int>, samples: seq<int>,
                        snapshots: nat, t: nat, k: nat, actual: bool)
    requires Tables(enumeration, samples) && k < |enumeration| && t < snapshots
    requires Shaped(st, enumeration, samples, snapshots)
    requires Filled(st, data, p0, enumeration, samples, t, k, actual)
    requires ChannelOf(enumeration[k]).None? ==> st' == st
    requires ChannelOf(enumeration[k]).Some? ==>
      var ch := ChannelOf(enumeration[k]).value;
      var pos := SampleOffset(p0, enumeration, samples, t, k, 0);
      st' == st[ch := WriteColumn(st[ch], t, Column(data, pos, Samples(enumeration, samples, k), actual))]
    ensures Shaped(st', enumeration, samples, snapshots)
    ensures Filled(st', data, p0, enumeration, samples, t, k + 1, actual)
  {
    forall ch, i, u | 0 <= i < |st'[ch]| && 0 <= u < |st'[ch][i]|
      ensures st'[ch][i][u] == Partial(data, p0, enumeration, samples, ch, i, u, t, k + 1, actual)
    {
      if ChannelOf(enumeration[k]) == Some(ch) && i < Samples(enumeration, samples, k) && u == t {
        assert LastWriter(enumeration, samples, ch, i, k + 1) == Some(k);
        assert SampleOffset(p0, enumeration, samples, t, k, i) == SampleOffset(p0, enumeration, samples, t, k, 0) + 8 * i;
      } else {
        assert st'[ch][i][u] == st[ch][i][u];
        assert u == t ==> LastWriter(enumeration, samples, ch, i, k + 1) == LastWriter(enumeration, samples, ch, i, k);
      }
    }
  }

  /** Finishing snapshot t is starting snapshot t + 1. */
  lemma NextSnapshot(st: Store, data: seq<byte>, p0: int, enumeration: seq<int>, samples: seq<int>,
                     t: nat, actual: bool)
    requires Tables(enumeration, samples) && Total(st)
    requires Filled(st, data, p0, enumeration, samples, t, |enumeration|, actual)
    ensures Filled(st, data, p0, enumeration, samples, t + 1, 0, actual)
  {
  }

  /** Read to the end, the store is the block's value. */
  lemma FilledComplete(st: Store, data: seq<byte>, p0: int, enumeration: seq<int>, samples: seq<int>,
                       snapshots: nat, actual: bool)
    requires Tables(enumeration, samples)
    requires Shaped(st, enumeration, samples, snapshots)
    requires Filled(st, data, p0, enumeration, samples, snapshots, 0, actual)
    ensures st == FilledStore(data, p0, enumeration, samples, snapshots, actual)
  {
    var full := FilledStore(data, p0, enumeration, samples, snapshots, actual);
    forall ch: Channel
      ensures st[ch] == full[ch]
    {
      AllChannelsComplete(ch);
      var n := |enumeration|;
      forall i | 0 <= i < |st[ch]|
        ensures st[ch][i] == full[ch][i]
      {
        var w := LastWriter(enumeration, samples, ch, i, n);
        assert full[ch][i] == FilledArray(data, p0, enumeration, samples, snapshots, w, i, actual);
        forall u | 0 <= u < snapshots
          ensures st[ch][i][u] == full[ch][i][u]
        {
          assert st[ch][i][u] == Partial(data, p0, enumeration, samples, ch, i, u, snapshots, 0, actual);
        }
      }
    }
    assert st.Keys == full.Keys;
  }

  lemma AllocatedConcat(a: nat, b: nat, m: nat)
    ensures Allocated(a, m) + Allocated(b, m) == Allocated(a + b, m)
  {
  }

  /** One axis's allocation loop: count new float[snapshots] arrays for each list of the channel. */
  method AddArrays(ch: Channel, count: int, snapshots: int, axisData: AxisData) returns (r: Result<(), DecodeError>)
    requires axisData.Valid()
    modifies axisData
    ensures axisData.Valid()
    ensures r.Failure? <==> snapshots < 0 && count > 0
    ensures r.Failure? ==> r.error == NegativeArraySize
    ensures r.Success? ==> axisData.expected == old(axisData.expected)[ch :=
      old(axisData.expected[ch]) + Allocated(NatOf(count), NatOf(snapshots))]
    ensures r.Success? ==> axisData.actual == old(axisData.actual)[ch :=
      old(axisData.actual[ch]) + Allocated(NatOf(count), NatOf(snapshots))]
  {
    var m := NatOf(snapshots);
    ghost var exp0, act0 := axisData.expected, axisData.actual;
    assert exp0[ch] + Allocated(0, m) == exp0[ch] && exp0[ch := exp0[ch]] == exp0;
    assert act0[ch] + Allocated(0, m) == act0[ch] && act0[ch := act0[ch]] == act0;
    var sample := 0;
    while sample < count
      invariant 0 <= sample <= NatOf(count)
      invariant snapshots < 0 ==> sample == 0
      invariant axisData.Valid()
      invariant axisData.expected == exp0[ch := exp0[ch] + Allocated(sample, m)]
      invariant axisData.actual == act0[ch := act0[ch] + Allocated(sample, m)]
    {
      if snapshots < 0 {
        return Failure(NegativeArraySize);
      }
      AllocatedConcat(sample, 1, m);
      assert Allocated(1, m) == [Zeros(m)];
      assert exp0[ch] + Allocated(sample, m) + [Zeros(m)] == exp0[ch] + Allocated(sample + 1, m);
      assert act0[ch] + Allocated(sample, m) + [Zeros(m)] == act0[ch] + Allocated(sample + 1, m);
      axisData.expected := axisData.expected[ch := axisData.expected[ch] + [Zeros(m)]];
      axisData.actual := axisData.actual[ch := axisData.actual[ch] + [Zeros(m)]];
      sample := sample + 1;
    }
    r := Success(());
  }

  /**
   * The set-up half of CollectAxisData: every recognised axis adds one array per
   * sample to its channel; a negative snapshot count fails at the first array.
   */
  method SetUpLists(enumeration: seq<int>, samples: seq<int>, snapshots: int, axisData: AxisData)
    returns (r: Result<(), DecodeError>)
    requires Tables(enumeration, samples)
    requires axisData.Valid() && axisData.expected == EmptyStore() && axisData.actual == EmptyStore()
    modifies axisData
    ensures axisData.Valid()
    ensures r.Failure? <==> snapshots < 0 && RowSamples(enumeration, samples) > 0
    ensures r.Failure? ==> r.error == NegativeArraySize
    ensures r.Success? ==> forall ch ::
      axisData.expected[ch] == Allocated(ChannelCount(enumeration, samples, ch, |enumeration|), NatOf(snapshots))
    ensures r.Success? ==> forall ch ::
      axisData.actual[ch] == Allocated(ChannelCount(enumeration, samples, ch, |enumeration|), NatOf(snapshots))
  {
    var m := NatOf(snapshots);
    var k := 0;
    while k < |enumeration|
      invariant 0 <= k <= |enumeration|
      invariant axisData.Valid()
      invariant snapshots < 0 ==> SamplesBefore(enumeration, samples, k) == 0
      invariant forall ch :: axisData.expected[ch] == Allocated(ChannelCount(enumeration, samples, ch, k), m)
      invariant forall ch :: axisData.actual[ch] == Allocated(ChannelCount(enumeration, samples, ch, k), m)
    {
      var c := ChannelOf(enumeration[k]);
      if c.Some? {
        var res := AddArrays(c.value, samples[k], snapshots, axisData);
        if res.Failure? {
          SamplesBeforeMonotone(enumeration, samples, k + 1, |enumeration|);
          return res;
        }
        AllocatedConcat(ChannelCount(enumeration, samples, c.value, k), NatOf(samples[k]), m);
      }
      k := k + 1;
    }
    r := Success(());
  }

  /** Axis k of snapshot t: GetAxisData for a recognised code, nothing for an unknown one. */
  method ReadAxis(t: nat, k: nat, enumeration: seq<int>, samples: seq<int>, snapshots: nat, ghost p0: int,
                  axisData: AxisData, reader: LogReader)
    returns (r: Result<(), DecodeError>)
    requires Tables(enumeration, samples) && t < snapshots && k < |enumeration|
    requires axisData.Valid() && reader.Valid()
    requires reader.pos == p0 + 8 * (t * RowSamples(enumeration, samples) + SamplesBefore(enumeration, samples, k))
    requires Shaped(axisData.expected, enumeration, samples, snapshots)
    requires Shaped(axisData.actual, enumeration, samples, snapshots)
    requires Filled(axisData.expected, reader.data, p0, enumeration, samples, t, k, false)
    requires Filled(axisData.actual, reader.data, p0, enumeration, samples, t, k, true)
    modifies axisData, reader
    ensures axisData.Valid() && reader.Valid()
    ensures r.Failure? ==> r.error == ShortRead
    ensures r.Failure? ==> p0 + 8 * (t * RowSamples(enumeration, samples) + SamplesBefore(enumeration, samples, k + 1)) > |reader.data|
    ensures r.Success? ==> reader.pos == p0 + 8 * (t * RowSamples(enumeration, samples) + SamplesBefore(enumeration, samples, k + 1))
    ensures r.Success? ==> Shaped(axisData.expected, enumeration, samples, snapshots)
    ensures r.Success? ==> Shaped(axisData.actual, enumeration, samples, snapshots)
    ensures r.Success? ==> Filled(axisData.expected, reader.data, p0, enumeration, samples, t, k + 1, false)
    ensures r.Success? ==> Filled(axisData.actual, reader.data, p0, enumeration, samples, t, k + 1, true)
  {
    var c := ChannelOf(enumeration[k]);
    ghost var exp0, act0 := axisData.expected, axisData.actual;
    if c.Some? {
      OwnArraysExist(enumeration, samples, k);
      ghost var pos := reader.pos;
      assert pos == SampleOffset(p0, enumeration, samples, t, k, 0);
      assert NatOf(samples[k]) == Samples(enumeration, samples, k);
      r := GetAxisData(t, samples[k], c.value, axisData, reader);
      if r.Failure? {
        return;
      }
    }
    FilledAfterAxis(exp0, axisData.expected, reader.data, p0, enumeration, samples, snapshots, t, k, false);
    FilledAfterAxis(act0, axisData.actual, reader.data, p0, enumeration, samples, snapshots, t, k, true);
    r := Success(());
  }

  /**
   * One pass of the snapshot loop: every axis in order reads its samples of
   * snapshot t, starting t rows into the block at p0.
   */
  method ReadSnapshot(t: nat, enumeration: seq<int>, samples: seq<int>, snapshots: nat, ghost p0: int,
                      axisData: AxisData, reader: LogReader)
    returns (r: Result<(), DecodeError>)
    requires Tables(enumeration, samples) && t < snapshots
    requires axisData.Valid() && reader.Valid()
    requires reader.pos == p0 + 8 * (t * RowSamples(enumeration, samples))
    requires Shaped(axisData.expected, enumeration, samples, snapshots)
    requires Shaped(axisData.actual, enumeration, samples, snapshots)
    requires Filled(axisData.expected, reader.data, p0, enumeration, samples, t, 0, false)
    requires Filled(axisData.actual, reader.data, p0, enumeration, samples, t, 0, true)
    modifies axisData, reader
    ensures axisData.Valid() && reader.Valid()
    ensures r.Failure? ==> r.error == ShortRead
    ensures r.Failure? ==> p0 + 8 * (t * RowSamples(enumeration, samples) + RowSamples(enumeration, samples)) > |reader.data|
    ensures r.Success? ==> reader.pos == p0 + 8 * (t * RowSamples(enumeration, samples) + RowSamples(enumeration, samples))
    ensures r.Success? ==> Shaped(axisData.expected, enumeration, samples, snapshots)
    ensures r.Success? ==> Shaped(axisData.actual, enumeration, samples, snapshots)
    ensures r.Success? ==> Filled(axisData.expected, reader.data, p0, enumeration, samples, t + 1, 0, false)
    ensures r.Success? ==> Filled(axisData.actual, reader.data, p0, enumeration, samples, t + 1, 0, true)
  {
    ghost var row := RowSamples(enumeration, samples);
    var k := 0;
    while k < |enumeration|
      invariant 0 <= k <= |enumeration|
      invariant axisData.Valid() && reader.Valid()
      invariant reader.pos == p0 + 8 * (t * row + SamplesBefore(enumeration, samples, k))
      invariant Shaped(axisData.expected, enumeration, samples, snapshots)
      invariant Shaped(axisData.actual, enumeration, samples, snapshots)
      invariant Filled(axisData.expected, reader.data, p0, enumeration, samples, t, k, false)
      invariant Filled(axisData.actual, reader.data, p0, enumeration, samples, t, k, true)
    {
      r := ReadAxis(t, k, enumeration, samples, snapshots, p0, axisData, reader);
      if r.Failure? {
        SamplesBeforeMonotone(enumeration, samples, k + 1, |enumeration|);
        return;
      }
      k := k + 1;
    }
    NextSnapshot(axisData.expected, reader.data, p0, enumeration, samples, t, false);
    NextSnapshot(axisData.actual, reader.data, p0, enumeration, samples, t, true);
    r := Success(());
  }

  /**
   * The snapshot loop of CollectAxisData over freshly set-up lists: the block
   * is read in full, or the first short read fails because it runs past the data.
   */
  method ReadSnapshots(enumeration: seq<int>, samples: seq<int>, snapshots: nat, axisData: AxisData, reader: LogReader)
    returns (r: Result<(), DecodeError>)
    requires Tables(enumeration, samples)
    requires axisData.Valid() && reader.Valid()
    requires forall ch ::
      axisData.expected[ch] == Allocated(ChannelCount(enumeration, samples, ch, |enumeration|), snapshots)
    requires forall ch ::
      axisData.actual[ch] == Allocated(ChannelCount(enumeration, samples, ch, |enumeration|), snapshots)
    modifies axisData, reader
    ensures axisData.Valid() && reader.Valid()
    ensures r.Failure? ==> r.error == ShortRead
    ensures r.Failure? ==> old(reader.pos) + BlockBytes(enumeration, samples, snapshots) > |reader.data|
    ensures r.Success? ==> reader.pos == old(reader.pos) + BlockBytes(enumeration, samples, snapshots)
    ensures r.Success? ==> axisData.expected == FilledStore(reader.data, old(reader.pos), enumeration, samples, snapshots, false)
    ensures r.Success? ==> axisData.actual == FilledStore(reader.data, old(reader.pos), enumeration, samples, snapshots, true)
  {
    ghost var p0 := reader.pos;
    ghost var row := RowSamples(enumeration, samples);
    assert BlockBytes(enumeration, samples, snapshots) == 8 * (snapshots * row);
    var t := 0;
    while t < snapshots
      invariant 0 <= t <= snapshots
      invariant axisData.Valid() && reader.Valid()
      invariant reader.pos == p0 + 8 * (t * row)
      invariant Shaped(axisData.expected, enumeration, samples, snapshots)
      invariant Shaped(axisData.actual, enumeration, samples, snapshots)
      invariant Filled(axisData.expected, reader.data, p0, enumeration, samples, t, 0, false)
      invariant Filled(axisData.actual, reader.data, p0, enumeration, samples, t, 0, true)
    {
      r := ReadSnapshot(t, enumeration, samples, snapshots, p0, axisData, reader);
      if r.Failure? {
        RowBound(t, snapshots, row);
        return;
      }
      assert (t + 1) * row == t * row + row;
      t := t + 1;
    }
    FilledComplete(axisData.expected, reader.data, p0, enumeration, samples, snapshots, false);
    FilledComplete(axisData.actual, reader.data, p0, enumeration, samples, snapshots, true);
    r := Success(());
  }

  /**
   * CollectAxisData on a fresh store: first one float[snapshots] per sample of
   * each recognised axis, then snapshot by snapshot, axis by axis, the samples'
   * Expected and Actual words. The outcome is SnapshotBlock's, failure included.
   */
  method CollectAxisData(enumeration: Option<seq<int>>, samples: Option<seq<int>>, snapshots: int,
                         axisData: AxisData, reader: LogReader)
    returns (r: Result<(), DecodeError>)
    requires enumeration.Some? ==> samples.Some? && Tables(enumeration.value, samples.value)
    requires axisData.Valid() && axisData.expected == EmptyStore() && axisData.actual == EmptyStore()
    requires reader.Valid()
    modifies axisData, reader
    ensures reader.Valid()
    ensures var block := SnapshotBlock(reader.data, old(reader.pos), enumeration, samples, snapshots);
      && (r.Success? <==> block.Success?)
      && (r.Failure? ==> r.error == block.error)
      && (r.Success? ==> axisData.Valid() && (axisData.expected, axisData.actual) == block.value)
    ensures r.Success? ==>
      reader.pos == old(reader.pos) + BlockBytes(enumeration.value, samples.value, snapshots)
  {
    if enumeration.None? {
      return Failure(NullAxisEnumeration);
    }
    r := SetUpLists(enumeration.value, samples.value, snapshots, axisData);
    if r.Success? {
      r := ReadSnapshots(enumeration.value, samples.value, NatOf(snapshots), axisData, reader);
    }
  }
}
