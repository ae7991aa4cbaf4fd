/**
 * The deviation selection of CalculateRMS: Actual minus Expected sample by
 * sample, the peak difference (the earliest one of largest magnitude, as a
 * stable OrderByDescending(|d|).First() picks it) and the mean of squares.
 * Math.Sqrt enters as the parameter `root`, float samples through `value`.
 */
module Deviation {
  import opened Wrappers
  import opened Bytes
  import opened AxisStore

  datatype DeviationError =
    | EmptySequence     // First() or Average() of an empty sequence
    | MissingElement    // ElementAt or an array index past the end

  /** One compared sample: the signed Actual - Expected and where it is reported. */
  datatype Sample = Sample(diff: real, loc: real)

  /** The returned value and the two out parameters maxDiff and maxDiffLoc. */
  datatype Rms = Rms(rms: real, maxDiff: real, maxDiffLoc: real)

  function Abs(x: real): real
  {
    if x < 0.0 then -x else x
  }

  function Sum(xs: seq<real>): real
  {
    if xs == [] then 0.0 else Sum(xs[..|xs| - 1]) + xs[|xs| - 1]
  }

  /** Average() of a non-empty sequence. */
  function Mean(xs: seq<real>): real
    requires |xs| > 0
  {
    Sum(xs) / |xs| as real
  }

  /** Sum of (a[j] - e[j])^2 over the first n samples of one array pair. */
  function SquaredError(a: seq<Float32>, e: seq<Float32>, value: Float32 -> real, n: nat): real
    requires n <= |a| && n <= |e|
  {
    if n == 0 then 0.0
    else SquaredError(a, e, value, n - 1) + (value(a[n - 1]) - value(e[n - 1])) * (value(a[n - 1]) - value(e[n - 1]))
  }

  /** The mean squared difference of a pair of arrays. */
  function MeanSquare(a: seq<Float32>, e: seq<Float32>, value: Float32 -> real): real
    requires 0 < |a| <= |e|
  {
    SquaredError(a, e, value, |a|) / |a| as real
  }

  /**
   * The samples of one array pair in order: a[j] - e[j], reported at a[j]
   * itself (leaf == None) or at the MLC list index. expectedData[j] past its
   * end throws.
   */
  function Compare(a: seq<Float32>, e: seq<Float32>, value: Float32 -> real, leaf: Option<nat>)
    : Result<seq<Sample>, DeviationError>
  {
    if |e| < |a| then Failure(MissingElement)
    else Success(seq(|a|, j requires 0 <= j < |a| =>
                   Sample(value(a[j]) - value(e[j]), if leaf.Some? then leaf.value as real else value(a[j]))))
  }

  /** The index OrderByDescending(|diff|).First() selects: the earliest of largest magnitude. */
  function PeakIndex(samples: seq<Sample>): (k: nat)
    requires |samples| > 0
    ensures k < |samples|
    ensures forall j :: 0 <= j < |samples| ==> Abs(samples[j].diff) <= Abs(samples[k].diff)
    ensures forall j :: 0 <= j < k ==> Abs(samples[j].diff) < Abs(samples[k].diff)
  {
    if |samples| == 1 then 0
    else
      var k := PeakIndex(samples[..|samples| - 1]);
      assert forall j :: 0 <= j < |samples| - 1 ==> samples[..|samples| - 1][j] == samples[j];
      if Abs(samples[|samples| - 1].diff) > Abs(samples[k].diff) then |samples| - 1 else k
  }

  /** Largest and earliest determine the peak: no other index has both properties. */
  lemma PeakUnique(samples: seq<Sample>, k: nat)
    requires k < |samples|
    requires forall j :: 0 <= j < |samples| ==> Abs(samples[j].diff) <= Abs(samples[k].diff)
    requires forall j :: 0 <= j < k ==> Abs(samples[j].diff) < Abs(samples[k].diff)
    ensures k == PeakIndex(samples)
  {
  }

  /**
   * The MLC loop up to list n: lists 2 .. n-1, leaf-major; for each its
   * samples and the root of its mean square. An empty leaf array has no
   * Average().
   */
  function Leaves(actual: Lists, expected: Lists, value: Float32 -> real, root: real -> real, n: nat)
    : Result<(seq<Sample>, seq<real>), DeviationError>
    requires n <= |actual|
  {
    if n <= 2 then Success(([], []))
    else
      var done :- Leaves(actual, expected, value, root, n - 1);
      if n - 1 >= |expected| then Failure(MissingElement)
      else
        var samples :- Compare(actual[n - 1], expected[n - 1], value, Some(n - 1));
        if samples == [] then Failure(EmptySequence)
        else Success((done.0 + samples, done.1 + [root(MeanSquare(actual[n - 1], expected[n - 1], value))]))
  }

  /** CalculateRMS: the root mean square (MLC: the mean of per-leaf roots), the peak difference and its location. */
  function CalculateRMS(actual: Lists, expected: Lists, parameter: string, value: Float32 -> real, root: real -> real)
    : Result<Rms, DeviationError>
  {
    if parameter != "MLC" then
      if |actual| == 0 || |expected| == 0 then Failure(EmptySequence)
      else
        var samples :- Compare(actual[0], expected[0], value, None);
        if samples == [] then Failure(EmptySequence)
        else
          var peak := samples[PeakIndex(samples)];
          Success(Rms(root(MeanSquare(actual[0], expected[0], value)), peak.diff, peak.loc))
    else
      var leaves :- Leaves(actual, expected, value, root, |actual|);
      if leaves.0 == [] then Failure(EmptySequence)
      else
        var peak := leaves.0[PeakIndex(leaves.0)];
        Success(Rms(Mean(leaves.1), peak.diff, peak.loc))
  }

  // ---------------------------------------------------------------------------
  // Properties.

  /** Any other parameter compares the first arrays; it fails exactly on a missing or empty array. */
  lemma AxisSucceeds(actual: Lists, expected: Lists, parameter: string, value: Float32 -> real, root: real -> real)
    requires parameter != "MLC"
    ensures CalculateRMS(actual, expected, parameter, value, root).Success? <==>
      |actual| > 0 && |expected| > 0 && 0 < |actual[0]| <= |expected[0]|
    ensures |actual| == 0 || |expected| == 0 || |actual[0]| == 0 ==>
      CalculateRMS(actual, expected, parameter, value, root) == Failure(EmptySequence)
  {
  }

  /**
   * Any other parameter: the peak is the signed difference of the earliest
   * sample of largest magnitude, reported at that sample's Actual value.
   */
  lemma AxisPeak(actual: Lists, expected: Lists, parameter: string, value: Float32 -> real, root: real -> real)
    requires parameter != "MLC"
    requires CalculateRMS(actual, expected, parameter, value, root).Success?
    ensures var r := CalculateRMS(actual, expected, parameter, value, root).value;
      && |actual| > 0 && |expected| > 0 && 0 < |actual[0]| <= |expected[0]|
      && r.rms == root(MeanSquare(actual[0], expected[0], value))
      && exists k :: 0 <= k < |actual[0]|
           && r.maxDiff == value(actual[0][k]) - value(expected[0][k])
           && r.maxDiffLoc == value(actual[0][k])
           && (forall j :: 0 <= j < |actual[0]| ==>
                 Abs(value(actual[0][j]) - value(expected[0][j])) <= Abs(r.maxDiff))
           && (forall j :: 0 <= j < k ==>
                 Abs(value(actual[0][j]) - value(expected[0][j])) < Abs(r.maxDiff))
  {
    var samples := Compare(actual[0], expected[0], value, None).value;
    var k := PeakIndex(samples);
    assert samples[k] == Sample(value(actual[0][k]) - value(expected[0][k]), value(actual[0][k]));
    forall j | 0 <= j < |actual[0]|
      ensures Abs(value(actual[0][j]) - value(expected[0][j])) <= Abs(samples[k].diff)
      ensures j < k ==> Abs(value(actual[0][j]) - value(expected[0][j])) < Abs(samples[k].diff)
    {
      assert samples[j].diff == value(actual[0][j]) - value(expected[0][j]);
    }
  }

  /** Every sample of MLC list i is located at i. */
  lemma CompareLocated(a: seq<Float32>, e: seq<Float32>, value: Float32 -> real, i: nat)
    requires Compare(a, e, value, Some(i)).Success?
    ensures forall j :: 0 <= j < |Compare(a, e, value, Some(i)).value| ==> Compare(a, e, value, Some(i)).value[j].loc == i as real
  {
  }

  /** The sum of the per-leaf roots of lists 2 .. n-1, each list pair taken on its own. */
  function RootSum(actual: Lists, expected: Lists, value: Float32 -> real, root: real -> real, n: nat): real
    requires n <= |actual|
    requires forall i :: 2 <= i < n ==> i < |expected| && 0 < |actual[i]| <= |expected[i]|
  {
    if n <= 2 then 0.0
    else
      var i := n - 1;
      assert 2 <= i < n;
      assert i < |expected| && 0 < |actual[i]| <= |expected[i]|;
      RootSum(actual, expected, value, root, i) + root(MeanSquare(actual[i], expected[i], value))
  }

  /** Sample locations that are whole list indexes from 2 up to n - 1. */
  predicate LocatedAtLists(samples: seq<Sample>, n: nat)
  {
    forall k :: 0 <= k < |samples| ==>
      samples[k].loc == samples[k].loc.Floor as real && 2 <= samples[k].loc.Floor < n
  }

  /** One more list in the MLC loop: the lists before it succeeded, and its samples and root are appended. */
  lemma LeavesStep(actual: Lists, expected: Lists, value: Float32 -> real, root: real -> real, n: nat)
    requires 2 < n <= |actual|
    requires Leaves(actual, expected, value, root, n).Success?
    ensures Leaves(actual, expected, value, root, n - 1).Success?
    ensures n - 1 < |expected| && 0 < |actual[n - 1]| <= |expected[n - 1]|
    ensures Compare(actual[n - 1], expected[n - 1], value, Some(n - 1)).Success?
    ensures var done := Leaves(actual, expected, value, root, n - 1).value;
      Leaves(actual, expected, value, root, n).value ==
        (done.0 + Compare(actual[n - 1], expected[n - 1], value, Some(n - 1)).value,
         done.1 + [root(MeanSquare(actual[n - 1], expected[n - 1], value))])
  {
  }

  /** The MLC loop succeeds only on lists 2 .. n-1 whose arrays are non-empty and no longer than the Expected ones. */
  lemma {:induction false} LeavesValid(actual: Lists, expected: Lists, value: Float32 -> real, root: real -> real, n: nat)
    requires n <= |actual|
    requires Leaves(actual, expected, value, root, n).Success?
    ensures |Leaves(actual, expected, value, root, n).value.1| == (if n <= 2 then 0 else n - 2)
    ensures forall i :: 2 <= i < n ==> i < |expected| && 0 < |actual[i]| <= |expected[i]|
  {
    if n > 2 {
      LeavesStep(actual, expected, value, root, n);
      LeavesValid(actual, expected, value, root, n - 1);
    }
  }

  /** The roots the MLC loop collects add up to RootSum. */
  lemma {:induction false} LeavesRootSum(actual: Lists, expected: Lists, value: Float32 -> real, root: real -> real, n: nat)
    requires n <= |actual|
    requires Leaves(actual, expected, value, root, n).Success?
    ensures forall i :: 2 <= i < n ==> i < |expected| && 0 < |actual[i]| <= |expected[i]|
    ensures Sum(Leaves(actual, expected, value, root, n).value.1) == RootSum(actual, expected, value, root, n)
  {
    LeavesValid(actual, expected, value, root, n);
    if n > 2 {
      LeavesStep(actual, expected, value, root, n);
      LeavesRootSum(actual, expected, value, root, n - 1);
      var done := Leaves(actual, expected, value, root, n - 1).value.1;
      var x := root(MeanSquare(actual[n - 1], expected[n - 1], value));
      assert (done + [x])[..|done|] == done;
    }
  }

  /** Every sample of the MLC loop is located at its list index, never at 0 or 1. */
  lemma {:induction false} LeavesLocated(actual: Lists, expected: Lists, value: Float32 -> real, root: real -> real, n: nat)
    requires n <= |actual|
    requires Leaves(actual, expected, value, root, n).Success?
    ensures LocatedAtLists(Leaves(actual, expected, value, root, n).value.0, n)
  {
    if n > 2 {
      LeavesStep(actual, expected, value, root, n);
      LeavesLocated(actual, expected, value, root, n - 1);
      var done: seq<Sample> := Leaves(actual, expected, value, root, n - 1).value.0;
      var samples: seq<Sample> := Compare(actual[n - 1], expected[n - 1], value, Some(n - 1)).value;
      CompareLocated(actual[n - 1], expected[n - 1], value, n - 1);
      forall k | 0 <= k < |done + samples|
        ensures (done + samples)[k].loc == (done + samples)[k].loc.Floor as real
        ensures 2 <= (done + samples)[k].loc.Floor < n
      {
        if k < |done| {
          assert (done + samples)[k] == done[k];
        } else {
          assert (done + samples)[k].loc == samples[k - |done|].loc;
        }
      }
    }
  }

  /** MLC: the result is the mean of the per-leaf roots, and the peak is located at a list index >= 2. */
  lemma MlcResult(actual: Lists, expected: Lists, value: Float32 -> real, root: real -> real)
    requires CalculateRMS(actual, expected, "MLC", value, root).Success?
    ensures var r := CalculateRMS(actual, expected, "MLC", value, root).value;
      && |actual| > 2
      && (forall i :: 2 <= i < |actual| ==> i < |expected| && 0 < |actual[i]| <= |expected[i]|)
      && r.rms == RootSum(actual, expected, value, root, |actual|) / (|actual| - 2) as real
      && r.maxDiffLoc == r.maxDiffLoc.Floor as real && 2 <= r.maxDiffLoc.Floor < |actual|
  {
    var leaves := Leaves(actual, expected, value, root, |actual|).value;
    LeavesValid(actual, expected, value, root, |actual|);
    LeavesRootSum(actual, expected, value, root, |actual|);
    LeavesLocated(actual, expected, value, root, |actual|);
    var k := PeakIndex(leaves.0);
    assert leaves.0[k].loc == CalculateRMS(actual, expected, "MLC", value, root).value.maxDiffLoc;
  }

  /** Where list i starts among the MLC samples: the number of samples of lists 2 .. i-1. */
  function LeafOffset(actual: Lists, i: nat): nat
    requires i <= |actual|
  {
    if i <= 2 then 0 else LeafOffset(actual, i - 1) + |actual[i - 1]|
  }

  lemma {:induction false} LeafOffsetMonotone(actual: Lists, i: nat, n: nat)
    requires i <= n <= |actual|
    ensures LeafOffset(actual, i) <= LeafOffset(actual, n)
    decreases n - i
  {
    if i < n {
      LeafOffsetMonotone(actual, i + 1, n);
    }
  }

  /** Leaf j of list i sits at LeafOffset(i) + j among the samples, as Actual - Expected located at i. */
  predicate LeafSample(all: seq<Sample>, actual: Lists, expected: Lists, value: Float32 -> real, i: nat, j: nat)
    requires i < |actual| && j < |actual[i]|
  {
    && i < |expected| && j < |expected[i]|
    && LeafOffset(actual, i) + j < |all|
    && all[LeafOffset(actual, i) + j] == Sample(value(actual[i][j]) - value(expected[i][j]), i as real)
  }

  /** Every leaf of lists 2 .. n-1 is in the samples where LeafSample puts it. */
  predicate AllLeaves(all: seq<Sample>, actual: Lists, expected: Lists, value: Float32 -> real, n: nat)
    requires n <= |actual|
  {
    && |all| == LeafOffset(actual, n)
    && forall i, j :: 2 <= i < n && 0 <= j < |actual[i]| ==> LeafSample(all, actual, expected, value, i, j)
  }

  /** One more list: the earlier leaves keep their places and the new list's leaves follow them. */
  lemma AllLeavesStep(done: seq<Sample>, samples: seq<Sample>, actual: Lists, expected: Lists, value: Float32 -> real, n: nat)
    requires 2 < n <= |actual| && n - 1 < |expected|
    requires AllLeaves(done, actual, expected, value, n - 1)
    requires Compare(actual[n - 1], expected[n - 1], value, Some(n - 1)) == Success(samples)
    ensures AllLeaves(done + samples, actual, expected, value, n)
  {
    forall i, j | 2 <= i < n && 0 <= j < |actual[i]|
      ensures LeafSample(done + samples, actual, expected, value, i, j)
    {
      var k := LeafOffset(actual, i) + j;
      if i < n - 1 {
        assert LeafSample(done, actual, expected, value, i, j);
        assert (done + samples)[k] == done[k];
      } else {
        assert (done + samples)[k] == samples[j];
      }
    }
  }

  /** The MLC samples are every leaf of every list 2 .. n-1, leaf-major. */
  lemma {:induction false} LeavesSamples(actual: Lists, expected: Lists, value: Float32 -> real, root: real -> real, n: nat)
    requires n <= |actual|
    requires Leaves(actual, expected, value, root, n).Success?
    ensures AllLeaves(Leaves(actual, expected, value, root, n).value.0, actual, expected, value, n)
  {
    if n > 2 {
      LeavesStep(actual, expected, value, root, n);
      LeavesSamples(actual, expected, value, root, n - 1);
      AllLeavesStep(Leaves(actual, expected, value, root, n - 1).value.0,
                    Compare(actual[n - 1], expected[n - 1], value, Some(n - 1)).value, actual, expected, value, n);
    }
  }

  /** Every position among the MLC samples belongs to one leaf j of one list i. */
  lemma {:induction false} LeafAt(actual: Lists, n: nat, k: nat) returns (i: nat, j: nat)
    requires n <= |actual|
    requires k < LeafOffset(actual, n)
    ensures 2 <= i < n && j < |actual[i]|
    ensures k == LeafOffset(actual, i) + j
  {
    if k < LeafOffset(actual, n - 1) {
      i, j := LeafAt(actual, n - 1, k);
    } else {
      i, j := n - 1, k - LeafOffset(actual, n - 1);
    }
  }

  /** A leaf of an earlier list comes before every leaf of a later one. */
  lemma EarlierList(actual: Lists, i': nat, j': nat, i: nat)
    requires 2 <= i' < i <= |actual| && j' < |actual[i']|
    ensures LeafOffset(actual, i') + j' < LeafOffset(actual, i)
  {
    LeafOffsetMonotone(actual, i' + 1, i);
  }

  /** A leaf compared with the peak leaf (i, j): never larger, and smaller when it comes first. */
  lemma BelowPeak(all: seq<Sample>, actual: Lists, expected: Lists, value: Float32 -> real, n: nat,
                  i: nat, j: nat, i': nat, j': nat)
    requires n <= |actual|
    requires AllLeaves(all, actual, expected, value, n) && |all| > 0
    requires 2 <= i < n && j < |actual[i]| && LeafOffset(actual, i) + j == PeakIndex(all)
    requires 2 <= i' < n && j' < |actual[i']|
    ensures i' < |expected| && j' < |expected[i']|
    ensures Abs(value(actual[i'][j']) - value(expected[i'][j'])) <= Abs(all[PeakIndex(all)].diff)
    ensures i' < i || (i' == i && j' < j) ==>
      Abs(value(actual[i'][j']) - value(expected[i'][j'])) < Abs(all[PeakIndex(all)].diff)
  {
    assert LeafSample(all, actual, expected, value, i', j');
    if i' < i {
      EarlierList(actual, i', j', i);
    }
  }

  /**
   * The peak OrderByDescending(|diff|).First() picks among the MLC samples is
   * a leaf no other leaf exceeds in magnitude and every leaf before it, in list
   * then leaf order, falls short of.
   */
  lemma PeakLeaf(all: seq<Sample>, actual: Lists, expected: Lists, value: Float32 -> real, n: nat,
                 maxDiff: real, maxDiffLoc: real) returns (i: nat, j: nat)
    requires n <= |actual|
    requires AllLeaves(all, actual, expected, value, n) && |all| > 0
    requires all[PeakIndex(all)] == Sample(maxDiff, maxDiffLoc)
    requires ValidLists(actual, expected, n)
    ensures 2 <= i < n && 0 <= j < |actual[i]|
    ensures maxDiff == value(actual[i][j]) - value(expected[i][j])
    ensures maxDiffLoc == i as real
    ensures forall i', j' :: 2 <= i' < n && 0 <= j' < |actual[i']| ==>
      Abs(value(actual[i'][j']) - value(expected[i'][j'])) <= Abs(maxDiff)
    ensures forall i', j' :: 2 <= i' < n && 0 <= j' < |actual[i']| && (i' < i || (i' == i && j' < j)) ==>
      Abs(value(actual[i'][j']) - value(expected[i'][j'])) < Abs(maxDiff)
  {
    i, j := LeafAt(actual, n, PeakIndex(all));
    assert LeafSample(all, actual, expected, value, i, j);
    forall i', j' | 2 <= i' < n && 0 <= j' < |actual[i']|
      ensures Abs(value(actual[i'][j']) - value(expected[i'][j'])) <= Abs(maxDiff)
      ensures i' < i || (i' == i && j' < j) ==> Abs(value(actual[i'][j']) - value(expected[i'][j'])) < Abs(maxDiff)
    {
      BelowPeak(all, actual, expected, value, n, i, j, i', j');
    }
  }

  /** An MLC result holds the peak of the samples of every leaf of lists 2 .. |actual|-1. */
  lemma MlcSamples(actual: Lists, expected: Lists, value: Float32 -> real, root: real -> real, r: Rms)
    returns (all: seq<Sample>)
    requires CalculateRMS(actual, expected, "MLC", value, root) == Success(r)
    ensures |actual| > 2 && ValidLists(actual, expected, |actual|)
    ensures AllLeaves(all, actual, expected, value, |actual|) && |all| > 0
    ensures all[PeakIndex(all)] == Sample(r.maxDiff, r.maxDiffLoc)
  {
    MlcResult(actual, expected, value, root);
    LeavesSamples(actual, expected, value, root, |actual|);
    all := Leaves(actual, expected, value, root, |actual|).value.0;
  }

  /**
   * MLC: the peak is the signed difference of the earliest leaf, in list then
   * leaf order, of largest magnitude, reported at that leaf's list index.
   */
  lemma MlcPeak(actual: Lists, expected: Lists, value: Float32 -> real, root: real -> real, r: Rms)
    requires CalculateRMS(actual, expected, "MLC", value, root) == Success(r)
    ensures |actual| > 2
    ensures forall i :: 2 <= i < |actual| ==> i < |expected| && 0 < |actual[i]| <= |expected[i]|
    ensures exists i, j ::
      && 2 <= i < |actual| && 0 <= j < |actual[i]|
      && r.maxDiff == value(actual[i][j]) - value(expected[i][j])
      && r.maxDiffLoc == i as real
      && (forall i', j' :: 2 <= i' < |actual| && 0 <= j' < |actual[i']| ==>
            Abs(value(actual[i'][j']) - value(expected[i'][j'])) <= Abs(r.maxDiff))
      && (forall i', j' :: 2 <= i' < |actual| && 0 <= j' < |actual[i']| && (i' < i || (i' == i && j' < j)) ==>
            Abs(value(actual[i'][j']) - value(expected[i'][j'])) < Abs(r.maxDiff))
  {
    var all := MlcSamples(actual, expected, value, root, r);
    var i, j := PeakLeaf(all, actual, expected, value, |actual|, r.maxDiff, r.maxDiffLoc);
  }

  /** Lists 2 .. n-1 have Expected partners, are non-empty and are no longer than them. */
  predicate ValidLists(actual: Lists, expected: Lists, n: nat)
    requires n <= |actual|
  {
    forall i :: 2 <= i < n ==> i < |expected| && 0 < |actual[i]| <= |expected[i]|
  }

  lemma ValidListsLast(actual: Lists, expected: Lists, n: nat)
    requires 2 < n <= |actual| && ValidLists(actual, expected, n)
    ensures ValidLists(actual, expected, n - 1)
    ensures n - 1 < |expected| && 0 < |actual[n - 1]| <= |expected[n - 1]|
  {
    forall i | 2 <= i < n - 1
      ensures i < |expected| && 0 < |actual[i]| <= |expected[i]|
    {
      assert 0 < |actual[i]|;
    }
    assert 0 < |actual[n - 1]|;
  }

  /** The MLC loop succeeds on lists 2 .. n-1 that are non-empty and no longer than the Expected ones. */
  lemma {:induction false} LeavesSucceed(actual: Lists, expected: Lists, value: Float32 -> real, root: real -> real, n: nat)
    requires n <= |actual|
    requires ValidLists(actual, expected, n)
    ensures Leaves(actual, expected, value, root, n).Success?
  {
    if n > 2 {
      ValidListsLast(actual, expected, n);
      LeavesSucceed(actual, expected, value, root, n - 1);
    }
  }

  /** MLC fails exactly when there is no list from index 2 on, or one of them is empty or longer than its Expected list. */
  lemma MlcSucceeds(actual: Lists, expected: Lists, value: Float32 -> real, root: real -> real)
    ensures CalculateRMS(actual, expected, "MLC", value, root).Success? <==>
      |actual| > 2 && ValidLists(actual, expected, |actual|)
    ensures |actual| <= 2 ==> CalculateRMS(actual, expected, "MLC", value, root) == Failure(EmptySequence)
  {
    var n := |actual|;
    if n <= 2 {
      assert Leaves(actual, expected, value, root, n) == Success(([], []));
    } else if ValidLists(actual, expected, n) {
      LeavesSucceed(actual, expected, value, root, n);
      LeavesSamples(actual, expected, value, root, n);
      LeafOffsetMonotone(actual, 3, n);
      assert LeafOffset(actual, 3) == |actual[2]|;
    } else if CalculateRMS(actual, expected, "MLC", value, root).Success? {
      MlcResult(actual, expected, value, root);
    }
  }

  lemma {:induction false} ZeroError(a: seq<Float32>, value: Float32 -> real, n: nat)
    requires n <= |a|
    ensures SquaredError(a, a, value, n) == 0.0
  {
    if n > 0 {
      ZeroError(a, value, n - 1);
    }
  }

  lemma {:induction false} RootSumIdentical(actual: Lists, value: Float32 -> real, root: real -> real, n: nat)
    requires n <= |actual|
    requires forall i :: 2 <= i < n ==> 0 < |actual[i]|
    ensures RootSum(actual, actual, value, root, n) == (if n <= 2 then 0.0 else (n - 2) as real * root(0.0))
  {
    if n > 2 {
      RootSumIdentical(actual, value, root, n - 1);
      ZeroError(actual[n - 1], value, |actual[n - 1]|);
    }
  }

  /** Identical arrays: the peak is 0 and the result is the root of a zero mean square. */
  lemma Identical(actual: Lists, parameter: string, value: Float32 -> real, root: real -> real)
    requires CalculateRMS(actual, actual, parameter, value, root).Success?
    ensures CalculateRMS(actual, actual, parameter, value, root).value.maxDiff == 0.0
    ensures CalculateRMS(actual, actual, parameter, value, root).value.rms == root(0.0)
  {
    if parameter != "MLC" {
      AxisPeak(actual, actual, parameter, value, root);
      ZeroError(actual[0], value, |actual[0]|);
    } else {
      var leaves := Leaves(actual, actual, value, root, |actual|).value;
      MlcResult(actual, actual, value, root);
      RootSumIdentical(actual, value, root, |actual|);
      IdenticalSamples(actual, value, root, |actual|);
      var k := PeakIndex(leaves.0);
      assert leaves.0[k].diff == 0.0;
    }
  }

  lemma {:induction false} IdenticalSamples(actual: Lists, value: Float32 -> real, root: real -> real, n: nat)
    requires n <= |actual|
    requires Leaves(actual, actual, value, root, n).Success?
    ensures forall k :: 0 <= k < |Leaves(actual, actual, value, root, n).value.0| ==>
      Leaves(actual, actual, value, root, n).value.0[k].diff == 0.0
  {
    if n > 2 {
      IdenticalSamples(actual, value, root, n - 1);
      var done := Leaves(actual, actual, value, root, n - 1).value;
      var samples := Compare(actual[n - 1], actual[n - 1], value, Some(n - 1)).value;
      var leaves := Leaves(actual, actual, value, root, n).value;
      assert leaves.0 == done.0 + samples;
      forall k | 0 <= k < |leaves.0|
        ensures leaves.0[k].diff == 0.0
      {
        if k < |done.0| {
          assert leaves.0[k] == done.0[k];
        } else {
          assert leaves.0[k] == samples[k - |done.0|];
        }
      }
    }
  }
}
