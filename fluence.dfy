/**
 * Fluence accumulation (BuildFluence, AddFluenceFromMLCData). For every
 * snapshot each leaf pair adds the snapshot's MU increment to the grid cells
 * between its two leaf tips, on the grid rows the leaf pair covers. The grid
 * is indexed [column, row], like the double[,] it models.
 *
 * Leaf tips enter through `cell` (Convert.ToInt32 of a position times ten)
 * and MU samples through `value` (the float as a real number).
 */
module Fluence {
  import opened Wrappers
  import opened Bytes
  import opened AxisStore
  import AD = AxisData

  /** The MLC models the accumulation distinguishes; any other model is unsupported. */
  datatype MlcModel = NDS120 | NDS120HD | SX2 | OtherModel

  datatype FluenceError =
    | EmptySequence     // First() of an empty list, Max() of an empty array
    | MissingElement    // ElementAt past the end of a list or an array
    | OutOfGrid         // fluence[column, row] outside the grid
    | UnsupportedModel  // NotImplementedException for any other model
    | ZeroTotalMU       // the MU fraction divides by a zero total

  /** Grid cells [colStart, colEnd) of row `row` receive one increment. */
  datatype Band = Band(row: int, colStart: int, colEnd: int)

  /** The field: 280 x 280 mm for SX2, 400 x 400 mm for every other model. */
  function GridSize(model: MlcModel): nat
  {
    if model == SX2 then 280 else 400
  }

  function MaxInt(a: int, b: int): int { if a > b then a else b }
  function MinInt(a: int, b: int): int { if a < b then a else b }

  // ---------------------------------------------------------------------------
  // Bands and what they add to a cell.

  predicate Covers(b: Band, c: int, row: int)
  {
    b.row == row && b.colStart <= c < b.colEnd
  }

  /** How many bands cover cell (c, row). */
  function Coverage(bands: seq<Band>, c: int, row: int): nat
  {
    if bands == [] then 0
    else Coverage(bands[..|bands| - 1], c, row) + (if Covers(bands[|bands| - 1], c, row) then 1 else 0)
  }

  /** What the bands, applied in order with increment delta, add to cell (c, row). */
  function Gain(bands: seq<Band>, delta: real, c: int, row: int): real
  {
    if bands == [] then 0.0
    else Gain(bands[..|bands| - 1], delta, c, row) + (if Covers(bands[|bands| - 1], c, row) then delta else 0.0)
  }

  /** A band writes inside the grid, or writes nothing at all. */
  predicate BandFits(b: Band, size0: int, size1: int)
  {
    b.colStart >= b.colEnd || (0 <= b.colStart && b.colEnd <= size0 && 0 <= b.row < size1)
  }

  predicate AllFit(bands: seq<Band>, size0: int, size1: int)
  {
    forall k :: 0 <= k < |bands| ==> BandFits(bands[k], size0, size1)
  }

  /** count consecutive rows from `first`, all with the same columns. */
  function Rows(first: int, count: nat, colStart: int, colEnd: int): (bands: seq<Band>)
    ensures |bands| == count
  {
    if count == 0 then [] else Rows(first, count - 1, colStart, colEnd) + [Band(first + count - 1, colStart, colEnd)]
  }

  /** Each cell gains delta once per band covering it. */
  lemma {:induction false} GainCoverage(bands: seq<Band>, delta: real, c: int, row: int)
    ensures Gain(bands, delta, c, row) == delta * Coverage(bands, c, row) as real
  {
    if bands != [] {
      GainCoverage(bands[..|bands| - 1], delta, c, row);
    }
  }

  lemma {:induction false} GainAppend(a: seq<Band>, b: seq<Band>, delta: real, c: int, row: int)
    ensures Gain(a + b, delta, c, row) == Gain(a, delta, c, row) + Gain(b, delta, c, row)
  {
    if b != [] {
      assert (a + b)[..|a + b| - 1] == a + b[..|b| - 1];
      GainAppend(a, b[..|b| - 1], delta, c, row);
    } else {
      assert a + b == a;
    }
  }

  lemma AllFitAppend(a: seq<Band>, b: seq<Band>, size0: int, size1: int)
    ensures AllFit(a + b, size0, size1) <==> AllFit(a, size0, size1) && AllFit(b, size0, size1)
  {
    if AllFit(a, size0, size1) && AllFit(b, size0, size1) {
      forall k | 0 <= k < |a + b|
        ensures BandFits((a + b)[k], size0, size1)
      {
        if k >= |a| {
          assert (a + b)[k] == b[k - |a|];
        }
      }
    }
    if AllFit(a + b, size0, size1) {
      forall k | 0 <= k < |a|
        ensures BandFits(a[k], size0, size1)
      {
        assert (a + b)[k] == a[k];
      }
      forall k | 0 <= k < |b|
        ensures BandFits(b[k], size0, size1)
      {
        assert (a + b)[|a| + k] == b[k];
      }
    }
  }

  /** One more row adds that row's band to every cell's gain. */
  lemma RowsGainStep(first: int, count: nat, colStart: int, colEnd: int, delta: real, c: int, row: int)
    ensures Gain(Rows(first, count + 1, colStart, colEnd), delta, c, row)
         == Gain(Rows(first, count, colStart, colEnd), delta, c, row)
            + (if Covers(Band(first + count, colStart, colEnd), c, row) then delta else 0.0)
  {
    var more := Rows(first, count + 1, colStart, colEnd);
    assert more[..|more| - 1] == Rows(first, count, colStart, colEnd);
  }

  /** Row k of Rows(first, count, ..) is row first + k. */
  lemma {:induction false} RowsAt(first: int, count: nat, colStart: int, colEnd: int, k: nat)
    requires k < count
    ensures |Rows(first, count, colStart, colEnd)| == count
    ensures Rows(first, count, colStart, colEnd)[k] == Band(first + k, colStart, colEnd)
  {
    if k < count - 1 {
      RowsAt(first, count - 1, colStart, colEnd, k);
    } else if count > 1 {
      RowsAt(first, count - 1, colStart, colEnd, 0);
    }
  }

  // ---------------------------------------------------------------------------
  // The leaf pairs of each model.

  /** Convert.ToInt32(list k at snapshot cp * 10), or None where ElementAt runs past the end. */
  function LeafCell(mlc: Lists, k: nat, cp: nat, cell: Float32 -> int): Option<int>
  {
    if k < |mlc| && cp < |mlc[k]| then Some(cell(mlc[k][cp])) else None
  }

  /**
   * SX2 leaf pair i (lists i + 2 and i + 59): rows 10i .. 10i + 4 take the
   * intersection of its opening with that of lists i + 30 / i + 87, rows
   * 10i + 5 .. 10i + 9 the intersection with lists i + 31 / i + 88.
   */
  function SX2Leaf(mlc: Lists, cp: nat, cell: Float32 -> int, center: int, i: nat): Option<seq<Band>>
  {
    var x1 :- LeafCell(mlc, 57 + i + 2, cp, cell);
    var x2 :- LeafCell(mlc, i + 2, cp, cell);
    var x1After :- LeafCell(mlc, 57 + i + 31, cp, cell);
    var x2After :- LeafCell(mlc, i + 31, cp, cell);
    var x1Before :- LeafCell(mlc, 57 + i + 30, cp, cell);
    var x2Before :- LeafCell(mlc, i + 30, cp, cell);
    Some(SX2Bands(i, center - x1, center + x2, center - x1Before, center + x2Before, center - x1After, center + x2After))
  }

  /** The ten rows of SX2 leaf pair i, given its own opening and those of the pairs before and after it. */
  function SX2Bands(i: nat, colStart: int, colEnd: int, beforeStart: int, beforeEnd: int,
                    afterStart: int, afterEnd: int): seq<Band>
  {
    Rows(10 * i, 5, MaxInt(colStart, beforeStart), MinInt(colEnd, beforeEnd))
      + Rows(10 * i + 5, 5, MaxInt(colStart, afterStart), MinInt(colEnd, afterEnd))
  }

  /** Row k of an SX2 leaf is 10i + k, and it opens no wider than the leaf's own tips. */
  lemma SX2BandsShape(i: nat, colStart: int, colEnd: int, beforeStart: int, beforeEnd: int,
                      afterStart: int, afterEnd: int, k: nat)
    requires k < 10
    ensures var bands := SX2Bands(i, colStart, colEnd, beforeStart, beforeEnd, afterStart, afterEnd);
      && |bands| == 10
      && bands[k].row == 10 * i + k
      && colStart <= bands[k].colStart && bands[k].colEnd <= colEnd
  {
    var lower := Rows(10 * i, 5, MaxInt(colStart, beforeStart), MinInt(colEnd, beforeEnd));
    var upper := Rows(10 * i + 5, 5, MaxInt(colStart, afterStart), MinInt(colEnd, afterEnd));
    if k < 5 {
      RowsAt(10 * i, 5, MaxInt(colStart, beforeStart), MinInt(colEnd, beforeEnd), k);
      assert (lower + upper)[k] == lower[k];
    } else {
      RowsAt(10 * i + 5, 5, MaxInt(colStart, afterStart), MinInt(colEnd, afterEnd), k - 5);
      assert (lower + upper)[k] == upper[k - 5];
    }
  }

  /** NDS120: leaves 10 .. 49 are narrow; NDS120HD: leaves 14 .. 55. */
  predicate Narrow(model: MlcModel, i: nat)
  {
    !(i < (if model == NDS120 then 10 else 14) || i > (if model == NDS120 then 49 else 55))
  }

  /** The step a leaf advances rowStart by: 10 / 5 mm wide, 5 / 2.5 mm narrow. */
  function Advance(model: MlcModel, i: nat): real
  {
    if Narrow(model, i) then (if model == NDS120 then 5.0 else 2.5)
    else if model == NDS120 then 10.0 else 5.0
  }

  /** Rows a leaf writes: the loop ii < step or ii < halfStep runs 10 / 5 or 5 / 3 times. */
  function LeafRows(model: MlcModel, i: nat): nat
  {
    if Narrow(model, i) then (if model == NDS120 then 5 else 3)
    else if model == NDS120 then 10 else 5
  }

  /** rowStart when leaf i is reached: 0.0 (NDS120) or 90.0 (NDS120HD) plus the advances before it. */
  function RowStart(model: MlcModel, i: nat): real
  {
    if i == 0 then (if model == NDS120 then 0.0 else 90.0)
    else RowStart(model, i - 1) + Advance(model, i - 1)
  }

  /** NDS leaf pair i (lists i + 2 and i + 62): LeafRows rows from (int)rowStart. */
  function NDSLeaf(model: MlcModel, mlc: Lists, cp: nat, cell: Float32 -> int, center: int, i: nat): Option<seq<Band>>
  {
    var x1 :- LeafCell(mlc, i + 62, cp, cell);
    var x2 :- LeafCell(mlc, i + 2, cp, cell);
    Some(Rows(RowStart(model, i).Floor, LeafRows(model, i), center - x1, center + x2))
  }

  function LeafCount(model: MlcModel): nat
  {
    if model == SX2 then 28 else 60
  }

  function Leaf(model: MlcModel, mlc: Lists, cp: nat, cell: Float32 -> int, center: int, i: nat): Option<seq<Band>>
  {
    if model == SX2 then SX2Leaf(mlc, cp, cell, center, i) else NDSLeaf(model, mlc, cp, cell, center, i)
  }

  /** The bands of the first n leaf pairs in loop order; the first leaf that fails stops. */
  function PlanUpTo(model: MlcModel, mlc: Lists, cp: nat, cell: Float32 -> int, size0: nat, size1: nat, n: nat)
    : Result<seq<Band>, FluenceError>
  {
    if n == 0 then Success([])
    else
      var done :- PlanUpTo(model, mlc, cp, cell, size0, size1, n - 1);
      var bands :- Need(Leaf(model, mlc, cp, cell, size0 / 2, n - 1), MissingElement);
      if AllFit(bands, size0, size1) then Success(done + bands) else Failure(OutOfGrid)
  }

  /** AddFluenceFromMLCData for snapshot cp on a size0 x size1 grid: the bands it writes. */
  function Plan(model: MlcModel, mlc: Lists, cp: nat, cell: Float32 -> int, size0: nat, size1: nat)
    : Result<seq<Band>, FluenceError>
  {
    if model == OtherModel then Failure(UnsupportedModel)
    else PlanUpTo(model, mlc, cp, cell, size0, size1, LeafCount(model))
  }

  lemma {:induction false} PlanFailureStops(model: MlcModel, mlc: Lists, cp: nat, cell: Float32 -> int,
                                            size0: nat, size1: nat, i: nat, n: nat)
    requires i <= n
    requires PlanUpTo(model, mlc, cp, cell, size0, size1, i).Failure?
    ensures PlanUpTo(model, mlc, cp, cell, size0, size1, n) == PlanUpTo(model, mlc, cp, cell, size0, size1, i)
  {
    if i < n {
      PlanFailureStops(model, mlc, cp, cell, size0, size1, i, n - 1);
    }
  }

  // ---------------------------------------------------------------------------
  // Geometry of the plans.

  /** rowStart in closed form: wide leaves, then narrow ones, then wide ones again. */
  lemma {:induction false} RowStartClosed(model: MlcModel, i: nat)
    requires model == NDS120 || model == NDS120HD
    requires i <= 60
    ensures model == NDS120 ==>
      RowStart(model, i) == (if i <= 10 then 10.0 * i as real
                             else if i <= 50 then 100.0 + 5.0 * (i - 10) as real
                             else 300.0 + 10.0 * (i - 50) as real)
    ensures model == NDS120HD ==>
      RowStart(model, i) == (if i <= 14 then 90.0 + 5.0 * i as real
                             else if i <= 56 then 160.0 + 2.5 * (i - 14) as real
                             else 265.0 + 5.0 * (i - 56) as real)
  {
    if i > 0 {
      RowStartClosed(model, i - 1);
    }
  }

  /** NDS120 leaves tile rows 0 .. 399: each starts where the one before ended. */
  lemma NDS120Tiles(i: nat)
    requires i < 60
    ensures RowStart(NDS120, i).Floor + LeafRows(NDS120, i) == RowStart(NDS120, i + 1).Floor
    ensures 0 <= RowStart(NDS120, i).Floor && RowStart(NDS120, i + 1).Floor <= 400
  {
    RowStartClosed(NDS120, i);
    RowStartClosed(NDS120, i + 1);
  }

  /** NDS120HD leaves write rows 90 .. 284. */
  lemma NDS120HDRows(i: nat)
    requires i < 60
    ensures 90 <= RowStart(NDS120HD, i).Floor
    ensures RowStart(NDS120HD, i).Floor + LeafRows(NDS120HD, i) <= 285
  {
    RowStartClosed(NDS120HD, i);
    RowStartClosed(NDS120HD, 55);
    if Narrow(NDS120HD, i) {
      assert RowStart(NDS120HD, i) <= RowStart(NDS120HD, 55);
    }
  }

  /**
   * Where the NDS leaf stacks end. NDS120 leaves span rows 0 .. 400, centred
   * on the grid's middle row 200. With halfLeafEnd 55 as coded, 42 HD leaves
   * (14 .. 55) are narrow, so the HD stack ends at row 285 and is centred on
   * 187.5; with 32 narrow leaves (14 .. 45) it would end at 310, centred on 200.
   */
  lemma HDFieldSpan()
    ensures RowStart(NDS120, 60) == 400.0
    ensures RowStart(NDS120HD, 60) == 285.0
    ensures RowStart(NDS120HD, 60) - 200.0 != 200.0 - RowStart(NDS120HD, 0)
  {
    RowStartClosed(NDS120, 60);
    RowStartClosed(NDS120HD, 60);
    RowStartClosed(NDS120HD, 0);
  }

  /** Narrow HD leaves write 3 rows but advance 2.5: leaves 14 and 15 both write row 162. */
  lemma HDNarrowLeavesShareRow()
    ensures RowStart(NDS120HD, 14).Floor == 160 && LeafRows(NDS120HD, 14) == 3
    ensures RowStart(NDS120HD, 15).Floor == 162
  {
    RowStartClosed(NDS120HD, 14);
    RowStartClosed(NDS120HD, 15);
  }

  /** Every band of a supported model's leaf lies on a row of its grid. */
  lemma LeafRowsInGrid(model: MlcModel, mlc: Lists, cp: nat, cell: Float32 -> int, center: int, i: nat, k: nat)
    requires model != OtherModel && i < LeafCount(model)
    requires Leaf(model, mlc, cp, cell, center, i).Some?
    requires k < |Leaf(model, mlc, cp, cell, center, i).value|
    ensures 0 <= Leaf(model, mlc, cp, cell, center, i).value[k].row < GridSize(model)
  {
    var bands := Leaf(model, mlc, cp, cell, center, i).value;
    if model == SX2 {
      var x1, x2 := LeafCell(mlc, 57 + i + 2, cp, cell).value, LeafCell(mlc, i + 2, cp, cell).value;
      SX2BandsShape(i, center - x1, center + x2,
                    center - LeafCell(mlc, 57 + i + 30, cp, cell).value, center + LeafCell(mlc, i + 30, cp, cell).value,
                    center - LeafCell(mlc, 57 + i + 31, cp, cell).value, center + LeafCell(mlc, i + 31, cp, cell).value, k);
    } else {
      var x1, x2 := LeafCell(mlc, i + 62, cp, cell).value, LeafCell(mlc, i + 2, cp, cell).value;
      assert bands == Rows(RowStart(model, i).Floor, LeafRows(model, i), center - x1, center + x2);
      RowsAt(RowStart(model, i).Floor, LeafRows(model, i), center - x1, center + x2, k);
      if model == NDS120 {
        NDS120Tiles(i);
      } else {
        NDS120HDRows(i);
      }
    }
  }

  /** An SX2 row never opens wider than leaf pair i's own tips. */
  lemma SX2WithinOwnLeaf(mlc: Lists, cp: nat, cell: Float32 -> int, center: int, i: nat, k: nat, c: int)
    requires SX2Leaf(mlc, cp, cell, center, i).Some?
    requires k < |SX2Leaf(mlc, cp, cell, center, i).value|
    requires Covers(SX2Leaf(mlc, cp, cell, center, i).value[k], c, SX2Leaf(mlc, cp, cell, center, i).value[k].row)
    ensures center - LeafCell(mlc, 57 + i + 2, cp, cell).value <= c < center + LeafCell(mlc, i + 2, cp, cell).value
  {
    var x1, x2 := LeafCell(mlc, 57 + i + 2, cp, cell).value, LeafCell(mlc, i + 2, cp, cell).value;
    SX2BandsShape(i, center - x1, center + x2,
                  center - LeafCell(mlc, 57 + i + 30, cp, cell).value, center + LeafCell(mlc, i + 30, cp, cell).value,
                  center - LeafCell(mlc, 57 + i + 31, cp, cell).value, center + LeafCell(mlc, i + 31, cp, cell).value, k);
  }

  // ---------------------------------------------------------------------------
  // The whole accumulation.

  /** Max() of an array of floats, as reals. */
  function MaxValue(a: seq<Float32>, value: Float32 -> real): (m: real)
    requires |a| > 0
    ensures forall k :: 0 <= k < |a| ==> value(a[k]) <= m
    ensures exists k :: 0 <= k < |a| && value(a[k]) == m
  {
    if |a| == 1 then value(a[0])
    else
      var rest := MaxValue(a[..|a| - 1], value);
      assert forall k :: 0 <= k < |a| - 1 ==> a[..|a| - 1][k] == a[k];
      if value(a[|a| - 1]) > rest then value(a[|a| - 1]) else rest
  }

  /** One snapshot: its Expected MU sample and the bands its leaves write. */
  type Step = (real, seq<Band>)

  /**
   * The first n snapshots: snapshot i reads MUExp[0][i] (the Expected trace
   * whichever MLC trace is used), then divides by the total and lays out the
   * leaves.
   */
  function Steps(model: MlcModel, mlc: Lists, muExp: Lists, total: real, value: Float32 -> real,
                 cell: Float32 -> int, size: nat, n: nat): Result<seq<Step>, FluenceError>
  {
    if n == 0 then Success([])
    else
      var done :- Steps(model, mlc, muExp, total, value, cell, size, n - 1);
      if |muExp| == 0 || n - 1 >= |muExp[0]| then Failure(MissingElement)
      else if total == 0.0 then Failure(ZeroTotalMU)
      else
        var plan :- Plan(model, mlc, n - 1, cell, size, size);
        Success(done + [(value(muExp[0][n - 1]), plan)])
  }

  lemma {:induction false} StepsFailureStops(model: MlcModel, mlc: Lists, muExp: Lists, total: real,
                                             value: Float32 -> real, cell: Float32 -> int, size: nat, i: nat, n: nat)
    requires i <= n
    requires Steps(model, mlc, muExp, total, value, cell, size, i).Failure?
    ensures Steps(model, mlc, muExp, total, value, cell, size, n) == Steps(model, mlc, muExp, total, value, cell, size, i)
  {
    if i < n {
      StepsFailureStops(model, mlc, muExp, total, value, cell, size, i, n - 1);
    }
  }

  /** The fluence at cell (c, row) after the steps: each adds (mu_i - mu_(i-1)) / total per covering band. */
  function Dose(steps: seq<Step>, total: real, c: int, row: int): real
    requires steps != [] ==> total != 0.0
  {
    if steps == [] then 0.0
    else
      var n := |steps|;
      var before := if n == 1 then 0.0 else steps[n - 2].0;
      Dose(steps[..n - 1], total, c, row) + Gain(steps[n - 1].1, steps[n - 1].0 / total - before / total, c, row)
  }

  /**
   * BuildFluence as a value: the total is Max() of the selected MU trace's
   * first array, the MLC lists are the selected ones, and there are as many
   * snapshots as list 2 has samples.
   */
  function FluenceSpec(model: MlcModel, expected: Store, actual: Store, selection: string,
                       value: Float32 -> real, cell: Float32 -> int): Result<(real, seq<Step>), FluenceError>
    requires Total(expected) && Total(actual)
  {
    var muSel := if selection == "Expected" then expected[MU] else actual[MU];
    if |muSel| == 0 || |muSel[0]| == 0 then Failure(EmptySequence)
    else
      var total := MaxValue(muSel[0], value);
      var mlc := if selection == "Expected" then expected[MLC] else actual[MLC];
      if |mlc| < 3 then Failure(MissingElement)
      else
        var steps :- Steps(model, mlc, expected[MU], total, value, cell, GridSize(model), |mlc[2]|);
        Success((total, steps))
  }

  // ---------------------------------------------------------------------------
  // Properties of the accumulation.

  /** Every step takes its MU sample from the Expected trace, even when the Actual MLC trace is used. */
  lemma {:induction false} StepsUseExpectedMU(model: MlcModel, mlc: Lists, muExp: Lists, total: real,
                                              value: Float32 -> real, cell: Float32 -> int, size: nat, n: nat, k: nat)
    requires Steps(model, mlc, muExp, total, value, cell, size, n).Success?
    requires k < n
    ensures |Steps(model, mlc, muExp, total, value, cell, size, n).value| == n
    ensures |muExp| > 0 && k < |muExp[0]| && Plan(model, mlc, k, cell, size, size).Success?
    ensures Steps(model, mlc, muExp, total, value, cell, size, n).value[k].0 == value(muExp[0][k])
    ensures Steps(model, mlc, muExp, total, value, cell, size, n).value[k].1 == Plan(model, mlc, k, cell, size, size).value
  {
    if k < n - 1 {
      StepsUseExpectedMU(model, mlc, muExp, total, value, cell, size, n - 1, k);
    } else if n > 1 {
      StepsUseExpectedMU(model, mlc, muExp, total, value, cell, size, n - 1, 0);
    }
  }

  /** A cell every snapshot covers exactly once receives the last Expected MU over the total. */
  lemma {:induction false} AlwaysOpen(steps: seq<Step>, total: real, c: int, row: int)
    requires steps != [] ==> total != 0.0
    requires forall k :: 0 <= k < |steps| ==> Coverage(steps[k].1, c, row) == 1
    ensures Dose(steps, total, c, row) == if steps == [] then 0.0 else steps[|steps| - 1].0 / total
  {
    if steps != [] {
      var n := |steps|;
      var before := if n == 1 then 0.0 else steps[n - 2].0;
      AlwaysOpen(steps[..n - 1], total, c, row);
      GainCoverage(steps[n - 1].1, steps[n - 1].0 / total - before / total, c, row);
    }
  }

  /** A cell no snapshot covers stays 0. */
  lemma {:induction false} NeverOpen(steps: seq<Step>, total: real, c: int, row: int)
    requires steps != [] ==> total != 0.0
    requires forall k :: 0 <= k < |steps| ==> Coverage(steps[k].1, c, row) == 0
    ensures Dose(steps, total, c, row) == 0.0
  {
    if steps != [] {
      var n := |steps|;
      var before := if n == 1 then 0.0 else steps[n - 2].0;
      NeverOpen(steps[..n - 1], total, c, row);
      GainCoverage(steps[n - 1].1, steps[n - 1].0 / total - before / total, c, row);
    }
  }

  /** With no snapshots the grid stays all zero, whatever the model (no leaf is ever laid out). */
  lemma ZeroSnapshots(model: MlcModel, expected: Store, actual: Store, selection: string,
                      value: Float32 -> real, cell: Float32 -> int)
    requires Total(expected) && Total(actual)
    requires var muSel := if selection == "Expected" then expected[MU] else actual[MU];
      |muSel| > 0 && |muSel[0]| > 0
    requires var mlc := if selection == "Expected" then expected[MLC] else actual[MLC];
      |mlc| >= 3 && |mlc[2]| == 0
    ensures FluenceSpec(model, expected, actual, selection, value, cell).Success?
    ensures FluenceSpec(model, expected, actual, selection, value, cell).value.1 == []
  {
  }

  /** Any other model fails at the first snapshot that reaches the leaves. */
  lemma OtherModelFails(mlc: Lists, muExp: Lists, total: real, value: Float32 -> real, cell: Float32 -> int,
                        size: nat, n: nat)
    requires 0 < n && |muExp| > 0 && 0 < |muExp[0]| && total != 0.0
    ensures Steps(OtherModel, mlc, muExp, total, value, cell, size, n) == Failure(UnsupportedModel)
  {
    StepsFailureStops(OtherModel, mlc, muExp, total, value, cell, size, 1, n);
  }

  // ---------------------------------------------------------------------------
  // The methods.

  /** The innermost loop: fluence[iii, row] += delta for iii from colStart up to colEnd. */
  method AddBand(fluence: array2<real>, b: Band, delta: real) returns (r: Result<(), FluenceError>)
    modifies fluence
    ensures r.Success? <==> BandFits(b, fluence.Length0, fluence.Length1)
    ensures r.Failure? ==> r.error == OutOfGrid
    ensures r.Success? ==> forall c, row :: 0 <= c < fluence.Length0 && 0 <= row < fluence.Length1 ==>
      fluence[c, row] == old(fluence[c, row]) + (if Covers(b, c, row) then delta else 0.0)
  {
    var iii := b.colStart;
    while iii < b.colEnd
      invariant iii == b.colStart || b.colStart < iii <= b.colEnd
      invariant iii > b.colStart ==> 0 <= b.colStart && iii <= fluence.Length0 && 0 <= b.row < fluence.Length1
      invariant forall c, row :: 0 <= c < fluence.Length0 && 0 <= row < fluence.Length1 ==>
        fluence[c, row] == old(fluence[c, row]) + (if row == b.row && b.colStart <= c < iii then delta else 0.0)
    {
      if iii < 0 || iii >= fluence.Length0 || b.row < 0 || b.row >= fluence.Length1 {
        return Failure(OutOfGrid);
      }
      fluence[iii, b.row] := fluence[iii, b.row] + delta;
      iii := iii + 1;
    }
    r := Success(());
  }

  /**
   * The row loop of one leaf: for ii while ii < bound, the band of row
   * first + ii. The bound is an integer step or the real halfStep, so the
   * loop runs count = the least integer >= bound times.
   */
  method AddRows(fluence: array2<real>, first: int, bound: real, ghost count: nat, colStart: int, colEnd: int,
                 delta: real) returns (r: Result<(), FluenceError>)
    requires count as real - 1.0 < bound <= count as real
    modifies fluence
    ensures r.Success? <==> AllFit(Rows(first, count, colStart, colEnd), fluence.Length0, fluence.Length1)
    ensures r.Failure? ==> r.error == OutOfGrid
    ensures r.Success? ==> forall c, row :: 0 <= c < fluence.Length0 && 0 <= row < fluence.Length1 ==>
      fluence[c, row] == old(fluence[c, row]) + Gain(Rows(first, count, colStart, colEnd), delta, c, row)
  {
    var ii := 0;
    while (ii as real) < bound
      invariant 0 <= ii <= count
      invariant AllFit(Rows(first, ii, colStart, colEnd), fluence.Length0, fluence.Length1)
      invariant forall c, row :: 0 <= c < fluence.Length0 && 0 <= row < fluence.Length1 ==>
        fluence[c, row] == old(fluence[c, row]) + Gain(Rows(first, ii, colStart, colEnd), delta, c, row)
    {
      var band := Band(first + ii, colStart, colEnd);
      RowsAt(first, count, colStart, colEnd, ii);
      label Before:
      r := AddBand(fluence, band, delta);
      if r.Failure? {
        return;
      }
      ghost var done := Rows(first, ii, colStart, colEnd);
      assert Rows(first, ii + 1, colStart, colEnd) == done + [band];
      AllFitAppend(done, [band], fluence.Length0, fluence.Length1);
      forall c, row | 0 <= c < fluence.Length0 && 0 <= row < fluence.Length1
        ensures fluence[c, row] == old(fluence[c, row]) + Gain(Rows(first, ii + 1, colStart, colEnd), delta, c, row)
      {
        assert old@Before(fluence[c, row]) == old(fluence[c, row]) + Gain(done, delta, c, row);
        RowsGainStep(first, ii, colStart, colEnd, delta, c, row);
      }
      ii := ii + 1;
    }
    r := Success(());
  }

  /** What one leaf method promises: the leaf's error, or its bands added to every cell they cover. */
  twostate predicate LeafAdded(leaf: Option<seq<Band>>, new r: Result<(), FluenceError>, fluence: array2<real>, delta: real)
    reads fluence
  {
    && LeafOutcome(leaf, r, fluence.Length0, fluence.Length1)
    && (r.Success? ==> forall c, row :: 0 <= c < fluence.Length0 && 0 <= row < fluence.Length1 ==>
          fluence[c, row] == old(fluence[c, row]) + Gain(leaf.value, delta, c, row))
  }

  /** A leaf fails with MissingElement when a tip is missing, with OutOfGrid when a row leaves the grid. */
  predicate LeafOutcome(leaf: Option<seq<Band>>, r: Result<(), FluenceError>, size0: nat, size1: nat)
  {
    && (r.Success? <==> leaf.Some? && AllFit(leaf.value, size0, size1))
    && (r.Failure? ==> r.error == if leaf.None? then MissingElement else OutOfGrid)
  }

  /** One more leaf in a branch's loop: the plan so far grows by the leaf, or ends with its error. */
  lemma LeafStep(model: MlcModel, mlc: Lists, cp: nat, cell: Float32 -> int, size0: nat, size1: nat,
                 i: nat, n: nat, done: seq<Band>, r: Result<(), FluenceError>)
    requires i < n
    requires PlanUpTo(model, mlc, cp, cell, size0, size1, i) == Success(done)
    requires LeafOutcome(Leaf(model, mlc, cp, cell, size0 / 2, i), r, size0, size1)
    ensures r.Failure? ==> PlanUpTo(model, mlc, cp, cell, size0, size1, n) == Failure(r.error)
    ensures r.Success? ==>
      PlanUpTo(model, mlc, cp, cell, size0, size1, i + 1) == Success(done + Leaf(model, mlc, cp, cell, size0 / 2, i).value)
  {
    if r.Failure? {
      PlanFailureStops(model, mlc, cp, cell, size0, size1, i + 1, n);
    }
  }

  /** The body of the SX2 loop for leaf pair i: six tips, five lower rows, five upper rows. */
  method AddSX2Leaf(mlc: Lists, delta: real, cp: nat, fluence: array2<real>, cell: Float32 -> int, i: nat)
    returns (r: Result<(), FluenceError>)
    modifies fluence
    ensures LeafAdded(Leaf(SX2, mlc, cp, cell, fluence.Length0 / 2, i), r, fluence, delta)
  {
    var center := fluence.Length0 / 2;
    var leaf := SX2Leaf(mlc, cp, cell, center, i);
    if leaf.None? {
      return Failure(MissingElement);
    }
    var colStart := center - LeafCell(mlc, 57 + i + 2, cp, cell).value;
    var colEnd := center + LeafCell(mlc, i + 2, cp, cell).value;
    var colAfterStart := center - LeafCell(mlc, 57 + i + 31, cp, cell).value;
    var colAfterEnd := center + LeafCell(mlc, i + 31, cp, cell).value;
    var colBeforeStart := center - LeafCell(mlc, 57 + i + 30, cp, cell).value;
    var colBeforeEnd := center + LeafCell(mlc, i + 30, cp, cell).value;
    var lowerStart := MaxInt(colStart, colBeforeStart);
    var upperStart := MaxInt(colStart, colAfterStart);
    var lowerEnd := MinInt(colEnd, colBeforeEnd);
    var upperEnd := MinInt(colEnd, colAfterEnd);
    var rowStart := i * 10;
    ghost var lower, upper := Rows(rowStart, 5, lowerStart, lowerEnd), Rows(rowStart + 5, 5, upperStart, upperEnd);
    assert leaf.value == lower + upper;
    AllFitAppend(lower, upper, fluence.Length0, fluence.Length1);
    r := AddRows(fluence, rowStart, 5.0, 5, lowerStart, lowerEnd, delta);
    if r.Failure? {
      return;
    }
    r := AddRows(fluence, rowStart + 5, 5.0, 5, upperStart, upperEnd, delta);
    if r.Success? {
      forall c, row | 0 <= c < fluence.Length0 && 0 <= row < fluence.Length1
        ensures fluence[c, row] == old(fluence[c, row]) + Gain(leaf.value, delta, c, row)
      {
        GainAppend(lower, upper, delta, c, row);
      }
    }
  }

  /** The body of the NDS loop for leaf pair i: two tips and the rows from (int)rowStart. */
  method AddNDSLeaf(model: MlcModel, mlc: Lists, delta: real, cp: nat, fluence: array2<real>, cell: Float32 -> int,
                    i: nat, rowStart: real) returns (r: Result<(), FluenceError>, next: real)
    requires model == NDS120 || model == NDS120HD
    requires rowStart == RowStart(model, i)
    modifies fluence
    ensures next == RowStart(model, i + 1)
    ensures LeafAdded(Leaf(model, mlc, cp, cell, fluence.Length0 / 2, i), r, fluence, delta)
  {
    var center := fluence.Length0 / 2;
    var x1 := LeafCell(mlc, i + 62, cp, cell);
    var x2 := LeafCell(mlc, i + 2, cp, cell);
    if x1.None? || x2.None? {
      return Failure(MissingElement), rowStart + Advance(model, i);
    }
    var colStart := center - x1.value;
    var colEnd := center + x2.value;
    var halfLeafStart := if model == NDS120 then 10 else 14;
    var halfLeafEnd := if model == NDS120 then 49 else 55;
    var step := if model == NDS120 then 10 else 5;
    var halfStep := if model == NDS120 then 5.0 else 2.5;
    if i < halfLeafStart || i > halfLeafEnd {
      r := AddRows(fluence, rowStart.Floor, step as real, step, colStart, colEnd, delta);
      next := rowStart + step as real;
    } else {
      r := AddRows(fluence, rowStart.Floor, halfStep, LeafRows(model, i), colStart, colEnd, delta);
      next := rowStart + halfStep;
    }
  }

  /** The SX2 branch: 28 leaf pairs from the bottom, ten rows each. */
  method AddSX2(mlc: Lists, delta: real, cp: nat, fluence: array2<real>, cell: Float32 -> int)
    returns (r: Result<(), FluenceError>)
    modifies fluence
    ensures var plan := Plan(SX2, mlc, cp, cell, fluence.Length0, fluence.Length1);
      && (r.Success? <==> plan.Success?)
      && (r.Failure? ==> r.error == plan.error)
      && (r.Success? ==> forall c, row :: 0 <= c < fluence.Length0 && 0 <= row < fluence.Length1 ==>
            fluence[c, row] == old(fluence[c, row]) + Gain(plan.value, delta, c, row))
  {
    ghost var done: seq<Band> := [];
    var i := 0;
    while i < 28
      invariant 0 <= i <= 28
      invariant PlanUpTo(SX2, mlc, cp, cell, fluence.Length0, fluence.Length1, i) == Success(done)
      invariant forall c, row :: 0 <= c < fluence.Length0 && 0 <= row < fluence.Length1 ==>
        fluence[c, row] == old(fluence[c, row]) + Gain(done, delta, c, row)
    {
      ghost var leaf := Leaf(SX2, mlc, cp, cell, fluence.Length0 / 2, i);
      r := AddSX2Leaf(mlc, delta, cp, fluence, cell, i);
      LeafStep(SX2, mlc, cp, cell, fluence.Length0, fluence.Length1, i, 28, done, r);
      if r.Failure? {
        return;
      }
      forall c, row | 0 <= c < fluence.Length0 && 0 <= row < fluence.Length1
        ensures fluence[c, row] == old(fluence[c, row]) + Gain(done + leaf.value, delta, c, row)
      {
        GainAppend(done, leaf.value, delta, c, row);
      }
      done := done + leaf.value;
      i := i + 1;
    }
    r := Success(());
  }

  /** The NDS120 / NDS120HD branch: 60 leaf pairs from the bottom, rowStart advancing by the leaf width. */
  method AddNDS(model: MlcModel, mlc: Lists, delta: real, cp: nat, fluence: array2<real>, cell: Float32 -> int)
    returns (r: Result<(), FluenceError>)
    requires model == NDS120 || model == NDS120HD
    modifies fluence
    ensures var plan := Plan(model, mlc, cp, cell, fluence.Length0, fluence.Length1);
      && (r.Success? <==> plan.Success?)
      && (r.Failure? ==> r.error == plan.error)
      && (r.Success? ==> forall c, row :: 0 <= c < fluence.Length0 && 0 <= row < fluence.Length1 ==>
            fluence[c, row] == old(fluence[c, row]) + Gain(plan.value, delta, c, row))
  {
    var rowStart := if model == NDS120 then 0.0 else 90.0;
    ghost var done: seq<Band> := [];
    var i := 0;
    while i < 60
      invariant 0 <= i <= 60
      invariant rowStart == RowStart(model, i)
      invariant PlanUpTo(model, mlc, cp, cell, fluence.Length0, fluence.Length1, i) == Success(done)
      invariant forall c, row :: 0 <= c < fluence.Length0 && 0 <= row < fluence.Length1 ==>
        fluence[c, row] == old(fluence[c, row]) + Gain(done, delta, c, row)
    {
      ghost var leaf := Leaf(model, mlc, cp, cell, fluence.Length0 / 2, i);
      r, rowStart := AddNDSLeaf(model, mlc, delta, cp, fluence, cell, i, rowStart);
      LeafStep(model, mlc, cp, cell, fluence.Length0, fluence.Length1, i, 60, done, r);
      if r.Failure? {
        return;
      }
      forall c, row | 0 <= c < fluence.Length0 && 0 <= row < fluence.Length1
        ensures fluence[c, row] == old(fluence[c, row]) + Gain(done + leaf.value, delta, c, row)
      {
        GainAppend(done, leaf.value, delta, c, row);
      }
      done := done + leaf.value;
      i := i + 1;
    }
    r := Success(());
  }

  /** AddFluenceFromMLCData: every cell a band of snapshot cp covers gains muCurrent - muStart per band. */
  method AddFluenceFromMLCData(model: MlcModel, mlcCollections: Lists, muStart: real, muCurrent: real, cp: nat,
                               fluence: array2<real>, cell: Float32 -> int) returns (r: Result<(), FluenceError>)
    modifies fluence
    ensures var plan := Plan(model, mlcCollections, cp, cell, fluence.Length0, fluence.Length1);
      && (r.Success? <==> plan.Success?)
      && (r.Failure? ==> r.error == plan.error)
      && (r.Success? ==> forall c, row :: 0 <= c < fluence.Length0 && 0 <= row < fluence.Length1 ==>
            fluence[c, row] == old(fluence[c, row]) + Gain(plan.value, muCurrent - muStart, c, row))
  {
    if model == SX2 {
      r := AddSX2(mlcCollections, muCurrent - muStart, cp, fluence, cell);
    } else if model == NDS120 || model == NDS120HD {
      r := AddNDS(model, mlcCollections, muCurrent - muStart, cp, fluence, cell);
    } else {
      r := Failure(UnsupportedModel);
    }
  }

  lemma DoseStep(steps: seq<Step>, total: real, mu: real, plan: seq<Band>, muStart: real, c: int, row: int)
    requires total != 0.0
    requires muStart == if steps == [] then 0.0 else steps[|steps| - 1].0
    ensures Dose(steps + [(mu, plan)], total, c, row) ==
      Dose(steps, total, c, row) + Gain(plan, mu / total - muStart / total, c, row)
  {
    assert (steps + [(mu, plan)])[..|steps|] == steps;
  }

  /** AddFluenceFromMLCData on a grid holding the dose of the earlier steps: it then holds the dose with this one. */
  method AddStep(model: MlcModel, logs: Lists, total: real, muStart: real, muCurrent: real, cp: nat,
                 fluence: array2<real>, cell: Float32 -> int, ghost steps: seq<Step>) returns (r: Result<(), FluenceError>)
    requires total != 0.0
    requires muStart == if steps == [] then 0.0 else steps[|steps| - 1].0
    requires forall c, row :: 0 <= c < fluence.Length0 && 0 <= row < fluence.Length1 ==>
      fluence[c, row] == Dose(steps, total, c, row)
    modifies fluence
    ensures var plan := Plan(model, logs, cp, cell, fluence.Length0, fluence.Length1);
      && (r.Success? <==> plan.Success?)
      && (r.Failure? ==> r.error == plan.error)
      && (r.Success? ==> forall c, row :: 0 <= c < fluence.Length0 && 0 <= row < fluence.Length1 ==>
            fluence[c, row] == Dose(steps + [(muCurrent, plan.value)], total, c, row))
  {
    r := AddFluenceFromMLCData(model, logs, muStart / total, muCurrent / total, cp, fluence, cell);
    if r.Success? {
      ghost var plan := Plan(model, logs, cp, cell, fluence.Length0, fluence.Length1).value;
      forall c, row | 0 <= c < fluence.Length0 && 0 <= row < fluence.Length1
        ensures fluence[c, row] == Dose(steps + [(muCurrent, plan)], total, c, row)
      {
        DoseStep(steps, total, muCurrent, plan, muStart, c, row);
      }
    }
  }

  /**
   * The body of BuildFluence's loop for snapshot i: read MUExp[0][i], divide
   * by the total, add the snapshot's leaves; on success muCurrent is returned.
   */
  method AddSnapshot(model: MlcModel, logs: Lists, muExp: Lists, total: real, value: Float32 -> real,
                     cell: Float32 -> int, fluence: array2<real>, i: nat, muStart: real, ghost steps: seq<Step>)
    returns (r: Result<real, FluenceError>)
    requires fluence.Length0 == fluence.Length1
    requires Steps(model, logs, muExp, total, value, cell, fluence.Length0, i) == Success(steps)
    requires |steps| == i && (i > 0 ==> total != 0.0)
    requires muStart == if i == 0 then 0.0 else steps[i - 1].0
    requires forall c, row :: 0 <= c < fluence.Length0 && 0 <= row < fluence.Length1 ==>
      fluence[c, row] == Dose(steps, total, c, row)
    modifies fluence
    ensures var next := Steps(model, logs, muExp, total, value, cell, fluence.Length0, i + 1);
      && (r.Failure? ==> next == Failure(r.error))
      && (r.Success? ==>
            && next.Success? && next.value == steps + [(r.value, Plan(model, logs, i, cell, fluence.Length0, fluence.Length0).value)]
            && total != 0.0
            && forall c, row :: 0 <= c < fluence.Length0 && 0 <= row < fluence.Length1 ==>
                 fluence[c, row] == Dose(next.value, total, c, row))
  {
    if |muExp| == 0 || i >= |muExp[0]| {
      return Failure(MissingElement);
    }
    var muCurrent := value(muExp[0][i]);
    if total == 0.0 {
      return Failure(ZeroTotalMU);
    }
    var added := AddStep(model, logs, total, muStart, muCurrent, i, fluence, cell, steps);
    if added.Failure? {
      return Failure(added.error);
    }
    r := Success(muCurrent);
  }

  /** BuildFluence's loop over the snapshots of MLC list 2, on a zeroed grid. */
  method Accumulate(model: MlcModel, logs: Lists, muExp: Lists, total: real, value: Float32 -> real,
                    cell: Float32 -> int, fluence: array2<real>) returns (r: Result<(), FluenceError>)
    requires |logs| >= 3 && fluence.Length0 == fluence.Length1
    requires forall c, row :: 0 <= c < fluence.Length0 && 0 <= row < fluence.Length1 ==> fluence[c, row] == 0.0
    modifies fluence
    ensures var steps := Steps(model, logs, muExp, total, value, cell, fluence.Length0, |logs[2]|);
      && (r.Success? <==> steps.Success?)
      && (r.Failure? ==> r.error == steps.error)
      && (r.Success? ==>
            && (steps.value != [] ==> total != 0.0)
            && forall c, row :: 0 <= c < fluence.Length0 && 0 <= row < fluence.Length1 ==>
                 fluence[c, row] == Dose(steps.value, total, c, row))
  {
    var size := fluence.Length0;
    var muStart := 0.0;
    ghost var steps: seq<Step> := [];
    var i := 0;
    while i < |logs[2]|
      invariant 0 <= i <= |logs[2]|
      invariant Steps(model, logs, muExp, total, value, cell, size, i) == Success(steps)
      invariant |steps| == i && (i > 0 ==> total != 0.0)
      invariant muStart == if i == 0 then 0.0 else steps[i - 1].0
      invariant forall c, row :: 0 <= c < size && 0 <= row < size ==> fluence[c, row] == Dose(steps, total, c, row)
    {
      var next := AddSnapshot(model, logs, muExp, total, value, cell, fluence, i, muStart, steps);
      if next.Failure? {
        StepsFailureStops(model, logs, muExp, total, value, cell, size, i + 1, |logs[2]|);
        return Failure(next.error);
      }
      var muCurrent := next.value;
      steps := steps + [(muCurrent, Plan(model, logs, i, cell, size, size).value)];
      muStart := muCurrent;
      i := i + 1;
    }
    r := Success(());
  }

  /**
   * BuildFluence: a fresh 400 x 400 (280 x 280 for SX2) grid holding, at
   * every cell, the dose of FluenceSpec's steps; or FluenceSpec's error.
   */
  method BuildFluence(axisData: AD.AxisData, model: MlcModel, selection: string,
                      value: Float32 -> real, cell: Float32 -> int) returns (r: Result<array2<real>, FluenceError>)
    requires axisData.Valid()
    ensures var spec := FluenceSpec(model, axisData.expected, axisData.actual, selection, value, cell);
      && (r.Success? <==> spec.Success?)
      && (r.Failure? ==> r.error == spec.error)
      && (r.Success? ==>
            && fresh(r.value)
            && r.value.Length0 == GridSize(model) && r.value.Length1 == GridSize(model)
            && (spec.value.1 != [] ==> spec.value.0 != 0.0)
            && forall c, row :: 0 <= c < GridSize(model) && 0 <= row < GridSize(model) ==>
                 r.value[c, row] == Dose(spec.value.1, spec.value.0, c, row))
  {
    var size := GridSize(model);
    var fluence := new real[size, size]((_, _) => 0.0);
    var muSel := if selection == "Expected" then axisData.expected[MU] else axisData.actual[MU];
    if |muSel| == 0 || |muSel[0]| == 0 {
      return Failure(EmptySequence);
    }
    var total := MaxValue(muSel[0], value);
    var logs := if selection == "Expected" then axisData.expected[MLC] else axisData.actual[MLC];
    if |logs| < 3 {
      return Failure(MissingElement);
    }
    var added := Accumulate(model, logs, axisData.expected[MU], total, value, cell, fluence);
    if added.Failure? {
      return Failure(added.error);
    }
    r := Success(fluence);
  }
}
