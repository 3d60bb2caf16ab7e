/**
 A batch of swath observations (one time per scan row, x/y/value per pixel)
 and the ordered list of valid samples that both accumulators visit: rows in
 order, skipping a row whose values are all missing, then columns in order,
 skipping a missing value.
 */
module Swath {
  import opened Wrappers
  import opened GridGeometry

  /** time[i] is the scan time of row i; x, y and data are (rows, cols) arrays;
      None in data stands for a missing (NaN) value. */
  datatype Batch = Batch(cols: nat, time: seq<real>, x: seq<seq<real>>, y: seq<seq<real>>,
                         data: seq<seq<Option<real>>>)
  {
    function Rows(): nat { |data| }

    /** time, x, y and data agree on their (rows, cols) shape. */
    predicate WellShaped()
    {
      |time| == |data| && |x| == |data| && |y| == |data| &&
      forall i :: 0 <= i < |data| ==> |data[i]| == cols && |x[i]| == cols && |y[i]| == cols
    }
  }

  /** One valid sample: where it came from, the cell it is binned into, its value. */
  datatype Sample = Sample(row: nat, col: nat, cell: Cell, value: real)

  /** Every value of the row is missing. */
  predicate AllMissing(row: seq<Option<real>>)
  {
    forall j :: 0 <= j < |row| ==> row[j].None?
  }

  /** The cell of pixel (i, j): the row's time bin and the pixel's x and y bins. */
  function CellOf(g: Grid, b: Batch, i: nat, j: nat): (c: Cell)
    requires g.Valid() && b.WellShaped() && i < b.Rows() && j < b.cols
    ensures g.Contains(c)
  {
    (AxisIndex(b.time[i], g.timeEdges), AxisIndex(b.x[i][j], g.xEdges), AxisIndex(b.y[i][j], g.yEdges))
  }

  /** The valid samples among the first m pixels of row i, in column order. */
  function RowSamples(g: Grid, b: Batch, i: nat, m: nat): seq<Sample>
    requires g.Valid() && b.WellShaped() && i < b.Rows() && m <= b.cols
  {
    if m == 0 then []
    else
      RowSamples(g, b, i, m - 1) +
      match b.data[i][m - 1]
      case None => []
      case Some(v) => [Sample(i, m - 1, CellOf(g, b, i, m - 1), v)]
  }

  /** The valid samples of row i, or none when the whole row is missing. */
  function RowContribution(g: Grid, b: Batch, i: nat): seq<Sample>
    requires g.Valid() && b.WellShaped() && i < b.Rows()
  {
    if AllMissing(b.data[i]) then [] else RowSamples(g, b, i, b.cols)
  }

  /** The valid samples of the first n rows, in traversal order. */
  function PrefixSamples(g: Grid, b: Batch, n: nat): seq<Sample>
    requires g.Valid() && b.WellShaped() && n <= b.Rows()
  {
    if n == 0 then [] else PrefixSamples(g, b, n - 1) + RowContribution(g, b, n - 1)
  }

  /** All valid samples of the batch, in the order the accumulators visit them. */
  function Samples(g: Grid, b: Batch): seq<Sample>
    requires g.Valid() && b.WellShaped()
  {
    PrefixSamples(g, b, b.Rows())
  }

  /** A sample taken from pixel (row, col) of the batch: that pixel holds its value
      and it is binned into that pixel's cell. */
  predicate FromBatch(g: Grid, b: Batch, s: Sample)
    requires g.Valid() && b.WellShaped()
  {
    s.row < b.Rows() && s.col < b.cols &&
    b.data[s.row][s.col] == Some(s.value) && s.cell == CellOf(g, b, s.row, s.col)
  }

  // ---------------------------------------------------------------------------
  // Reference counts of the batch, independent of the traversal

  /** Number of non-missing values in a row. */
  function PresentCount(row: seq<Option<real>>): nat
  {
    if row == [] then 0 else (if row[0].Some? then 1 else 0) + PresentCount(row[1..])
  }

  /** Sum of the non-missing values in a row. */
  function PresentSum(row: seq<Option<real>>): real
  {
    if row == [] then 0.0 else (if row[0].Some? then row[0].value else 0.0) + PresentSum(row[1..])
  }

  /** Number of non-missing values in a (rows, cols) array. */
  function PresentCountAll(data: seq<seq<Option<real>>>): nat
  {
    if data == [] then 0 else PresentCount(data[0]) + PresentCountAll(data[1..])
  }

  /** Sum of the non-missing values in a (rows, cols) array. */
  function PresentSumAll(data: seq<seq<Option<real>>>): real
  {
    if data == [] then 0.0 else PresentSum(data[0]) + PresentSumAll(data[1..])
  }

  /** Sum of the sample values. */
  function ValueSum(ss: seq<Sample>): real
  {
    if ss == [] then 0.0 else ValueSum(ss[..|ss| - 1]) + ss[|ss| - 1].value
  }

  /** Number of samples binned into cell c. */
  function Hits(ss: seq<Sample>, c: Cell): nat
  {
    if ss == [] then 0 else Hits(ss[..|ss| - 1], c) + (if ss[|ss| - 1].cell == c then 1 else 0)
  }

  /** Sum of the values of the samples binned into cell c. */
  function HitSum(ss: seq<Sample>, c: Cell): real
  {
    if ss == [] then 0.0 else HitSum(ss[..|ss| - 1], c) + (if ss[|ss| - 1].cell == c then ss[|ss| - 1].value else 0.0)
  }

  // ---------------------------------------------------------------------------
  // Lemmas

  lemma {:induction false} ValueSumAppend(s: seq<Sample>, t: seq<Sample>)
    ensures ValueSum(s + t) == ValueSum(s) + ValueSum(t)
    decreases |t|
  {
    if t == [] {
      assert s + t == s;
    } else {
      assert (s + t)[..|s + t| - 1] == s + t[..|t| - 1];
      ValueSumAppend(s, t[..|t| - 1]);
    }
  }

  lemma {:induction false} HitsAppend(s: seq<Sample>, t: seq<Sample>, c: Cell)
    ensures Hits(s + t, c) == Hits(s, c) + Hits(t, c)
    ensures HitSum(s + t, c) == HitSum(s, c) + HitSum(t, c)
    decreases |t|
  {
    if t == [] {
      assert s + t == s;
    } else {
      assert (s + t)[..|s + t| - 1] == s + t[..|t| - 1];
      HitsAppend(s, t[..|t| - 1], c);
    }
  }

  /** A cell no sample hits gets no value either. */
  lemma {:induction false} NoHitsNoSum(ss: seq<Sample>, c: Cell)
    requires Hits(ss, c) == 0
    ensures HitSum(ss, c) == 0.0
  {
    if ss != [] {
      NoHitsNoSum(ss[..|ss| - 1], c);
    }
  }

  /** Every sample comes from a non-missing pixel of row i and carries that pixel's cell. */
  lemma {:induction false} RowSamplesSound(g: Grid, b: Batch, i: nat, m: nat)
    requires g.Valid() && b.WellShaped() && i < b.Rows() && m <= b.cols
    ensures forall k :: 0 <= k < |RowSamples(g, b, i, m)| ==>
              FromBatch(g, b, RowSamples(g, b, i, m)[k]) &&
              RowSamples(g, b, i, m)[k].row == i && RowSamples(g, b, i, m)[k].col < m
  {
    if m > 0 {
      RowSamplesSound(g, b, i, m - 1);
    }
  }

  /** Every non-missing pixel among the first m of row i yields a sample. */
  lemma {:induction false} RowSamplesComplete(g: Grid, b: Batch, i: nat, m: nat, j: nat)
    requires g.Valid() && b.WellShaped() && i < b.Rows() && j < m <= b.cols
    requires b.data[i][j].Some?
    ensures Sample(i, j, CellOf(g, b, i, j), b.data[i][j].value) in RowSamples(g, b, i, m)
  {
    if j < m - 1 {
      RowSamplesComplete(g, b, i, m - 1, j);
    }
  }

  /** Skipping a wholly missing row is only a shortcut: its column loop would add nothing. */
  lemma {:induction false} AllMissingRowAddsNothing(g: Grid, b: Batch, i: nat, m: nat)
    requires g.Valid() && b.WellShaped() && i < b.Rows() && m <= b.cols
    requires AllMissing(b.data[i])
    ensures RowSamples(g, b, i, m) == []
  {
    if m > 0 {
      AllMissingRowAddsNothing(g, b, i, m - 1);
    }
  }

  /** Hence the contribution of row i is exactly its column-by-column samples. */
  lemma RowContributionIsRowSamples(g: Grid, b: Batch, i: nat)
    requires g.Valid() && b.WellShaped() && i < b.Rows()
    ensures RowContribution(g, b, i) == RowSamples(g, b, i, b.cols)
  {
    if AllMissing(b.data[i]) {
      AllMissingRowAddsNothing(g, b, i, b.cols);
    }
  }

  /** Every sample of the batch comes from a non-missing pixel and carries its cell,
      which lies inside the grid. */
  lemma {:induction false} SamplesSound(g: Grid, b: Batch, n: nat)
    requires g.Valid() && b.WellShaped() && n <= b.Rows()
    ensures forall k :: 0 <= k < |PrefixSamples(g, b, n)| ==>
              FromBatch(g, b, PrefixSamples(g, b, n)[k]) && PrefixSamples(g, b, n)[k].row < n &&
              g.Contains(PrefixSamples(g, b, n)[k].cell)
  {
    if n > 0 {
      SamplesSound(g, b, n - 1);
      RowContributionIsRowSamples(g, b, n - 1);
      RowSamplesSound(g, b, n - 1, b.cols);
      var p := PrefixSamples(g, b, n - 1);
      var r := RowContribution(g, b, n - 1);
      assert PrefixSamples(g, b, n) == p + r;
      forall k | 0 <= k < |p + r|
        ensures FromBatch(g, b, (p + r)[k]) && (p + r)[k].row < n && g.Contains((p + r)[k].cell)
      {
        if k < |p| {
          assert (p + r)[k] == p[k];
        } else {
          assert (p + r)[k] == r[k - |p|];
        }
      }
    }
  }

  /** Every non-missing pixel of the first n rows yields a sample. */
  lemma {:induction false} SamplesComplete(g: Grid, b: Batch, n: nat, i: nat, j: nat)
    requires g.Valid() && b.WellShaped() && i < n <= b.Rows() && j < b.cols
    requires b.data[i][j].Some?
    ensures Sample(i, j, CellOf(g, b, i, j), b.data[i][j].value) in PrefixSamples(g, b, n)
  {
    if i == n - 1 {
      RowContributionIsRowSamples(g, b, i);
      RowSamplesComplete(g, b, i, b.cols, j);
    } else {
      SamplesComplete(g, b, n - 1, i, j);
    }
  }

  lemma {:induction false} RowSamplesCount(g: Grid, b: Batch, i: nat, m: nat)
    requires g.Valid() && b.WellShaped() && i < b.Rows() && m <= b.cols
    ensures |RowSamples(g, b, i, m)| == PresentCount(b.data[i][..m])
    ensures ValueSum(RowSamples(g, b, i, m)) == PresentSum(b.data[i][..m])
  {
    if m > 0 {
      RowSamplesCount(g, b, i, m - 1);
      var row := b.data[i][..m];
      assert b.data[i][..m - 1] == row[..m - 1];
      PresentSnoc(row);
      ValueSumAppend(RowSamples(g, b, i, m - 1),
                     match b.data[i][m - 1]
                     case None => []
                     case Some(v) => [Sample(i, m - 1, CellOf(g, b, i, m - 1), v)]);
    } else {
      assert b.data[i][..m] == [];
    }
  }

  lemma {:induction false} PresentSnoc(row: seq<Option<real>>)
    requires row != []
    ensures PresentCount(row) == PresentCount(row[..|row| - 1]) + (if row[|row| - 1].Some? then 1 else 0)
    ensures PresentSum(row) == PresentSum(row[..|row| - 1]) + (if row[|row| - 1].Some? then row[|row| - 1].value else 0.0)
  {
    if |row| > 1 {
      PresentSnoc(row[1..]);
      assert row[1..][..|row[1..]| - 1] == row[..|row| - 1][1..];
    }
  }

  lemma {:induction false} PresentAllSnoc(data: seq<seq<Option<real>>>)
    requires data != []
    ensures PresentCountAll(data) == PresentCountAll(data[..|data| - 1]) + PresentCount(data[|data| - 1])
    ensures PresentSumAll(data) == PresentSumAll(data[..|data| - 1]) + PresentSum(data[|data| - 1])
  {
    if |data| > 1 {
      PresentAllSnoc(data[1..]);
      assert data[1..][..|data[1..]| - 1] == data[..|data| - 1][1..];
    }
  }

  /** The batch yields exactly one sample per non-missing value, and the sample
      values add up to the sum of the non-missing values. */
  lemma {:induction false} SamplesCount(g: Grid, b: Batch, n: nat)
    requires g.Valid() && b.WellShaped() && n <= b.Rows()
    ensures |PrefixSamples(g, b, n)| == PresentCountAll(b.data[..n])
    ensures ValueSum(PrefixSamples(g, b, n)) == PresentSumAll(b.data[..n])
  {
    if n == 0 {
      assert b.data[..n] == [];
    } else {
      SamplesCount(g, b, n - 1);
      assert b.data[..n][..n - 1] == b.data[..n - 1];
      PresentAllSnoc(b.data[..n]);
      RowContributionIsRowSamples(g, b, n - 1);
      RowSamplesCount(g, b, n - 1, b.cols);
      assert b.data[n - 1][..b.cols] == b.data[n - 1];
      ValueSumAppend(PrefixSamples(g, b, n - 1), RowContribution(g, b, n - 1));
    }
  }

  /** A batch whose values are all missing yields no sample at all. */
  lemma {:induction false} AllMissingBatchNoSamples(g: Grid, b: Batch, n: nat)
    requires g.Valid() && b.WellShaped() && n <= b.Rows()
    requires forall i :: 0 <= i < b.Rows() ==> AllMissing(b.data[i])
    ensures PrefixSamples(g, b, n) == []
  {
    if n > 0 {
      AllMissingBatchNoSamples(g, b, n - 1);
    }
  }
}
