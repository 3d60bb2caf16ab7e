/**
 The dense accumulator: running counts and sums kept in pre-allocated
 (ntime, nx, ny) arrays, and the in-place normalizer that turns sums into
 means and marks cells without samples as missing.
 */
module DenseAccumulator {
  import opened Wrappers
  import opened GridGeometry
  import opened Swath

  /** Adding to a data cell: a missing (NaN) cell stays missing. */
  function Plus(d: Option<real>, v: real): (r: Option<real>)
    ensures r.Some? <==> d.Some?
  {
    match d
    case None => None
    case Some(x) => Some(x + v)
  }

  /** The value normalization leaves in a cell with running sum d and count n. */
  function NormalizedCell(d: Option<real>, n: nat): (r: Option<real>)
    ensures r.Some? <==> n > 0 && d.Some?
  {
    if n == 0 then None
    else match d
      case None => None
      case Some(x) => Some(x / (n as real))
  }

  /** Normalization is not idempotent: normalizing a cell with count above 1 and a
      non-zero sum a second time changes its value. */
  lemma NormalizedCellTwiceDiffers(x: real, n: nat)
    requires n > 1 && x != 0.0
    ensures NormalizedCell(NormalizedCell(Some(x), n), n) != NormalizedCell(Some(x), n)
  {
    var k := n as real;
    var m := x / k;
    assert m * k == x;
    assert m / k != m by {
      if m / k == m {
        assert m * k == (m / k) * k;
        assert (m / k) * k == m;
        ProductNonZero(m, k - 1.0);
      }
    }
  }

  /** Both arrays have the shape (ntime, nx, ny) of the grid. */
  predicate GridShaped(g: Grid, count: array3<nat>, data: array3<Option<real>>)
    requires g.Valid()
  {
    count.Length0 == g.NTime() && count.Length1 == g.NX() && count.Length2 == g.NY() &&
    data.Length0 == g.NTime() && data.Length1 == g.NX() && data.Length2 == g.NY()
  }

  lemma HitsSnoc(ss: seq<Sample>, s: Sample, c: Cell)
    ensures Hits(ss + [s], c) == Hits(ss, c) + (if s.cell == c then 1 else 0)
    ensures HitSum(ss + [s], c) == HitSum(ss, c) + (if s.cell == c then s.value else 0.0)
  {
    assert (ss + [s])[..|ss|] == ss;
  }

  /** Between the old and the current state, the samples of after beyond those of
      before have been added: each count grew by their hits on its cell, each present
      data cell by their values there, and a missing data cell stayed missing. */
  twostate predicate Added(count: array3<nat>, data: array3<Option<real>>, before: seq<Sample>, after: seq<Sample>)
    reads count, data
  {
    count.Length0 == data.Length0 && count.Length1 == data.Length1 && count.Length2 == data.Length2 &&
    (forall p, q, r :: 0 <= p < count.Length0 && 0 <= q < count.Length1 && 0 <= r < count.Length2 ==>
       count[p, q, r] + Hits(before, (p, q, r)) == old(count[p, q, r]) + Hits(after, (p, q, r))) &&
    (forall p, q, r :: 0 <= p < data.Length0 && 0 <= q < data.Length1 && 0 <= r < data.Length2 ==>
       data[p, q, r].None? == old(data[p, q, r]).None?) &&
    (forall p, q, r ::
       (0 <= p < data.Length0 && 0 <= q < data.Length1 && 0 <= r < data.Length2 && data[p, q, r].Some?) ==>
       data[p, q, r].value + HitSum(before, (p, q, r)) == old(data[p, q, r]).value + HitSum(after, (p, q, r)))
  }

  /** update_data_grid: every valid sample adds 1 to the count and its value to the sum
      of its cell; a cell no sample hits keeps its count and its sum. */
  method UpdateDense(g: Grid, b: Batch, count: array3<nat>, data: array3<Option<real>>)
    requires g.Valid() && b.WellShaped() && GridShaped(g, count, data)
    modifies count, data
    ensures forall p, q, r :: 0 <= p < count.Length0 && 0 <= q < count.Length1 && 0 <= r < count.Length2 ==>
              count[p, q, r] == old(count[p, q, r]) + Hits(Samples(g, b), (p, q, r)) &&
              data[p, q, r] == Plus(old(data[p, q, r]), HitSum(Samples(g, b), (p, q, r)))
    ensures forall p, q, r ::
              (0 <= p < count.Length0 && 0 <= q < count.Length1 && 0 <= r < count.Length2 &&
               Hits(Samples(g, b), (p, q, r)) == 0) ==>
              count[p, q, r] == old(count[p, q, r]) && data[p, q, r] == old(data[p, q, r])
  {
    ghost var seen: seq<Sample> := [];
    for i := 0 to b.Rows()
      invariant seen == PrefixSamples(g, b, i)
      invariant Added(count, data, [], seen)
    {
      AddRowDense(g, b, i, count, data, seen);
      seen := seen + RowContribution(g, b, i);
    }
    assert seen == Samples(g, b);
    forall p, q, r | 0 <= p < count.Length0 && 0 <= q < count.Length1 && 0 <= r < count.Length2
      ensures count[p, q, r] == old(count[p, q, r]) + Hits(seen, (p, q, r))
      ensures data[p, q, r] == Plus(old(data[p, q, r]), HitSum(seen, (p, q, r)))
      ensures Hits(seen, (p, q, r)) == 0 ==> count[p, q, r] == old(count[p, q, r]) && data[p, q, r] == old(data[p, q, r])
    {
      if Hits(seen, (p, q, r)) == 0 {
        NoHitsNoSum(seen, (p, q, r));
      }
    }
  }

  /** One row of update_data_grid: a row whose values are all missing is skipped,
      any other one goes through the column loop. */
  method AddRowDense(g: Grid, b: Batch, i: nat, count: array3<nat>, data: array3<Option<real>>,
                     ghost seen: seq<Sample>)
    requires g.Valid() && b.WellShaped() && i < b.Rows() && GridShaped(g, count, data)
    modifies count, data
    ensures Added(count, data, seen, seen + RowContribution(g, b, i))
  {
    ghost var row := RowContribution(g, b, i);
    if !AllMissing(b.data[i]) {
      UpdateDenseRow(g, b, i, count, data);
    }
    forall p, q, r | 0 <= p < count.Length0 && 0 <= q < count.Length1 && 0 <= r < count.Length2
      ensures Hits(seen + row, (p, q, r)) == Hits(seen, (p, q, r)) + Hits(row, (p, q, r))
      ensures HitSum(seen + row, (p, q, r)) == HitSum(seen, (p, q, r)) + HitSum(row, (p, q, r))
    {
      HitsAppend(seen, row, (p, q, r));
    }
  }

  /** The column loop of update_data_grid over row i, which holds some value. */
  method UpdateDenseRow(g: Grid, b: Batch, i: nat, count: array3<nat>, data: array3<Option<real>>)
    requires g.Valid() && b.WellShaped() && i < b.Rows() && GridShaped(g, count, data)
    modifies count, data
    ensures Added(count, data, [], RowSamples(g, b, i, b.cols))
  {
    var ntime := data.Length0;
    var iTime := ((b.time[i] - g.timeEdges[0]) / Width(g.timeEdges)).Floor;
    ghost var seen: seq<Sample> := [];
    for j := 0 to b.cols
      invariant Clip(iTime, 0, ntime - 1) == AxisIndex(b.time[i], g.timeEdges)
      invariant seen == RowSamples(g, b, i, j)
      invariant Added(count, data, [], seen)
    {
      if b.data[i][j].Some? {
        iTime := AddPixelDense(g, b, i, j, iTime, count, data);
      } else {
        assert RowSamples(g, b, i, j + 1) == seen;
      }
      seen := RowSamples(g, b, i, j + 1);
    }
  }

  /** The body of the column loop for a pixel holding a value: clip the row's time
      bin, bin the pixel and add its value to that cell. */
  method AddPixelDense(g: Grid, b: Batch, i: nat, j: nat, iTime: int,
                       count: array3<nat>, data: array3<Option<real>>) returns (iTimeOut: int)
    requires g.Valid() && b.WellShaped() && i < b.Rows() && j < b.cols && GridShaped(g, count, data)
    requires b.data[i][j].Some?
    requires Clip(iTime, 0, data.Length0 - 1) == AxisIndex(b.time[i], g.timeEdges)
    modifies count, data
    ensures iTimeOut == AxisIndex(b.time[i], g.timeEdges)
    ensures Added(count, data, RowSamples(g, b, i, j), RowSamples(g, b, i, j + 1))
  {
    var v := b.data[i][j].value;
    var iX := ((b.x[i][j] - g.xEdges[0]) / Width(g.xEdges)).Floor;
    var iY := ((b.y[i][j] - g.yEdges[0]) / Width(g.yEdges)).Floor;
    iTimeOut := Clip(iTime, 0, data.Length0 - 1);
    iX := Clip(iX, 0, data.Length1 - 1);
    iY := Clip(iY, 0, data.Length2 - 1);
    var cell := (iTimeOut, iX, iY);
    ghost var s := Sample(i, j, cell, v);
    assert RowSamples(g, b, i, j + 1) == RowSamples(g, b, i, j) + [s];
    AddToCellDense(count, data, cell, v, RowSamples(g, b, i, j), s);
  }

  /** One sample s into its cell key: +1 on the count and +value on a present sum. */
  method AddToCellDense(count: array3<nat>, data: array3<Option<real>>, key: Cell, v: real,
                        ghost seen: seq<Sample>, ghost s: Sample)
    requires count.Length0 == data.Length0 && count.Length1 == data.Length1 && count.Length2 == data.Length2
    requires 0 <= key.0 < count.Length0 && 0 <= key.1 < count.Length1 && 0 <= key.2 < count.Length2
    requires s.cell == key && s.value == v
    modifies count, data
    ensures Added(count, data, seen, seen + [s])
  {
    count[key.0, key.1, key.2] := count[key.0, key.1, key.2] + 1;
    data[key.0, key.1, key.2] := Plus(data[key.0, key.1, key.2], v);
    forall p, q, r | 0 <= p < count.Length0 && 0 <= q < count.Length1 && 0 <= r < count.Length2
      ensures Hits(seen + [s], (p, q, r)) == Hits(seen, (p, q, r)) + (if key == (p, q, r) then 1 else 0)
      ensures HitSum(seen + [s], (p, q, r)) == HitSum(seen, (p, q, r)) + (if key == (p, q, r) then v else 0.0)
    {
      HitsSnoc(seen, s, (p, q, r));
    }
  }

  /** normalize_data_grid: a cell with count 0 becomes missing, a cell with a positive
      count holds its sum divided by the count; the counts are left alone. */
  method NormalizeDense(count: array3<nat>, data: array3<Option<real>>)
    requires count.Length0 == data.Length0 && count.Length1 == data.Length1 && count.Length2 == data.Length2
    modifies data
    ensures forall p, q, r :: 0 <= p < data.Length0 && 0 <= q < data.Length1 && 0 <= r < data.Length2 ==>
              data[p, q, r] == NormalizedCell(old(data[p, q, r]), count[p, q, r])
    ensures forall p, q, r :: 0 <= p < data.Length0 && 0 <= q < data.Length1 && 0 <= r < data.Length2 ==>
              (count[p, q, r] == 0 ==> data[p, q, r].None?) &&
              (count[p, q, r] > 0 && old(data[p, q, r]).Some? ==>
                 data[p, q, r] == Some(old(data[p, q, r]).value / (count[p, q, r] as real)))
  {
    for p := 0 to data.Length0
      invariant forall p', q, r :: 0 <= p' < data.Length0 && 0 <= q < data.Length1 && 0 <= r < data.Length2 ==>
                  data[p', q, r] == if p' < p then NormalizedCell(old(data[p', q, r]), count[p', q, r])
                                    else old(data[p', q, r])
    {
      NormalizeSlab(count, data, p);
    }
  }

  /** Normalizes every cell of time slab p, leaving the rest of the array alone. */
  method NormalizeSlab(count: array3<nat>, data: array3<Option<real>>, p: nat)
    requires count.Length0 == data.Length0 && count.Length1 == data.Length1 && count.Length2 == data.Length2
    requires p < data.Length0
    modifies data
    ensures forall p', q, r :: 0 <= p' < data.Length0 && 0 <= q < data.Length1 && 0 <= r < data.Length2 ==>
              data[p', q, r] == if p' == p then NormalizedCell(old(data[p', q, r]), count[p', q, r])
                                else old(data[p', q, r])
  {
    for q := 0 to data.Length1
      invariant forall p', q', r :: 0 <= p' < data.Length0 && 0 <= q' < data.Length1 && 0 <= r < data.Length2 ==>
                  data[p', q', r] == if p' == p && q' < q then NormalizedCell(old(data[p', q', r]), count[p', q', r])
                                     else old(data[p', q', r])
    {
      for r := 0 to data.Length2
        invariant forall p', q', r' :: 0 <= p' < data.Length0 && 0 <= q' < data.Length1 && 0 <= r' < data.Length2 ==>
                    data[p', q', r'] == if p' == p && (q' < q || (q' == q && r' < r))
                                        then NormalizedCell(old(data[p', q', r']), count[p', q', r'])
                                        else old(data[p', q', r'])
      {
        data[p, q, r] := NormalizedCell(data[p, q, r], count[p, q, r]);
      }
    }
  }
}
