/**
 Worked examples of the swath gridder on small grids.
 */
module GridScenarios {
  import opened Wrappers
  import opened GridGeometry
  import opened Swath
  import opened SparseAccumulator
  import opened DenseAccumulator

  /** A 2 x 2 x 2 grid: time edges 0, 1, 2; x edges 0, 10, 20; y edges 0, 5, 10. */
  const SmallGrid := Grid([0.0, 1.0, 2.0], [0.0, 10.0, 20.0], [0.0, 5.0, 10.0])

  /** One scan row at time 0.5 with pixels (5, 2) holding 10 and (15, 8) holding 20. */
  const TwoPixels := Batch(2, [0.5], [[5.0, 15.0]], [[2.0, 8.0]], [[Some(10.0), Some(20.0)]])

  /** The two pixels land in cells (0, 0, 0) and (0, 1, 1), in that order. */
  lemma TwoPixelsSamples()
    ensures SmallGrid.Valid() && TwoPixels.WellShaped()
    ensures Samples(SmallGrid, TwoPixels) ==
              [Sample(0, 0, (0, 0, 0), 10.0), Sample(0, 1, (0, 1, 1), 20.0)]
  {
    var g, b := SmallGrid, TwoPixels;
    assert AxisIndex(0.5, g.timeEdges) == 0 by { BinIndexExact(0.5, 0.0, 1.0, 2, 0); }
    assert AxisIndex(5.0, g.xEdges) == 0 by { BinIndexExact(5.0, 0.0, 10.0, 2, 0); }
    assert AxisIndex(15.0, g.xEdges) == 1 by { BinIndexExact(15.0, 0.0, 10.0, 2, 1); }
    assert AxisIndex(2.0, g.yEdges) == 0 by { BinIndexExact(2.0, 0.0, 5.0, 2, 0); }
    assert AxisIndex(8.0, g.yEdges) == 1 by { BinIndexExact(8.0, 0.0, 5.0, 2, 1); }
    assert b.data[0][0] == Some(10.0);
    assert RowSamples(g, b, 0, 1) == [Sample(0, 0, (0, 0, 0), 10.0)];
  }

  /** Through the dense path: the same two cells are hit once, with sums 10 and 20,
      and every other cell is never hit. */
  lemma TwoPixelsDense(c: Cell)
    ensures SmallGrid.Valid() && TwoPixels.WellShaped()
    ensures Hits(Samples(SmallGrid, TwoPixels), c) == (if c == (0, 0, 0) || c == (0, 1, 1) then 1 else 0)
    ensures HitSum(Samples(SmallGrid, TwoPixels), c) ==
              (if c == (0, 0, 0) then 10.0 else if c == (0, 1, 1) then 20.0 else 0.0)
  {
    TwoPixelsSamples();
    var s0, s1 := Sample(0, 0, (0, 0, 0), 10.0), Sample(0, 1, (0, 1, 1), 20.0);
    assert [] + [s0] == [s0] && [s0] + [s1] == [s0, s1];
    HitsSnoc([], s0, c);
    HitsSnoc([s0], s1, c);
  }

  /** Through the sparse path: exactly those two cells are keys, each with a count of 1,
      holding the means 10 and 20; every other cell materializes as missing. */
  lemma TwoPixelsSparse(c: Cell)
    ensures SmallGrid.Valid() && TwoPixels.WellShaped()
    ensures Consistent(AddAll(Empty, Samples(SmallGrid, TwoPixels)))
    ensures CountAt(Normalized(AddAll(Empty, Samples(SmallGrid, TwoPixels))), c) ==
              (if c == (0, 0, 0) || c == (0, 1, 1) then 1 else 0)
    ensures Materialized(Normalized(AddAll(Empty, Samples(SmallGrid, TwoPixels))), c) ==
              (if c == (0, 0, 0) then Some(10.0) else if c == (0, 1, 1) then Some(20.0) else None)
  {
    TwoPixelsDense(c);
    TwoHitsSparse(Samples(SmallGrid, TwoPixels), c);
  }

  /** The sparse reading of the two-pixel hit pattern, for any sample list that has it. */
  lemma TwoHitsSparse(ss: seq<Sample>, c: Cell)
    requires Hits(ss, c) == (if c == (0, 0, 0) || c == (0, 1, 1) then 1 else 0)
    requires HitSum(ss, c) == (if c == (0, 0, 0) then 10.0 else if c == (0, 1, 1) then 20.0 else 0.0)
    ensures Consistent(AddAll(Empty, ss))
    ensures CountAt(Normalized(AddAll(Empty, ss)), c) == (if c == (0, 0, 0) || c == (0, 1, 1) then 1 else 0)
    ensures Materialized(Normalized(AddAll(Empty, ss)), c) ==
              (if c == (0, 0, 0) then Some(10.0) else if c == (0, 1, 1) then Some(20.0) else None)
  {
    NormalizedMeans(ss, c);
    var a := Normalized(AddAll(Empty, ss));
    if Hits(ss, c) == 1 {
      assert c in a.sums && a.counts[c] == 1;
      assert a.sums[c] == HitSum(ss, c) / 1.0;
    } else {
      assert c !in a.sums && c !in a.counts;
    }
  }

  /** Two samples of 4 and 6 in one cell: the count is 2 and the mean 5, on both paths. */
  lemma SameCellMean(c: Cell)
    ensures var ss := [Sample(0, 0, c, 4.0), Sample(0, 1, c, 6.0)];
            Consistent(AddAll(Empty, ss)) &&
            Normalized(AddAll(Empty, ss)) == Acc(map[c := 2], map[c := 5.0]) &&
            Hits(ss, c) == 2 && NormalizedCell(Plus(Some(0.0), HitSum(ss, c)), Hits(ss, c)) == Some(5.0)
  {
    var s0, s1 := Sample(0, 0, c, 4.0), Sample(0, 1, c, 6.0);
    var ss := [s0, s1];
    assert [] + [s0] == [s0] && [s0] + [s1] == ss;
    HitsSnoc([], s0, c);
    HitsSnoc([s0], s1, c);
    AddAllSnoc(Empty, [], s0);
    AddAllSnoc(Empty, [s0], s1);
    var a := AddAll(Empty, ss);
    assert a.counts == map[c := 2];
    assert a.sums == map[c := 10.0];
    AddAllConsistent(Empty, ss);
    assert Normalized(a).sums == map[c := 5.0];
  }
}
