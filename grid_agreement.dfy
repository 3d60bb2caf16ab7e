/**
 The two accumulation paths of the swath gridder compute the same grid.
 */
module PathAgreement {
  import opened Wrappers
  import opened GridGeometry
  import opened Swath
  import opened SparseAccumulator
  import opened DenseAccumulator

  /** The sparse path (accumulate from empty dictionaries, normalize, materialize)
      and the dense path (accumulate into zero counts and zero sums, normalize)
      leave the same count and the same value in every cell. */
  lemma SparseDenseAgree(ss: seq<Sample>, c: Cell)
    ensures Consistent(AddAll(Empty, ss))
    ensures CountAt(Normalized(AddAll(Empty, ss)), c) == 0 + Hits(ss, c)
    ensures Materialized(Normalized(AddAll(Empty, ss)), c) ==
              NormalizedCell(Plus(Some(0.0), HitSum(ss, c)), 0 + Hits(ss, c))
  {
    AddAllConsistent(Empty, ss);
    AddAllCells(Empty, ss, c);
  }

  /** The two paths as a caller would run them, through the methods themselves: fresh
      dictionaries updated, normalized and materialized, against fresh dense arrays
      of zero counts and zero sums updated and normalized. Every cell agrees. */
  method GridBothWays(g: Grid, b: Batch)
    returns (cs: array3<nat>, ds: array3<Option<real>>, cd: array3<nat>, dd: array3<Option<real>>)
    requires g.Valid() && b.WellShaped()
    ensures cs.Length0 == cd.Length0 == g.NTime() && cs.Length1 == cd.Length1 == g.NX() &&
            cs.Length2 == cd.Length2 == g.NY()
    ensures ds.Length0 == dd.Length0 == g.NTime() && ds.Length1 == dd.Length1 == g.NX() &&
            ds.Length2 == dd.Length2 == g.NY()
    ensures forall p, q, r :: 0 <= p < g.NTime() && 0 <= q < g.NX() && 0 <= r < g.NY() ==>
              cs[p, q, r] == cd[p, q, r] && ds[p, q, r] == dd[p, q, r]
  {
    var sparse := new SparseGrid();
    sparse.Update(g, b);
    sparse.Normalize();
    cs, ds := sparse.ToArrays(g);
    var ntime, nx, ny := g.NTime(), g.NX(), g.NY();
    cd := new nat[ntime, nx, ny]((p, q, r) => 0);
    dd := new Option<real>[ntime, nx, ny]((p, q, r) => Some(0.0));
    UpdateDense(g, b, cd, dd);
    NormalizeDense(cd, dd);
    forall p, q, r | 0 <= p < ntime && 0 <= q < nx && 0 <= r < ny
      ensures cs[p, q, r] == cd[p, q, r] && ds[p, q, r] == dd[p, q, r]
    {
      SparseDenseAgree(Samples(g, b), (p, q, r));
    }
  }

  /** Two consecutive calls of update_sparse_data_grid on one pair of dictionaries
      leave what one call on the two batches' samples, in order, would. */
  method UpdateTwice(g: Grid, b1: Batch, b2: Batch) returns (a: Acc)
    requires g.Valid() && b1.WellShaped() && b2.WellShaped()
    ensures a == AddAll(Empty, Samples(g, b1) + Samples(g, b2))
    ensures Consistent(a) && InGrid(a, g)
  {
    var sparse := new SparseGrid();
    sparse.Update(g, b1);
    sparse.Update(g, b2);
    AddAllAppend(Empty, Samples(g, b1), Samples(g, b2));
    a := sparse.State();
  }
}
