/**
 The sparse accumulator: two dictionaries keyed by (i_time, i_x, i_y), one
 holding the number of samples that fell into a cell and one the running sum
 of their values; the in-place normalizer that turns sums into means; and the
 materializer that writes the dictionaries into dense arrays.
 */
module SparseAccumulator {
  import opened Wrappers
  import opened GridGeometry
  import opened Swath

  /** The pair of dictionaries (count_grid, data_grid). */
  datatype Acc = Acc(counts: map<Cell, nat>, sums: map<Cell, real>)

  /** The two dictionaries have one key set. */
  predicate SameKeys(a: Acc)
  {
    a.counts.Keys == a.sums.Keys
  }

  /** Same key set, and a key is present only with a positive count. */
  predicate Consistent(a: Acc)
  {
    SameKeys(a) && forall c :: c in a.counts ==> a.counts[c] > 0
  }

  /** Every key is a cell of the grid. */
  predicate InGrid(a: Acc, g: Grid)
    requires g.Valid()
  {
    forall c :: c in a.counts ==> g.Contains(c)
  }

  const Empty := Acc(map[], map[])

  /** The count of a cell; 0 when its key is absent. */
  function CountAt(a: Acc, c: Cell): nat
  {
    if c in a.counts then a.counts[c] else 0
  }

  /** The running sum of a cell; 0 when its key is absent. */
  function SumAt(a: Acc, c: Cell): real
  {
    if c in a.sums then a.sums[c] else 0.0
  }

  /** One sample: an existing key gets +1 and +value, a new key starts at 1 and value. */
  function AddSample(a: Acc, s: Sample): (r: Acc)
    requires SameKeys(a)
    ensures SameKeys(r) && r.counts.Keys == a.counts.Keys + {s.cell}
  {
    if s.cell in a.counts then
      Acc(a.counts[s.cell := a.counts[s.cell] + 1], a.sums[s.cell := a.sums[s.cell] + s.value])
    else
      Acc(a.counts[s.cell := 1], a.sums[s.cell := s.value])
  }

  /** The samples, one after the other, in order. */
  function AddAll(a: Acc, ss: seq<Sample>): (r: Acc)
    requires SameKeys(a)
    ensures SameKeys(r)
    decreases |ss|
  {
    if ss == [] then a else AddSample(AddAll(a, ss[..|ss| - 1]), ss[|ss| - 1])
  }

  lemma AddAllSnoc(a: Acc, ss: seq<Sample>, s: Sample)
    requires SameKeys(a)
    ensures AddAll(a, ss + [s]) == AddSample(AddAll(a, ss), s)
  {
    assert (ss + [s])[..|ss|] == ss;
  }

  lemma {:induction false} AddAllAppend(a: Acc, s: seq<Sample>, t: seq<Sample>)
    requires SameKeys(a)
    ensures AddAll(AddAll(a, s), t) == AddAll(a, s + t)
    decreases |t|
  {
    if t == [] {
      assert s + t == s;
    } else {
      assert (s + t)[..|s + t| - 1] == s + t[..|t| - 1];
      AddAllAppend(a, s, t[..|t| - 1]);
    }
  }

  /** Per cell, accumulation adds the number of samples binned there to the count
      and their values to the sum; a key is present afterwards exactly when it was
      before or some sample hit it. */
  lemma {:induction false} AddAllCells(a: Acc, ss: seq<Sample>, c: Cell)
    requires SameKeys(a)
    ensures c in AddAll(a, ss).counts <==> c in a.counts || Hits(ss, c) > 0
    ensures CountAt(AddAll(a, ss), c) == CountAt(a, c) + Hits(ss, c)
    ensures SumAt(AddAll(a, ss), c) == SumAt(a, c) + HitSum(ss, c)
    decreases |ss|
  {
    if ss != [] {
      AddAllCells(a, ss[..|ss| - 1], c);
    }
  }

  /** Accumulation keeps the dictionaries consistent: one key set, positive counts. */
  lemma {:induction false} AddAllConsistent(a: Acc, ss: seq<Sample>)
    requires Consistent(a)
    ensures Consistent(AddAll(a, ss))
    decreases |ss|
  {
    if ss != [] {
      AddAllConsistent(a, ss[..|ss| - 1]);
    }
  }

  /** Accumulating samples whose cells lie in the grid keeps every key in the grid. */
  lemma {:induction false} AddAllInGrid(a: Acc, ss: seq<Sample>, g: Grid)
    requires SameKeys(a) && g.Valid() && InGrid(a, g)
    requires forall k :: 0 <= k < |ss| ==> g.Contains(ss[k].cell)
    ensures InGrid(AddAll(a, ss), g)
    decreases |ss|
  {
    if ss != [] {
      AddAllInGrid(a, ss[..|ss| - 1], g);
    }
  }

  // ---------------------------------------------------------------------------
  // Totals over all cells

  /** Sum of the counts of all cells. */
  ghost function TotalCount<K>(m: map<K, nat>): nat
    decreases |m|
  {
    if m == map[] then 0 else var c :| c in m; m[c] + TotalCount(m - {c})
  }

  /** Sum of the running sums of all cells. */
  ghost function TotalSum<K>(m: map<K, real>): real
    decreases |m|
  {
    if m == map[] then 0.0 else var c :| c in m; m[c] + TotalSum(m - {c})
  }

  /** The total does not depend on which key is taken out first. */
  lemma {:induction false} TotalCountRemove<K>(m: map<K, nat>, c: K)
    requires c in m
    ensures TotalCount(m) == m[c] + TotalCount(m - {c})
    decreases |m|
  {
    var d :| d in m && TotalCount(m) == m[d] + TotalCount(m - {d});
    if d != c {
      TotalCountRemove(m - {d}, c);
      TotalCountRemove(m - {c}, d);
      assert m - {d} - {c} == m - {c} - {d};
    }
  }

  lemma {:induction false} TotalSumRemove<K>(m: map<K, real>, c: K)
    requires c in m
    ensures TotalSum(m) == m[c] + TotalSum(m - {c})
    decreases |m|
  {
    var d :| d in m && TotalSum(m) == m[d] + TotalSum(m - {d});
    if d != c {
      TotalSumRemove(m - {d}, c);
      TotalSumRemove(m - {c}, d);
      assert m - {d} - {c} == m - {c} - {d};
    }
  }

  lemma TotalCountUpdate<K>(m: map<K, nat>, c: K, v: nat)
    ensures TotalCount(m[c := v]) == TotalCount(m) - (if c in m then m[c] else 0) + v
  {
    TotalCountRemove(m[c := v], c);
    if c in m {
      TotalCountRemove(m, c);
      assert m[c := v] - {c} == m - {c};
    } else {
      assert m[c := v] - {c} == m;
    }
  }

  lemma TotalSumUpdate<K>(m: map<K, real>, c: K, v: real)
    ensures TotalSum(m[c := v]) == TotalSum(m) - (if c in m then m[c] else 0.0) + v
  {
    TotalSumRemove(m[c := v], c);
    if c in m {
      TotalSumRemove(m, c);
      assert m[c := v] - {c} == m - {c};
    } else {
      assert m[c := v] - {c} == m;
    }
  }

  /** Counts over all cells grow by the number of samples. */
  lemma {:induction false} AddAllTotalCount(a: Acc, ss: seq<Sample>)
    requires SameKeys(a)
    ensures TotalCount(AddAll(a, ss).counts) == TotalCount(a.counts) + |ss|
    decreases |ss|
  {
    if ss != [] {
      var p := AddAll(a, ss[..|ss| - 1]);
      var s := ss[|ss| - 1];
      AddAllTotalCount(a, ss[..|ss| - 1]);
      assert AddAll(a, ss).counts == AddSample(p, s).counts;
      TotalCountUpdate(p.counts, s.cell, if s.cell in p.counts then p.counts[s.cell] + 1 else 1);
    }
  }

  /** Sums over all cells grow by the values of the samples. */
  lemma {:induction false} AddAllTotalSum(a: Acc, ss: seq<Sample>)
    requires SameKeys(a)
    ensures TotalSum(AddAll(a, ss).sums) == TotalSum(a.sums) + ValueSum(ss)
    decreases |ss|
  {
    if ss != [] {
      var p := AddAll(a, ss[..|ss| - 1]);
      var s := ss[|ss| - 1];
      AddAllTotalSum(a, ss[..|ss| - 1]);
      assert AddAll(a, ss).sums == AddSample(p, s).sums;
      TotalSumUpdate(p.sums, s.cell, if s.cell in p.sums then p.sums[s.cell] + s.value else s.value);
    }
  }

  /** One batch raises the total count by the number of non-missing values and the
      total sum by their sum. */
  lemma BatchTotals(a: Acc, g: Grid, b: Batch)
    requires SameKeys(a) && g.Valid() && b.WellShaped()
    ensures TotalCount(AddAll(a, Samples(g, b)).counts) == TotalCount(a.counts) + PresentCountAll(b.data)
    ensures TotalSum(AddAll(a, Samples(g, b)).sums) == TotalSum(a.sums) + PresentSumAll(b.data)
  {
    AddAllTotalCount(a, Samples(g, b));
    AddAllTotalSum(a, Samples(g, b));
    SamplesCount(g, b, b.Rows());
    assert b.data[..b.Rows()] == b.data;
  }

  /** A batch with every value missing leaves both dictionaries as they were. */
  lemma AllMissingBatchUnchanged(a: Acc, g: Grid, b: Batch)
    requires SameKeys(a) && g.Valid() && b.WellShaped()
    requires forall i :: 0 <= i < b.Rows() ==> AllMissing(b.data[i])
    ensures AddAll(a, Samples(g, b)) == a
  {
    AllMissingBatchNoSamples(g, b, b.Rows());
  }

  // ---------------------------------------------------------------------------
  // Normalization

  /** Every running sum divided by its count; the counts stay. */
  function Normalized(a: Acc): (r: Acc)
    requires Consistent(a)
    ensures r.counts == a.counts && r.sums.Keys == a.sums.Keys
  {
    Acc(a.counts, map c | c in a.sums :: a.sums[c] / (a.counts[c] as real))
  }

  /** After accumulating from empty and normalizing, a key is present exactly for
      the cells some sample hit, and it holds the mean of those samples' values. */
  lemma NormalizedMeans(ss: seq<Sample>, c: Cell)
    ensures Consistent(AddAll(Empty, ss))
    ensures c in Normalized(AddAll(Empty, ss)).sums <==> Hits(ss, c) > 0
    ensures c in Normalized(AddAll(Empty, ss)).sums ==>
              Normalized(AddAll(Empty, ss)).counts[c] == Hits(ss, c) &&
              Normalized(AddAll(Empty, ss)).sums[c] == HitSum(ss, c) / (Hits(ss, c) as real)
  {
    AddAllConsistent(Empty, ss);
    AddAllCells(Empty, ss, c);
  }

  /** Normalization is not idempotent: a second pass changes every cell whose count
      exceeds 1 and whose mean is not zero. */
  lemma NormalizeTwiceDiffers(a: Acc, c: Cell)
    requires Consistent(a)
    requires c in a.counts && a.counts[c] > 1 && a.sums[c] != 0.0
    ensures Normalized(Normalized(a)) != Normalized(a)
  {
    var once := Normalized(a);
    var n := a.counts[c] as real;
    var m := a.sums[c] / n;
    assert once.sums[c] == m;
    assert m != 0.0;
    assert Normalized(once).sums[c] == m / n;
    assert m * n == a.sums[c];
    assert m / n != m by {
      if m / n == m {
        assert m * n == (m / n) * n;
        assert (m / n) * n == m;
        ProductNonZero(m, n - 1.0);
      }
    }
  }

  /** The value a materialized data array holds at cell c: missing when the key is absent. */
  function Materialized(a: Acc, c: Cell): (r: Option<real>)
    ensures r.Some? <==> c in a.sums
  {
    if c in a.sums then Some(a.sums[c]) else None
  }

  /** The dictionaries (count_grid, data_grid), updated in place. */
  class SparseGrid {
    var counts: map<Cell, nat>
    var sums: map<Cell, real>

    function State(): Acc
      reads this
    {
      Acc(counts, sums)
    }

    /** Two empty dictionaries. */
    constructor ()
      ensures State() == Empty
    {
      counts := map[];
      sums := map[];
    }

    /** update_sparse_data_grid: bins every valid sample of the batch into its cell. */
    method Update(g: Grid, b: Batch)
      requires g.Valid() && b.WellShaped()
      requires SameKeys(State())
      modifies this
      ensures State() == AddAll(old(State()), Samples(g, b))
      ensures old(Consistent(State())) ==> Consistent(State())
      ensures old(InGrid(State(), g)) ==> InGrid(State(), g)
      ensures TotalCount(counts) == old(TotalCount(counts)) + PresentCountAll(b.data)
    {
      ghost var was := State();
      ghost var seen: seq<Sample> := [];
      for i := 0 to b.Rows()
        invariant seen == PrefixSamples(g, b, i)
        invariant State() == AddAll(was, seen)
      {
        if !AllMissing(b.data[i]) {
          UpdateRow(g, b, i);
        }
        AddAllAppend(was, seen, RowContribution(g, b, i));
        seen := seen + RowContribution(g, b, i);
      }
      if Consistent(was) {
        AddAllConsistent(was, Samples(g, b));
      }
      if InGrid(was, g) {
        SamplesSound(g, b, b.Rows());
        AddAllInGrid(was, Samples(g, b), g);
      }
      BatchTotals(was, g, b);
    }

    /** The column loop of update_sparse_data_grid over row i, which holds some value. */
    method UpdateRow(g: Grid, b: Batch, i: nat)
      requires g.Valid() && b.WellShaped() && i < b.Rows()
      requires SameKeys(State())
      modifies this
      ensures State() == AddAll(old(State()), RowSamples(g, b, i, b.cols))
    {
      var ntime := g.NTime();
      var iTime := ((b.time[i] - g.timeEdges[0]) / Width(g.timeEdges)).Floor;
      ghost var seen: seq<Sample> := [];
      for j := 0 to b.cols
        invariant Clip(iTime, 0, ntime - 1) == AxisIndex(b.time[i], g.timeEdges)
        invariant seen == RowSamples(g, b, i, j)
        invariant State() == AddAll(old(State()), seen)
      {
        match b.data[i][j]
        case None =>
          assert RowSamples(g, b, i, j + 1) == seen;
        case Some(v) =>
          var iX := ((b.x[i][j] - g.xEdges[0]) / Width(g.xEdges)).Floor;
          var iY := ((b.y[i][j] - g.yEdges[0]) / Width(g.yEdges)).Floor;
          iTime := Clip(iTime, 0, ntime - 1);
          iX := Clip(iX, 0, g.NX() - 1);
          iY := Clip(iY, 0, g.NY() - 1);
          var cell := (iTime, iX, iY);
          ghost var s := Sample(i, j, cell, v);
          assert RowSamples(g, b, i, j + 1) == seen + [s];
          AddAllSnoc(old(State()), seen, s);
          AddToCell(cell, v, s);
          seen := seen + [s];
      }
    }

    /** One sample into cell key: +1 and +value for a present key, 1 and value for a new one. */
    method AddToCell(key: Cell, v: real, ghost s: Sample)
      requires SameKeys(State()) && s.cell == key && s.value == v
      modifies this
      ensures State() == AddSample(old(State()), s)
    {
      if key in counts {
        counts := counts[key := counts[key] + 1];
        sums := sums[key := sums[key] + v];
      } else {
        counts := counts[key := 1];
        sums := sums[key := v];
      }
    }

    /** normalize_sparse_data_grid: divides each running sum by its count, in place. */
    method Normalize()
      requires Consistent(State())
      modifies this
      ensures State() == Normalized(old(State()))
      ensures Consistent(State())
    {
      var keys := counts.Keys;
      while keys != {}
        invariant keys <= counts.Keys
        invariant counts == old(counts) && sums.Keys == old(sums).Keys
        invariant forall c :: c in sums ==>
                    sums[c] == if c in keys then old(sums)[c] else old(sums)[c] / (counts[c] as real)
        decreases keys
      {
        var c :| c in keys;
        sums := sums[c := sums[c] / (counts[c] as real)];
        keys := keys - {c};
      }
    }

    /** sparse_data_to_array: a count array of the grid's shape filled with 0 and a
        data array filled with missing, each key's count and value written into its cell. */
    method ToArrays(g: Grid) returns (countArr: array3<nat>, dataArr: array3<Option<real>>)
      requires g.Valid() && Consistent(State()) && InGrid(State(), g)
      ensures fresh(countArr) && fresh(dataArr)
      ensures countArr.Length0 == g.NTime() && countArr.Length1 == g.NX() && countArr.Length2 == g.NY()
      ensures dataArr.Length0 == g.NTime() && dataArr.Length1 == g.NX() && dataArr.Length2 == g.NY()
      ensures forall p, q, r :: 0 <= p < g.NTime() && 0 <= q < g.NX() && 0 <= r < g.NY() ==>
                countArr[p, q, r] == CountAt(State(), (p, q, r)) &&
                dataArr[p, q, r] == Materialized(State(), (p, q, r))
      ensures forall p, q, r :: 0 <= p < g.NTime() && 0 <= q < g.NX() && 0 <= r < g.NY() ==>
                (countArr[p, q, r] == 0 <==> dataArr[p, q, r].None?)
    {
      var ntime, nx, ny := g.NTime(), g.NX(), g.NY();
      countArr := new nat[ntime, nx, ny]((p, q, r) => 0);
      dataArr := new Option<real>[ntime, nx, ny]((p, q, r) => None);
      WriteKeys(g, countArr, dataArr);
    }

    /** The loop of sparse_data_to_array over the keys, writing into the fresh arrays. */
    method WriteKeys(g: Grid, countArr: array3<nat>, dataArr: array3<Option<real>>)
      requires g.Valid() && SameKeys(State()) && InGrid(State(), g)
      requires countArr.Length0 == g.NTime() && countArr.Length1 == g.NX() && countArr.Length2 == g.NY()
      requires dataArr.Length0 == g.NTime() && dataArr.Length1 == g.NX() && dataArr.Length2 == g.NY()
      requires forall p, q, r :: 0 <= p < g.NTime() && 0 <= q < g.NX() && 0 <= r < g.NY() ==>
                 countArr[p, q, r] == 0 && dataArr[p, q, r] == None
      modifies countArr, dataArr
      ensures forall p, q, r :: 0 <= p < g.NTime() && 0 <= q < g.NX() && 0 <= r < g.NY() ==>
                countArr[p, q, r] == CountAt(State(), (p, q, r)) &&
                dataArr[p, q, r] == Materialized(State(), (p, q, r))
    {
      var cs, ds := counts, sums;
      var ntime, nx, ny := countArr.Length0, countArr.Length1, countArr.Length2;
      var keys := cs.Keys;
      while keys != {}
        invariant keys <= cs.Keys
        invariant forall p, q, r :: 0 <= p < ntime && 0 <= q < nx && 0 <= r < ny ==>
                    countArr[p, q, r] == (if (p, q, r) in cs && (p, q, r) !in keys then cs[(p, q, r)] else 0)
        invariant forall p, q, r :: 0 <= p < ntime && 0 <= q < nx && 0 <= r < ny ==>
                    dataArr[p, q, r] == (if (p, q, r) in ds && (p, q, r) !in keys then Some(ds[(p, q, r)]) else None)
        decreases keys
      {
        var c :| c in keys;
        assert g.Contains(c);
        countArr[c.0, c.1, c.2] := cs[c];
        dataArr[c.0, c.1, c.2] := Some(ds[c]);
        keys := keys - {c};
      }
    }
  }
}
