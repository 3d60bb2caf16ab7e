/**
 Grid geometry and the clipped-floor bin indexer shared by the sparse and the
 dense accumulators of the swath gridding kernel.
 */
module Wrappers {
  datatype Option<+T> = None | Some(value: T)
}

module GridGeometry {

  /** A grid cell, addressed by (time bin, x bin, y bin). */
  type Cell = (int, int, int)

  /** Clamp k into [lo, hi], as numpy's clip does when lo <= hi. */
  function Clip(k: int, lo: int, hi: int): (r: int)
    requires lo <= hi
    ensures lo <= r <= hi
  {
    if k < lo then lo else if k > hi then hi else k
  }

  /** The bin of coordinate v on an axis that starts at origin, has bins of the
      given width and n bins: floor((v - origin) / width), clipped to [0, n-1]. */
  function BinIndex(v: real, origin: real, width: real, n: nat): (k: int)
    requires width > 0.0 && n >= 1
    ensures 0 <= k < n
  {
    Clip(((v - origin) / width).Floor, 0, n - 1)
  }

  lemma MulMono(a: real, b: real, w: real)
    requires w > 0.0 && a < b
    ensures a * w < b * w
  {
    assert b * w - a * w == (b - a) * w;
  }

  lemma ProductNonZero(x: real, y: real)
    requires x != 0.0 && y != 0.0
    ensures x * y != 0.0
  {
  }

  /** Inside the nominal range, the bin holding [origin + k*width, origin + (k+1)*width)
      is exactly k (half-open bins). */
  lemma BinIndexExact(v: real, origin: real, width: real, n: nat, k: int)
    requires width > 0.0 && n >= 1 && 0 <= k < n
    requires origin + (k as real) * width <= v < origin + ((k + 1) as real) * width
    ensures BinIndex(v, origin, width, n) == k
  {
    var q := (v - origin) / width;
    var hi := (k + 1) as real;
    assert q * width == v - origin;
    assert v - origin < hi * width;
    if q < k as real {
      MulMono(q, k as real, width);
      assert false;
    }
    if q > hi {
      MulMono(hi, q, width);
      assert false;
    } else if q == hi {
      assert false;
    }
    assert q.Floor == k;
  }

  /** A coordinate below the origin is folded into bin 0. */
  lemma BinIndexBelow(v: real, origin: real, width: real, n: nat)
    requires width > 0.0 && n >= 1
    requires v < origin
    ensures BinIndex(v, origin, width, n) == 0
  {
    var q := (v - origin) / width;
    assert q * width == v - origin;
    if q >= 0.0 {
      if q > 0.0 {
        MulMono(0.0, q, width);
      }
      assert false;
    }
  }

  /** A coordinate at or beyond origin + n*width is folded into bin n-1. */
  lemma BinIndexAbove(v: real, origin: real, width: real, n: nat)
    requires width > 0.0 && n >= 1
    requires v >= origin + (n as real) * width
    ensures BinIndex(v, origin, width, n) == n - 1
  {
    var q := (v - origin) / width;
    assert q * width == v - origin;
    if q < n as real {
      MulMono(q, n as real, width);
      assert false;
    }
    assert q.Floor >= n;
  }

  /** An axis the indexer can use: at least two edges and a positive first width. */
  predicate ValidAxis(edges: seq<real>)
  {
    |edges| >= 2 && edges[1] - edges[0] > 0.0
  }

  /** Bins on an axis: one fewer than its edges. */
  function Bins(edges: seq<real>): nat
    requires |edges| >= 1
  {
    |edges| - 1
  }

  /** The width used for every bin of the axis: taken from the first two edges only. */
  function Width(edges: seq<real>): real
    requires |edges| >= 2
  {
    edges[1] - edges[0]
  }

  /** The clipped bin index of v on the axis given by its edges. */
  function AxisIndex(v: real, edges: seq<real>): (k: int)
    requires ValidAxis(edges)
    ensures 0 <= k < Bins(edges)
  {
    BinIndex(v, edges[0], Width(edges), Bins(edges))
  }

  /** Edges spaced exactly by the first width. */
  predicate Uniform(edges: seq<real>)
  {
    ValidAxis(edges) &&
    forall k :: 0 <= k < |edges| ==> edges[k] == edges[0] + (k as real) * Width(edges)
  }

  /** On uniform edges, a coordinate in [edges[k], edges[k+1]) lands in bin k;
      in particular a coordinate equal to an interior edge lands in the bin
      whose lower edge it is. */
  lemma AxisIndexUniform(v: real, edges: seq<real>, k: int)
    requires Uniform(edges)
    requires 0 <= k < Bins(edges)
    requires edges[k] <= v < edges[k + 1]
    ensures AxisIndex(v, edges) == k
  {
    BinIndexExact(v, edges[0], Width(edges), Bins(edges), k);
  }

  /** On uniform edges, coordinates below the first edge clip to bin 0 and
      coordinates at or above the last edge clip to the last bin. */
  lemma AxisIndexClamps(v: real, edges: seq<real>)
    requires Uniform(edges)
    ensures v < edges[0] ==> AxisIndex(v, edges) == 0
    ensures v >= edges[|edges| - 1] ==> AxisIndex(v, edges) == Bins(edges) - 1
  {
    if v < edges[0] {
      BinIndexBelow(v, edges[0], Width(edges), Bins(edges));
    }
    if v >= edges[|edges| - 1] {
      assert edges[|edges| - 1] == edges[0] + (Bins(edges) as real) * Width(edges);
      BinIndexAbove(v, edges[0], Width(edges), Bins(edges));
    }
  }

  /** The three edge arrays of a (time x x x y) grid. */
  datatype Grid = Grid(timeEdges: seq<real>, xEdges: seq<real>, yEdges: seq<real>)
  {
    predicate Valid()
    {
      ValidAxis(timeEdges) && ValidAxis(xEdges) && ValidAxis(yEdges)
    }

    function NTime(): nat requires Valid() { Bins(timeEdges) }
    function NX(): nat requires Valid() { Bins(xEdges) }
    function NY(): nat requires Valid() { Bins(yEdges) }

    /** The cell lies inside the grid's shape (ntime, nx, ny). */
    predicate Contains(c: Cell)
      requires Valid()
    {
      0 <= c.0 < NTime() && 0 <= c.1 < NX() && 0 <= c.2 < NY()
    }
  }
}
