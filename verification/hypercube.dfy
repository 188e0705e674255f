/** The multilinear ("hypervolume") weights of `linear_weights` and the
    squared pixel distance behind the neighbour search. */
module Hypercube {

  function Abs(x: real): real {
    if x < 0.0 then -x else x
  }

  /** numpy's boolean used as a number: 1 when `c` holds, else 0. */
  function Ind(c: bool): real {
    if c then 1.0 else 0.0
  }

  /** The per-axis factor `((1-dx)*(dx>=0) + (1+dx)*(dx<0)) * (dx>-1) * (dx<1)`:
      the tent function, `1 - |dx|` within one pixel and zero beyond. */
  function AxisWeight(dx: real): (w: real)
    ensures w == if -1.0 < dx < 1.0 then 1.0 - Abs(dx) else 0.0
    ensures 0.0 <= w <= 1.0
  {
    ((1.0 - dx) * Ind(dx >= 0.0) + (1.0 + dx) * Ind(dx < 0.0)) * Ind(dx > -1.0) * Ind(dx < 1.0)
  }

  /** The query `x` lies strictly within one pixel of the vertex `v` on every axis. */
  predicate InUnitCube(v: seq<int>, x: seq<real>)
    requires |v| == |x|
  {
    forall k :: 0 <= k < |v| ==> -1.0 < x[k] - v[k] as real < 1.0
  }

  lemma UnitProduct(a: real, b: real)
    requires 0.0 <= a <= 1.0 && 0.0 <= b <= 1.0
    ensures 0.0 <= a * b <= 1.0
    ensures 0.0 < a * b <==> 0.0 < a && 0.0 < b
  {
    assert a * b <= 1.0 * b;
  }

  /** The weight of vertex `v` for query `x`: the product over the axes of the
      per-axis factors (`wght.prod(axis=-1)`). It lies in [0, 1] and is
      positive exactly when the query is within one pixel on every axis. */
  function VertexWeight(v: seq<int>, x: seq<real>): (w: real)
    requires |v| == |x|
    ensures 0.0 <= w <= 1.0
    ensures 0.0 < w <==> InUnitCube(v, x)
  {
    if |v| == 0 then 1.0
    else
      var a := AxisWeight(x[0] - v[0] as real);
      var rest := VertexWeight(v[1..], x[1..]);
      UnitProduct(a, rest);
      assert InUnitCube(v, x) <==> -1.0 < x[0] - v[0] as real < 1.0 && InUnitCube(v[1..], x[1..]) by {
        if InUnitCube(v, x) {
          forall k | 0 <= k < |v| - 1 ensures -1.0 < x[1..][k] - v[1..][k] as real < 1.0 {
            assert x[1..][k] == x[k + 1] && v[1..][k] == v[k + 1];
          }
        }
        if -1.0 < x[0] - v[0] as real < 1.0 && InUnitCube(v[1..], x[1..]) {
          forall k | 0 < k < |v| ensures -1.0 < x[k] - v[k] as real < 1.0 {
            assert x[1..][k - 1] == x[k] && v[1..][k - 1] == v[k];
          }
        }
      }
      a * rest
  }

  /** A query sitting exactly on a vertex gives that vertex weight one. */
  lemma {:induction false} WeightAtVertex(v: seq<int>, x: seq<real>)
    requires |v| == |x|
    requires forall k :: 0 <= k < |v| ==> x[k] == v[k] as real
    ensures VertexWeight(v, x) == 1.0
  {
    if |v| > 0 {
      WeightAtVertex(v[1..], x[1..]);
    }
  }

  /** A vertex one pixel or more away on some axis gets weight zero; with
      integer offsets this is every other vertex of the grid. */
  lemma WeightBeyondOnePixel(v: seq<int>, x: seq<real>, k: nat)
    requires |v| == |x| && k < |v|
    requires Abs(x[k] - v[k] as real) >= 1.0
    ensures VertexWeight(v, x) == 0.0
  {
  }

  /** Squared Euclidean distance between a vertex and a query in pixel space. */
  function SqDist(v: seq<int>, x: seq<real>): (d: real)
    requires |v| == |x|
    ensures 0.0 <= d
  {
    if |v| == 0 then 0.0
    else (x[0] - v[0] as real) * (x[0] - v[0] as real) + SqDist(v[1..], x[1..])
  }

  lemma SquareBelowOne(d: real)
    requires -1.0 < d < 1.0
    ensures d * d < 1.0
  {
    if d >= 0.0 {
      assert d * d <= d * 1.0;
    } else {
      assert d * d <= (-d) * 1.0;
    }
  }

  /** Every vertex of the unit hypercube around the query is within radius
      sqrt(ndim): a positive-weight vertex is never outside the search ball. */
  lemma {:induction false} UnitCubeWithinRadius(v: seq<int>, x: seq<real>)
    requires |v| == |x| && InUnitCube(v, x)
    ensures SqDist(v, x) <= |v| as real
  {
    if |v| > 0 {
      assert InUnitCube(v[1..], x[1..]) by {
        forall k | 0 <= k < |v| - 1 ensures -1.0 < x[1..][k] - v[1..][k] as real < 1.0 {
          assert x[1..][k] == x[k + 1] && v[1..][k] == v[k + 1];
        }
      }
      var d := x[0] - v[0] as real;
      UnitCubeWithinRadius(v[1..], x[1..]);
      SquareBelowOne(d);
      assert SqDist(v, x) == d * d + SqDist(v[1..], x[1..]);
    }
  }
}
