/** One label axis of the grid: its sorted unique values (`gridpoints[p]`),
    the gaps between them (`binwidths[p]`), numpy's `digitize` in both
    closure modes, and the fractional pixel coordinate of a query value. */
module Axis {
  import opened Outcomes
  import opened Series

  predicate StrictlyIncreasing(s: seq<real>) {
    forall i, j :: 0 <= i < j < |s| ==> s[i] < s[j]
  }

  /** Adds `v` to the strictly increasing `g`, unless it is already there. */
  function Insert(g: seq<real>, v: real): (r: seq<real>)
    requires StrictlyIncreasing(g)
    ensures StrictlyIncreasing(r)
    ensures forall x :: x in r <==> x in g || x == v
  {
    if |g| == 0 then [v]
    else if v < g[0] then [v] + g
    else if v == g[0] then g
    else
      var t := Insert(g[1..], v);
      assert forall i :: 0 <= i < |t| ==> t[i] in t;
      [g[0]] + t
  }

  /** `np.unique` of one column: its distinct values, increasing. */
  function Unique(col: seq<real>): (g: seq<real>)
    ensures StrictlyIncreasing(g)
    ensures forall x :: x in g <==> x in col
  {
    if |col| == 0 then []
    else
      assert col == col[..|col| - 1] + [col[|col| - 1]];
      Insert(Unique(col[..|col| - 1]), col[|col| - 1])
  }

  /** A strictly increasing sequence is determined by its set of elements, so
      `Unique` is the only sorted, repeat-free listing of a column's values. */
  lemma {:induction false} SortedSetDetermined(a: seq<real>, b: seq<real>)
    requires StrictlyIncreasing(a) && StrictlyIncreasing(b)
    requires forall x :: x in a <==> x in b
    ensures a == b
  {
    assert |a| > 0 ==> a[0] in a && a[0] in b;
    assert |b| > 0 ==> b[0] in b && b[0] in a;
    if |a| > 0 {
      var i :| 0 <= i < |b| && b[i] == a[0];
      var j :| 0 <= j < |a| && a[j] == b[0];
      assert a[0] <= a[j] && b[0] <= b[i];
      assert a[0] == b[0];
      forall x ensures x in a[1..] <==> x in b[1..] {
        if x in a[1..] {
          var k :| 0 <= k < |a| - 1 && a[1..][k] == x;
          assert a[k + 1] == x && x in a && x in b;
          var m :| 0 <= m < |b| && b[m] == x;
          assert m != 0 && b[1..][m - 1] == x;
        }
        if x in b[1..] {
          var k :| 0 <= k < |b| - 1 && b[1..][k] == x;
          assert b[k + 1] == x && x in b && x in a;
          var m :| 0 <= m < |a| && a[m] == x;
          assert m != 0 && a[1..][m - 1] == x;
        }
      }
      SortedSetDetermined(a[1..], b[1..]);
      assert a == [a[0]] + a[1..] && b == [b[0]] + b[1..];
    }
  }

  /** `np.diff`: the gaps between consecutive entries. */
  function Diff(g: seq<real>): (d: seq<real>)
    ensures |d| == if |g| == 0 then 0 else |g| - 1
    ensures StrictlyIncreasing(g) ==> forall i :: 0 <= i < |d| ==> 0.0 < d[i]
  {
    if |g| == 0 then [] else seq(|g| - 1, i requires 0 <= i < |g| - 1 => g[i + 1] - g[i])
  }

  /** The gaps add back up to the grid values (`Diff` is inverted by a
      cumulative sum from the first value). */
  lemma {:induction false} DiffTelescopes(g: seq<real>, k: nat)
    requires k < |g|
    ensures g[0] + Sum(Diff(g)[..k]) == g[k]
  {
    if k > 0 {
      DiffTelescopes(g, k - 1);
      var d := Diff(g);
      assert d[..k] == d[..k - 1] + [d[k - 1]];
      SumAppend(d[..k - 1], [d[k - 1]]);
      assert Sum([d[k - 1]]) == d[k - 1] + Sum([]);
    }
  }

  /** `np.digitize(x, bins, right=True)`: the `i` with `bins[i-1] < x <= bins[i]`,
      i.e. the number of bins strictly below `x`. */
  function DigitizeRight(bins: seq<real>, x: real): (i: nat)
    requires StrictlyIncreasing(bins)
    ensures i <= |bins|
    ensures forall j :: 0 <= j < i ==> bins[j] < x
    ensures forall j :: i <= j < |bins| ==> x <= bins[j]
    ensures x in bins ==> i < |bins| && bins[i] == x
  {
    if |bins| == 0 || x <= bins[0] then 0 else 1 + DigitizeRight(bins[1..], x)
  }

  /** `np.digitize(x, bins, right=False)`: the `i` with `bins[i-1] <= x < bins[i]`,
      i.e. the number of bins at or below `x`. */
  function DigitizeLeft(bins: seq<real>, x: real): (i: nat)
    requires StrictlyIncreasing(bins)
    ensures i <= |bins|
    ensures forall j :: 0 <= j < i ==> bins[j] <= x
    ensures forall j :: i <= j < |bins| ==> x < bins[j]
    ensures x in bins ==> 0 < i && bins[i - 1] == x
  {
    if |bins| == 0 || x < bins[0] then 0 else 1 + DigitizeLeft(bins[1..], x)
  }

  /** Python's `s[i]`: a negative index counts from the end. */
  function PyIndex(s: seq<real>, i: int): real
    requires -|s| <= i < |s|
  {
    if i < 0 then s[|s| + i] else s[i]
  }

  /** A usable axis: at least two strictly increasing values and their gaps. */
  predicate AxisOk(g: seq<real>, b: seq<real>) {
    |g| >= 2 && StrictlyIncreasing(g) && b == Diff(g)
  }

  /** The pixel coordinate of `t` on one axis, as `params_to_grid` computes it:
      bin index `digitize(right=False) - 1` plus the offset over the bin width,
      with Python's wrap-around for index -1; `None` where `binwidths[p][i]`
      raises `IndexError`. */
  function AxisToPixel(g: seq<real>, b: seq<real>, t: real): (r: Option<real>)
    requires AxisOk(g, b)
    ensures r.None? <==> g[|g| - 1] <= t
  {
    var i := DigitizeLeft(g, t) - 1;
    if i >= |b| then None
    else Some(i as real + (t - PyIndex(g, i)) / PyIndex(b, i))
  }

  /** Back from a pixel coordinate to the axis value: linear interpolation
      between the two grid values of its bin. */
  function PixelToValue(g: seq<real>, x: real): real
    requires 0 <= x.Floor < |g| - 1
  {
    var i := x.Floor;
    g[i] + (x - i as real) * (g[i + 1] - g[i])
  }

  lemma DivInUnit(num: real, den: real)
    requires 0.0 < den && 0.0 <= num < den
    ensures 0.0 <= num / den < 1.0
  {
    var q := num / den;
    assert q * den == num;
    assert (1.0 - q) * den == den - num;
    PositiveFactor(1.0 - q, den);
  }

  lemma PositiveFactor(a: real, b: real)
    requires 0.0 < b && 0.0 < a * b
    ensures 0.0 < a
  {
  }

  /** Inside the axis range the pixel coordinate falls in the value's bin, is
      an integer exactly at grid values, and maps back to the value. */
  lemma AxisToPixelInBin(g: seq<real>, b: seq<real>, t: real)
    requires AxisOk(g, b) && g[0] <= t < g[|g| - 1]
    ensures AxisToPixel(g, b, t).Some?
    ensures var x := AxisToPixel(g, b, t).value;
            && 0 <= x.Floor < |g| - 1
            && g[x.Floor] <= t < g[x.Floor + 1]
            && (x == x.Floor as real <==> t in g)
            && PixelToValue(g, x) == t
  {
    var n := DigitizeLeft(g, t);
    var i := n - 1;
    assert 0 <= i < |g| - 1;
    var w := g[i + 1] - g[i];
    assert b[i] == w;
    var f := (t - g[i]) / w;
    DivInUnit(t - g[i], w);
    var x := AxisToPixel(g, b, t).value;
    assert x == i as real + f;
    assert x.Floor == i;
    assert f * w == t - g[i];
    assert t in g ==> t == g[i];
  }

  lemma DivBelowMinusOne(num: real, den: real)
    requires 0.0 < den && num < -den
    ensures num / den < -1.0
  {
  }

  /** Below the axis minimum the bin index is -1, which wraps around to the
      last grid value and gap, giving a coordinate below -2. */
  lemma AxisToPixelBelowMin(g: seq<real>, b: seq<real>, t: real)
    requires AxisOk(g, b) && t < g[0]
    ensures AxisToPixel(g, b, t).Some?
    ensures AxisToPixel(g, b, t).value < -2.0
  {
    var n := |g|;
    assert DigitizeLeft(g, t) == 0;
    var w := g[n - 1] - g[n - 2];
    assert PyIndex(b, -1) == w;
    assert PyIndex(g, -1) == g[n - 1];
    assert g[0] <= g[n - 2];
    DivBelowMinusOne(t - g[n - 1], w);
  }

  /** A grid value other than the last maps to its own index exactly. */
  lemma PixelAtGridValue(g: seq<real>, b: seq<real>, k: nat)
    requires AxisOk(g, b) && k < |g| - 1
    ensures AxisToPixel(g, b, g[k]) == Some(k as real)
  {
    assert g[k] in g;
    assert DigitizeLeft(g, g[k]) == k + 1;
  }
}
