/** Sums, normalisation and weighted sums over real vectors: the
    `wghts.sum()`, `wghts /= wghts.sum()` and `np.dot` of the interpolator. */
module Series {
  import opened Seqs

  function Sum(s: seq<real>): real {
    if |s| == 0 then 0.0 else s[0] + Sum(s[1..])
  }

  lemma {:induction false} SumAppend(a: seq<real>, b: seq<real>)
    ensures Sum(a + b) == Sum(a) + Sum(b)
  {
    if |a| == 0 {
      assert a + b == b;
    } else {
      assert (a + b)[1..] == a[1..] + b;
      SumAppend(a[1..], b);
    }
  }

  /** A sum of non-negative terms is positive exactly when some term is. */
  lemma {:induction false} SumPositiveIff(s: seq<real>)
    requires forall i :: 0 <= i < |s| ==> 0.0 <= s[i]
    ensures 0.0 <= Sum(s)
    ensures 0.0 < Sum(s) <==> exists i :: 0 <= i < |s| && 0.0 < s[i]
  {
    if |s| > 0 {
      SumPositiveIff(s[1..]);
      if exists i :: 0 <= i < |s[1..]| && 0.0 < s[1..][i] {
        var i :| 0 <= i < |s[1..]| && 0.0 < s[1..][i];
        assert s[i + 1] == s[1..][i];
      }
      if exists i :: 0 <= i < |s| && 0.0 < s[i] {
        var i :| 0 <= i < |s| && 0.0 < s[i];
        if i > 0 {
          assert s[1..][i - 1] == s[i];
        }
      }
    }
  }

  /** Dropping entries that are zero leaves the sum unchanged. */
  lemma {:induction false} SumMaskZeros(w: seq<real>, keep: seq<bool>, from: nat)
    requires |keep| == |w| && from <= |w|
    requires forall j :: 0 <= j < |w| && !keep[j] ==> w[j] == 0.0
    ensures Sum(Select(w, WhereFrom(keep, from))) == Sum(w[from..])
    decreases |w| - from
  {
    if from < |w| {
      SumMaskZeros(w, keep, from + 1);
      var rest := WhereFrom(keep, from + 1);
      var tail := Select(w, rest);
      assert Sum(tail) == Sum(w[from + 1..]);
      assert w[from..][1..] == w[from + 1..];
      assert Sum(w[from..]) == w[from] + Sum(w[from + 1..]);
      if keep[from] {
        assert WhereFrom(keep, from) == [from] + rest;
        SelectCons(w, from, rest);
        assert Sum([w[from]] + tail) == w[from] + Sum(tail) by {
          assert ([w[from]] + tail)[1..] == tail;
        }
      } else {
        assert WhereFrom(keep, from) == rest;
      }
    }
  }

  lemma SelectCons(w: seq<real>, i: nat, rest: seq<nat>)
    requires i < |w| && forall j :: 0 <= j < |rest| ==> rest[j] < |w|
    ensures Select(w, [i] + rest) == [w[i]] + Select(w, rest)
  {
  }

  lemma SumMask(w: seq<real>, keep: seq<bool>)
    requires |keep| == |w|
    requires forall j :: 0 <= j < |w| && !keep[j] ==> w[j] == 0.0
    ensures Sum(Mask(w, keep)) == Sum(w)
  {
    SumMaskZeros(w, keep, 0);
    assert w[0..] == w;
  }

  /** Each entry divided by the same divisor. */
  function Scaled(w: seq<real>, s: real): seq<real>
    requires s != 0.0
  {
    seq(|w|, j requires 0 <= j < |w| => w[j] / s)
  }

  lemma {:induction false} SumScaled(w: seq<real>, s: real)
    requires s != 0.0
    ensures Sum(Scaled(w, s)) == Sum(w) / s
  {
    if |w| > 0 {
      assert Scaled(w, s)[1..] == Scaled(w[1..], s);
      SumScaled(w[1..], s);
    }
  }

  /** `w / w.sum()`: the weights rescaled in proportion so that they sum to one. */
  function Normalize(w: seq<real>): (r: seq<real>)
    requires Sum(w) != 0.0
    ensures |r| == |w|
    ensures Sum(r) == 1.0
    ensures forall j :: 0 <= j < |r| ==> r[j] * Sum(w) == w[j]
    ensures 0.0 < Sum(w) ==> forall j :: 0 <= j < |r| ==> (0.0 < r[j] <==> 0.0 < w[j])
  {
    SumScaled(w, Sum(w));
    assert Sum(w) / Sum(w) == 1.0;
    Scaled(w, Sum(w))
  }

  /** `np.dot(w, a)` for one column `a`. */
  function WeightedSum(w: seq<real>, a: seq<real>): real
    requires |w| == |a|
  {
    if |w| == 0 then 0.0 else w[0] * a[0] + WeightedSum(w[1..], a[1..])
  }

  lemma LowerStep(w0: real, a0: real, tw: real, ts: real, s: real, ws: real, lo: real)
    requires 0.0 <= w0 && lo <= a0
    requires tw * lo <= ts
    requires s == w0 + tw && ws == w0 * a0 + ts
    ensures s * lo <= ws
  {
    assert w0 * lo <= w0 * a0;
    assert s * lo == w0 * lo + tw * lo;
  }

  lemma UpperStep(w0: real, a0: real, tw: real, ts: real, s: real, ws: real, hi: real)
    requires 0.0 <= w0 && a0 <= hi
    requires ts <= tw * hi
    requires s == w0 + tw && ws == w0 * a0 + ts
    ensures ws <= s * hi
  {
    assert w0 * a0 <= w0 * hi;
    assert s * hi == w0 * hi + tw * hi;
  }

  lemma {:induction false} WeightedSumAbove(w: seq<real>, a: seq<real>, lo: real)
    requires |w| == |a|
    requires forall j :: 0 <= j < |w| ==> 0.0 <= w[j]
    requires forall j :: 0 <= j < |a| ==> lo <= a[j]
    ensures Sum(w) * lo <= WeightedSum(w, a)
  {
    if |w| > 0 {
      var tw, ta := w[1..], a[1..];
      WeightedSumAbove(tw, ta, lo);
      LowerStep(w[0], a[0], Sum(tw), WeightedSum(tw, ta), Sum(w), WeightedSum(w, a), lo);
    }
  }

  lemma {:induction false} WeightedSumBelow(w: seq<real>, a: seq<real>, hi: real)
    requires |w| == |a|
    requires forall j :: 0 <= j < |w| ==> 0.0 <= w[j]
    requires forall j :: 0 <= j < |a| ==> a[j] <= hi
    ensures WeightedSum(w, a) <= Sum(w) * hi
  {
    if |w| > 0 {
      var tw, ta := w[1..], a[1..];
      WeightedSumBelow(tw, ta, hi);
      UpperStep(w[0], a[0], Sum(tw), WeightedSum(tw, ta), Sum(w), WeightedSum(w, a), hi);
    }
  }

  lemma WeightedSumBounds(w: seq<real>, a: seq<real>, lo: real, hi: real)
    requires |w| == |a|
    requires forall j :: 0 <= j < |w| ==> 0.0 <= w[j]
    requires forall j :: 0 <= j < |a| ==> lo <= a[j] <= hi
    ensures Sum(w) * lo <= WeightedSum(w, a) <= Sum(w) * hi
  {
    WeightedSumAbove(w, a, lo);
    WeightedSumBelow(w, a, hi);
  }

  /** `np.dot(w, rows)`: the weighted sum of the rows, one entry per column. */
  function Dot(w: seq<real>, rows: seq<seq<real>>, width: nat): (r: seq<real>)
    requires |w| == |rows|
    requires forall j :: 0 <= j < |rows| ==> |rows[j]| == width
    ensures |r| == width
  {
    seq(width, c requires 0 <= c < width => WeightedSum(w, Column(rows, c)))
  }

  /** With weights that are non-negative and sum to one, every entry of the
      dot product lies between the smallest and largest value of its column. */
  lemma ConvexCombination(w: seq<real>, rows: seq<seq<real>>, width: nat, c: nat, lo: real, hi: real)
    requires |w| == |rows|
    requires forall j :: 0 <= j < |rows| ==> |rows[j]| == width
    requires forall j :: 0 <= j < |w| ==> 0.0 <= w[j]
    requires Sum(w) == 1.0 && c < width
    requires forall j :: 0 <= j < |rows| ==> lo <= rows[j][c] <= hi
    ensures lo <= Dot(w, rows, width)[c] <= hi
  {
    WeightedSumBounds(w, Column(rows, c), lo, hi);
  }

  /** A single weight of one reproduces its row. */
  lemma DotSingle(row: seq<real>)
    ensures Dot([1.0], [row], |row|) == row
  {
    forall c | 0 <= c < |row| ensures Dot([1.0], [row], |row|)[c] == row[c] {
      assert Column([row], c) == [row[c]];
      assert WeightedSum([1.0], [row[c]]) == 1.0 * row[c] + WeightedSum([], []);
    }
  }
}
