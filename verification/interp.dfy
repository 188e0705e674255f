/** The interpolation engine of `fastMISTgen` over an immutable grid value:
    query conversion (`params_to_grid`), neighbour search (`knearest_inds`,
    the KD-tree ball query written as a linear scan), vertex weights
    (`linear_weights`), filtering and normalisation (`weights`) and the
    interpolated prediction (`getMIST`). */
module Interp {
  import opened Outcomes
  import opened Seqs
  import opened Series
  import opened Axis
  import opened Hypercube

  /** All three are a Python `ValueError`, which `getMIST` turns into `None`. */
  datatype Error = OutOfGrid | NoNeighbours | DegenerateWeights

  /** The state `lib_as_grid` leaves behind. Dictionaries keyed by label are
      sequences indexed by the label's position in `labels`. */
  datatype Grid = Grid(
    labels: seq<string>,
    predictions: seq<string>,
    libparams: seq<seq<real>>,   // one row of label values per stored model
    gridpoints: seq<seq<real>>,  // per label: its sorted unique values
    binwidths: seq<seq<real>>,   // per label: the gaps between them
    X: seq<seq<nat>>,            // per model: its integer pixel coordinate
    output: seq<seq<real>>)      // per model: its predicted quantities

  /** `_strictness`, as the constructor sets it. */
  const Strictness: real := 0.0

  /** Every label axis is usable, and every stored pixel coordinate and output
      row has the right shape. */
  predicate WellFormed(g: Grid) {
    var n := |g.labels|;
    && |g.gridpoints| == n && |g.binwidths| == n
    && (forall p :: 0 <= p < n ==> AxisOk(g.gridpoints[p], g.binwidths[p]))
    && |g.output| == |g.X|
    && (forall r :: 0 <= r < |g.X| ==> |g.X[r]| == n && |g.output[r]| == |g.predictions|)
  }

  /** The grid is what `lib_as_grid` computes from `libparams`: unique values
      and gaps per axis (each axis with at least two values), and every row
      digitised with `right=True`. */
  predicate Built(g: Grid) {
    var n := |g.labels|;
    && |g.gridpoints| == n && |g.binwidths| == n
    && |g.X| == |g.libparams| && |g.output| == |g.libparams|
    && (forall r :: 0 <= r < |g.libparams| ==> |g.libparams[r]| == n && |g.output[r]| == |g.predictions|)
    && (forall p :: 0 <= p < n ==>
          && g.gridpoints[p] == Unique(Column(g.libparams, p))
          && |g.gridpoints[p]| >= 2
          && g.binwidths[p] == Diff(g.gridpoints[p]))
    && (forall r :: 0 <= r < |g.X| ==> |g.X[r]| == n)
    && (forall r, p :: 0 <= r < |g.X| && 0 <= p < n ==>
          g.X[r][p] == DigitizeRight(g.gridpoints[p], g.libparams[r][p]))
  }

  /** Stored model `r` sits on the grid: on every axis its pixel coordinate
      indexes the grid value equal to its label value. */
  predicate OnGrid(g: Grid, r: nat)
    requires |g.gridpoints| == |g.labels| && r < |g.X| && r < |g.libparams|
  {
    && |g.X[r]| == |g.labels| && |g.libparams[r]| == |g.labels|
    && forall p :: 0 <= p < |g.labels| ==>
         0 <= g.X[r][p] < |g.gridpoints[p]| && g.gridpoints[p][g.X[r][p]] == g.libparams[r][p]
  }

  /** Digitising a column's entry against the column's unique values finds
      that entry. */
  lemma DigitizedOnAxis(gp: seq<real>, col: seq<real>, r: nat)
    requires gp == Unique(col) && r < |col|
    ensures DigitizeRight(gp, col[r]) < |gp| && gp[DigitizeRight(gp, col[r])] == col[r]
  {
    assert col[r] in col;
  }

  /** Digitising with `right=True` gives every stored row the index of its
      own value on each axis, so a built grid is well formed. */
  lemma BuiltWellFormed(g: Grid)
    requires Built(g)
    ensures WellFormed(g)
    ensures forall r :: 0 <= r < |g.X| ==> OnGrid(g, r)
  {
    forall r | 0 <= r < |g.X| ensures OnGrid(g, r) {
      forall p | 0 <= p < |g.labels|
        ensures 0 <= g.X[r][p] < |g.gridpoints[p]| && g.gridpoints[p][g.X[r][p]] == g.libparams[r][p]
      {
        var col := Column(g.libparams, p);
        assert col[r] == g.libparams[r][p];
        DigitizedOnAxis(g.gridpoints[p], col, r);
      }
    }
  }

  /** `params_to_grid`: the fractional pixel coordinate of a query given in
      label order; `OutOfGrid` exactly when some value is at or above its
      axis maximum. */
  function ParamsToGrid(g: Grid, targ: seq<real>): (r: Result<seq<real>, Error>)
    requires WellFormed(g) && 2 <= |g.labels| && |targ| == |g.labels|
    ensures r.Err? <==> exists p :: 0 <= p < |targ| && g.gridpoints[p][|g.gridpoints[p]| - 1] <= targ[p]
    ensures r.Ok? ==> |r.value| == |targ|
    ensures r.Ok? ==> forall p :: 0 <= p < |targ| ==>
              AxisToPixel(g.gridpoints[p], g.binwidths[p], targ[p]) == Some(r.value[p])
  {
    var n := |targ|;
    if exists p :: 0 <= p < n && AxisToPixel(g.gridpoints[p], g.binwidths[p], targ[p]).None? then
      Err(OutOfGrid)
    else
      Ok(seq(n, p requires 0 <= p < n => AxisToPixel(g.gridpoints[p], g.binwidths[p], targ[p]).value))
  }

  /** `knearest_inds`: the ascending indices of every stored vertex within
      Euclidean distance sqrt(ndim) of the query (squared distance compared
      with ndim). */
  function KnearestInds(X: seq<seq<int>>, x: seq<real>): (r: seq<nat>)
    requires forall k :: 0 <= k < |X| ==> |X[k]| == |x|
    ensures Ascending(r)
    ensures forall j :: 0 <= j < |r| ==> r[j] < |X|
    ensures forall k :: 0 <= k < |X| ==> (k in r <==> SqDist(X[k], x) <= |x| as real)
  {
    Where(seq(|X|, k requires 0 <= k < |X| => SqDist(X[k], x) <= |x| as real))
  }

  /** No vertex with a positive weight is missed by the neighbour search. */
  lemma NeighboursCoverCube(X: seq<seq<int>>, x: seq<real>, k: nat)
    requires forall i :: 0 <= i < |X| ==> |X[i]| == |x|
    requires k < |X| && 0.0 < VertexWeight(X[k], x)
    ensures k in KnearestInds(X, x)
  {
    UnitCubeWithinRadius(X[k], x);
  }

  /** `linear_weights`: the weight of each listed vertex. */
  function LinearWeights(X: seq<seq<int>>, inds: seq<nat>, x: seq<real>): (w: seq<real>)
    requires forall k :: 0 <= k < |X| ==> |X[k]| == |x|
    requires forall j :: 0 <= j < |inds| ==> inds[j] < |X|
    ensures |w| == |inds|
    ensures forall j :: 0 <= j < |w| ==> 0.0 <= w[j] <= 1.0
  {
    seq(|inds|, j requires 0 <= j < |inds| => VertexWeight(X[inds[j]], x))
  }

  /** `wghts > 0` */
  function Positive(w: seq<real>): (good: seq<bool>)
    ensures |good| == |w|
    ensures forall j :: 0 <= j < |w| ==> (good[j] <==> 0.0 < w[j])
  {
    seq(|w|, j requires 0 <= j < |w| => w[j] > 0.0)
  }

  /** `weights`: the retained neighbours and their normalised weights.
      Fails when the neighbour set is empty or the raw weights sum to at most
      `Strictness`; otherwise keeps the positive weights and rescales them. */
  function Weights(g: Grid, targ: seq<real>): (r: Result<(seq<nat>, seq<real>), Error>)
    requires WellFormed(g) && 2 <= |g.labels| && |targ| == |g.labels|
    ensures r.Ok? ==> |r.value.0| == |r.value.1| && Sum(r.value.1) == 1.0
  {
    match ParamsToGrid(g, targ)
    case Err(e) => Err(e)
    case Ok(xt) =>
      var inds := KnearestInds(g.X, xt);
      if |inds| == 0 then Err(NoNeighbours)
      else
        var w := LinearWeights(g.X, inds, xt);
        if Sum(w) <= Strictness then Err(DegenerateWeights)
        else
          var good := Positive(w);
          SumMask(w, good);
          Ok((Mask(inds, good), Normalize(Mask(w, good))))
  }

  /** Filtering the weights by a mask is the same as weighting the filtered
      vertices, so each retained index stays paired with its own weight. */
  lemma MaskedWeights(X: seq<seq<int>>, inds: seq<nat>, x: seq<real>, keep: seq<bool>)
    requires forall k :: 0 <= k < |X| ==> |X[k]| == |x|
    requires forall j :: 0 <= j < |inds| ==> inds[j] < |X|
    requires |keep| == |inds|
    ensures Mask(LinearWeights(X, inds, x), keep) == LinearWeights(X, Mask(inds, keep), x)
  {
  }

  /** The neighbours with a positive weight: in ascending order, exactly the
      stored vertices within one pixel of the query on every axis. */
  lemma RetainedVertices(X: seq<seq<int>>, xt: seq<real>, near: seq<nat>, w: seq<real>, inds: seq<nat>)
    requires forall k :: 0 <= k < |X| ==> |X[k]| == |xt|
    requires near == KnearestInds(X, xt) && w == LinearWeights(X, near, xt)
    requires inds == Mask(near, Positive(w))
    ensures Ascending(inds)
    ensures forall j :: 0 <= j < |inds| ==> inds[j] < |X| && 0.0 < VertexWeight(X[inds[j]], xt)
    ensures forall k: nat :: k in inds <==> k < |X| && 0.0 < VertexWeight(X[k], xt)
    ensures Mask(w, Positive(w)) == LinearWeights(X, inds, xt)
    ensures Sum(Mask(w, Positive(w))) == Sum(w)
  {
    var good := Positive(w);
    MaskIndices(near, good);
    MaskedWeights(X, near, xt, good);
    SumMask(w, good);
    RetainedMembers(X, xt, near, w, good, inds);
  }

  lemma RetainedMembers(X: seq<seq<int>>, xt: seq<real>, near: seq<nat>, w: seq<real>,
                        good: seq<bool>, inds: seq<nat>)
    requires forall i :: 0 <= i < |X| ==> |X[i]| == |xt|
    requires near == KnearestInds(X, xt) && w == LinearWeights(X, near, xt)
    requires good == Positive(w) && inds == Mask(near, good)
    requires forall x :: x in inds <==> exists j :: 0 <= j < |near| && good[j] && near[j] == x
    ensures forall k: nat :: k in inds <==> k < |X| && 0.0 < VertexWeight(X[k], xt)
  {
    forall k: nat ensures k in inds <==> k < |X| && 0.0 < VertexWeight(X[k], xt) {
      RetainedMember(X, xt, near, w, good, inds, k);
    }
  }

  lemma RetainedMember(X: seq<seq<int>>, xt: seq<real>, near: seq<nat>, w: seq<real>,
                       good: seq<bool>, inds: seq<nat>, k: nat)
    requires forall i :: 0 <= i < |X| ==> |X[i]| == |xt|
    requires near == KnearestInds(X, xt) && w == LinearWeights(X, near, xt)
    requires good == Positive(w) && inds == Mask(near, good)
    requires forall x :: x in inds <==> exists j :: 0 <= j < |near| && good[j] && near[j] == x
    ensures k in inds <==> k < |X| && 0.0 < VertexWeight(X[k], xt)
  {
    if k in inds {
      var j :| 0 <= j < |near| && good[j] && near[j] == k;
      assert w[j] == VertexWeight(X[k], xt);
    }
    if k < |X| && 0.0 < VertexWeight(X[k], xt) {
      NeighboursCoverCube(X, xt, k);
      var j :| 0 <= j < |near| && near[j] == k;
      assert good[j];
    }
  }

  /** A successful `weights` call returns, in ascending order, exactly the
      stored vertices with a positive weight, each paired with a positive
      weight proportional to its vertex weight, and the weights sum to one. */
  lemma WeightsOk(g: Grid, targ: seq<real>, xt: seq<real>, inds: seq<nat>, w: seq<real>)
    requires WellFormed(g) && 2 <= |g.labels| && |targ| == |g.labels|
    requires ParamsToGrid(g, targ) == Ok(xt)
    requires Weights(g, targ) == Ok((inds, w))
    ensures Ascending(inds)
    ensures forall j :: 0 <= j < |inds| ==> inds[j] < |g.X|
    ensures forall k: nat :: k in inds <==> k < |g.X| && 0.0 < VertexWeight(g.X[k], xt)
    ensures forall j :: 0 <= j < |w| ==> 0.0 < w[j]
    ensures Sum(w) == 1.0
    ensures 0.0 < Sum(LinearWeights(g.X, inds, xt))
    ensures forall j :: 0 <= j < |w| ==>
              w[j] == VertexWeight(g.X[inds[j]], xt) / Sum(LinearWeights(g.X, inds, xt))
  {
    var near := KnearestInds(g.X, xt);
    var raw := LinearWeights(g.X, near, xt);
    RetainedVertices(g.X, xt, near, raw, inds);
    var kept := Mask(raw, Positive(raw));
    assert w == Normalize(kept);
    assert kept == LinearWeights(g.X, inds, xt);
    assert w == Scaled(kept, Sum(kept));
  }

  /** `weights` succeeds exactly when the query is below every axis maximum
      and some stored vertex lies within one pixel of it on every axis. */
  lemma WeightsSucceedsIff(g: Grid, targ: seq<real>)
    requires WellFormed(g) && 2 <= |g.labels| && |targ| == |g.labels|
    ensures Weights(g, targ).Ok? <==>
              ParamsToGrid(g, targ).Ok? &&
              exists k :: 0 <= k < |g.X| && 0.0 < VertexWeight(g.X[k], ParamsToGrid(g, targ).value)
  {
    if ParamsToGrid(g, targ).Ok? {
      var xt := ParamsToGrid(g, targ).value;
      var near := KnearestInds(g.X, xt);
      var w := LinearWeights(g.X, near, xt);
      SumPositiveIff(w);
      if exists k :: 0 <= k < |g.X| && 0.0 < VertexWeight(g.X[k], xt) {
        var k :| 0 <= k < |g.X| && 0.0 < VertexWeight(g.X[k], xt);
        NeighboursCoverCube(g.X, xt, k);
        var j :| 0 <= j < |near| && near[j] == k;
        assert 0.0 < w[j];
      }
      if 0.0 < Sum(w) {
        var j :| 0 <= j < |w| && 0.0 < w[j];
        assert 0.0 < VertexWeight(g.X[near[j]], xt);
      }
    }
  }

  /** A query below the minimum of any axis is rejected: its coordinate on
      that axis is below -2, so every stored vertex is more than a pixel
      away and no weight is positive. */
  lemma RejectBelowMin(g: Grid, targ: seq<real>, p: nat)
    requires WellFormed(g) && 2 <= |g.labels| && |targ| == |g.labels|
    requires p < |targ| && targ[p] < g.gridpoints[p][0]
    ensures Weights(g, targ).Err?
  {
    WeightsSucceedsIff(g, targ);
    if ParamsToGrid(g, targ).Ok? {
      var xt := ParamsToGrid(g, targ).value;
      AxisToPixelBelowMin(g.gridpoints[p], g.binwidths[p], targ[p]);
      forall k | 0 <= k < |g.X| ensures VertexWeight(g.X[k], xt) == 0.0 {
        var v: seq<int> := g.X[k];
        assert 0 <= v[p] && xt[p] < -2.0;
        assert Abs(xt[p] - v[p] as real) >= 1.0;
        WeightBeyondOnePixel(v, xt, p);
      }
    }
  }

  /** The query vector in label order, from the three keyword arguments
      (`eep` -> `EEP`, `mass` -> `initial_mass`, `feh` -> `initial_[Fe/H]`). */
  function QueryVector(labels: seq<string>, mass: real, eep: real, feh: real): (q: seq<real>)
    requires KnownLabels(labels)
    ensures |q| == |labels|
  {
    seq(|labels|, p requires 0 <= p < |labels| =>
      if labels[p] == "EEP" then eep else if labels[p] == "initial_mass" then mass else feh)
  }

  /** Labels `getMIST` can query without an uncaught exception: at least two
      of them (with one, `np.squeeze` leaves a 0-d index array that `zip`
      cannot iterate), each one of the three keys `weights` provides. */
  predicate KnownLabels(labels: seq<string>) {
    && 2 <= |labels|
    && forall p :: 0 <= p < |labels| ==>
      labels[p] == "EEP" || labels[p] == "initial_mass" || labels[p] == "initial_[Fe/H]"
  }

  /** `getMIST`: `[eep, mass, feh]` followed by the weighted sum of the
      retained output rows, or `None` when `weights` fails. */
  function GetMist(g: Grid, mass: real, eep: real, feh: real): (r: Option<seq<real>>)
    requires WellFormed(g) && KnownLabels(g.labels)
    ensures r.None? <==> Weights(g, QueryVector(g.labels, mass, eep, feh)).Err?
    ensures r.Some? ==> |r.value| == 3 + |g.predictions| && r.value[..3] == [eep, mass, feh]
  {
    var q := QueryVector(g.labels, mass, eep, feh);
    match Weights(g, q)
    case Err(_) => None
    case Ok((inds, w)) =>
      WeightsOk(g, q, ParamsToGrid(g, q).value, inds, w);
      Some([eep, mass, feh] + Dot(w, Select(g.output, inds), |g.predictions|))
  }

  /** Out-of-grid rejection: a query at or above the maximum of an axis, or
      below its minimum, yields `None`. */
  lemma GetMistRejectsOutOfGrid(g: Grid, mass: real, eep: real, feh: real, p: nat)
    requires WellFormed(g) && KnownLabels(g.labels) && p < |g.labels|
    requires var t := QueryVector(g.labels, mass, eep, feh)[p];
             t < g.gridpoints[p][0] || g.gridpoints[p][|g.gridpoints[p]| - 1] <= t
    ensures GetMist(g, mass, eep, feh).None?
  {
    var q := QueryVector(g.labels, mass, eep, feh);
    if q[p] < g.gridpoints[p][0] {
      RejectBelowMin(g, q, p);
    }
  }

  /** Each predicted quantity is a convex combination of the retained output
      rows, so it lies within their range. */
  lemma GetMistWithinRetainedRange(g: Grid, mass: real, eep: real, feh: real, c: nat, lo: real, hi: real)
    requires WellFormed(g) && KnownLabels(g.labels) && c < |g.predictions|
    requires Weights(g, QueryVector(g.labels, mass, eep, feh)).Ok?
    requires var inds := Weights(g, QueryVector(g.labels, mass, eep, feh)).value.0;
             forall j :: 0 <= j < |inds| && inds[j] < |g.output| ==> lo <= g.output[inds[j]][c] <= hi
    ensures GetMist(g, mass, eep, feh).Some?
    ensures lo <= GetMist(g, mass, eep, feh).value[3 + c] <= hi
  {
    var q := QueryVector(g.labels, mass, eep, feh);
    var inds := Weights(g, q).value.0;
    var w := Weights(g, q).value.1;
    WeightsOk(g, q, ParamsToGrid(g, q).value, inds, w);
    var rows := Select(g.output, inds);
    ConvexCombination(w, rows, |g.predictions|, c, lo, hi);
  }

  /** The pixel coordinate of a stored model's own labels (below every axis
      maximum) is its integer pixel coordinate. */
  lemma StoredModelPixel(g: Grid, r: nat, v: seq<real>)
    requires WellFormed(g) && 2 <= |g.labels| && r < |g.X| && |g.libparams| == |g.X| && OnGrid(g, r)
    requires forall p :: 0 <= p < |g.labels| ==> g.libparams[r][p] < g.gridpoints[p][|g.gridpoints[p]| - 1]
    requires |v| == |g.labels| && forall p :: 0 <= p < |v| ==> v[p] == g.X[r][p] as real
    ensures ParamsToGrid(g, g.libparams[r]) == Ok(v)
  {
    var q := g.libparams[r];
    forall p | 0 <= p < |v| ensures AxisToPixel(g.gridpoints[p], g.binwidths[p], q[p]) == Some(v[p]) {
      var gp := g.gridpoints[p];
      assert g.X[r][p] < |gp| - 1 by {
        assert 0 <= g.X[r][p] < |gp|;
        assert gp[g.X[r][p]] < gp[|gp| - 1];
      }
      PixelAtGridValue(gp, g.binwidths[p], g.X[r][p]);
    }
    assert ParamsToGrid(g, q).Ok?;
    var pv := ParamsToGrid(g, q).value;
    assert forall p :: 0 <= p < |v| ==> pv[p] == v[p];
    assert pv == v;
  }

  /** Two integer pixel coordinates that differ give each other weight zero. */
  lemma OtherVertexZero(a: seq<int>, b: seq<int>, v: seq<real>)
    requires |a| == |b| == |v| && a != b
    requires forall p :: 0 <= p < |v| ==> v[p] == b[p] as real
    ensures VertexWeight(a, v) == 0.0
  {
    var p :| 0 <= p < |a| && a[p] != b[p];
    WeightBeyondOnePixel(a, v, p);
  }

  /** Exactness at vertices: querying the label values of a stored model
      (below every axis maximum, with no other model at the same labels)
      retains that model alone, with weight one. */
  lemma ExactAtVertex(g: Grid, r: nat)
    requires Built(g) && 2 <= |g.labels| && r < |g.libparams|
    requires forall s :: 0 <= s < |g.libparams| && s != r ==> g.libparams[s] != g.libparams[r]
    requires forall p :: 0 <= p < |g.labels| ==> g.libparams[r][p] < g.gridpoints[p][|g.gridpoints[p]| - 1]
    ensures WellFormed(g)
    ensures Weights(g, g.libparams[r]) == Ok(([r], [1.0]))
  {
    BuiltWellFormed(g);
    ExactAtStoredPixel(g, r);
  }

  lemma ExactAtStoredPixel(g: Grid, r: nat)
    requires WellFormed(g) && 2 <= |g.labels| && |g.libparams| == |g.X| && r < |g.X| && |g.libparams[r]| == |g.labels|
    requires forall s :: 0 <= s < |g.X| ==> OnGrid(g, s)
    requires forall s :: 0 <= s < |g.libparams| && s != r ==> g.libparams[s] != g.libparams[r]
    requires forall p :: 0 <= p < |g.labels| ==> g.libparams[r][p] < g.gridpoints[p][|g.gridpoints[p]| - 1]
    ensures Weights(g, g.libparams[r]) == Ok(([r], [1.0]))
  {
    var n := |g.labels|;
    var q := g.libparams[r];
    var v := seq(n, p requires 0 <= p < n => g.X[r][p] as real);
    StoredModelPixel(g, r, v);
    WeightAtVertex(g.X[r], v);
    forall s | 0 <= s < |g.X| && s != r ensures VertexWeight(g.X[s], v) == 0.0 {
      DistinctPixels(g, r, s);
      OtherVertexZero(g.X[s], g.X[r], v);
    }
    SingleRetained(g, q, v, r);
  }

  /** Digitised coordinates determine the labels, so distinct models have
      distinct pixel coordinates. */
  lemma DistinctPixels(g: Grid, r: nat, s: nat)
    requires WellFormed(g) && |g.libparams| == |g.X| && r < |g.X| && s < |g.X|
    requires OnGrid(g, r) && OnGrid(g, s)
    requires g.libparams[s] != g.libparams[r]
    ensures g.X[s] != g.X[r]
  {
    var n := |g.labels|;
    assert g.libparams[s] == seq(n, p requires 0 <= p < n => g.gridpoints[p][g.X[s][p]]);
    assert g.libparams[r] == seq(n, p requires 0 <= p < n => g.gridpoints[p][g.X[r][p]]);
  }

  /** When exactly one stored vertex has a positive weight, and that weight is
      one, `weights` retains it alone with weight one. */
  lemma SingleRetained(g: Grid, q: seq<real>, v: seq<real>, r: nat)
    requires WellFormed(g) && 2 <= |g.labels| && |q| == |g.labels| && r < |g.X|
    requires ParamsToGrid(g, q) == Ok(v)
    requires VertexWeight(g.X[r], v) == 1.0
    requires forall s :: 0 <= s < |g.X| && s != r ==> VertexWeight(g.X[s], v) == 0.0
    ensures Weights(g, q) == Ok(([r], [1.0]))
  {
    assert 0.0 < VertexWeight(g.X[r], v);
    WeightsSucceedsIff(g, q);
    var inds := Weights(g, q).value.0;
    var w := Weights(g, q).value.1;
    WeightsOk(g, q, v, inds, w);
    OnlyVertex(g.X, v, r, inds, w);
  }

  /** The retained set and weights when a single vertex has weight one and
      every other vertex weight zero. */
  lemma OnlyVertex(X: seq<seq<int>>, v: seq<real>, r: nat, inds: seq<nat>, w: seq<real>)
    requires forall k :: 0 <= k < |X| ==> |X[k]| == |v|
    requires r < |X| && VertexWeight(X[r], v) == 1.0
    requires forall s :: 0 <= s < |X| && s != r ==> VertexWeight(X[s], v) == 0.0
    requires Ascending(inds) && forall j :: 0 <= j < |inds| ==> inds[j] < |X|
    requires forall k: nat :: k in inds <==> k < |X| && 0.0 < VertexWeight(X[k], v)
    requires |w| == |inds| && 0.0 < Sum(LinearWeights(X, inds, v))
    requires forall j :: 0 <= j < |w| ==> w[j] == VertexWeight(X[inds[j]], v) / Sum(LinearWeights(X, inds, v))
    ensures inds == [r] && w == [1.0]
  {
    OnlyVertexIndex(X, v, r, inds);
    SingleVertexWeights(X, v, r);
    OnlyVertexWeight(LinearWeights(X, inds, v), w);
  }

  /** The weights of the single vertex `r`, of weight one, are `[1.0]`. */
  lemma SingleVertexWeights(X: seq<seq<int>>, v: seq<real>, r: nat)
    requires forall k :: 0 <= k < |X| ==> |X[k]| == |v|
    requires r < |X| && VertexWeight(X[r], v) == 1.0
    ensures LinearWeights(X, [r], v) == [1.0]
  {
    var lw := LinearWeights(X, [r], v);
    assert lw[0] == VertexWeight(X[r], v);
  }

  /** The single vertex with positive weight is the only retained index. */
  lemma OnlyVertexIndex(X: seq<seq<int>>, v: seq<real>, r: nat, inds: seq<nat>)
    requires forall k :: 0 <= k < |X| ==> |X[k]| == |v|
    requires r < |X| && 0.0 < VertexWeight(X[r], v)
    requires forall s :: 0 <= s < |X| && s != r ==> VertexWeight(X[s], v) == 0.0
    requires Ascending(inds)
    requires forall k: nat :: k in inds <==> k < |X| && 0.0 < VertexWeight(X[k], v)
    ensures inds == [r]
  {
    assert r in inds;
    forall j | 0 <= j < |inds| ensures inds[j] == r {
      var k := inds[j];
      assert k in inds;
    }
    AscendingSpread(inds);
  }

  /** Normalising the single weight one gives weight one. */
  lemma OnlyVertexWeight(lw: seq<real>, w: seq<real>)
    requires lw == [1.0]
    requires |w| == 1 && Sum(lw) != 0.0 && w[0] == lw[0] / Sum(lw)
    ensures w == [1.0]
  {
    assert Sum(lw) == 1.0 by {
      assert Sum(lw) == lw[0] + Sum(lw[1..]);
      assert lw[1..] == [];
    }
  }

  /** `getMIST` at a stored model's own labels returns those labels and the
      model's stored outputs. */
  lemma GetMistExactAtVertex(g: Grid, r: nat, mass: real, eep: real, feh: real)
    requires Built(g) && KnownLabels(g.labels) && r < |g.libparams|
    requires forall s :: 0 <= s < |g.libparams| && s != r ==> g.libparams[s] != g.libparams[r]
    requires forall p :: 0 <= p < |g.labels| ==> g.libparams[r][p] < g.gridpoints[p][|g.gridpoints[p]| - 1]
    requires QueryVector(g.labels, mass, eep, feh) == g.libparams[r]
    ensures WellFormed(g)
    ensures GetMist(g, mass, eep, feh) == Some([eep, mass, feh] + g.output[r])
  {
    ExactAtVertex(g, r);
    var row := g.output[r];
    GetMistOfWeights(g, mass, eep, feh, [r], [1.0]);
    assert |row| == |g.predictions|;
    SingleRowDot(g.output, r, |g.predictions|);
  }

  /** The dot product of weight one with the single row `r` is that row. */
  lemma SingleRowDot(out: seq<seq<real>>, r: nat, width: nat)
    requires r < |out| && |out[r]| == width
    ensures Dot([1.0], Select(out, [r]), width) == out[r]
  {
    assert Select(out, [r]) == [out[r]];
    DotSingle(out[r]);
  }

  /** When `weights` succeeds, `getMIST` returns the dot product of its weights
      with the retained output rows. */
  lemma GetMistOfWeights(g: Grid, mass: real, eep: real, feh: real, inds: seq<nat>, w: seq<real>)
    requires WellFormed(g) && KnownLabels(g.labels)
    requires Weights(g, QueryVector(g.labels, mass, eep, feh)) == Ok((inds, w))
    ensures forall j :: 0 <= j < |inds| ==> inds[j] < |g.output|
    ensures |w| == |inds|
    ensures GetMist(g, mass, eep, feh) == Some([eep, mass, feh] + Dot(w, Select(g.output, inds), |g.predictions|))
  {
    var q := QueryVector(g.labels, mass, eep, feh);
    WeightsOk(g, q, ParamsToGrid(g, q).value, inds, w);
  }
}
