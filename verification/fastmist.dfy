/** The `fastMISTgen` object: its construction state, built once and then
    only read. `lib_as_grid` and `addagewgt` update its fields in place;
    every query goes through `Snapshot()`, the immutable grid value the
    interpolator works on. */
module FastMist {
  import opened Outcomes
  import opened Seqs
  import opened Axis
  import opened Interp
  import AgeWeight
  import Series

  const DefaultLabels: seq<string> := ["EEP", "initial_mass", "initial_[Fe/H]"]

  const DefaultPredictions: seq<string> :=
    ["log(Age)", "Mass", "log(Rad)", "log(L)", "log(Teff)", "[Fe/H]", "log(g)"]

  /** The column of `lib` that belongs to the label `name`. */
  function LabelColumn(lib: seq<seq<real>>, labels: seq<string>, name: string): (c: seq<real>)
    requires name in labels
    requires forall r :: 0 <= r < |lib| ==> |lib[r]| == |labels|
    ensures |c| == |lib|
  {
    Column(lib, IndexOf(labels, name))
  }

  /** Every row has one value per label and one output per prediction. */
  predicate TableShaped(labels: seq<string>, predictions: seq<string>, lib: seq<seq<real>>, out: seq<seq<real>>) {
    && (forall r :: 0 <= r < |lib| ==> |lib[r]| == |labels|)
    && |out| == |lib|
    && (forall r :: 0 <= r < |out| ==> |out[r]| == |predictions|)
  }

  /** The age-weighting loops can run: the `EEP` column that sizes the
      weight array, the columns they group by and the age column exist, and every (mass, [Fe/H]) pair is a usable track. */
  predicate AgeWeightable(labels: seq<string>, predictions: seq<string>, lib: seq<seq<real>>, linAges: seq<real>)
    requires forall r :: 0 <= r < |lib| ==> |lib[r]| == |labels|
  {
    && "log(Age)" in predictions
    && "EEP" in labels
    && "initial_mass" in labels && "initial_[Fe/H]" in labels
    && |linAges| == |lib|
    && AgeWeight.AllTracksOk(LabelColumn(lib, labels, "initial_mass"),
                             LabelColumn(lib, labels, "initial_[Fe/H]"), linAges)
  }

  /** Every model's age weight, row by row. */
  function AgeWeightColumn(mass: seq<real>, feh: seq<real>, ages: seq<real>): (c: seq<real>)
    requires |mass| == |feh| == |ages| && AgeWeight.AllTracksOk(mass, feh, ages)
    ensures |c| == |mass|
  {
    AgeWeightPrefix(mass, feh, ages, |mass|)
  }

  /** The age weights of the first `k` models. */
  function AgeWeightPrefix(mass: seq<real>, feh: seq<real>, ages: seq<real>, k: nat): (c: seq<real>)
    requires |mass| == |feh| == |ages| && k <= |mass| && AgeWeight.AllTracksOk(mass, feh, ages)
    ensures |c| == k
  {
    if k == 0 then []
    else
      assert mass[k - 1] in mass && feh[k - 1] in feh;
      AgeWeightPrefix(mass, feh, ages, k - 1) + [AgeWeight.AgeWeightOf(mass, feh, ages, k - 1)]
  }

  /** Entry `r` of the column is model `r`'s age weight. */
  lemma {:induction false} AgeWeightColumnAt(mass: seq<real>, feh: seq<real>, ages: seq<real>, r: nat)
    requires |mass| == |feh| == |ages| && r < |mass| && AgeWeight.AllTracksOk(mass, feh, ages)
    ensures AgeWeight.TrackOk(mass, feh, ages, mass[r], feh[r])
    ensures AgeWeightColumn(mass, feh, ages)[r] == AgeWeight.AgeWeightOf(mass, feh, ages, r)
  {
    assert mass[r] in mass && feh[r] in feh;
    PrefixAt(mass, feh, ages, |mass|, r);
  }

  lemma {:induction false} PrefixAt(mass: seq<real>, feh: seq<real>, ages: seq<real>, k: nat, r: nat)
    requires |mass| == |feh| == |ages| && r < k <= |mass| && AgeWeight.AllTracksOk(mass, feh, ages)
    requires AgeWeight.TrackOk(mass, feh, ages, mass[r], feh[r])
    ensures AgeWeightPrefix(mass, feh, ages, k)[r] == AgeWeight.AgeWeightOf(mass, feh, ages, r)
  {
    assert mass[k - 1] in mass && feh[k - 1] in feh;
    var prev := AgeWeightPrefix(mass, feh, ages, k - 1);
    assert AgeWeightPrefix(mass, feh, ages, k) == prev + [AgeWeight.AgeWeightOf(mass, feh, ages, k - 1)];
    if r < k - 1 {
      PrefixAt(mass, feh, ages, k - 1, r);
      assert AgeWeightPrefix(mass, feh, ages, k)[r] == prev[r];
    }
  }

  /** Over each (mass, [Fe/H]) track the age-weight column sums to one. */
  lemma AgeWeightColumnSumsToOne(mass: seq<real>, feh: seq<real>, ages: seq<real>, m: real, z: real)
    requires |mass| == |feh| == |ages| && AgeWeight.AllTracksOk(mass, feh, ages)
    requires m in mass && z in feh
    ensures Series.Sum(Select(AgeWeightColumn(mass, feh, ages), AgeWeight.Track(mass, feh, m, z))) == 1.0
  {
    var col := AgeWeightColumn(mass, feh, ages);
    var rows := AgeWeight.Track(mass, feh, m, z);
    var aw := seq(|rows|, j requires 0 <= j < |rows| => AgeWeight.AgeWeightOf(mass, feh, ages, rows[j]));
    AgeWeight.TrackAgeWeightsSumToOne(mass, feh, ages, m, z, rows);
    assert Select(col, rows) == aw by {
      forall j | 0 <= j < |rows| ensures Select(col, rows)[j] == aw[j] {
        AgeWeightColumnAt(mass, feh, ages, rows[j]);
      }
    }
  }

  /** The output table with each row's age weight appended as a last column. */
  function WithAgeWeights(lib: seq<seq<real>>, labels: seq<string>, out: seq<seq<real>>, linAges: seq<real>): (o: seq<seq<real>>)
    requires forall r :: 0 <= r < |lib| ==> |lib[r]| == |labels|
    requires "initial_mass" in labels && "initial_[Fe/H]" in labels
    requires |linAges| == |lib| && |out| == |lib|
    requires AgeWeight.AllTracksOk(LabelColumn(lib, labels, "initial_mass"),
                                   LabelColumn(lib, labels, "initial_[Fe/H]"), linAges)
    ensures |o| == |out|
  {
    AppendColumn(out, AgeWeightColumn(LabelColumn(lib, labels, "initial_mass"),
                                      LabelColumn(lib, labels, "initial_[Fe/H]"), linAges))
  }

  /** `np.vstack((output, col))` on the column-major table: every model's row
      keeps its outputs and gains its entry of `col` as a last column. */
  function AppendColumn(out: seq<seq<real>>, col: seq<real>): (o: seq<seq<real>>)
    requires |col| == |out|
    ensures |o| == |out|
    ensures forall r :: 0 <= r < |out| ==>
              |o[r]| == |out[r]| + 1 && o[r][..|out[r]|] == out[r] && o[r][|out[r]|] == col[r]
  {
    seq(|out|, r requires 0 <= r < |out| => out[r] + [col[r]])
  }

  /** Every entry of `col` is among the grid values `g`. */
  lemma Covered(col: seq<real>, g: seq<real>)
    requires forall x :: x in col ==> x in g
    ensures forall r :: 0 <= r < |col| ==> col[r] in g
  {
    forall r | 0 <= r < |col| ensures col[r] in g {
      var x := col[r];
      assert x in col;
    }
  }

  /** `None` stands for a keyword argument left out, which takes its default. */
  function OrDefault(o: Option<seq<string>>, d: seq<string>): seq<string> {
    if o.Some? then o.value else d
  }

  /** Age weighting is on unless it is switched off; `None` stands for the
      argument left out, whose default is on. */
  function AgeWeightOn(o: Option<bool>): bool {
    if o.Some? then o.value else true
  }

  /** What the constructor needs of the table it is given: consistent shapes,
      at least two distinct values per label (so every axis has a bin), and
      usable age tracks when age weighting is asked for. */
  predicate Loadable(labels: seq<string>, predictions: seq<string>, lib: seq<seq<real>>, out: seq<seq<real>>,
                     ageweight: bool, linAges: seq<real>)
  {
    && TableShaped(labels, predictions, lib, out)
    && (ageweight ==> AgeWeightable(labels, predictions, lib, linAges))
    && (forall p :: 0 <= p < |labels| ==> |Unique(Column(lib, p))| >= 2)
  }

  /** Associativity of `+` on label lists, stated apart so that the
      constructor's proof stays small; it models nothing of the source. */
  lemma AppendAssoc(a: seq<string>, b: seq<string>, c: seq<string>)
    ensures (a + b) + c == a + (b + c)
  {
  }

  /** `col` holds the weights of track (m, z) on that track's rows. */
  predicate TrackInColumn(col: seq<real>, mass: seq<real>, feh: seq<real>, ages: seq<real>, m: real, z: real)
    requires |mass| == |feh| == |ages| == |col|
    requires AgeWeight.AllTracksOk(mass, feh, ages) && m in mass && z in feh
  {
    Select(col, AgeWeight.Track(mass, feh, m, z)) == AgeWeight.TrackWeights(mass, feh, ages, m, z)
  }

  /** The age-weight column holds every track's weights. */
  lemma ColumnHoldsTracks(mass: seq<real>, feh: seq<real>, ages: seq<real>)
    requires |mass| == |feh| == |ages| && AgeWeight.AllTracksOk(mass, feh, ages)
    ensures forall m, z {:trigger TrackInColumn(AgeWeightColumn(mass, feh, ages), mass, feh, ages, m, z)} ::
              m in mass && z in feh ==> TrackInColumn(AgeWeightColumn(mass, feh, ages), mass, feh, ages, m, z)
  {
    var col := AgeWeightColumn(mass, feh, ages);
    forall m, z | m in mass && z in feh ensures TrackInColumn(col, mass, feh, ages, m, z) {
      var rows := AgeWeight.Track(mass, feh, m, z);
      var w := AgeWeight.TrackWeights(mass, feh, ages, m, z);
      forall j | 0 <= j < |rows| ensures Select(col, rows)[j] == w[j] {
        AgeWeight.AgeWeightOfTrackRow(mass, feh, ages, m, z, j);
        AgeWeightColumnAt(mass, feh, ages, rows[j]);
      }
    }
  }

  /** Once every group value `g` has been visited, every row is written. */
  lemma AllGroupsWritten(written: seq<real>, col: seq<real>, key: seq<real>, g: seq<real>)
    requires |written| == |col| == |key|
    requires forall x :: x in key ==> x in g
    requires forall r :: 0 <= r < |key| && key[r] in g[..|g|] ==> written[r] == col[r]
    ensures written == col
  {
    assert g[..|g|] == g;
    Covered(key, g);
  }

  class FastMistGen {
    var labels: seq<string>
    var predictions: seq<string>
    var modpararr: seq<string>
    var libparams: seq<seq<real>>
    var output: seq<seq<real>>
    var gridpoints: seq<seq<real>>
    var binwidths: seq<seq<real>>
    var X: seq<seq<nat>>

    /** The grid as the interpolator sees it. */
    function Snapshot(): Grid
      reads this
    {
      Grid(labels, predictions, libparams, gridpoints, binwidths, X, output)
    }

    /** `__init__` after `make_lib` has read the table: `lib` holds the label
        values and `out` the requested outputs of every model; `linAges` are
        the models' linear ages. Omitted `labels` or `predictions` take the
        defaults; an omitted `ageweight` means age weighting. */
    constructor (labelsArg: Option<seq<string>>, predictionsArg: Option<seq<string>>,
                 lib: seq<seq<real>>, out: seq<seq<real>>, ageweightArg: Option<bool>, linAges: seq<real>)
      requires Loadable(OrDefault(labelsArg, DefaultLabels), OrDefault(predictionsArg, DefaultPredictions),
                        lib, out, AgeWeightOn(ageweightArg), linAges)
      ensures labels == OrDefault(labelsArg, DefaultLabels)
      ensures predictions == OrDefault(predictionsArg, DefaultPredictions) + (if AgeWeightOn(ageweightArg) then ["Agewgt"] else [])
      ensures modpararr == labels + predictions
      ensures libparams == lib
      ensures output == if AgeWeightOn(ageweightArg) then WithAgeWeights(lib, labels, out, linAges) else out
      ensures Built(Snapshot())
    {
      var labs := OrDefault(labelsArg, DefaultLabels);
      var preds := OrDefault(predictionsArg, DefaultPredictions);
      labels := labs;
      predictions := preds;
      modpararr := labs + preds;
      libparams := lib;
      output := out;
      gridpoints, binwidths, X := [], [], [];
      new;
      if AgeWeightOn(ageweightArg) {
        AddAgeWgt(linAges);
        AppendAssoc(labs, preds, ["Agewgt"]);
      }
      LibAsGrid();
    }

    /** `addagewgt`: appends every model's age weight to its outputs as the
        column `Agewgt`. */
    method AddAgeWgt(linAges: seq<real>)
      requires TableShaped(labels, predictions, libparams, output)
      requires AgeWeightable(labels, predictions, libparams, linAges)
      modifies this`output, this`predictions, this`modpararr
      ensures predictions == old(predictions) + ["Agewgt"]
      ensures modpararr == old(modpararr) + ["Agewgt"]
      ensures output == WithAgeWeights(libparams, labels, old(output), linAges)
      ensures TableShaped(labels, predictions, libparams, output)
    {
      var mass := LabelColumn(libparams, labels, "initial_mass");
      var feh := LabelColumn(libparams, labels, "initial_[Fe/H]");
      var wgt := AgeWeights(mass, feh, linAges);
      output := AppendColumn(output, wgt);
      predictions := predictions + ["Agewgt"];
      modpararr := modpararr + ["Agewgt"];
    }

    /** The loops of `addagewgt`: every model's age weight, from a zeroed
        per-row array. */
    static method AgeWeights(mass: seq<real>, feh: seq<real>, linAges: seq<real>) returns (wgt: seq<real>)
      requires |mass| == |feh| == |linAges|
      requires AgeWeight.AllTracksOk(mass, feh, linAges)
      ensures wgt == AgeWeightColumn(mass, feh, linAges)
    {
      ghost var col := AgeWeightColumn(mass, feh, linAges);
      ColumnHoldsTracks(mass, feh, linAges);
      wgt := ScatterTracks(mass, feh, linAges, col);
    }

    /** For every (initial [Fe/H], initial mass) pair of grid values, the
        track's weights `grad / sum(grad)` are written into a zeroed per-row
        array; since every row lies on one track, the result is any column
        that holds every track's weights. */
    static method ScatterTracks(mass: seq<real>, feh: seq<real>, linAges: seq<real>, ghost col: seq<real>)
      returns (wgt: seq<real>)
      requires |mass| == |feh| == |linAges| == |col|
      requires AgeWeight.AllTracksOk(mass, feh, linAges)
      requires forall m, z {:trigger TrackInColumn(col, mass, feh, linAges, m, z)} ::
                 m in mass && z in feh ==> TrackInColumn(col, mass, feh, linAges, m, z)
      ensures wgt == col
    {
      var n := |mass|;
      var ageWgt := new real[n](_ => 0.0);
      var zs := Unique(feh);
      var ms := Unique(mass);
      Covered(mass, ms);
      for a := 0 to |zs|
        invariant forall r :: 0 <= r < n && feh[r] in zs[..a] ==> ageWgt[r] == col[r]
      {
        assert zs[a] in feh;
        WriteFehGroup(ageWgt, mass, feh, linAges, ms, zs[a], col);
        assert zs[..a + 1] == zs[..a] + [zs[a]];
      }
      wgt := ageWgt[..];
      AllGroupsWritten(wgt, col, feh, zs);
    }

    /** The inner loop of `addagewgt`: every mass track at [Fe/H] `z`. */
    static method WriteFehGroup(ageWgt: array<real>, mass: seq<real>, feh: seq<real>, linAges: seq<real>,
                                ms: seq<real>, z: real, ghost col: seq<real>)
      requires ageWgt.Length == |mass| == |feh| == |linAges| == |col|
      requires AgeWeight.AllTracksOk(mass, feh, linAges)
      requires z in feh
      requires forall m {:trigger TrackInColumn(col, mass, feh, linAges, m, z)} ::
                 m in mass ==> TrackInColumn(col, mass, feh, linAges, m, z)
      requires forall m :: m in ms ==> m in mass
      requires forall r :: 0 <= r < |mass| ==> mass[r] in ms
      modifies ageWgt
      ensures forall r :: 0 <= r < |mass| ==>
                ageWgt[r] == if feh[r] == z then col[r] else old(ageWgt[r])
    {
      for b := 0 to |ms|
        invariant forall r :: 0 <= r < |mass| ==>
                    ageWgt[r] == if feh[r] == z && mass[r] in ms[..b] then col[r] else old(ageWgt[r])
      {
        assert ms[b] in ms;
        WriteTrack(ageWgt, mass, feh, linAges, ms[b], z, col);
        assert ms[..b + 1] == ms[..b] + [ms[b]];
      }
      assert ms[..|ms|] == ms;
    }

    /** `age_wgtarr[inds] = grad / np.sum(grad)` for the track (m, z). */
    static method WriteTrack(ageWgt: array<real>, mass: seq<real>, feh: seq<real>, linAges: seq<real>,
                             m: real, z: real, ghost col: seq<real>)
      requires ageWgt.Length == |mass| == |feh| == |linAges| == |col|
      requires AgeWeight.AllTracksOk(mass, feh, linAges)
      requires m in mass && z in feh
      requires TrackInColumn(col, mass, feh, linAges, m, z)
      modifies ageWgt
      ensures forall r :: 0 <= r < |mass| ==>
                ageWgt[r] == if mass[r] == m && feh[r] == z then col[r] else old(ageWgt[r])
    {
      var rows := AgeWeight.Track(mass, feh, m, z);
      var w := AgeWeight.TrackWeights(mass, feh, linAges, m, z);
      forall j | 0 <= j < |rows| {
        ageWgt[rows[j]] := w[j];
      }
      forall r | 0 <= r < |mass|
        ensures ageWgt[r] == if mass[r] == m && feh[r] == z then col[r] else old(ageWgt[r])
      {
        if mass[r] == m && feh[r] == z {
          assert r in rows;
          var j :| 0 <= j < |rows| && rows[j] == r;
          assert Select(col, rows)[j] == w[j];
        }
      }
    }

    /** `lib_as_grid`: per label, the sorted unique values and their gaps;
        then every model's labels digitised with `right=True`. The KD-tree
        over `X` is replaced by the scan in `KnearestInds`. */
    method LibAsGrid()
      requires TableShaped(labels, predictions, libparams, output)
      requires forall p :: 0 <= p < |labels| ==> |Unique(Column(libparams, p))| >= 2
      modifies this`gridpoints, this`binwidths, this`X
      ensures Built(Snapshot())
    {
      var lib := libparams;
      var n := |labels|;
      gridpoints := [];
      binwidths := [];
      for p := 0 to n
        invariant |gridpoints| == p && |binwidths| == p
        invariant forall q :: 0 <= q < p ==>
                    gridpoints[q] == Unique(Column(lib, q)) && binwidths[q] == Diff(gridpoints[q])
      {
        var u := Unique(Column(lib, p));
        gridpoints := gridpoints + [u];
        binwidths := binwidths + [Diff(u)];
      }
      var gp := gridpoints;
      X := seq(|lib|, r requires 0 <= r < |lib| =>
             seq(n, p requires 0 <= p < n => DigitizeRight(gp[p], lib[r][p])));
    }
  }
}
