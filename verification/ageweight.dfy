/** The age-density weight of `addagewgt`: for each (initial mass, [Fe/H])
    track, the numerical gradient of the track's linear ages divided by its
    sum. Linear ages (`10.0**log_age`) are supplied by the caller. */
module AgeWeight {
  import opened Seqs
  import opened Series
  import opened Axis

  /** `np.gradient(f)` with unit spacing: one-sided differences at the two
      ends, central differences `(f[i+1] - f[i-1]) / 2` inside. */
  function Gradient(f: seq<real>): (d: seq<real>)
    requires |f| >= 2
    ensures |d| == |f|
  {
    seq(|f|, i requires 0 <= i < |f| =>
      if i == 0 then f[1] - f[0]
      else if i == |f| - 1 then f[|f| - 1] - f[|f| - 2]
      else (f[i + 1] - f[i - 1]) / 2.0)
  }

  /** The interior central differences of `f`. */
  function Central(f: seq<real>): seq<real>
    requires |f| >= 2
  {
    seq(|f| - 2, i requires 0 <= i < |f| - 2 => (f[i + 2] - f[i]) / 2.0)
  }

  lemma {:induction false} CentralSum(f: seq<real>)
    requires |f| >= 2
    ensures Sum(Central(f)) == (f[|f| - 1] + f[|f| - 2] - f[1] - f[0]) / 2.0
  {
    if |f| > 2 {
      CentralSum(f[1..]);
      assert Central(f)[1..] == Central(f[1..]);
    }
  }

  /** The gradient telescopes: its sum is the total rise of the track plus
      the mean of its two end steps. */
  lemma GradientSum(f: seq<real>)
    requires |f| >= 2
    ensures Sum(Gradient(f)) == (f[|f| - 1] - f[0]) + ((f[1] - f[0]) + (f[|f| - 1] - f[|f| - 2])) / 2.0
  {
    var n := |f|;
    var d := Gradient(f);
    assert d == [f[1] - f[0]] + Central(f) + [f[n - 1] - f[n - 2]];
    SumAppend([f[1] - f[0]] + Central(f), [f[n - 1] - f[n - 2]]);
    SumAppend([f[1] - f[0]], Central(f));
    assert Sum([f[1] - f[0]]) == f[1] - f[0] + Sum([]);
    assert Sum([f[n - 1] - f[n - 2]]) == f[n - 1] - f[n - 2] + Sum([]);
    CentralSum(f);
  }

  /** Along a track whose age increases at every step, every gradient entry
      and their sum are positive. */
  lemma IncreasingGradientPositive(f: seq<real>)
    requires |f| >= 2 && StrictlyIncreasing(f)
    ensures forall i :: 0 <= i < |f| ==> 0.0 < Gradient(f)[i]
    ensures 0.0 < Sum(Gradient(f))
  {
    var d := Gradient(f);
    forall i | 0 <= i < |f| ensures 0.0 < d[i] {
      if 0 < i < |f| - 1 {
        assert f[i - 1] < f[i] < f[i + 1];
      }
    }
    SumPositiveIff(d);
  }

  /** The rows of track (m, z), `(mass == m) & (feh == z)`, ascending. */
  function Track(mass: seq<real>, feh: seq<real>, m: real, z: real): (rows: seq<nat>)
    requires |mass| == |feh|
    ensures Ascending(rows)
    ensures forall j :: 0 <= j < |rows| ==> rows[j] < |mass|
    ensures forall r :: 0 <= r < |mass| ==> (r in rows <==> mass[r] == m && feh[r] == z)
  {
    Where(seq(|mass|, r requires 0 <= r < |mass| => mass[r] == m && feh[r] == z))
  }

  /** A track `np.gradient` and the division can handle: two rows or more,
      and a gradient that does not sum to zero. */
  predicate TrackOk(mass: seq<real>, feh: seq<real>, ages: seq<real>, m: real, z: real)
    requires |mass| == |feh| == |ages|
  {
    var rows := Track(mass, feh, m, z);
    |rows| >= 2 && Sum(Gradient(Select(ages, rows))) != 0.0
  }

  /** Every (mass, [Fe/H]) pair the nested loops visit is a usable track. */
  predicate AllTracksOk(mass: seq<real>, feh: seq<real>, ages: seq<real>)
    requires |mass| == |feh| == |ages|
  {
    forall m, z {:trigger TrackOk(mass, feh, ages, m, z)} :: m in mass && z in feh ==> TrackOk(mass, feh, ages, m, z)
  }

  /** `grad / np.sum(grad)` for one track. */
  function TrackWeights(mass: seq<real>, feh: seq<real>, ages: seq<real>, m: real, z: real): (w: seq<real>)
    requires |mass| == |feh| == |ages| && TrackOk(mass, feh, ages, m, z)
    ensures |w| == |Track(mass, feh, m, z)|
    ensures Sum(w) == 1.0
  {
    Normalize(Gradient(Select(ages, Track(mass, feh, m, z))))
  }

  /** The age weight of row `r`: its entry in the weights of its own track. */
  function AgeWeightOf(mass: seq<real>, feh: seq<real>, ages: seq<real>, r: nat): real
    requires |mass| == |feh| == |ages| && r < |mass|
    requires TrackOk(mass, feh, ages, mass[r], feh[r])
  {
    var rows := Track(mass, feh, mass[r], feh[r]);
    TrackWeights(mass, feh, ages, mass[r], feh[r])[IndexOf(rows, r)]
  }

  /** Row `rows[j]` of track (m, z) gets the track's `j`-th weight. */
  lemma AgeWeightOfTrackRow(mass: seq<real>, feh: seq<real>, ages: seq<real>, m: real, z: real, j: nat)
    requires |mass| == |feh| == |ages| && TrackOk(mass, feh, ages, m, z)
    requires j < |Track(mass, feh, m, z)|
    ensures var r := Track(mass, feh, m, z)[j];
            && r < |mass| && mass[r] == m && feh[r] == z
            && AgeWeightOf(mass, feh, ages, r) == TrackWeights(mass, feh, ages, m, z)[j]
  {
    var rows := Track(mass, feh, m, z);
    var r := rows[j];
    assert r in rows;
    var i := IndexOf(rows, r);
    assert i == j by {
      assert rows[i] == rows[j];
      assert !(i < j) && !(j < i);
    }
  }

  /** Over every track the age weights sum to one. */
  lemma TrackAgeWeightsSumToOne(mass: seq<real>, feh: seq<real>, ages: seq<real>, m: real, z: real, rows: seq<nat>)
    requires |mass| == |feh| == |ages| && TrackOk(mass, feh, ages, m, z)
    requires rows == Track(mass, feh, m, z)
    ensures Sum(seq(|rows|, j requires 0 <= j < |rows| => AgeWeightOf(mass, feh, ages, rows[j]))) == 1.0
  {
    var tw := TrackWeights(mass, feh, ages, m, z);
    var aw := seq(|rows|, j requires 0 <= j < |rows| => AgeWeightOf(mass, feh, ages, rows[j]));
    assert aw == tw by {
      forall j | 0 <= j < |rows| ensures aw[j] == tw[j] {
        AgeWeightOfTrackRow(mass, feh, ages, m, z, j);
      }
    }
  }

  /** On a track whose age increases at every step, every row's age weight
      is positive. */
  lemma IncreasingTrackPositiveWeights(mass: seq<real>, feh: seq<real>, ages: seq<real>, r: nat)
    requires |mass| == |feh| == |ages| && r < |mass|
    requires var rows := Track(mass, feh, mass[r], feh[r]);
             |rows| >= 2 && StrictlyIncreasing(Select(ages, rows))
    ensures TrackOk(mass, feh, ages, mass[r], feh[r])
    ensures 0.0 < AgeWeightOf(mass, feh, ages, r)
  {
    var rows := Track(mass, feh, mass[r], feh[r]);
    IncreasingGradientPositive(Select(ages, rows));
  }

  /** A three-point track with linear ages 1, 2 and 4 has gradient
      1, 1.5 and 2, and age weights 2/9, 1/3 and 4/9. */
  lemma ThreePointTrack()
    ensures Gradient([1.0, 2.0, 4.0]) == [1.0, 1.5, 2.0]
    ensures Normalize(Gradient([1.0, 2.0, 4.0])) == [2.0 / 9.0, 1.0 / 3.0, 4.0 / 9.0]
  {
    var d := Gradient([1.0, 2.0, 4.0]);
    assert d == [1.0, 1.5, 2.0];
    assert Sum(d) == 4.5 by {
      assert Sum([2.0]) == 2.0 + Sum([]);
      assert Sum([1.5, 2.0]) == 1.5 + Sum([2.0]);
    }
  }
}
