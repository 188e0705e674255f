/** Index-and-sequence helpers shared by the grid builder, the neighbour
    search and the age weighting: numpy's boolean masks and fancy indexing. */
module Seqs {

  /** `s` lists distinct indices in ascending order. */
  predicate Ascending(s: seq<nat>) {
    forall i, j :: 0 <= i < j < |s| ==> s[i] < s[j]
  }

  /** Ascending indices spread out by at least one per entry. */
  lemma {:induction false} AscendingSpread(s: seq<nat>)
    requires Ascending(s) && |s| > 0
    ensures s[0] + |s| - 1 <= s[|s| - 1]
  {
    if |s| > 1 {
      AscendingSpread(s[1..]);
      assert s[1..][|s| - 2] == s[|s| - 1];
    }
  }

  /** Position of the first occurrence of `x` in `s` (Python's `list.index`). */
  function IndexOf<T(==)>(s: seq<T>, x: T): (i: nat)
    requires x in s
    ensures i < |s| && s[i] == x
    ensures forall j :: 0 <= j < i ==> s[j] != x
  {
    if s[0] == x then 0 else 1 + IndexOf(s[1..], x)
  }

  /** The indices `from <= j < |flags|` whose flag is set, ascending
      (`np.nonzero` of a boolean mask, restricted to a suffix). */
  function WhereFrom(flags: seq<bool>, from: nat): (r: seq<nat>)
    requires from <= |flags|
    ensures Ascending(r)
    ensures forall j :: 0 <= j < |r| ==> from <= r[j] < |flags|
    ensures forall k :: from <= k < |flags| ==> (k in r <==> flags[k])
    decreases |flags| - from
  {
    if from == |flags| then []
    else if flags[from] then [from] + WhereFrom(flags, from + 1)
    else WhereFrom(flags, from + 1)
  }

  /** All indices whose flag is set, ascending. */
  function Where(flags: seq<bool>): (r: seq<nat>)
    ensures Ascending(r)
    ensures forall j :: 0 <= j < |r| ==> r[j] < |flags|
    ensures forall k :: 0 <= k < |flags| ==> (k in r <==> flags[k])
  {
    WhereFrom(flags, 0)
  }

  /** Fancy indexing `s[inds]`. */
  function Select<T>(s: seq<T>, inds: seq<nat>): (r: seq<T>)
    requires forall j :: 0 <= j < |inds| ==> inds[j] < |s|
  {
    seq(|inds|, j requires 0 <= j < |inds| => s[inds[j]])
  }

  /** Boolean-mask indexing `s[keep]`: the entries whose flag is set, in order. */
  function Mask<T>(s: seq<T>, keep: seq<bool>): seq<T>
    requires |keep| == |s|
  {
    Select(s, Where(keep))
  }

  /** Masking an ascending index list keeps it ascending, and keeps exactly
      the flagged entries. */
  lemma MaskIndices(inds: seq<nat>, keep: seq<bool>)
    requires |keep| == |inds| && Ascending(inds)
    ensures Ascending(Mask(inds, keep))
    ensures forall k :: k in Mask(inds, keep) <==> exists j :: 0 <= j < |inds| && keep[j] && inds[j] == k
  {
    var w := Where(keep);
    var m := Mask(inds, keep);
    forall i, j | 0 <= i < j < |m| ensures m[i] < m[j] {
      assert w[i] < w[j];
    }
    forall k ensures k in m <==> exists j :: 0 <= j < |inds| && keep[j] && inds[j] == k {
      if k in m {
        var i :| 0 <= i < |m| && m[i] == k;
        assert keep[w[i]] && inds[w[i]] == k;
      }
      if exists j :: 0 <= j < |inds| && keep[j] && inds[j] == k {
        var j :| 0 <= j < |inds| && keep[j] && inds[j] == k;
        assert j in w;
        var i :| 0 <= i < |w| && w[i] == j;
        assert m[i] == k;
      }
    }
  }

  /** Column `p` of a row-major table (`table[:, p]`). */
  function Column<T>(rows: seq<seq<T>>, p: nat): seq<T>
    requires forall r :: 0 <= r < |rows| ==> p < |rows[r]|
  {
    seq(|rows|, r requires 0 <= r < |rows| => rows[r][p])
  }
}
