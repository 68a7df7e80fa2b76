/** The soft-label vector of a track: the primary genre's slot holds 1 (a single genre)
    or 0.75, every other genre of the track holds 0.25 / max(1, n - 1), all other slots 0.
    Weights are exact reals; IEEE rounding is not modelled. */
module SoftLabels {
  import opened Sequences
  import opened GenreIndex

  /** Weight written at the primary genre's slot for a track with `n` genres. */
  function Primary(n: int): (w: real)
    ensures 0.0 < w <= 1.0
    ensures w == 1.0 <==> n <= 1
  {
    if n > 1 then 0.75 else 1.0
  }

  /** Weight written at each secondary genre's slot for a track with `n` genres;
      the denominator `max(1, n - 1)` is never zero. */
  function Significance(n: int): (w: real)
    ensures 0.0 < w <= 0.25
  {
    0.25 / ((if n - 1 > 1 then n - 1 else 1) as real)
  }

  /** The `n - 1` secondary slots of a track with `n >= 2` genres share 0.25 between them. */
  lemma SignificanceShares(n: int)
    requires n >= 2
    ensures Significance(n) * ((n - 1) as real) == 0.25
  {
  }

  /** The final value of genre `g`'s slot in the row of a track with primary genre `top`
      and genre list `genres`. */
  function SlotWeight(top: int, genres: seq<int>, g: int): (w: real)
    ensures 0.0 <= w <= 1.0
  {
    if g == top then Primary(|genres|)
    else if g in genres then Significance(|genres|)
    else 0.0
  }

  /** Total weight of a row: the primary weight plus one secondary weight per distinct
      genre of the list other than the primary. */
  function RowMass(top: int, genres: seq<int>): real {
    Primary(|genres|) + Significance(|genres|) * (|Elems(genres) - {top}| as real)
  }

  /** `row` is the label vector of a track over the index map `idx`. */
  predicate LabelRow(idx: map<int, nat>, top: int, genres: seq<int>, row: seq<real>) {
    && |row| == |idx|
    && (forall g :: g in idx ==> idx[g] < |row| && row[idx[g]] == SlotWeight(top, genres, g))
    && Sum(row) == RowMass(top, genres)
  }

  /** Track `i` can be vectorized: it has a genre list and its primary genre is a key
      of the split's index map. */
  predicate RowOk(yTop: seq<int>, yAll: seq<seq<int>>, i: nat) {
    i < |yTop| && i < |yAll| && yTop[i] in GenreSet(yAll)
  }

  /** Every track of the split can be vectorized. */
  predicate Vectorizable(yTop: seq<int>, yAll: seq<seq<int>>) {
    forall i :: 0 <= i < |yTop| ==> RowOk(yTop, yAll, i)
  }

  /** `y` is the label matrix of a split: one row per primary genre, over the split's
      index map. */
  predicate LabelMatrix(y: seq<seq<real>>, yTop: seq<int>, yAll: seq<seq<int>>) {
    && |y| == |yTop| <= |yAll|
    && forall i :: 0 <= i < |y| ==> LabelRow(IndexMap(GenreSet(yAll)), yTop[i], yAll[i], y[i])
  }

  /** Every entry of a label row over the split's index map lies in [0, 1]. */
  lemma LabelRowInUnitInterval(genreSet: set<int>, top: int, genres: seq<int>, row: seq<real>)
    requires LabelRow(IndexMap(genreSet), top, genres, row)
    ensures forall k :: 0 <= k < |row| ==> 0.0 <= row[k] <= 1.0
  {
    var idx := IndexMap(genreSet);
    IndexMapValues(genreSet);
    forall k | 0 <= k < |row| ensures 0.0 <= row[k] <= 1.0 {
      assert k in idx.Values;
      var g :| g in idx && idx[g] == k;
      assert row[k] == SlotWeight(top, genres, g);
    }
  }

  /** When the primary genre is in the track's list, the row mass is at most 1, and it is
      exactly 1 if and only if the list has no repeated genre; a repeated genre is written
      with `=` rather than accumulated, so its extra share is lost. */
  lemma {:induction false} RowMassIsOne(top: int, genres: seq<int>)
    requires top in genres
    ensures RowMass(top, genres) <= 1.0
    ensures RowMass(top, genres) == 1.0 <==> Distinct(genres)
  {
    var n := |genres|;
    ElemsCard(genres);
    var e := Elems(genres);
    assert top in e;
    assert |e - {top}| == |e| - 1;
    var d := |e - {top}|;
    if n == 1 {
      assert e == {top};
      assert d == 0;
    } else {
      var sig := Significance(n);
      SignificanceShares(n);
      assert d <= n - 1;
      assert sig * (d as real) <= sig * ((n - 1) as real) by {
        assert ((n - 1) as real) - (d as real) >= 0.0;
        assert sig * (((n - 1) as real) - (d as real)) >= 0.0;
      }
      if d < n - 1 {
        assert sig * (d as real) < sig * ((n - 1) as real) by {
          assert ((n - 1) as real) - (d as real) > 0.0;
          assert sig * (((n - 1) as real) - (d as real)) > 0.0;
        }
      }
    }
  }

  /** A repeat-free list that does not hold the primary genre has one secondary genre per entry. */
  lemma SecondaryCount(top: int, genres: seq<int>)
    requires top !in genres && Distinct(genres)
    ensures |Elems(genres) - {top}| == |genres|
  {
    ElemsCard(genres);
    assert Elems(genres) - {top} == Elems(genres);
  }

  /** With `n` secondary genres and the primary weight on top, the total exceeds 1. */
  lemma PrimaryPlusAllSecondaries(n: nat)
    requires n >= 1
    ensures Primary(n) + Significance(n) * (n as real) > 1.0
  {
    var sig := Significance(n);
    if n == 1 {
      assert sig == 0.25;
    } else {
      SignificanceShares(n);
      assert sig * (n as real) == sig * ((n - 1) as real) + sig;
    }
  }

  /** The row mass of a track with `d` secondary genres and `d` entries exceeds 1. */
  lemma RowMassOfCount(top: int, genres: seq<int>, d: nat)
    requires d == |Elems(genres) - {top}| == |genres| && d >= 1
    ensures RowMass(top, genres) > 1.0
  {
    PrimaryPlusAllSecondaries(d);
  }

  /** When the primary genre is NOT in the track's (repeat-free, non-empty) list, the
      primary weight is still written, so the row mass exceeds 1. */
  lemma {:induction false} RowMassWithoutPrimary(top: int, genres: seq<int>)
    requires top !in genres && genres != [] && Distinct(genres)
    ensures RowMass(top, genres) > 1.0
  {
    SecondaryCount(top, genres);
    RowMassOfCount(top, genres, |genres|);
  }

  /** The row sum printed as the sanity check: a label row whose primary genre is in the
      track's list sums to at most 1, and to exactly 1 if and only if the list has no
      repeated genre. */
  lemma LabelRowSum(idx: map<int, nat>, top: int, genres: seq<int>, row: seq<real>)
    requires LabelRow(idx, top, genres, row) && top in genres
    ensures Sum(row) <= 1.0
    ensures Sum(row) == 1.0 <==> Distinct(genres)
  {
    RowMassIsOne(top, genres);
  }

  /** A label row whose primary genre is missing from its (non-empty, repeat-free) list sums
      to more than 1. */
  lemma LabelRowSumWithoutPrimary(idx: map<int, nat>, top: int, genres: seq<int>, row: seq<real>)
    requires LabelRow(idx, top, genres, row) && top !in genres && genres != [] && Distinct(genres)
    ensures Sum(row) > 1.0
  {
    RowMassWithoutPrimary(top, genres);
  }
}
