/** The genre index map of one split: every genre id that occurs in some track's genre
    list is numbered by its position among all such ids in ascending order. */
module GenreIndex {
  import opened Sequences

  /** Every genre id occurring in any track's genre list. */
  function GenreSet(yAll: seq<seq<int>>): set<int> {
    set t, g | 0 <= t < |yAll| && g in yAll[t] :: g
  }

  /** The number of genres in `genres` below `g`. */
  function Rank(genres: set<int>, g: int): nat {
    |set h | h in genres && h < g|
  }

  /** Reference definition of the index map: each genre is mapped to its rank. */
  function IndexMap(genres: set<int>): map<int, nat> {
    map g | g in genres :: Rank(genres, g)
  }

  /** An index map is a bijection from its keys onto `[0, |m|)`. */
  predicate IsIndexMap(m: map<int, nat>) {
    && (forall g :: g in m ==> m[g] < |m|)
    && (forall g1, g2 :: g1 in m && g2 in m && g1 != g2 ==> m[g1] != m[g2])
  }

  lemma GenreSetOfPrefix(yAll: seq<seq<int>>, t: nat)
    requires t < |yAll|
    ensures GenreSet(yAll[..t + 1]) == GenreSet(yAll[..t]) + Elems(yAll[t])
  {
    var p, q := yAll[..t + 1], yAll[..t];
    forall g ensures g in GenreSet(p) <==> g in GenreSet(q) + Elems(yAll[t]) {
      if g in GenreSet(p) {
        var u :| 0 <= u < |p| && g in p[u];
        if u < t { assert q[u] == p[u]; }
      }
      if g in GenreSet(q) {
        var u :| 0 <= u < |q| && g in q[u];
        assert p[u] == q[u];
      }
      if g in Elems(yAll[t]) {
        assert p[t] == yAll[t];
      }
    }
  }

  /** Every genre of track `t` is a key of the split's genre set. */
  lemma GenreSetContainsTrack(yAll: seq<seq<int>>, t: nat)
    requires t < |yAll|
    ensures forall g :: g in yAll[t] ==> g in GenreSet(yAll)
  {
  }

  /** In a strictly ascending list of the genres, the genre at position i has rank i. */
  lemma RankOfSorted(s: seq<int>, i: nat)
    requires StrictlySorted(s) && i < |s|
    ensures Rank(Elems(s), s[i]) == i
  {
    var below := set h | h in Elems(s) && h < s[i];
    forall h ensures h in below <==> h in Elems(s[..i]) {
      if h in below {
        var j :| 0 <= j < |s| && s[j] == h;
        assert j < i;
        assert s[..i][j] == h;
      }
      if h in Elems(s[..i]) {
        var j :| 0 <= j < i && s[..i][j] == h;
        assert s[j] == h;
      }
    }
    assert below == Elems(s[..i]);
    StrictlySortedDistinct(s[..i]);
    ElemsCard(s[..i]);
  }

  lemma PickGenre(genres: set<int>) returns (g: int)
    requires genres != {}
    ensures g in genres
  {
    assert (forall h :: h !in genres) ==> genres == {};
    g :| g in genres;
  }

  /** Some strictly ascending list enumerates any finite set of genres. */
  lemma {:induction false} SortedListing(genres: set<int>) returns (s: seq<int>)
    ensures StrictlySorted(s) && Elems(s) == genres && |s| == |genres|
    decreases |genres|
  {
    if genres == {} {
      s := [];
    } else {
      var g := PickGenre(genres);
      var rest := SortedListing(genres - {g});
      var u := [g] + rest;
      assert Distinct(u) by {
        forall i, j | 0 <= i < j < |u| ensures u[i] != u[j] {
          if i == 0 { assert u[j] == rest[j - 1] && u[j] in Elems(rest); }
        }
      }
      forall h ensures h in Elems(u) <==> h in genres {
        assert h in Elems(u) <==> h == g || h in rest;
        assert h in rest <==> h in Elems(rest);
      }
      assert Elems(u) == genres;
      SortDistinct(u);
      s := Sort(u);
      StrictlySortedDistinct(s);
      ElemsCard(s);
    }
  }

  /** The genre at position j of the ascending listing is mapped to j. */
  lemma IndexMapOfListing(genres: set<int>, s: seq<int>)
    requires StrictlySorted(s) && Elems(s) == genres
    ensures forall j :: 0 <= j < |s| ==> s[j] in IndexMap(genres) && IndexMap(genres)[s[j]] == j
  {
    forall j | 0 <= j < |s| ensures IndexMap(genres)[s[j]] == j {
      RankOfSorted(s, j);
    }
  }

  /** The values of the reference index map are exactly `0 .. |genres| - 1`. */
  lemma IndexMapValues(genres: set<int>)
    ensures IndexMap(genres).Keys == genres && |IndexMap(genres)| == |genres|
    ensures forall k :: k in IndexMap(genres).Values <==> 0 <= k < |genres|
  {
    var m := IndexMap(genres);
    assert m.Keys == genres;
    var s := SortedListing(genres);
    IndexMapOfListing(genres, s);
    forall k | 0 <= k < |genres| ensures k in m.Values {
      assert s[k] in m && m[s[k]] == k;
    }
    forall v | v in m.Values ensures 0 <= v < |genres| {
      var g :| g in m && m[g] == v;
      assert g in Elems(s);
      var j :| 0 <= j < |s| && s[j] == g;
    }
  }

  /** The reference index map preserves the order of genre ids. */
  lemma IndexMapMonotone(genres: set<int>)
    ensures forall g1, g2 :: g1 in genres && g2 in genres ==>
              (g1 < g2 <==> IndexMap(genres)[g1] < IndexMap(genres)[g2])
  {
    var m := IndexMap(genres);
    var s := SortedListing(genres);
    IndexMapOfListing(genres, s);
    forall g1, g2 | g1 in genres && g2 in genres ensures g1 < g2 <==> m[g1] < m[g2] {
      assert g1 in Elems(s) && g2 in Elems(s);
      var j1 :| 0 <= j1 < |s| && s[j1] == g1;
      var j2 :| 0 <= j2 < |s| && s[j2] == g2;
      assert m[g1] == j1 && m[g2] == j2;
      assert j1 < j2 ==> g1 < g2;
      assert j2 < j1 ==> g2 < g1;
    }
  }

  /** The reference index map is a bijection from the genres onto `[0, |genres|)`. */
  lemma IndexMapIsDense(genres: set<int>)
    ensures IndexMap(genres).Keys == genres && |IndexMap(genres)| == |genres|
    ensures IsIndexMap(IndexMap(genres))
    ensures forall k :: k in IndexMap(genres).Values <==> 0 <= k < |genres|
    ensures forall g1, g2 :: g1 in genres && g2 in genres ==>
              (g1 < g2 <==> IndexMap(genres)[g1] < IndexMap(genres)[g2])
  {
    IndexMapValues(genres);
    IndexMapMonotone(genres);
    var m := IndexMap(genres);
    forall g | g in m ensures m[g] < |m| {
      assert m[g] in m.Values;
    }
    forall g1, g2 | g1 in m && g2 in m && g1 != g2 ensures m[g1] != m[g2] {
      if g1 < g2 { assert m[g1] < m[g2]; } else { assert m[g2] < m[g1]; }
    }
  }

  /** Reordering the tracks does not change the index map. */
  lemma IndexMapIgnoresTrackOrder(a: seq<seq<int>>, b: seq<seq<int>>)
    requires multiset(a) == multiset(b)
    ensures IndexMap(GenreSet(a)) == IndexMap(GenreSet(b))
  {
    forall g | g in GenreSet(a) ensures g in GenreSet(b) {
      var t :| 0 <= t < |a| && g in a[t];
      assert a[t] in multiset(b);
      var u :| 0 <= u < |b| && b[u] == a[t];
    }
    forall g | g in GenreSet(b) ensures g in GenreSet(a) {
      var t :| 0 <= t < |b| && g in b[t];
      assert b[t] in multiset(a);
      var u :| 0 <= u < |a| && a[u] == b[t];
    }
    assert GenreSet(a) == GenreSet(b);
  }

  /** Reordering or repeating genres inside the tracks' lists does not change the index map. */
  lemma IndexMapIgnoresListOrder(a: seq<seq<int>>, b: seq<seq<int>>)
    requires |a| == |b|
    requires forall t :: 0 <= t < |a| ==> Elems(a[t]) == Elems(b[t])
    ensures IndexMap(GenreSet(a)) == IndexMap(GenreSet(b))
  {
    forall g | g in GenreSet(a) ensures g in GenreSet(b) {
      var t :| 0 <= t < |a| && g in a[t];
      assert g in Elems(a[t]);
    }
    forall g | g in GenreSet(b) ensures g in GenreSet(a) {
      var t :| 0 <= t < |b| && g in b[t];
      assert g in Elems(b[t]);
    }
    assert GenreSet(a) == GenreSet(b);
  }
}
