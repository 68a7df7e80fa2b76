/** The split containers of the dataset and the passes that fill them: the genre index map,
    the soft-label matrix, and the stacking pass that counts tracks without a spectrogram. */
module InputData {
  import opened Sequences
  import opened GenreIndex
  import opened SoftLabels
  import opened Spectrograms

  datatype Result<T, E> = Success(value: T) | Failure(error: E)

  /** Why building the label matrix stops at track `row`. */
  datatype LabelError =
    /** The track has no genre list (`y_all[i]` is out of range). */
    | NoGenreList(row: nat)
    /** The track's primary genre is not a key of the index map (`idx_map[y_top[i]]`). */
    | UnknownGenre(row: nat, genre: int)

  /** The error raised at a track that cannot be vectorized: the genre list is read first. */
  function RowError(yTop: seq<int>, yAll: seq<seq<int>>, k: nat): (e: LabelError)
    requires k < |yTop|
    ensures e.row == k
    ensures e.NoGenreList? <==> k >= |yAll|
    ensures e.UnknownGenre? ==> e.genre == yTop[k]
  {
    if k >= |yAll| then NoGenreList(k) else UnknownGenre(k, yTop[k])
  }

  class SplitData {
    var trackIds: seq<int>
    var y: seq<seq<real>>

    /** Stores the track ids and the split's label matrix. */
    constructor (trackIds: seq<int>, yTop: seq<int>, yAll: seq<seq<int>>)
      requires Vectorizable(yTop, yAll)
      ensures this.trackIds == trackIds
      ensures LabelMatrix(this.y, yTop, yAll)
    {
      var r := CreateOutputVector(yTop, yAll);
      this.trackIds := trackIds;
      this.y := r.value;
    }

    /** Collects the distinct genre ids of all tracks, sorts them and numbers them from 0. */
    static method GetIndicesMapping(yAll: seq<seq<int>>) returns (indicesMap: map<int, nat>)
      ensures indicesMap == IndexMap(GenreSet(yAll))
      ensures indicesMap.Keys == GenreSet(yAll)
      ensures IsIndexMap(indicesMap)
      ensures forall k :: k in indicesMap.Values <==> 0 <= k < |indicesMap|
      ensures forall g1, g2 :: g1 in indicesMap && g2 in indicesMap ==>
                (g1 < g2 <==> indicesMap[g1] < indicesMap[g2])
    {
      var indices: seq<int> := [];
      for t := 0 to |yAll|
        invariant Distinct(indices)
        invariant Elems(indices) == GenreSet(yAll[..t])
      {
        indices := AppendNewGenres(indices, yAll[t]);
        GenreSetOfPrefix(yAll, t);
      }
      assert yAll[..|yAll|] == yAll;
      var genres := GenreSet(yAll);

      var sorted := Sort(indices);
      SortDistinct(indices);
      StrictlySortedDistinct(sorted);
      indicesMap := Enumerate(sorted);
      ListingNumbering(genres, sorted, indicesMap);
      IndexMapIsDense(genres);
    }

    /** The inner collection loop: appends, in order, every genre of a list not yet listed. */
    static method AppendNewGenres(indices: seq<int>, genreList: seq<int>) returns (r: seq<int>)
      requires Distinct(indices)
      ensures Distinct(r)
      ensures Elems(r) == Elems(indices) + Elems(genreList)
      ensures indices <= r
    {
      r := indices;
      for k := 0 to |genreList|
        invariant Distinct(r)
        invariant Elems(r) == Elems(indices) + Elems(genreList[..k])
        invariant indices <= r
      {
        assert genreList[..k + 1] == genreList[..k] + [genreList[k]];
        if genreList[k] !in r {
          assert Elems(r + [genreList[k]]) == Elems(r) + {genreList[k]};
          r := r + [genreList[k]];
        }
      }
      assert genreList[..|genreList|] == genreList;
    }

    /** Python's `enumerate` turned into a dictionary: each entry of a repeat-free list is
        mapped to its position. */
    static method Enumerate(sorted: seq<int>) returns (m: map<int, nat>)
      requires Distinct(sorted)
      ensures m.Keys == Elems(sorted)
      ensures forall j :: 0 <= j < |sorted| ==> m[sorted[j]] == j
    {
      m := map[];
      for i := 0 to |sorted|
        invariant m.Keys == Elems(sorted[..i])
        invariant forall j :: 0 <= j < i ==> m[sorted[j]] == j
      {
        assert sorted[..i + 1] == sorted[..i] + [sorted[i]];
        m := m[sorted[i] := i];
      }
      assert sorted[..|sorted|] == sorted;
    }

    /** The label vector of one track: zeros, the primary weight at the primary genre's
        slot, then the secondary weight at every other genre of the list. */
    static method CreateRow(idxMap: map<int, nat>, top: int, genres: seq<int>) returns (yi: seq<real>)
      requires IsIndexMap(idxMap) && top in idxMap
      requires forall g :: g in genres ==> g in idxMap
      ensures LabelRow(idxMap, top, genres, yi)
    {
      var vsize := |idxMap|;
      yi := seq(vsize, _ => 0.0);
      var primary := Primary(|genres|);
      FirstSlot(idxMap, top, genres);
      yi := yi[idxMap[top] := primary];

      var significance := Significance(|genres|);
      for k := 0 to |genres|
        invariant RowSoFar(idxMap, top, genres, k, yi, primary, significance)
      {
        var genreId := genres[k];
        RowStep(idxMap, top, genres, k, yi, primary, significance);
        if genreId == top {
          continue;
        }
        yi := yi[idxMap[genreId] := significance];
      }
      RowDone(idxMap, top, genres, yi);
    }

    /** The label matrix of a split, one row per primary genre, or the error Python raises
        at the first track that cannot be vectorized. */
    static method CreateOutputVector(yTop: seq<int>, yAll: seq<seq<int>>)
      returns (r: Result<seq<seq<real>>, LabelError>)
      ensures r.Success? <==> Vectorizable(yTop, yAll)
      ensures r.Success? ==> LabelMatrix(r.value, yTop, yAll)
      ensures r.Failure? ==>
                && r.error.row < |yTop|
                && (forall i :: 0 <= i < r.error.row ==> RowOk(yTop, yAll, i))
                && !RowOk(yTop, yAll, r.error.row)
                && r.error == RowError(yTop, yAll, r.error.row)
    {
      var idxMap := GetIndicesMapping(yAll);
      var y: seq<seq<real>> := [];
      for i := 0 to |yTop|
        invariant |y| == i
        invariant RowsDone(idxMap, yTop, yAll, y)
      {
        if i >= |yAll| {
          assert !RowOk(yTop, yAll, i);
          return Failure(NoGenreList(i));
        }
        if yTop[i] !in idxMap {
          assert !RowOk(yTop, yAll, i);
          return Failure(UnknownGenre(i, yTop[i]));
        }
        GenreSetContainsTrack(yAll, i);
        var yi := CreateRow(idxMap, yTop[i], yAll[i]);
        AppendRow(idxMap, yTop, yAll, y, yi);
        y := y + [yi];
      }
      assert |yTop| > 0 ==> RowOk(yTop, yAll, |yTop| - 1);
      return Success(y);
    }
  }

  /** The rows built so far are the label vectors of the first tracks, all of which can be
      vectorized. */
  ghost predicate RowsDone(idxMap: map<int, nat>, yTop: seq<int>, yAll: seq<seq<int>>, y: seq<seq<real>>) {
    && |y| <= |yTop|
    && forall j :: 0 <= j < |y| ==> RowOk(yTop, yAll, j) && LabelRow(idxMap, yTop[j], yAll[j], y[j])
  }

  lemma AppendRow(idxMap: map<int, nat>, yTop: seq<int>, yAll: seq<seq<int>>, y: seq<seq<real>>, yi: seq<real>)
    requires RowsDone(idxMap, yTop, yAll, y) && RowOk(yTop, yAll, |y|)
    requires LabelRow(idxMap, yTop[|y|], yAll[|y|], yi)
    ensures RowsDone(idxMap, yTop, yAll, y + [yi])
  {
    forall j | 0 <= j < |y| + 1
      ensures RowOk(yTop, yAll, j) && LabelRow(idxMap, yTop[j], yAll[j], (y + [yi])[j])
    {
      if j < |y| { assert (y + [yi])[j] == y[j]; }
    }
  }

  /** The value of genre `g`'s slot once the primary weight `primary` and, for the first `k`
      genres of the list, the secondary weight `share` have been written. */
  ghost function PartialWeight(top: int, genres: seq<int>, k: nat, g: int, primary: real, share: real): real
    requires k <= |genres|
  {
    if g == top then primary
    else if g in genres[..k] then share
    else 0.0
  }

  /** Every slot of the row being built holds its partial weight after `k` genres. */
  ghost predicate SlotsSoFar(idxMap: map<int, nat>, top: int, genres: seq<int>, k: nat, yi: seq<real>,
                             primary: real, share: real)
    requires k <= |genres|
  {
    && |yi| == |idxMap|
    && forall g :: g in idxMap ==>
         (idxMap[g] < |yi| && yi[idxMap[g]] == PartialWeight(top, genres, k, g, primary, share))
  }

  /** The row being built after `k` genres: every slot holds its partial weight and the row
      sums to the primary weight plus one share per distinct secondary genre seen so far. */
  ghost predicate RowSoFar(idxMap: map<int, nat>, top: int, genres: seq<int>, k: nat, yi: seq<real>,
                           primary: real, share: real)
    requires k <= |genres|
  {
    && SlotsSoFar(idxMap, top, genres, k, yi, primary, share)
    && Sum(yi) == primary + Shares(share, SecondariesSoFar(top, genres, k))
  }

  /** One pass of the secondary loop: the primary genre is skipped, any other genre's slot
      gets the secondary weight. */
  lemma RowStep(idxMap: map<int, nat>, top: int, genres: seq<int>, k: nat, yi: seq<real>,
                primary: real, share: real)
    requires IsIndexMap(idxMap)
    requires forall g :: g in genres ==> g in idxMap
    requires k < |genres| && RowSoFar(idxMap, top, genres, k, yi, primary, share)
    ensures genres[k] == top ==> RowSoFar(idxMap, top, genres, k + 1, yi, primary, share)
    ensures genres[k] != top ==>
              RowSoFar(idxMap, top, genres, k + 1, yi[idxMap[genres[k]] := share], primary, share)
  {
    if genres[k] == top {
      TopStep(idxMap, top, genres, k, yi, primary, share);
    } else {
      SlotStep(idxMap, top, genres, k, yi, primary, share);
      SumStep(top, genres, k, yi, idxMap[genres[k]], primary, share);
    }
  }

  /** The number of distinct genres other than the primary among the first `k` of the list. */
  ghost function SecondariesSoFar(top: int, genres: seq<int>, k: nat): nat
    requires k <= |genres|
  {
    |Elems(genres[..k]) - {top}|
  }

  /** Writing the primary weight into a row of zeros gives the row before any genre of the list. */
  lemma FirstSlot(idxMap: map<int, nat>, top: int, genres: seq<int>)
    requires IsIndexMap(idxMap) && top in idxMap
    ensures var row := seq(|idxMap|, _ => 0.0)[idxMap[top] := Primary(|genres|)];
            RowSoFar(idxMap, top, genres, 0, row, Primary(|genres|), Significance(|genres|))
  {
    var zeros := seq(|idxMap|, _ => 0.0);
    SumZeros(|idxMap|);
    SumUpdate(zeros, idxMap[top], Primary(|genres|));
    assert Elems(genres[..0]) - {top} == {};
  }

  /** Meeting the primary genre again in the list changes neither the slots nor the count of
      secondaries. */
  lemma TopStep(idxMap: map<int, nat>, top: int, genres: seq<int>, k: nat, yi: seq<real>,
                primary: real, share: real)
    requires k < |genres| && genres[k] == top
    requires SlotsSoFar(idxMap, top, genres, k, yi, primary, share)
    ensures SlotsSoFar(idxMap, top, genres, k + 1, yi, primary, share)
    ensures SecondariesSoFar(top, genres, k + 1) == SecondariesSoFar(top, genres, k)
  {
    assert genres[..k + 1] == genres[..k] + [top];
    forall g ensures g in genres[..k + 1] <==> g in genres[..k] || g == top {
    }
    assert Elems(genres[..k + 1]) - {top} == Elems(genres[..k]) - {top};
    forall g | g in idxMap
      ensures PartialWeight(top, genres, k + 1, g, primary, share) == PartialWeight(top, genres, k, g, primary, share)
    {
    }
  }

  /** Writing the secondary weight at genre `k`'s slot gives the slots after `k + 1` genres. */
  lemma SlotStep(idxMap: map<int, nat>, top: int, genres: seq<int>, k: nat, yi: seq<real>,
                 primary: real, share: real)
    requires IsIndexMap(idxMap)
    requires forall g :: g in genres ==> g in idxMap
    requires k < |genres| && genres[k] != top && SlotsSoFar(idxMap, top, genres, k, yi, primary, share)
    ensures SlotsSoFar(idxMap, top, genres, k + 1, yi[idxMap[genres[k]] := share], primary, share)
  {
    assert genres[..k + 1] == genres[..k] + [genres[k]];
  }

  /** Writing the secondary weight at genre `k`'s slot adds one share to the sum exactly when
      the genre is new. */
  lemma SumStep(top: int, genres: seq<int>, k: nat, yi: seq<real>, slot: nat, primary: real, share: real)
    requires k < |genres| && genres[k] != top && slot < |yi|
    requires yi[slot] == PartialWeight(top, genres, k, genres[k], primary, share)
    requires Sum(yi) == primary + Shares(share, SecondariesSoFar(top, genres, k))
    ensures Sum(yi[slot := share]) == primary + Shares(share, SecondariesSoFar(top, genres, k + 1))
  {
    SecondaryStep(genres, k, top);
    SumUpdate(yi, slot, share);
  }

  /** `c` shares of size `share`, added one at a time as the secondary loop does. */
  ghost function Shares(share: real, c: nat): real {
    if c == 0 then 0.0 else Shares(share, c - 1) + share
  }

  lemma {:induction false} SharesProduct(share: real, c: nat)
    ensures Shares(share, c) == share * (c as real)
  {
    if c > 0 {
      SharesProduct(share, c - 1);
      AddOneShare(share, c - 1);
    }
  }

  /** After the whole list the row is the track's label vector. */
  lemma RowDone(idxMap: map<int, nat>, top: int, genres: seq<int>, yi: seq<real>)
    requires RowSoFar(idxMap, top, genres, |genres|, yi, Primary(|genres|), Significance(|genres|))
    ensures LabelRow(idxMap, top, genres, yi)
  {
    assert genres[..|genres|] == genres;
    forall g | g in idxMap ensures yi[idxMap[g]] == SlotWeight(top, genres, g) {
      assert yi[idxMap[g]] == PartialWeight(top, genres, |genres|, g, Primary(|genres|), Significance(|genres|));
    }
    RowDoneSum(top, genres, yi);
  }

  lemma RowDoneSum(top: int, genres: seq<int>, yi: seq<real>)
    requires Sum(yi) == Primary(|genres|) + Shares(Significance(|genres|), SecondariesSoFar(top, genres, |genres|))
    ensures Sum(yi) == RowMass(top, genres)
  {
    assert genres[..|genres|] == genres;
    var c := SecondariesSoFar(top, genres, |genres|);
    assert c == |Elems(genres) - {top}|;
    SharesProduct(Significance(|genres|), c);
  }

  /** The genre at position j of an ascending listing of the genres sits at j of a map that
      numbers the listing, so that map is the reference index map. */
  lemma ListingNumbering(genres: set<int>, sorted: seq<int>, m: map<int, nat>)
    requires StrictlySorted(sorted) && Elems(sorted) == genres
    requires m.Keys == genres
    requires forall j :: 0 <= j < |sorted| ==> m[sorted[j]] == j
    ensures m == IndexMap(genres)
  {
    IndexMapOfListing(genres, sorted);
    forall g | g in genres ensures m[g] == IndexMap(genres)[g] {
      var j :| 0 <= j < |sorted| && sorted[j] == g;
    }
  }

  /** One more secondary genre of the list adds one to the count of distinct secondaries,
      unless it occurred before. */
  lemma SecondaryStep(genres: seq<int>, k: nat, top: int)
    requires k < |genres| && genres[k] != top
    ensures |Elems(genres[..k + 1]) - {top}| ==
            |Elems(genres[..k]) - {top}| + (if genres[k] in genres[..k] then 0 else 1)
  {
    assert genres[..k + 1] == genres[..k] + [genres[k]];
    var before := Elems(genres[..k]) - {top};
    assert Elems(genres[..k + 1]) - {top} == before + {genres[k]};
    assert genres[k] in before <==> genres[k] in genres[..k];
  }

  lemma AddOneShare(share: real, d: nat)
    ensures share * ((d + 1) as real) == share * (d as real) + share
  {
  }

  class Dataset {
    var train: SplitData
    var valid: SplitData
    var test: SplitData

    /** Builds one split container from each stacked split, in the order (train, valid, test). */
    constructor (train: StackedSplit, valid: StackedSplit, test: StackedSplit)
      requires Vectorizable(train.yTop, train.yAll)
      requires Vectorizable(valid.yTop, valid.yAll)
      requires Vectorizable(test.yTop, test.yAll)
      ensures fresh(this.train) && fresh(this.valid) && fresh(this.test)
      ensures this.train.trackIds == train.trackIds && LabelMatrix(this.train.y, train.yTop, train.yAll)
      ensures this.valid.trackIds == valid.trackIds && LabelMatrix(this.valid.y, valid.yTop, valid.yAll)
      ensures this.test.trackIds == test.trackIds && LabelMatrix(this.test.y, test.yTop, test.yAll)
    {
      var tr := new SplitData(train.trackIds, train.yTop, train.yAll);
      var va := new SplitData(valid.trackIds, valid.yTop, valid.yAll);
      var te := new SplitData(test.trackIds, test.yTop, test.yAll);
      this.train := tr;
      this.valid := va;
      this.test := te;
    }
  }

  /** The two label rows of a split: primary genres and genre lists, one column per track. */
  datatype Labels = Labels(top: seq<int>, all: seq<seq<int>>)

  /** The three rows of a stacked split: track ids, primary genres, genre lists. */
  datatype StackedSplit = StackedSplit(trackIds: seq<int>, yTop: seq<int>, yAll: seq<seq<int>>)

  /** A stacked split with the number of tracks examined and the number found without an image. */
  datatype Stacked = Stacked(split: StackedSplit, allCnt: nat, dltCnt: nat)

  /** Stacking fails when the ids and the label rows differ in width. */
  datatype StackError = WidthMismatch(ids: nat, top: nat, all: nat)

  predicate SameWidth(trackIds: seq<int>, yStack: Labels) {
    |yStack.top| == |trackIds| && |yStack.all| == |trackIds|
  }

  /** The stacking pass as written: every track is examined and every track whose image file
      is absent is counted, but the arrays with that column deleted are thrown away, so the
      stacked split is the input unchanged. */
  method Stack(trackIds: seq<int>, yStack: Labels, isFile: string -> bool)
    returns (r: Result<Stacked, StackError>)
    ensures r.Success? <==> SameWidth(trackIds, yStack)
    ensures r.Failure? ==> r.error == WidthMismatch(|trackIds|, |yStack.top|, |yStack.all|)
    ensures r.Success? ==> r.value.split == StackedSplit(trackIds, yStack.top, yStack.all)
    ensures r.Success? ==> r.value.allCnt == |trackIds| && r.value.dltCnt == MissingCount(trackIds, isFile)
    ensures r.Success? ==> r.value.dltCnt <= r.value.allCnt
  {
    ghost var mask := KeepMask(trackIds, isFile);
    var allCnt, dltCnt := 0, 0;
    for idx := 0 to |trackIds|
      invariant allCnt == idx
      invariant dltCnt == FalseCount(mask[..idx])
    {
      var trackIdStr := IntToString(trackIds[idx]);
      allCnt := allCnt + 1;
      assert mask[..idx + 1][..idx] == mask[..idx];
      assert mask[idx] == isFile(TrackPath(trackIds[idx]));
      if !isFile(SpectrogramPath(trackIdStr)) {
        dltCnt := dltCnt + 1;
      }
    }
    assert mask[..|trackIds|] == mask;
    if !SameWidth(trackIds, yStack) {
      return Failure(WidthMismatch(|trackIds|, |yStack.top|, |yStack.all|));
    }
    return Success(Stacked(StackedSplit(trackIds, yStack.top, yStack.all), allCnt, dltCnt));
  }

  /** The stacking pass as its documentation describes it: one pass that keeps exactly the
      tracks whose image file exists, in their original order, with their label columns. */
  method StackFiltered(trackIds: seq<int>, yStack: Labels, isFile: string -> bool)
    returns (r: Result<Stacked, StackError>)
    ensures r.Success? <==> SameWidth(trackIds, yStack)
    ensures r.Failure? ==> r.error == WidthMismatch(|trackIds|, |yStack.top|, |yStack.all|)
    ensures r.Success? ==>
              var m := KeepMask(trackIds, isFile);
              r.value.split == StackedSplit(Select(trackIds, m), Select(yStack.top, m), Select(yStack.all, m))
    ensures r.Success? ==> r.value.allCnt == |trackIds| && r.value.dltCnt == MissingCount(trackIds, isFile)
    ensures r.Success? ==> |r.value.split.trackIds| == r.value.allCnt - r.value.dltCnt
    ensures r.Success? ==> forall j :: 0 <= j < |r.value.split.trackIds| ==>
                             isFile(TrackPath(r.value.split.trackIds[j]))
  {
    if !SameWidth(trackIds, yStack) {
      return Failure(WidthMismatch(|trackIds|, |yStack.top|, |yStack.all|));
    }
    ghost var mask := KeepMask(trackIds, isFile);
    var top, all := yStack.top, yStack.all;
    var keptIds, keptTop, keptAll := [], [], [];
    var allCnt, dltCnt := 0, 0;
    for idx := 0 to |trackIds|
      invariant allCnt == idx
      invariant dltCnt == FalseCount(mask[..idx])
      invariant keptIds == Select(trackIds[..idx], mask[..idx])
      invariant keptTop == Select(top[..idx], mask[..idx])
      invariant keptAll == Select(all[..idx], mask[..idx])
    {
      allCnt := allCnt + 1;
      SelectPrefixStep(trackIds, mask, idx);
      SelectPrefixStep(top, mask, idx);
      SelectPrefixStep(all, mask, idx);
      if isFile(TrackPath(trackIds[idx])) {
        keptIds, keptTop, keptAll := keptIds + [trackIds[idx]], keptTop + [top[idx]], keptAll + [all[idx]];
      } else {
        dltCnt := dltCnt + 1;
      }
    }
    assert mask[..|trackIds|] == mask;
    assert trackIds[..|trackIds|] == trackIds && top[..|top|] == top && all[..|all|] == all;
    KeptPlusMissing(trackIds, isFile);
    KeptTracksPresent(trackIds, isFile);
    return Success(Stacked(StackedSplit(keptIds, keptTop, keptAll), allCnt, dltCnt));
  }

  /** An image store holding the spectrogram of every track except track 2. */
  function AllButTrackTwo(path: string): bool {
    path != TrackPath(2)
  }

  /** Three tracks of which only track 2 lacks its image: the pass as written counts one
      missing track, yet the stacked split still holds all three, so it has more columns
      than tracks examined minus tracks missing. */
  method StackKeepsMissingTrack() returns (r: Result<Stacked, StackError>)
    ensures r.Success? && r.value.split.trackIds == [1, 2, 3]
    ensures r.value.allCnt == 3 && r.value.dltCnt == 1
    ensures !AllButTrackTwo(TrackPath(r.value.split.trackIds[1]))
    ensures |r.value.split.trackIds| != r.value.allCnt - r.value.dltCnt
  {
    ThreeTracksMask();
    r := Stack([1, 2, 3], Labels([10, 20, 10], [[10], [20, 30], [10]]), AllButTrackTwo);
  }

  /** The same three tracks through the corrected pass: track 2 and its label columns are
      dropped, tracks 1 and 3 keep theirs. */
  method StackFilteredDropsMissingTrack() returns (r: Result<Stacked, StackError>)
    ensures r.Success?
    ensures r.value.split == StackedSplit([1, 3], [10, 10], [[10], [10]])
    ensures r.value.allCnt == 3 && r.value.dltCnt == 1
  {
    ThreeTracksMask();
    var m := KeepMask([1, 2, 3], AllButTrackTwo);
    SelectThree([1, 2, 3], m);
    SelectThree([10, 20, 10], m);
    SelectThree([[10], [20, 30], [10]], m);
    r := StackFiltered([1, 2, 3], Labels([10, 20, 10], [[10], [20, 30], [10]]), AllButTrackTwo);
  }

  /** Track 2's path differs from those of tracks 1 and 3, so only track 2 is missing. */
  lemma OnlyTrackTwoMissing()
    ensures AllButTrackTwo(TrackPath(1)) && AllButTrackTwo(TrackPath(3))
    ensures !AllButTrackTwo(TrackPath(2))
  {
    TrackPathInjective(1, 2);
    TrackPathInjective(3, 2);
  }

  lemma ThreeTracksMask()
    ensures var m := KeepMask([1, 2, 3], AllButTrackTwo); m[0] && !m[1] && m[2]
    ensures MissingCount([1, 2, 3], AllButTrackTwo) == 1
  {
    OnlyTrackTwoMissing();
    MaskOfThree([1, 2, 3], AllButTrackTwo);
  }

  /** Whatever the store, three tracks of which only the middle one lacks its file. */
  lemma MaskOfThree(ids: seq<int>, isFile: string -> bool)
    requires |ids| == 3
    requires isFile(TrackPath(ids[0])) && !isFile(TrackPath(ids[1])) && isFile(TrackPath(ids[2]))
    ensures var m := KeepMask(ids, isFile); m[0] && !m[1] && m[2]
    ensures MissingCount(ids, isFile) == 1
  {
    var m := KeepMask(ids, isFile);
    FalseCountThree(m);
  }

  lemma FalseCountThree(m: seq<bool>)
    requires |m| == 3 && m[0] && !m[1] && m[2]
    ensures FalseCount(m) == 1
  {
    assert FalseCount(m[..1]) == 0 by {
      assert m[..1][..0] == [];
    }
    assert FalseCount(m[..2]) == 1 by {
      assert m[..2][..1] == m[..1];
    }
    assert m[..3] == m;
  }

  lemma SelectThree<T>(s: seq<T>, m: seq<bool>)
    requires |s| == |m| == 3 && m[0] && !m[1] && m[2]
    ensures Select(s, m) == [s[0], s[2]]
  {
    assert Select(s[..1], m[..1]) == [s[0]] by {
      assert s[..1][..0] == [] && m[..1][..0] == [];
    }
    assert Select(s[..2], m[..2]) == [s[0]] by {
      assert s[..2][..1] == s[..1] && m[..2][..1] == m[..1];
    }
    assert s[..3] == s && m[..3] == m;
  }

  /** Three genres 10, 20, 30 are numbered in ascending order. */
  lemma ThreeGenreIndexMap()
    ensures IndexMap({10, 20, 30}) == map[10 := 0, 20 := 1, 30 := 2]
  {
    var s := [10, 20, 30];
    assert Elems(s) == {10, 20, 30};
    IndexMapOfListing({10, 20, 30}, s);
    assert s[0] == 10 && s[1] == 20 && s[2] == 30;
  }

  /** A row over the genres 10, 20, 30 is a label row when each slot holds its genre's weight
      and the entries add up to the row mass. */
  lemma ThreeSlotRow(top: int, genres: seq<int>, row: seq<real>)
    requires |row| == 3
    requires row[0] == SlotWeight(top, genres, 10)
    requires row[1] == SlotWeight(top, genres, 20)
    requires row[2] == SlotWeight(top, genres, 30)
    requires row[0] + row[1] + row[2] == RowMass(top, genres)
    ensures LabelRow(IndexMap({10, 20, 30}), top, genres, row)
  {
    ThreeGenreIndexMap();
    var idx := IndexMap({10, 20, 30});
    forall g | g in idx ensures idx[g] < |row| && row[idx[g]] == SlotWeight(top, genres, g) {
      assert g == 10 || g == 20 || g == 30;
    }
    ThreeSum(row);
  }

  lemma ThreeSum(row: seq<real>)
    requires |row| == 3
    ensures Sum(row) == row[0] + row[1] + row[2]
  {
    var t1 := row[1..];
    var t2 := t1[1..];
    assert t2[1..] == [];
    assert Sum(t2) == row[2];
    assert Sum(t1) == row[1] + row[2];
  }

  /** A track with the single genre 20 gets weight 1 at 20's slot and 0 elsewhere. */
  lemma SingleGenreRow()
    ensures LabelRow(IndexMap({10, 20, 30}), 20, [20], [0.0, 1.0, 0.0])
  {
    assert Elems([20]) - {20} == {};
    assert RowMass(20, [20]) == 1.0;
    ThreeSlotRow(20, [20], [0.0, 1.0, 0.0]);
  }

  /** Primary genre 20 with secondaries 10 and 30: 0.75 at the primary, 0.25 / 2 at each other. */
  lemma TwoSecondariesRow()
    ensures LabelRow(IndexMap({10, 20, 30}), 20, [10, 20, 30], [0.125, 0.75, 0.125])
  {
    assert Elems([10, 20, 30]) - {20} == {10, 30};
    assert Significance(3) == 0.125;
    assert RowMass(20, [10, 20, 30]) == 1.0;
    ThreeSlotRow(20, [10, 20, 30], [0.125, 0.75, 0.125]);
  }

  /** Primary genre 10 with the single secondary 20: 0.75 and the whole 0.25, genre 30 stays 0. */
  lemma OneSecondaryRow()
    ensures LabelRow(IndexMap({10, 20, 30}), 10, [10, 20], [0.75, 0.25, 0.0])
  {
    assert Elems([10, 20]) - {10} == {20};
    assert RowMass(10, [10, 20]) == 1.0;
    ThreeSlotRow(10, [10, 20], [0.75, 0.25, 0.0]);
  }

  /** A primary genre that occurs in no genre list of the split stops the label matrix at
      that track. */
  method UnknownPrimaryFails() returns (r: Result<seq<seq<real>>, LabelError>)
    ensures r == Failure(UnknownGenre(0, 40))
  {
    var yAll := [[10]];
    assert 40 !in GenreSet(yAll) by {
      forall t | 0 <= t < |yAll| ensures 40 !in yAll[t] {
        assert yAll[t] == [10];
      }
    }
    var yTop := [40];
    assert !RowOk(yTop, yAll, 0);
    r := SplitData.CreateOutputVector(yTop, yAll);
    assert r.Failure? && r.error.row == 0;
    assert RowError(yTop, yAll, 0) == UnknownGenre(0, 40);
  }
}
