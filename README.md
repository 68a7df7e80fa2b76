# Deep-Music-Tagger input preparation, in Dafny

This project models how `src/input_data.py` of Deep-Music-Tagger prepares one data split. It has three parts.

- **Genre index map** (`SplitData._get_indices_mapping`). Every genre id that occurs in any track's genre list is collected without repeats, the ids are sorted, and they are numbered 0, 1, 2, … .
- **Soft-label matrix** (`SplitData._create_output_vector`). Each track gets a row of length `|idx_map|`. The primary genre's slot holds 1 when the track has a single genre and 0.75 otherwise. Every other genre of the track's list holds `0.25 / max(1, len - 1)`. Every other slot holds 0.
- **Stacking pass** (`_vstack`). It counts the tracks examined and the tracks with no spectrogram image at `'../in/mel-specs/' + s[:3] + '/' + s + '.png'`, where `s = str(track_id)`. The arrays with those tracks deleted are computed and then thrown away, so nothing is removed.

The program is one Python module, and only `InputData` mirrors it: the classes `SplitData` and `Dataset`, and `_vstack` as `Stack`. The other four modules hold the reference definitions and helper lemmas those methods are proved against:

- `Sequences` (sequences.dfy): element sets, distinctness, Python's `sorted` as insertion sort, sums of rows.
- `GenreIndex` (genre_index.dfy): the reference definition of the index map. A genre's index is its rank: how many genres of the split are smaller.
- `SoftLabels` (soft_labels.dfy): slot weights, what a label row is, and the row-sum lemmas.
- `Spectrograms` (spectrograms.dfy): Python's `str` of an integer, the image path, the keep mask and missing count, and selection by a mask.
- `InputData` (input_data.dfy): the classes `SplitData` and `Dataset`, and the loops as methods.
  - `SplitData` is a class with fields `trackIds` and `y`.
  - Its static methods `GetIndicesMapping`, `CreateOutputVector` and `CreateRow` are the Python loops. They have loop invariants and are proved against the reference definitions.
  - `CreateRow` is the body of the per-track loop (lines 50-59), pulled out as its own method.
  - `AppendNewGenres` is the inner collection loop and `Enumerate` is the numbering loop.
  - `Stack` is `_vstack` as written. `StackFiltered` is the pass its docstring describes (see Findings).

Python raises at these points, and each becomes a `Failure` value:

- `y_all[i]` does not exist: `NoGenreList(i)`.
- `idx_map[y_top[i]]` is missing: `UnknownGenre(i, g)`.
- The ids and the label rows differ in width: `WidthMismatch`. Python raises this in `np.vstack` (line 88), or earlier in `np.delete(y_stack, idx, 1)` (line 86) when a missing track's position lies past the width of `y_stack`. Either way the pass fails exactly when the widths differ, so the model reports one error for both.

On line 52 Python evaluates the right-hand side, `len(y_all[i])`, before the subscript `idx_map[y_top[i]]`. So a missing genre list is reported before an unknown primary genre.

An unknown primary genre means a primary genre that occurs in no genre list of the whole split. That is when the dictionary lookup fails. A primary genre that is only missing from its own track's list raises nothing. It still gets its weight. When its list is non-empty and has no repeats, its row then sums to more than 1 (`SoftLabels.LabelRowSumWithoutPrimary`). With an empty list the row is just the weight 1 at the primary slot. The model follows the code here rather than describing the primary as required to be in its own list.

Whether an image exists is the function parameter `isFile: string -> bool`, applied to the path string.

## Model

| member | source | states |
|---|---|---|
| InputData.SplitData.constructor | src/input_data.py:27-29 | stores the track ids unchanged and sets `y` to the split's label matrix: one label row per primary genre, over the index map of the split's genres |
| InputData.SplitData.GetIndicesMapping | src/input_data.py:32-42 | the returned dictionary equals the reference index map of the genres occurring in any list: keys exactly those genres, values exactly `0..n-1` each used once, and order-preserving (`g1 < g2` iff `m[g1] < m[g2]`) |
| InputData.SplitData.AppendNewGenres | src/input_data.py:35-37 | appending the not-yet-listed genres of one list keeps the list repeat-free, only extends it, and makes its elements the old ones plus that list's genres |
| InputData.SplitData.Enumerate | src/input_data.py:39-41 | numbering a repeat-free list maps exactly its elements, and the element at position `j` to `j` |
| InputData.SplitData.CreateRow | src/input_data.py:50-59 | the row has one slot per key; the primary slot holds the primary weight, every other genre of the list the secondary weight, every other slot 0; the row sums to the primary weight plus one secondary weight per distinct secondary genre |
| InputData.RowError | src/input_data.py:52 | the error at a track that cannot be vectorized names that track, and is a missing genre list exactly when `y_all[i]` does not exist, since `len(y_all[i])` is evaluated before `idx_map[y_top[i]]` |
| InputData.SplitData.CreateOutputVector | src/input_data.py:44-61 | succeeds if and only if every track has a genre list and a primary genre known to the index map; on success one label row per track; on failure the error names the first track that fails and which lookup failed |
| InputData.Dataset.constructor | src/input_data.py:15-18 | builds three fresh split containers from the train, valid and test stacks in that order, each with its ids and its label matrix |
| InputData.RowStep | src/input_data.py:55-58 | one pass of the secondary loop keeps the row invariant: skipping the primary genre leaves the row alone, any other genre's slot is set to the secondary weight and the sum grows by one share only for a genre not met before |
| InputData.TopStep | src/input_data.py:56-57 | meeting the primary genre in the list changes no slot and no count of secondaries |
| InputData.SlotStep | src/input_data.py:58 | writing the secondary weight at a genre's slot gives every slot its weight after one more genre, leaving the primary slot intact |
| InputData.SumStep | src/input_data.py:58 | because the write is an assignment, a repeated genre adds nothing to the row sum and a new genre adds one share |
| InputData.Stack | src/input_data.py:67-88 | fails exactly on a width mismatch; otherwise returns the ids and labels unchanged, `all_cnt` equal to the number of ids, and `dlt_cnt` equal to the number of ids whose image path fails the existence test (so `dlt_cnt <= all_cnt`) |
| InputData.StackFiltered | src/input_data.py:67-77 | the pass the docstring describes: same counts, but keeps exactly the tracks whose image exists, in order, with their label columns aligned; the kept width is `all_cnt - dlt_cnt` and every kept track has its image |
| InputData.StackKeepsMissingTrack | src/input_data.py:85-88 | for tracks 1, 2, 3 with only track 2's image missing, the pass as written counts one missing track yet returns all three ids, so the width is not `all_cnt - dlt_cnt` |
| InputData.StackFilteredDropsMissingTrack | src/input_data.py:67-77 | for the same tracks the corrected pass returns tracks 1 and 3 with their label columns |
| InputData.UnknownPrimaryFails | src/input_data.py:52 | a primary genre that occurs in no genre list of the split stops the label matrix at that track with an unknown-genre error |
| InputData.ThreeGenreIndexMap | src/input_data.py:38-41 | the genres 10, 20, 30 are numbered 0, 1, 2 |
| InputData.SingleGenreRow | src/input_data.py:52 | a track whose only genre is 20 gets the row `[0, 1, 0]` |
| InputData.TwoSecondariesRow | src/input_data.py:52-58 | primary 20 with list `[10, 20, 30]` gets `[0.125, 0.75, 0.125]` |
| InputData.OneSecondaryRow | src/input_data.py:52-58 | primary 10 with list `[10, 20]` gets `[0.75, 0.25, 0]` |
| GenreIndex.IndexMapIsDense | src/input_data.py:38-41 | the reference index map is a bijection from the genres onto `0..n-1` that preserves their order |
| GenreIndex.IndexMapValues | src/input_data.py:39-41 | the keys of the reference index map are the genres and its values exactly `0..n-1` |
| GenreIndex.IndexMapMonotone | src/input_data.py:38-41 | `g1 < g2` if and only if `m[g1] < m[g2]` |
| GenreIndex.IndexMapIgnoresTrackOrder | src/input_data.py:34-38 | reordering the tracks does not change the index map |
| GenreIndex.IndexMapIgnoresListOrder | src/input_data.py:35-38 | reordering or repeating genres inside the lists does not change the index map |
| GenreIndex.SortedListing | src/input_data.py:38 | every finite set of genres has a strictly ascending listing of the same size |
| GenreIndex.GenreSetOfPrefix | src/input_data.py:34-37 | the genres of the first `t + 1` tracks are those of the first `t` plus those of track `t` |
| Sequences.Sort | src/input_data.py:38 | `sorted` returns an ascending permutation of its input |
| Sequences.SortDistinct | src/input_data.py:38 | sorting a repeat-free list gives a strictly ascending list of the same elements |
| Sequences.ElemsCard | src/input_data.py:36-37 | a list has as many distinct elements as entries exactly when it has no repeats |
| SoftLabels.Primary | src/input_data.py:52 | the primary weight lies in `(0, 1]` and is 1 exactly when the track has at most one genre |
| SoftLabels.Significance | src/input_data.py:54 | the secondary weight is positive (the `max(1, …)` guard avoids division by zero) and at most 0.25 |
| SoftLabels.SignificanceShares | src/input_data.py:54 | for two or more genres the `n - 1` secondary weights make up 0.25 together |
| SoftLabels.SlotWeight | src/input_data.py:51-58 | every slot's final value lies in `[0, 1]` |
| SoftLabels.LabelRowInUnitInterval | src/input_data.py:51-58 | every entry of a label row over the split's index map lies in `[0, 1]` |
| SoftLabels.RowMassIsOne | src/input_data.py:52-58 | with the primary genre in the list, the row mass is at most 1, and exactly 1 if and only if the list has no repeats |
| SoftLabels.LabelRowSum | src/input_data.py:52-58 | the printed row sum of a label row whose primary genre is in its list is at most 1, and is 1 if and only if the list has no repeated genre |
| SoftLabels.LabelRowSumWithoutPrimary | src/input_data.py:52-58 | a label row whose primary genre is absent from its non-empty, repeat-free list sums to more than 1 |
| SoftLabels.RowMassWithoutPrimary | src/input_data.py:52 | the row mass exceeds 1 when the primary weight is written for a genre outside a non-empty, repeat-free list |
| Spectrograms.NatToString | src/input_data.py:81 | `str` of a non-negative id is a non-empty string of decimal digits with no leading zero |
| Spectrograms.IntToString | src/input_data.py:81 | `str` of an id is non-empty, starts with `-` exactly for a negative id, and reads back as the id |
| Spectrograms.SpectrogramPath | src/input_data.py:83 | the checked path begins with the spectrogram directory of line 6, ends in `.png`, and holds the id string right after the shard directory and its slash |
| Spectrograms.TrackPath | src/input_data.py:81-83 | the path checked for a track id begins with the spectrogram directory and ends in `.png` |
| Spectrograms.Shard | src/input_data.py:83 | `s[:3]` is the first three characters, or all of a shorter string, and a prefix of `s` |
| Spectrograms.TrackPathInjective | src/input_data.py:81-83 | different track ids are checked at different image paths |
| Spectrograms.KeepMask | src/input_data.py:83 | the existence results have one entry per track |
| Spectrograms.MissingCount | src/input_data.py:83-87 | the missing count is at most the number of tracks |
| Spectrograms.KeptPlusMissing | src/input_data.py:101 | kept tracks plus missing tracks are all tracks, so `all_cnt - dlt_cnt` is the kept width |
| Spectrograms.KeptTracksPresent | src/input_data.py:83 | every track kept by the mask has its image |
| Spectrograms.SelectAt | src/input_data.py:85-86 | selecting ids and label columns by one mask keeps them aligned: entry `j` of each selection comes from the same original position |
| Spectrograms.FilterIdempotent | src/input_data.py:67-77 | filtering a second time removes nothing more |

## Left out

- `os.path.isfile` and the file system: whether an image exists is the parameter `isFile` applied to the path string.
- The `print` calls (lines 84, 101-105, 115): they only produce output.
- The `metadata` module and `meta.get_metadata()`: their arrays are inputs here. The metadata module is not part of this model.
- `get_data` (lines 91-107) is left out because it only sequences the calls. It passes its stacks as `Dataset(train, test, valid)` to a constructor declared `(train, valid, test)`, so the valid and test fields are swapped. `InputData.Dataset.constructor` models the constructor as declared.
- `next_batch` (lines 63-64): it is an empty stub.
- numpy array plumbing is not modelled: `np.vstack` shapes, `y_top.shape[0]`, the `train[0]/[1]/[2]` unpacking, and `np.array(y)`. A stack is modelled as three parallel sequences (ids, primary genres, genre lists).
- Floating point: weights are exact reals. The row-sum results hold over reals, not over IEEE doubles.
- Genre ids and track ids are modelled as integers, not arbitrary hashable values.
- InputData.SplitData.constructor: requires every track to be vectorizable, because a Dafny constructor cannot fail. The failing case is modelled by `CreateOutputVector`'s `Failure` results.
- InputData.Dataset.constructor: requires the same of all three splits, for the same reason.
- InputData.SplitData.CreateRow: requires a valid index map that holds the primary genre and every genre of the list. Its caller `CreateOutputVector` checks the primary genre, mirroring where Python raises (line 52), and proves the rest: the map's validity from `GetIndicesMapping`'s ensures and the list's genres being keys from `GenreIndex.GenreSetContainsTrack`.
- The kind of Python exception (`IndexError`, `KeyError`, `ValueError`) is not modelled, only which lookup failed and at which track.

## Findings

| source | as written | input that shows it | evidently intended | confidence | as-written member | corrected member |
|---|---|---|---|---|---|---|
| src/input_data.py:85-86 | `np.delete` returns a new array, and the result is discarded, so no track and no label column is removed | track ids `[1, 2, 3]` with only track 2's image missing: `dlt_cnt` is 1 but the stack still has three columns | the docstring (lines 68-72) and the message on line 101: keep only the tracks with an image, with their labels aligned, leaving `all_cnt - dlt_cnt` columns | not executed | InputData.StackKeepsMissingTrack | InputData.StackFiltered |
