/** Where the spectrogram image of a track lives, how many tracks lack one, and which
    entries of parallel per-track sequences remain once those tracks are dropped. */
module Spectrograms {
  import opened Sequences

  /** Directory of the spectrogram images: `spectr_template` with its `{}` placeholder
      taken out. */
  const SpectrogramDir: string := "../in/mel-specs/"

  function DigitChar(d: nat): char
    requires d < 10
  {
    (('0' as int) + d) as char
  }

  function DigitValue(c: char): int {
    (c as int) - ('0' as int)
  }

  /** Python's `str` of a non-negative integer: its decimal digits, most significant first. */
  function NatToString(n: nat): (s: string)
    ensures |s| >= 1
    ensures forall i :: 0 <= i < |s| ==> '0' <= s[i] <= '9'
    ensures n >= 10 ==> s[0] != '0'
  {
    if n < 10 then [DigitChar(n)] else NatToString(n / 10) + [DigitChar(n % 10)]
  }

  /** Python's `str` of an integer. */
  function IntToString(n: int): (s: string)
    ensures |s| >= 1
    ensures s[0] == '-' <==> n < 0
    ensures ParseInt(s) == n
  {
    if n < 0 then
      NatToStringRoundTrip(-n);
      assert ("-" + NatToString(-n))[1..] == NatToString(-n);
      "-" + NatToString(-n)
    else
      NatToStringRoundTrip(n);
      NatToString(n)
  }

  /** Reads a string of decimal digits back as a number. */
  function ParseNat(s: string): int {
    if s == [] then 0 else 10 * ParseNat(s[..|s| - 1]) + DigitValue(s[|s| - 1])
  }

  /** Reads an optionally signed decimal numeral back as an integer. */
  function ParseInt(s: string): int {
    if |s| > 0 && s[0] == '-' then -ParseNat(s[1..]) else ParseNat(s)
  }

  lemma {:induction false} NatToStringRoundTrip(n: nat)
    ensures ParseNat(NatToString(n)) == n
  {
    var s := NatToString(n);
    if n >= 10 {
      NatToStringRoundTrip(n / 10);
      assert s[..|s| - 1] == NatToString(n / 10);
    }
  }

  /** Python's `s[:3]`: the first three characters, or all of a shorter string. */
  function Shard(s: string): (r: string)
    ensures |r| == if |s| <= 3 then |s| else 3
    ensures r <= s
  {
    if |s| <= 3 then s else s[..3]
  }

  /** The image file checked for the track id string `s`: a per-shard directory named by
      the first three characters of `s`, then `s` with the `.png` extension. */
  function SpectrogramPath(s: string): (p: string)
    ensures |p| >= |SpectrogramDir| + 4
    ensures p[..|SpectrogramDir|] == SpectrogramDir && p[|p| - 4..] == ".png"
    ensures var start := |SpectrogramDir| + |Shard(s)| + 1;
            |p| == start + |s| + 4 && p[start..start + |s|] == s
  {
    var head := SpectrogramDir + Shard(s) + "/";
    assert (head + s + ".png")[|head|..|head| + |s|] == s;
    head + s + ".png"
  }

  /** The image file checked for a track id. */
  function TrackPath(trackId: int): (p: string)
    ensures |p| >= |SpectrogramDir| + 4
    ensures p[..|SpectrogramDir|] == SpectrogramDir && p[|p| - 4..] == ".png"
  {
    SpectrogramPath(IntToString(trackId))
  }

  /** Different id strings are checked at different paths. */
  lemma SpectrogramPathInjective(s1: string, s2: string)
    ensures s1 != s2 ==> SpectrogramPath(s1) != SpectrogramPath(s2)
  {
    if s1 != s2 {
      var p1, p2 := SpectrogramPath(s1), SpectrogramPath(s2);
      if |s1| == |s2| {
        var start := |SpectrogramDir| + |Shard(s1)| + 1;
        assert p1[start..start + |s1|] != p2[start..start + |s2|];
      } else {
        assert |p1| != |p2|;
      }
    }
  }

  /** Different tracks are checked at different paths. */
  lemma TrackPathInjective(a: int, b: int)
    ensures a != b ==> TrackPath(a) != TrackPath(b)
  {
    SpectrogramPathInjective(IntToString(a), IntToString(b));
  }

  /** For each track, whether its image file exists. */
  function KeepMask(ids: seq<int>, isFile: string -> bool): (m: seq<bool>)
    ensures |m| == |ids|
  {
    seq(|ids|, i requires 0 <= i < |ids| => isFile(TrackPath(ids[i])))
  }

  /** The number of unset bits of a mask. */
  function FalseCount(m: seq<bool>): (c: nat)
    ensures c <= |m|
  {
    if m == [] then 0 else FalseCount(m[..|m| - 1]) + (if m[|m| - 1] then 0 else 1)
  }

  /** The number of tracks whose image file does not exist. */
  function MissingCount(ids: seq<int>, isFile: string -> bool): (c: nat)
    ensures c <= |ids|
  {
    FalseCount(KeepMask(ids, isFile))
  }

  /** The entries of `s` whose mask bit is set, in their original order. */
  function Select<T>(s: seq<T>, m: seq<bool>): seq<T>
    requires |s| == |m|
  {
    if s == [] then []
    else Select(s[..|s| - 1], m[..|m| - 1]) + (if m[|m| - 1] then [s[|s| - 1]] else [])
  }

  /** Selecting one entry further adds that entry exactly when its bit is set. */
  lemma SelectPrefixStep<T>(s: seq<T>, m: seq<bool>, i: nat)
    requires |s| == |m| && i < |s|
    ensures Select(s[..i + 1], m[..i + 1]) == Select(s[..i], m[..i]) + (if m[i] then [s[i]] else [])
    ensures FalseCount(m[..i + 1]) == FalseCount(m[..i]) + (if m[i] then 0 else 1)
  {
    assert s[..i + 1][..i] == s[..i];
    assert m[..i + 1][..i] == m[..i];
  }

  /** The positions whose mask bit is set, ascending. */
  function Positions(m: seq<bool>): (r: seq<nat>)
    ensures forall j :: 0 <= j < |r| ==> r[j] < |m| && m[r[j]]
    ensures forall i :: 0 <= i < |m| && m[i] ==> i in r
    ensures forall j, k :: 0 <= j < k < |r| ==> r[j] < r[k]
  {
    if m == [] then []
    else
      var p := Positions(m[..|m| - 1]);
      assert forall i :: 0 <= i < |m| - 1 ==> m[..|m| - 1][i] == m[i];
      p + (if m[|m| - 1] then [|m| - 1] else [])
  }

  /** Entry j of a selection is the entry of the original at the j-th selected position, so
      selecting parallel sequences with one mask keeps their entries aligned. */
  lemma {:induction false} SelectAt<T>(s: seq<T>, m: seq<bool>)
    requires |s| == |m|
    ensures |Select(s, m)| == |Positions(m)|
    ensures forall j :: 0 <= j < |Positions(m)| ==> Select(s, m)[j] == s[Positions(m)[j]]
  {
    if s != [] {
      var n := |s|;
      SelectAt(s[..n - 1], m[..n - 1]);
      var head := Select(s[..n - 1], m[..n - 1]);
      var p := Positions(m[..n - 1]);
      forall j | 0 <= j < |Positions(m)| ensures Select(s, m)[j] == s[Positions(m)[j]] {
        if j < |head| {
          assert Select(s, m)[j] == head[j] == s[..n - 1][p[j]];
        }
      }
    }
  }

  /** Every entry is either selected or counted as unset. */
  lemma {:induction false} SelectedPlusUnset<T>(s: seq<T>, m: seq<bool>)
    requires |s| == |m|
    ensures |Select(s, m)| + FalseCount(m) == |s|
  {
    if s != [] {
      SelectedPlusUnset(s[..|s| - 1], m[..|m| - 1]);
    }
  }

  /** A mask with every bit set selects everything and counts nothing. */
  lemma {:induction false} SelectAll<T>(s: seq<T>, m: seq<bool>)
    requires |s| == |m| && forall i :: 0 <= i < |m| ==> m[i]
    ensures FalseCount(m) == 0 && Select(s, m) == s
  {
    if s != [] {
      var n := |s|;
      SelectAll(s[..n - 1], m[..n - 1]);
      assert s[..n - 1] + [s[n - 1]] == s;
    }
  }

  /** Every track is either kept or counted as missing. */
  lemma KeptPlusMissing(ids: seq<int>, isFile: string -> bool)
    ensures |Select(ids, KeepMask(ids, isFile))| + MissingCount(ids, isFile) == |ids|
  {
    SelectedPlusUnset(ids, KeepMask(ids, isFile));
  }

  /** Every kept track has an image file. */
  lemma KeptTracksPresent(ids: seq<int>, isFile: string -> bool)
    ensures forall j :: 0 <= j < |Select(ids, KeepMask(ids, isFile))| ==>
              isFile(TrackPath(Select(ids, KeepMask(ids, isFile))[j]))
  {
    var m := KeepMask(ids, isFile);
    SelectAt(ids, m);
  }

  /** Dropping the tracks without an image a second time drops nothing more. */
  lemma FilterIdempotent(ids: seq<int>, isFile: string -> bool)
    ensures var kept := Select(ids, KeepMask(ids, isFile));
            MissingCount(kept, isFile) == 0 && Select(kept, KeepMask(kept, isFile)) == kept
  {
    var kept := Select(ids, KeepMask(ids, isFile));
    KeptTracksPresent(ids, isFile);
    SelectAll(kept, KeepMask(kept, isFile));
  }
}
