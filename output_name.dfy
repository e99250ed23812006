/**
 * `generateOutputFilename` (src/imageProcessor.js): a stitched image is
 * named after the folder of the group's first image, unless that folder
 * name is generic, in which case the first image's own name is used with
 * `_processed` placed right after its first eight-digit date (or at the
 * end when it has none).
 */
module OutputName {
  import opened Wrappers
  import opened Text
  import Paths

  const GenericFolders: seq<string> := [".", "..", "Desktop", "Pictures", "Documents"]
  const Marker: string := "_processed"
  const NoImagesName: string := "stitched"

  /** A folder name worth naming the output after. */
  predicate MeaningfulFolder(name: string)
  {
    name != [] && name !in GenericFolders && !Contains(name, "Processed")
  }

  /** Eight digits in a row start at `i` (what `\d{8}` matches). */
  predicate DateAt(s: string, i: int)
  {
    0 <= i && i + 8 <= |s| && forall k :: i <= k < i + 8 ==> IsDigit(s[k])
  }

  /** Where `/(\d{8})/` first matches at or after `from`. */
  function FirstDate(s: string, from: nat): (r: Option<nat>)
    ensures r.Some? ==> from <= r.value && DateAt(s, r.value)
    ensures r.Some? ==> forall j :: from <= j < r.value ==> !DateAt(s, j)
    ensures r.None? ==> forall j :: from <= j ==> !DateAt(s, j)
    decreases |s| - from
  {
    if from + 8 > |s| then None
    else if DateAt(s, from) then Some(from)
    else FirstDate(s, from + 1)
  }

  /** The name built from the first file's own name: the marker after the first date, or at the end. */
  function MarkedName(stem: string): string
  {
    match FirstDate(stem, 0)
    case Some(i) => stem[..i + 8] + Marker + stem[i + 8..]
    case None => stem + Marker
  }

  /** `generateOutputFilename(imagePaths)`. */
  function GenerateOutputFilename(paths: seq<string>): string
  {
    if paths == [] then NoImagesName
    else
      var folder := Paths.Basename(Paths.Dirname(paths[0]));
      if MeaningfulFolder(folder) then folder else MarkedName(Paths.Stem(paths[0]))
  }

  /** Where `MarkedName` puts the marker. */
  function MarkerPosition(stem: string): (k: nat)
    ensures k <= |stem|
  {
    match FirstDate(stem, 0)
    case Some(i) => i + 8
    case None => |stem|
  }

  /**
   * The only change `MarkedName` makes is the marker: cutting it out at
   * `MarkerPosition` gives the name back, and that position is the end of
   * the first date or, without a date, the end of the name.
   */
  lemma MarkedNameInverse(stem: string)
    ensures var r, k := MarkedName(stem), MarkerPosition(stem);
      && |r| == |stem| + |Marker|
      && r[k..k + |Marker|] == Marker
      && r[..k] + r[k + |Marker|..] == stem
      && (|| (k == |stem| && forall j :: !DateAt(stem, j))
          || (8 <= k && DateAt(stem, k - 8) && forall j :: 0 <= j < k - 8 ==> !DateAt(stem, j)))
  {
    var r, k := MarkedName(stem), MarkerPosition(stem);
    assert r == stem[..k] + Marker + stem[k..];
    assert r[..k] == stem[..k];
    assert r[k + |Marker|..] == stem[k..];
    assert stem[..k] + stem[k..] == stem;
  }

  /** No character of the marker is a digit, so no date can run into it. */
  lemma MarkerHasNoDigits()
    ensures forall i :: 0 <= i < |Marker| ==> !IsDigit(Marker[i])
  {
  }

  /** The output name keeps the date where it was: it is still the first date of the new name. */
  lemma MarkedNameKeepsDate(stem: string)
    ensures FirstDate(MarkedName(stem), 0) == FirstDate(stem, 0)
  {
    var r := MarkedName(stem);
    MarkerHasNoDigits();
    match FirstDate(stem, 0)
    case Some(i) =>
      assert r == stem[..i + 8] + Marker + stem[i + 8..];
      forall j | 0 <= j <= i
        ensures DateAt(r, j) <==> DateAt(stem, j)
      {
        forall k | j <= k < j + 8 ensures r[k] == stem[k] { }
      }
      FirstDateAt(r, i);
    case None =>
      assert r == stem + Marker;
      forall j | 0 <= j
        ensures !DateAt(r, j)
      {
        if j + 8 <= |stem| {
          if DateAt(r, j) {
            forall k | j <= k < j + 8 ensures IsDigit(stem[k]) { assert r[k] == stem[k]; }
            assert DateAt(stem, j);
          }
        } else if j + 8 <= |r| {
          var k := if j < |stem| then |stem| else j;
          assert r[k] == Marker[k - |stem|];
        }
      }
      NoDate(r);
  }

  /** `FirstDate` finds the date at `i` when there is none before it. */
  lemma {:induction false} FirstDateAt(s: string, i: nat)
    requires DateAt(s, i) && forall j :: 0 <= j < i ==> !DateAt(s, j)
    ensures FirstDate(s, 0) == Some(i)
  {
  }

  lemma NoDate(s: string)
    requires forall j :: 0 <= j ==> !DateAt(s, j)
    ensures FirstDate(s, 0).None?
  {
  }

  lemma StemIsSegment(p: string)
    ensures '/' !in Paths.Stem(p)
  {
    var seg := Paths.Basename(p);
    var stem := Paths.Stem(p);
    forall i | 0 <= i < |stem| ensures stem[i] != '/' { assert stem[i] == seg[i]; }
  }

  lemma MarkedNameIsSegment(stem: string)
    requires '/' !in stem
    ensures '/' !in MarkedName(stem)
  {
    var r := MarkedName(stem);
    MarkedNameInverse(stem);
    var k := MarkerPosition(stem);
    forall i | 0 <= i < |r| ensures r[i] != '/' {
      if i < k {
        assert r[i] == r[..k][i] == stem[i];
      } else if i < k + |Marker| {
        assert r[i] == Marker[i - k];
      } else {
        assert r[i] == r[k + |Marker|..][i - k - |Marker|] == stem[i - |Marker|];
      }
    }
  }

  /** The name is a single, non-empty path segment, so joining it onto the output folder adds one file. */
  lemma OutputNameIsFileName(paths: seq<string>)
    ensures var r := GenerateOutputFilename(paths); r != [] && '/' !in r
  {
    if paths != [] {
      StemIsSegment(paths[0]);
      MarkedNameIsSegment(Paths.Stem(paths[0]));
      MarkedNameInverse(Paths.Stem(paths[0]));
    }
  }

  /**
   * The three outcomes of `generateOutputFilename`: `stitched` for no
   * images; a meaningful parent-folder name as it is; otherwise the first
   * file's stem with the marker, which cutting the marker out undoes.
   */
  lemma OutputNameCases(paths: seq<string>)
    ensures paths == [] ==> GenerateOutputFilename(paths) == NoImagesName
    ensures paths != [] && MeaningfulFolder(Paths.Basename(Paths.Dirname(paths[0]))) ==>
      GenerateOutputFilename(paths) == Paths.Basename(Paths.Dirname(paths[0]))
    ensures paths != [] && !MeaningfulFolder(Paths.Basename(Paths.Dirname(paths[0]))) ==>
      var r, stem := GenerateOutputFilename(paths), Paths.Stem(paths[0]);
      var k := MarkerPosition(stem);
      && r[k..k + |Marker|] == Marker && r[..k] + r[k + |Marker|..] == stem
      && FirstDate(r, 0) == FirstDate(stem, 0)
  {
    if paths != [] {
      MarkedNameInverse(Paths.Stem(paths[0]));
      MarkedNameKeepsDate(Paths.Stem(paths[0]));
    }
  }
}
