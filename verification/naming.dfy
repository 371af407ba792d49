/**
 * Names the export produces: page files `{seq:05d}.jpg`, the per-volume
 * work folder `vol_{vnum:02d}`, the book title `"{series} - v{vnum:02d}"`,
 * and the series name itself.
 */
module Naming {
  import opened Prelude
  import opened Strings

  /** `f"{seq_num:05d}.jpg"`: the zero-padded counter followed by the
      extension; the number can be read back from the stem. */
  function PageFileName(seqNum: nat): (r: string)
    ensures |r| >= 9
    ensures r[|r| - 4..] == ".jpg"
    ensures ParseDigits(r[..|r| - 4]) == Some(seqNum)
  {
    var stem := ZeroPad(seqNum, 5);
    ZeroPadRoundTrip(seqNum, 5);
    var r := stem + ".jpg";
    assert r[..|r| - 4] == stem;
    r
  }

  /** Two counters never share a page file name. */
  lemma PageFileNameInjective(a: nat, b: nat)
    requires PageFileName(a) == PageFileName(b)
    ensures a == b
  {
    var r := PageFileName(a);
    assert Some(a) == ParseDigits(r[..|r| - 4]) == Some(b);
  }

  /** Below 100000 every page file name has exactly nine characters. */
  lemma PageFileNameWidth(seqNum: nat)
    requires seqNum < 100000
    ensures |PageFileName(seqNum)| == 9
  {
    assert Pow10(5) == 100000;
    ZeroPadExactWidth(seqNum, 5);
  }

  /** `f"vol_{vnum:02d}"`: the folder a volume's pages are written to. */
  function VolumeDirName(vnum: nat): (r: string)
    ensures |r| >= 6 && r[..4] == "vol_"
    ensures ParseDigits(r[4..]) == Some(vnum)
  {
    ZeroPadRoundTrip(vnum, 2);
    var r := "vol_" + ZeroPad(vnum, 2);
    assert r[4..] == ZeroPad(vnum, 2);
    r
  }

  /** `f"{series} - v{vnum:02d}"`: the title handed to the packager and the
      stem of the output file. */
  function VolumeTitle(series: string, vnum: nat): string
  {
    series + " - v" + ZeroPad(vnum, 2)
  }

  /** The series and the volume number can both be read back from a
      volume title. */
  lemma VolumeTitleReadBack(series: string, vnum: nat)
    ensures |VolumeTitle(series, vnum)| >= |series| + 6
    ensures VolumeTitle(series, vnum)[..|series|] == series
    ensures VolumeTitle(series, vnum)[|series|..|series| + 4] == " - v"
    ensures ParseDigits(VolumeTitle(series, vnum)[|series| + 4..]) == Some(vnum)
  {
    ZeroPadRoundTrip(vnum, 2);
    var r := VolumeTitle(series, vnum);
    assert r[|series| + 4..] == ZeroPad(vnum, 2);
  }

  /** Within one series, distinct volume numbers give distinct titles (and
      so distinct output names). */
  lemma VolumeTitleInjective(series: string, a: nat, b: nat)
    requires VolumeTitle(series, a) == VolumeTitle(series, b)
    ensures a == b
  {
    VolumeTitleReadBack(series, a);
    VolumeTitleReadBack(series, b);
    var r := VolumeTitle(series, a);
    assert Some(a) == ParseDigits(r[|series| + 4..]) == Some(b);
  }

  /** `series_title.strip() or selected_folder.name`: the typed title
      without surrounding whitespace, or the folder's name when the title
      is blank. */
  function SeriesName(title: string, folderName: string): (r: string)
    ensures (exists k :: 0 <= k < |title| && !IsSpace(title[k])) ==>
      r == Strip(title) && r != [] && !IsSpace(r[0]) && !IsSpace(r[|r| - 1])
    ensures (forall k :: 0 <= k < |title| ==> IsSpace(title[k])) ==> r == folderName
  {
    var t := Strip(title);
    if t != [] then t else folderName
  }

  /** Stripping is idempotent, so a series name typed back in as the
      title gives the same series name. */
  lemma SeriesNameStable(title: string, folderName: string)
    requires exists k :: 0 <= k < |title| && !IsSpace(title[k])
    ensures SeriesName(SeriesName(title, folderName), folderName) == SeriesName(title, folderName)
  {
    var r := SeriesName(title, folderName);
    assert !IsSpace(r[0]);
    assert FirstNonSpace(r) == 0;
    assert EndNonSpace(r) == |r|;
  }
}
