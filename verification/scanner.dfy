/**
 * Chapter discovery (`scan_images`): which files count as pages, how they
 * are ordered, and which folders become chapters. The directory listing is
 * an input value instead of a filesystem walk.
 */
module Scanner {
  import opened Prelude
  import opened Strings
  import opened Models
  import opened Sorting

  /** One entry of a directory listing, in listing order. */
  datatype Entry = File(name: string) | Folder(name: string, entries: seq<Entry>)

  /** The folder the user selected. */
  datatype Root = Root(name: string, entries: seq<Entry>)

  /** The accepted image extensions, compared after lowering. */
  const Formats: set<string> := {".jpg", ".jpeg", ".png", ".webp"}

  // ------------------------------------------------------------ suffixes

  /** `name.rfind('.')`: the index of the last dot, or -1. */
  function LastDot(name: string): (i: int)
    ensures -1 <= i < |name|
    ensures i >= 0 ==> name[i] == '.'
    ensures forall k :: i < k < |name| ==> name[k] != '.'
    decreases |name|
  {
    if |name| == 0 then -1
    else if name[|name| - 1] == '.' then |name| - 1
    else LastDot(name[..|name| - 1])
  }

  /** `Path.suffix`: from the last dot to the end, provided that dot is
      neither the first nor the last character; otherwise empty. */
  function Suffix(name: string): (r: string)
  {
    var i := LastDot(name);
    if 0 < i < |name| - 1 then name[i..] else ""
  }

  /** The filter of `scan_images`: the lower-cased suffix is one of the
      accepted extensions. */
  predicate IsImageName(name: string)
  {
    Lower(Suffix(name)) in Formats
  }

  /** Each accepted extension is a dot followed by dot-free letters. */
  lemma FormatShape(f: string)
    requires f in Formats
    ensures 4 <= |f| && f[0] == '.'
    ensures forall k :: 0 < k < |f| ==> f[k] != '.'
  {
  }

  /** An independent reading of the filter: a name is accepted exactly when
      it ends, ignoring case, with one of the accepted extensions and has at
      least one character in front of that extension. */
  lemma ImageNameIffExtension(name: string)
    ensures IsImageName(name) <==>
      exists f :: f in Formats && |f| < |name| && Lower(name[|name| - |f|..]) == f
  {
    if IsImageName(name) {
      AcceptedHasExtension(name);
    }
    if f :| f in Formats && |f| < |name| && Lower(name[|name| - |f|..]) == f {
      ExtensionIsAccepted(name, f);
    }
  }

  lemma AcceptedHasExtension(name: string)
    requires IsImageName(name)
    ensures exists f :: f in Formats && |f| < |name| && Lower(name[|name| - |f|..]) == f
  {
    var i := LastDot(name);
    assert 0 < i < |name| - 1;
    var f := Lower(name[i..]);
    assert |name| - |f| == i;
  }

  lemma ExtensionIsAccepted(name: string, f: string)
    requires f in Formats && |f| < |name| && Lower(name[|name| - |f|..]) == f
    ensures IsImageName(name)
  {
    FormatShape(f);
    var n := |name|;
    var i := n - |f|;
    assert LowerChar(name[i]) == f[0];
    forall k | i < k < n
      ensures name[k] != '.'
    {
      assert LowerChar(name[k]) == f[k - i];
    }
    LastDotIs(name, i);
  }

  lemma LastDotIs(name: string, i: nat)
    requires i < |name| && name[i] == '.'
    requires forall k :: i < k < |name| ==> name[k] != '.'
    ensures LastDot(name) == i
  {
  }

  // ---------------------------------------------------------- filtering

  /** `[f.name for f in d.iterdir() if f.is_file() and f.suffix.lower() in
      formats]`: the accepted file names, in listing order. */
  function AcceptedFiles(entries: seq<Entry>): (r: seq<string>)
    ensures forall n :: n in r <==> File(n) in entries && IsImageName(n)
    ensures |r| <= |entries|
  {
    if |entries| == 0 then []
    else
      var rest := AcceptedFiles(entries[1..]);
      assert forall e :: e in entries <==> e == entries[0] || e in entries[1..];
      if entries[0].File? && IsImageName(entries[0].name) then [entries[0].name] + rest else rest
  }

  /** `[d for d in root.iterdir() if d.is_dir()]`. */
  function Subfolders(entries: seq<Entry>): (r: seq<Entry>)
    ensures forall e :: e in r <==> e in entries && e.Folder?
  {
    if |entries| == 0 then []
    else
      var rest := Subfolders(entries[1..]);
      assert forall e :: e in entries <==> e == entries[0] || e in entries[1..];
      if entries[0].Folder? then [entries[0]] + rest else rest
  }

  /** The pages of one folder: its accepted files sorted by image key. */
  function ImageList(p: Profile, entries: seq<Entry>): (r: seq<string>)
    ensures SortedBy(r, n => ImageKey(p, n))
    ensures multiset(r) == multiset(AcceptedFiles(entries))
    ensures forall n :: n in r <==> File(n) in entries && IsImageName(n)
  {
    var files := AcceptedFiles(entries);
    var r := SortBy(files, n => ImageKey(p, n));
    assert forall n :: n in r <==> n in files by {
      forall n ensures n in r <==> n in files {
        SortByMembers(files, n => ImageKey(p, n), n);
      }
    }
    r
  }

  /** The chapter a folder yields: enabled, named after the folder, with
      the folder's sorted pages. */
  function ChapterFor(p: Profile, rootName: string, d: Entry): (c: Chapter)
    requires d.Folder?
    ensures c.enabled && c.name == d.name
  {
    Chapter(d.name, [rootName, d.name], ImageList(p, d.entries), true)
  }

  /** A chapter per folder, in the given order, dropping folders that hold
      no accepted image. */
  function ChaptersOf(p: Profile, rootName: string, dirs: seq<Entry>): (r: seq<Chapter>)
    requires forall d :: d in dirs ==> d.Folder?
    ensures forall c :: c in r ==> c.enabled && c.Pages() >= 1
    decreases |dirs|
  {
    if |dirs| == 0 then []
    else
      var rest := ChaptersOf(p, rootName, dirs[1..]);
      if ImageList(p, dirs[0].entries) == [] then rest
      else [ChapterFor(p, rootName, dirs[0])] + rest
  }

  /** Every chapter comes from one of the folders. */
  lemma {:induction false} ChaptersOfSound(p: Profile, rootName: string, dirs: seq<Entry>, c: Chapter)
    requires forall d :: d in dirs ==> d.Folder?
    requires c in ChaptersOf(p, rootName, dirs)
    ensures exists k :: 0 <= k < |dirs| && c == ChapterFor(p, rootName, dirs[k])
    decreases |dirs|
  {
    var rest := ChaptersOf(p, rootName, dirs[1..]);
    if c in rest {
      ChaptersOfSound(p, rootName, dirs[1..], c);
      var k :| 0 <= k < |dirs[1..]| && c == ChapterFor(p, rootName, dirs[1..][k]);
      assert dirs[1..][k] == dirs[k + 1];
    } else {
      ChaptersOfNew(p, rootName, dirs, c);
    }
  }

  /** A chapter that the later folders do not yield comes from the first. */
  lemma ChaptersOfNew(p: Profile, rootName: string, dirs: seq<Entry>, c: Chapter)
    requires |dirs| > 0 && forall d :: d in dirs ==> d.Folder?
    requires c in ChaptersOf(p, rootName, dirs) && c !in ChaptersOf(p, rootName, dirs[1..])
    ensures c == ChapterFor(p, rootName, dirs[0])
  {
  }

  /** Every folder with at least one accepted image yields its chapter. */
  lemma {:induction false} ChaptersOfComplete(p: Profile, rootName: string, dirs: seq<Entry>, k: nat)
    requires forall d :: d in dirs ==> d.Folder?
    requires k < |dirs| && ImageList(p, dirs[k].entries) != []
    ensures ChapterFor(p, rootName, dirs[k]) in ChaptersOf(p, rootName, dirs)
    decreases |dirs|
  {
    var rest := ChaptersOf(p, rootName, dirs[1..]);
    var c := ChapterFor(p, rootName, dirs[k]);
    if k > 0 {
      assert dirs[1..][k - 1] == dirs[k];
      ChaptersOfComplete(p, rootName, dirs[1..], k - 1);
      assert c in rest;
      ChaptersOfKeepsRest(p, rootName, dirs, c);
    } else {
      assert ChaptersOf(p, rootName, dirs) == [c] + rest;
    }
  }

  /** A chapter of the later folders is a chapter of the whole list. */
  lemma ChaptersOfKeepsRest(p: Profile, rootName: string, dirs: seq<Entry>, c: Chapter)
    requires |dirs| > 0 && forall d :: d in dirs ==> d.Folder?
    requires c in ChaptersOf(p, rootName, dirs[1..])
    ensures c in ChaptersOf(p, rootName, dirs)
  {
  }

  /** Chapters keep the folders' order, so folders in chapter-key order
      give chapters in chapter-key order. */
  lemma {:induction false} ChaptersOfSorted(p: Profile, rootName: string, dirs: seq<Entry>)
    requires forall d :: d in dirs ==> d.Folder?
    requires SortedBy(dirs, (d: Entry) => ChapterKey(p, d.name))
    ensures SortedBy(ChaptersOf(p, rootName, dirs), (c: Chapter) => ChapterKey(p, c.name))
    decreases |dirs|
  {
    if |dirs| > 0 {
      var rest := ChaptersOf(p, rootName, dirs[1..]);
      ChaptersOfSorted(p, rootName, dirs[1..]);
      if ImageList(p, dirs[0].entries) != [] {
        var c0 := ChapterFor(p, rootName, dirs[0]);
        forall j | 0 <= j < |rest|
          ensures KeyLe(ChapterKey(p, c0.name), ChapterKey(p, rest[j].name))
        {
          HeadKeyFirst(p, rootName, dirs, rest[j]);
        }
        ConsSorted(c0, rest, (c: Chapter) => ChapterKey(p, c.name));
      }
    }
  }

  /** The first folder's key bounds the keys of the later folders' chapters. */
  lemma HeadKeyFirst(p: Profile, rootName: string, dirs: seq<Entry>, c: Chapter)
    requires |dirs| > 0
    requires forall d :: d in dirs ==> d.Folder?
    requires SortedBy(dirs, (d: Entry) => ChapterKey(p, d.name))
    requires c in ChaptersOf(p, rootName, dirs[1..])
    ensures KeyLe(ChapterKey(p, dirs[0].name), ChapterKey(p, c.name))
  {
    ChaptersOfSound(p, rootName, dirs[1..], c);
    var k :| 0 <= k < |dirs[1..]| && c == ChapterFor(p, rootName, dirs[1..][k]);
    assert dirs[1..][k] == dirs[k + 1];
    assert KeyLe(ChapterKey(p, dirs[0].name), ChapterKey(p, dirs[k + 1].name));
  }

  /** Selects the subfolder layout: the profile expects one folder per
      chapter and the user has subfolder processing switched on. */
  predicate UsesSubfolders(p: Profile, processSubfolders: bool)
  {
    p.expectsSubfolders && processSubfolders
  }

  /** The subfolders of the root in chapter-key order. */
  function SortedSubfolders(p: Profile, root: Root): (r: seq<Entry>)
    ensures forall d :: d in r <==> d in root.entries && d.Folder?
    ensures SortedBy(r, (d: Entry) => ChapterKey(p, d.name))
  {
    var subs := Subfolders(root.entries);
    var r := SortBy(subs, (d: Entry) => ChapterKey(p, d.name));
    assert forall d :: d in r <==> d in subs by {
      forall d ensures d in r <==> d in subs {
        SortByMembers(subs, (d: Entry) => ChapterKey(p, d.name), d);
      }
    }
    r
  }

  /** `scan_images`: with no folder selected, no chapters; in subfolder
      mode a chapter per subfolder with accepted images, in chapter-key
      order; otherwise the root's own accepted images as a single chapter,
      or none. */
  function Scan(selected: Option<Root>, p: Profile, processSubfolders: bool): (r: seq<Chapter>)
    ensures selected.None? ==> r == []
    ensures forall c :: c in r ==> c.enabled && c.Pages() >= 1
  {
    match selected
    case None => []
    case Some(root) =>
      if UsesSubfolders(p, processSubfolders) then
        ChaptersOf(p, root.name, SortedSubfolders(p, root))
      else
        var files := ImageList(p, root.entries);
        if files == [] then [] else [Chapter(root.name, [root.name], files, true)]
  }

  /** Some accepted file exactly when the sorted page list is non-empty. */
  lemma ImageListEmpty(p: Profile, entries: seq<Entry>)
    ensures ImageList(p, entries) == [] <==> AcceptedFiles(entries) == []
  {
    if AcceptedFiles(entries) != [] {
      assert AcceptedFiles(entries)[0] in multiset(ImageList(p, entries));
    }
  }

  /** Every scanned chapter holds only accepted image names, in image-key
      order. */
  lemma ScanPagesAccepted(selected: Option<Root>, p: Profile, processSubfolders: bool, c: Chapter)
    requires c in Scan(selected, p, processSubfolders)
    ensures SortedBy(c.images, n => ImageKey(p, n))
    ensures forall n :: n in c.images ==> IsImageName(n)
  {
    var root := selected.value;
    if UsesSubfolders(p, processSubfolders) {
      var dirs := SortedSubfolders(p, root);
      ChaptersOfSound(p, root.name, dirs, c);
    }
  }

  /** Subfolder mode: each chapter is a subfolder of the root holding
      exactly the chapter's images among its accepted files, each subfolder
      with an accepted image yields a chapter, and chapters are in
      chapter-key order. */
  lemma ScanSubfolders(root: Root, p: Profile, processSubfolders: bool)
    requires UsesSubfolders(p, processSubfolders)
    ensures SortedBy(Scan(Some(root), p, processSubfolders), (c: Chapter) => ChapterKey(p, c.name))
    ensures forall c :: c in Scan(Some(root), p, processSubfolders) ==>
      exists d :: d in root.entries && d.Folder? && d.name == c.name && c.dir == [root.name, d.name]
        && multiset(c.images) == multiset(AcceptedFiles(d.entries))
    ensures forall d :: d in root.entries && d.Folder? && AcceptedFiles(d.entries) != [] ==>
      exists c :: c in Scan(Some(root), p, processSubfolders) && c.name == d.name
        && multiset(c.images) == multiset(AcceptedFiles(d.entries))
  {
    var dirs := SortedSubfolders(p, root);
    assert Scan(Some(root), p, processSubfolders) == ChaptersOf(p, root.name, dirs);
    ChaptersOfSorted(p, root.name, dirs);
    SubfolderChaptersSound(root, p, dirs);
    SubfolderChaptersComplete(root, p, dirs);
  }

  lemma SubfolderChaptersSound(root: Root, p: Profile, dirs: seq<Entry>)
    requires forall d :: d in dirs <==> d in root.entries && d.Folder?
    ensures forall c :: c in ChaptersOf(p, root.name, dirs) ==>
      exists d :: d in root.entries && d.Folder? && d.name == c.name && c.dir == [root.name, d.name]
        && multiset(c.images) == multiset(AcceptedFiles(d.entries))
  {
    forall c | c in ChaptersOf(p, root.name, dirs)
      ensures exists d :: (d in root.entries && d.Folder? && d.name == c.name && c.dir == [root.name, d.name]
                           && multiset(c.images) == multiset(AcceptedFiles(d.entries)))
    {
      ChaptersOfSound(p, root.name, dirs, c);
      var k :| 0 <= k < |dirs| && c == ChapterFor(p, root.name, dirs[k]);
      assert dirs[k] in dirs;
    }
  }

  lemma SubfolderChaptersComplete(root: Root, p: Profile, dirs: seq<Entry>)
    requires forall d :: d in dirs <==> d in root.entries && d.Folder?
    ensures forall d :: d in root.entries && d.Folder? && AcceptedFiles(d.entries) != [] ==>
      exists c :: c in ChaptersOf(p, root.name, dirs) && c.name == d.name
        && multiset(c.images) == multiset(AcceptedFiles(d.entries))
  {
    forall d | d in root.entries && d.Folder? && AcceptedFiles(d.entries) != []
      ensures exists c :: (c in ChaptersOf(p, root.name, dirs) && c.name == d.name
                           && multiset(c.images) == multiset(AcceptedFiles(d.entries)))
    {
      assert d in dirs;
      var k :| 0 <= k < |dirs| && dirs[k] == d;
      ImageListEmpty(p, d.entries);
      ChaptersOfComplete(p, root.name, dirs, k);
      assert ChapterFor(p, root.name, d) in ChaptersOf(p, root.name, dirs);
    }
  }

  /** Flat mode: the root's accepted images form one chapter named after
      the root, and there is no chapter when it has none. */
  lemma ScanFlat(root: Root, p: Profile, processSubfolders: bool)
    requires !UsesSubfolders(p, processSubfolders)
    ensures Scan(Some(root), p, processSubfolders) == [] <==> AcceptedFiles(root.entries) == []
    ensures Scan(Some(root), p, processSubfolders) != [] ==>
      |Scan(Some(root), p, processSubfolders)| == 1
      && Scan(Some(root), p, processSubfolders)[0].name == root.name
      && multiset(Scan(Some(root), p, processSubfolders)[0].images) == multiset(AcceptedFiles(root.entries))
  {
    ImageListEmpty(p, root.entries);
  }
}
