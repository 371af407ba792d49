/**
 * The export run (`_process_plan_worker`): for each volume of the plan, in
 * order, every image of every chapter is processed into a page numbered
 * from 1 in that volume, then the volume folder is handed to the packager.
 * A page that fails still consumes its number; a packager failure does not
 * stop the run. The cancel flag is checked before every page and before
 * every packager call, so a run cancelled after `k` actions has done
 * exactly the first `k` actions of the uncancelled run.
 *
 * Image processing and the packager are outside the model: `pageOk` says
 * whether the image at a page path was written, `packagerOk` whether the
 * packager produced the book for a volume number once its folder holds at
 * least one page.
 */
module Exporter {
  import opened Prelude
  import opened Models
  import opened Planner
  import opened Naming

  /** One action of the run, in the order it happens. The packager is
      called for volume `v` with the title `VolumeTitle(series, v)`. */
  datatype Event =
    | PageAttempt(volume: nat, seqNum: nat, image: PagePath, written: bool)
    | PackAttempt(volume: nat, produced: bool)

  /** A page's file: its chapter's folder followed by the file name, the
      `Path` that `scan_images` stores and the processing step opens. Pages
      of different chapters may share a file name but never a path. */
  type PagePath = seq<string>

  /** The paths of a chapter's images, in their sorted order. */
  function ChapterPaths(c: Chapter): (r: seq<PagePath>)
    ensures |r| == |c.images|
    ensures forall i :: 0 <= i < |r| ==> r[i] == c.dir + [c.images[i]]
  {
    seq(|c.images|, i requires 0 <= i < |c.images| => c.dir + [c.images[i]])
  }

  /** The fixed inputs of a run: the series name, the first volume number
      (already raised to at least 1), and the two outside outcomes. */
  datatype RunInputs = RunInputs(
    series: string,
    startVolume: nat,
    pageOk: PagePath -> bool,
    packagerOk: nat -> bool)

  predicate IsPrefix<T(==)>(a: seq<T>, b: seq<T>)
  {
    |a| <= |b| && a == b[..|a|]
  }

  lemma PrefixTrans<T>(a: seq<T>, b: seq<T>, c: seq<T>)
    requires IsPrefix(a, b) && IsPrefix(b, c)
    ensures IsPrefix(a, c)
  {
    assert c[..|b|][..|a|] == c[..|a|];
  }

  // ------------------------------------------------------ the reference run

  /** The images of a volume in processing order: chapter by chapter, each
      chapter's images in their sorted order. */
  function VolumeImages(vol: Volume): seq<PagePath>
    decreases |vol|
  {
    if |vol| == 0 then [] else VolumeImages(vol[..|vol| - 1]) + ChapterPaths(vol[|vol| - 1])
  }

  /** The page attempts for a volume's images, numbered 1, 2, ... */
  function PageEvents(vnum: nat, imgs: seq<PagePath>, pageOk: PagePath -> bool): (r: seq<Event>)
    ensures |r| == |imgs|
    decreases |imgs|
  {
    if |imgs| == 0 then []
    else
      var n := |imgs| - 1;
      PageEvents(vnum, imgs[..n], pageOk) + [PageAttempt(vnum, n + 1, imgs[n], pageOk(imgs[n]))]
  }

  /** Page attempt `i` of a volume is for its `i`-th image path, carries
      page number `i + 1` and records whether that image was written. */
  lemma {:induction false} PageEventsAt(vnum: nat, imgs: seq<PagePath>, pageOk: PagePath -> bool)
    ensures forall i :: 0 <= i < |imgs| ==>
      PageEvents(vnum, imgs, pageOk)[i] == PageAttempt(vnum, i + 1, imgs[i], pageOk(imgs[i]))
    decreases |imgs|
  {
    if |imgs| > 0 {
      var n := |imgs| - 1;
      PageEventsAt(vnum, imgs[..n], pageOk);
      assert forall i :: 0 <= i < n ==> imgs[..n][i] == imgs[i];
    }
  }

  /** At least one of the images was written. */
  predicate AnyOk(imgs: seq<PagePath>, pageOk: PagePath -> bool)
  {
    exists i :: 0 <= i < |imgs| && pageOk(imgs[i])
  }

  /** Everything the run does for the `idx`-th volume when not cancelled:
      its pages, then the packager call, which can only produce a book when
      a page reached the folder. */
  function VolumeTrace(run: RunInputs, idx: nat, vol: Volume): seq<Event>
  {
    var vnum := run.startVolume + idx;
    var imgs := VolumeImages(vol);
    PageEvents(vnum, imgs, run.pageOk)
      + [PackAttempt(vnum, AnyOk(imgs, run.pageOk) && run.packagerOk(vnum))]
  }

  /** The actions for the first `n` volumes. */
  function Trace(run: RunInputs, plan: Plan, n: nat): seq<Event>
    requires n <= |plan|
  {
    if n == 0 then [] else Trace(run, plan, n - 1) + VolumeTrace(run, n - 1, plan[n - 1])
  }

  /** The uncancelled run. */
  function FullTrace(run: RunInputs, plan: Plan): seq<Event>
  {
    Trace(run, plan, |plan|)
  }

  /** The cancel flag, raised after `k` actions when `cancelAfter == Some(k)`,
      is seen at the next check. */
  predicate Cancelled(cancelAfter: Option<nat>, done: nat)
  {
    cancelAfter.Some? && done >= cancelAfter.value
  }

  predicate Within(cancelAfter: Option<nat>, done: nat)
  {
    cancelAfter.None? || done <= cancelAfter.value
  }

  /** How many of the `n` actions happen. */
  function Budget(cancelAfter: Option<nat>, n: nat): nat
  {
    match cancelAfter
    case None => n
    case Some(k) => Min(k, n)
  }

  /** The reference for a run that may be cancelled. */
  function RunTrace(run: RunInputs, plan: Plan, cancelAfter: Option<nat>): seq<Event>
  {
    var full := FullTrace(run, plan);
    full[..Budget(cancelAfter, |full|)]
  }

  // ---------------------------------------------------------- projections

  /** `f` applied to every event, results concatenated in order. */
  function Collect<U>(evs: seq<Event>, f: Event -> seq<U>): seq<U>
    decreases |evs|
  {
    if |evs| == 0 then [] else Collect(evs[..|evs| - 1], f) + f(evs[|evs| - 1])
  }

  function PageSeq(v: nat, e: Event): seq<nat>
  {
    if e.PageAttempt? && e.volume == v then [e.seqNum] else []
  }

  function PackedOf(e: Event): seq<nat>
  {
    if e.PackAttempt? then [e.volume] else []
  }

  function ProducedOf(e: Event): seq<nat>
  {
    if e.PackAttempt? && e.produced then [e.volume] else []
  }

  function PageSeqOf(v: nat): Event -> seq<nat>
  {
    (e: Event) => PageSeq(v, e)
  }

  /** The page numbers given out in volume `v`, in order. */
  function SeqsOf(evs: seq<Event>, v: nat): seq<nat>
  {
    Collect(evs, PageSeqOf(v))
  }

  /** The volumes handed to the packager, in order. */
  function PackedVolumes(evs: seq<Event>): seq<nat>
  {
    Collect(evs, PackedOf)
  }

  /** The volumes for which a book was produced, in order. */
  function ProducedVolumes(evs: seq<Event>): seq<nat>
  {
    Collect(evs, ProducedOf)
  }

  /** `1, 2, ..., n`. */
  function Counting(n: nat): seq<nat>
  {
    seq(n, i requires 0 <= i < n => i + 1)
  }

  /** `s, s + 1, ..., s + n - 1`. */
  function Numbers(s: nat, n: nat): seq<nat>
  {
    seq(n, i requires 0 <= i < n => s + i)
  }

  // ------------------------------------------------------ the run as code

  /** The export loop. The result is exactly the reference run cut at the
      cancellation point, and the counter of created books counts the
      packager calls that produced one. */
  method ExportPlan(run: RunInputs, plan: Plan, cancelAfter: Option<nat>)
    returns (trace: seq<Event>, created: nat)
    ensures trace == RunTrace(run, plan, cancelAfter)
    ensures created == |ProducedVolumes(trace)|
  {
    trace := [];
    created := 0;
    var idx := 0;
    while idx < |plan|
      invariant idx <= |plan|
      invariant trace == Trace(run, plan, idx)
      invariant created == |ProducedVolumes(trace)|
      invariant Within(cancelAfter, |trace|)
    {
      var next, produced, stopped := ExportOneVolume(run, plan, idx, cancelAfter, trace);
      if stopped {
        return next, |ProducedVolumes(next)|;
      }
      trace := next;
      if produced {
        created := created + 1;
      }
      idx := idx + 1;
    }
    assert Budget(cancelAfter, |trace|) == |trace|;
  }

  /** One turn of the volume loop: unless the cancel flag is seen (and the
      run stops where it is), the volume's pages are made and the packager
      is called, producing a book only when a page was written. */
  method ExportOneVolume(run: RunInputs, plan: Plan, idx: nat, cancelAfter: Option<nat>, trace0: seq<Event>)
    returns (trace: seq<Event>, produced: bool, stopped: bool)
    requires idx < |plan|
    requires trace0 == Trace(run, plan, idx)
    requires Within(cancelAfter, |trace0|)
    ensures stopped ==> trace == RunTrace(run, plan, cancelAfter)
    ensures !stopped ==> trace == Trace(run, plan, idx + 1)
    ensures !stopped ==> Within(cancelAfter, |trace|)
    ensures !stopped ==>
      ProducedVolumes(trace) == ProducedVolumes(trace0) + (if produced then [run.startVolume + idx] else [])
  {
    if Cancelled(cancelAfter, |trace0|) {
      TracePrefix(run, plan, idx, |plan|);
      StopIsRunTrace(run, plan, cancelAfter, trace0);
      return trace0, false, true;
    }
    var vnum := run.startVolume + idx;
    var pages, written, attempted := ExportVolume(vnum, run.pageOk, plan[idx], cancelAfter, trace0);
    if Cancelled(cancelAfter, |pages|) {
      PartialPrefix(run, plan, idx, VolumeImages(plan[idx])[..attempted]);
      StopIsRunTrace(run, plan, cancelAfter, pages);
      return pages, false, true;
    }
    produced := written && run.packagerOk(vnum);
    PackStep(run, plan, idx, pages, written, attempted);
    CollectSnoc(pages, PackAttempt(vnum, produced), ProducedOf);
    trace := pages + [PackAttempt(vnum, produced)];
    stopped := false;
  }

  /** Where the run stops on the cancel flag, what it did is the reference
      run cut at the budget. */
  lemma StopIsRunTrace(run: RunInputs, plan: Plan, cancelAfter: Option<nat>, trace: seq<Event>)
    requires IsPrefix(trace, FullTrace(run, plan))
    requires Cancelled(cancelAfter, |trace|) && Within(cancelAfter, |trace|)
    ensures trace == RunTrace(run, plan, cancelAfter)
  {
  }

  /** A volume whose every image was attempted, followed by its packager
      call, completes the reference actions of that volume. */
  lemma PackStep(run: RunInputs, plan: Plan, idx: nat, pages: seq<Event>, written: bool, attempted: nat)
    requires idx < |plan|
    requires attempted == |VolumeImages(plan[idx])|
    requires pages == Trace(run, plan, idx)
      + PageEvents(run.startVolume + idx, VolumeImages(plan[idx])[..attempted], run.pageOk)
    requires written == AnyOk(VolumeImages(plan[idx])[..attempted], run.pageOk)
    ensures pages + [PackAttempt(run.startVolume + idx, written && run.packagerOk(run.startVolume + idx))]
         == Trace(run, plan, idx + 1)
  {
    var imgs := VolumeImages(plan[idx]);
    assert imgs[..attempted] == imgs;
  }

  /** The pages of volume `vnum`, chapter by chapter, stopping at the first
      check that sees the cancel flag: `attempted` images were processed,
      numbered from 1; fewer than all only when the flag was seen.
      `written` says whether any page reached the folder. */
  method ExportVolume(vnum: nat, pageOk: PagePath -> bool, vol: Volume, cancelAfter: Option<nat>,
                      trace0: seq<Event>)
    returns (trace: seq<Event>, written: bool, attempted: nat)
    requires Within(cancelAfter, |trace0|)
    ensures attempted <= |VolumeImages(vol)|
    ensures trace == trace0 + PageEvents(vnum, VolumeImages(vol)[..attempted], pageOk)
    ensures written == AnyOk(VolumeImages(vol)[..attempted], pageOk)
    ensures attempted < |VolumeImages(vol)| ==> Cancelled(cancelAfter, |trace|)
    ensures Within(cancelAfter, |trace|)
    ensures ProducedVolumes(trace) == ProducedVolumes(trace0)
  {
    ghost var all := VolumeImages(vol);
    var seqNum := 1;
    trace := trace0;
    written := false;
    var c := 0;
    assert vol[..0] == [];
    assert trace0 + PageEvents(vnum, [], pageOk) == trace0;
    while c < |vol|
      invariant c <= |vol|
      invariant seqNum == |VolumeImages(vol[..c])| + 1
      invariant trace == trace0 + PageEvents(vnum, VolumeImages(vol[..c]), pageOk)
      invariant written == AnyOk(VolumeImages(vol[..c]), pageOk)
      invariant ProducedVolumes(trace) == ProducedVolumes(trace0)
      invariant Within(cancelAfter, |trace|)
    {
      ghost var done := VolumeImages(vol[..c]);
      var images := ChapterPaths(vol[c]);
      var next, w, m;
      next, seqNum, w, m := ExportChapter(vnum, pageOk, images, cancelAfter, trace0, done, trace, seqNum, written);
      trace, written := next, w;
      VolumeImagesPrefix(vol, c, m);
      if Cancelled(cancelAfter, |trace|) {
        attempted := seqNum - 1;
        assert all[..attempted] == done + images[..m];
        return;
      }
      assert images[..m] == images;
      VolumeImagesStep(vol, c);
      c := c + 1;
    }
    assert vol[..|vol|] == vol;
    attempted := seqNum - 1;
    assert all[..attempted] == all;
  }

  /** The pages of one chapter, continuing the volume's page counter:
      `attempted` of its images were processed; fewer than all only when
      the cancel flag was seen. */
  method ExportChapter(
    vnum: nat, pageOk: PagePath -> bool, images: seq<PagePath>, cancelAfter: Option<nat>,
    ghost base: seq<Event>, ghost done: seq<PagePath>, trace0: seq<Event>, seq0: nat, written0: bool)
    returns (trace: seq<Event>, seqNum: nat, written: bool, attempted: nat)
    requires trace0 == base + PageEvents(vnum, done, pageOk)
    requires seq0 == |done| + 1
    requires written0 == AnyOk(done, pageOk)
    requires Within(cancelAfter, |trace0|)
    ensures attempted <= |images|
    ensures trace == base + PageEvents(vnum, done + images[..attempted], pageOk)
    ensures seqNum == |done| + attempted + 1
    ensures written == AnyOk(done + images[..attempted], pageOk)
    ensures attempted < |images| ==> Cancelled(cancelAfter, |trace|)
    ensures Within(cancelAfter, |trace|)
    ensures ProducedVolumes(trace) == ProducedVolumes(trace0)
  {
    trace, seqNum, written := trace0, seq0, written0;
    attempted := 0;
    assert done + images[..0] == done;
    while attempted < |images|
      invariant attempted <= |images|
      invariant seqNum == |done| + attempted + 1
      invariant trace == base + PageEvents(vnum, done + images[..attempted], pageOk)
      invariant written == AnyOk(done + images[..attempted], pageOk)
      invariant ProducedVolumes(trace) == ProducedVolumes(trace0)
      invariant Within(cancelAfter, |trace|)
    {
      if Cancelled(cancelAfter, |trace|) {
        return;
      }
      var img := images[attempted];
      var ok := pageOk(img);
      PageStep(vnum, pageOk, base, done, images, attempted, trace, trace0);
      trace := trace + [PageAttempt(vnum, seqNum, img, ok)];
      written := written || ok;
      seqNum := seqNum + 1;
      attempted := attempted + 1;
    }
  }

  /** Why a run did not start, or what it did. */
  datatype Outcome =
    | NoFolder
    | NoEnabledChapters
    | Finished(trace: seq<Event>, created: nat)

  /** The worker: without a selected folder, or with no enabled chapter,
      nothing is exported; otherwise the plan is exported under the series
      name and the raised start volume. */
  method Worker(
    folderName: Option<string>, chapters: seq<Chapter>, groupSize: int,
    startVolume: int, seriesTitle: string,
    pageOk: PagePath -> bool, packagerOk: nat -> bool, cancelAfter: Option<nat>)
    returns (o: Outcome)
    ensures folderName.None? <==> o.NoFolder?
    ensures folderName.Some? ==> (o.NoEnabledChapters? <==> forall c :: c in chapters ==> !c.enabled)
    ensures o.Finished? ==>
      var run := RunInputs(SeriesName(seriesTitle, folderName.value), StartVolume(startVolume),
                           pageOk, packagerOk);
      && o.trace == RunTrace(run, BuildPlan(chapters, groupSize), cancelAfter)
      && o.created == |ProducedVolumes(o.trace)|
  {
    if folderName.None? {
      return NoFolder;
    }
    var plan := BuildPlan(chapters, groupSize);
    BuildPlanEmpty(chapters, groupSize);
    if plan == [] {
      return NoEnabledChapters;
    }
    var run := RunInputs(SeriesName(seriesTitle, folderName.value), StartVolume(startVolume),
                         pageOk, packagerOk);
    var trace, created := ExportPlan(run, plan, cancelAfter);
    o := Finished(trace, created);
  }

  // ------------------------------------------------------ helper lemmas

  /** One page attempt extends the page events and leaves the produced
      books alone. */
  lemma PageStep(vnum: nat, pageOk: PagePath -> bool, base: seq<Event>, done: seq<PagePath>,
                 images: seq<PagePath>, attempted: nat, trace: seq<Event>, trace0: seq<Event>)
    requires attempted < |images|
    requires trace == base + PageEvents(vnum, done + images[..attempted], pageOk)
    requires ProducedVolumes(trace) == ProducedVolumes(trace0)
    ensures var e := PageAttempt(vnum, |done| + attempted + 1, images[attempted], pageOk(images[attempted]));
      && trace + [e] == base + PageEvents(vnum, done + images[..attempted + 1], pageOk)
      && ProducedVolumes(trace + [e]) == ProducedVolumes(trace0)
      && AnyOk(done + images[..attempted + 1], pageOk)
           == (AnyOk(done + images[..attempted], pageOk) || pageOk(images[attempted]))
  {
    var pre := done + images[..attempted];
    var img := images[attempted];
    assert done + images[..attempted + 1] == pre + [img];
    PageEventsSnoc(vnum, pre, img, pageOk);
    AnyOkSnoc(pre, img, pageOk);
    CollectSnoc(trace, PageAttempt(vnum, |pre| + 1, img, pageOk(img)), ProducedOf);
  }

  lemma PageEventsSnoc(vnum: nat, imgs: seq<PagePath>, img: PagePath, pageOk: PagePath -> bool)
    ensures PageEvents(vnum, imgs + [img], pageOk)
         == PageEvents(vnum, imgs, pageOk) + [PageAttempt(vnum, |imgs| + 1, img, pageOk(img))]
  {
    assert (imgs + [img])[..|imgs|] == imgs;
  }

  lemma AnyOkSnoc(imgs: seq<PagePath>, img: PagePath, pageOk: PagePath -> bool)
    ensures AnyOk(imgs + [img], pageOk) == (AnyOk(imgs, pageOk) || pageOk(img))
  {
    var s := imgs + [img];
    if AnyOk(imgs, pageOk) {
      var i :| 0 <= i < |imgs| && pageOk(imgs[i]);
      assert s[i] == imgs[i];
    }
    if AnyOk(s, pageOk) && !pageOk(img) {
      var i :| 0 <= i < |s| && pageOk(s[i]);
      assert i < |imgs| && s[i] == imgs[i];
    }
    assert s[|imgs|] == img;
  }

  lemma CollectSnoc<U>(evs: seq<Event>, e: Event, f: Event -> seq<U>)
    ensures Collect(evs + [e], f) == Collect(evs, f) + f(e)
  {
    assert (evs + [e])[..|evs|] == evs;
  }

  lemma VolumeImagesStep(vol: Volume, c: nat)
    requires c < |vol|
    ensures VolumeImages(vol[..c + 1]) == VolumeImages(vol[..c]) + ChapterPaths(vol[c])
  {
    assert vol[..c + 1][..c] == vol[..c];
  }

  /** Processing order is chapter order: the images of the first `c`
      chapters come before the rest. */
  lemma {:induction false} VolumeImagesMono(vol: Volume, c: nat)
    requires c <= |vol|
    ensures IsPrefix(VolumeImages(vol[..c]), VolumeImages(vol))
    decreases |vol| - c
  {
    if c < |vol| {
      VolumeImagesMono(vol, c + 1);
      VolumeImagesStep(vol, c);
      PrefixTrans(VolumeImages(vol[..c]), VolumeImages(vol[..c + 1]), VolumeImages(vol));
    } else {
      assert vol[..c] == vol;
    }
  }

  lemma VolumeImagesPrefix(vol: Volume, c: nat, m: nat)
    requires c < |vol| && m <= |ChapterPaths(vol[c])|
    ensures IsPrefix(VolumeImages(vol[..c]) + ChapterPaths(vol[c])[..m], VolumeImages(vol))
  {
    VolumeImagesStep(vol, c);
    VolumeImagesMono(vol, c + 1);
    var a := VolumeImages(vol[..c]) + ChapterPaths(vol[c])[..m];
    var b := VolumeImages(vol[..c + 1]);
    assert a == b[..|a|];
    PrefixTrans(a, b, VolumeImages(vol));
  }

  lemma {:induction false} PageEventsPrefix(vnum: nat, xs: seq<PagePath>, ys: seq<PagePath>, pageOk: PagePath -> bool)
    requires IsPrefix(xs, ys)
    ensures IsPrefix(PageEvents(vnum, xs, pageOk), PageEvents(vnum, ys, pageOk))
    decreases |ys|
  {
    if |xs| < |ys| {
      var n := |ys| - 1;
      assert xs == ys[..n][..|xs|];
      PageEventsPrefix(vnum, xs, ys[..n], pageOk);
      var a := PageEvents(vnum, ys[..n], pageOk);
      assert IsPrefix(a, a + [PageAttempt(vnum, n + 1, ys[n], pageOk(ys[n]))]);
      PrefixTrans(PageEvents(vnum, xs, pageOk), a, PageEvents(vnum, ys, pageOk));
    } else {
      assert xs == ys;
    }
  }

  lemma {:induction false} TracePrefix(run: RunInputs, plan: Plan, n: nat, m: nat)
    requires n <= m <= |plan|
    ensures IsPrefix(Trace(run, plan, n), Trace(run, plan, m))
    decreases m
  {
    if n < m {
      TracePrefix(run, plan, n, m - 1);
      TraceStepPrefix(run, plan, m - 1);
      PrefixTrans(Trace(run, plan, n), Trace(run, plan, m - 1), Trace(run, plan, m));
    }
  }

  lemma TraceStepPrefix(run: RunInputs, plan: Plan, n: nat)
    requires n < |plan|
    ensures IsPrefix(Trace(run, plan, n), Trace(run, plan, n + 1))
  {
    var a := Trace(run, plan, n);
    var x := VolumeTrace(run, n, plan[n]);
    assert Trace(run, plan, n + 1) == a + x;
    assert (a + x)[..|a|] == a;
  }

  /** The actions of a volume that was cut short are still a prefix of the
      uncancelled run. */
  lemma PartialPrefix(run: RunInputs, plan: Plan, idx: nat, pre: seq<PagePath>)
    requires idx < |plan|
    requires IsPrefix(pre, VolumeImages(plan[idx]))
    ensures IsPrefix(Trace(run, plan, idx) + PageEvents(run.startVolume + idx, pre, run.pageOk),
                     FullTrace(run, plan))
  {
    var vnum := run.startVolume + idx;
    var t := Trace(run, plan, idx);
    var part := PageEvents(vnum, pre, run.pageOk);
    PartialVolumePrefix(run, idx, plan[idx], pre);
    AppendPrefix(t, part, VolumeTrace(run, idx, plan[idx]));
    TraceStep(run, plan, idx + 1);
    TracePrefix(run, plan, idx + 1, |plan|);
    PrefixTrans(t + part, Trace(run, plan, idx + 1), FullTrace(run, plan));
  }

  /** The page events of a prefix of a volume's images start its actions. */
  lemma PartialVolumePrefix(run: RunInputs, idx: nat, vol: Volume, pre: seq<PagePath>)
    requires IsPrefix(pre, VolumeImages(vol))
    ensures IsPrefix(PageEvents(run.startVolume + idx, pre, run.pageOk), VolumeTrace(run, idx, vol))
  {
    var vnum := run.startVolume + idx;
    var imgs := VolumeImages(vol);
    var all := PageEvents(vnum, imgs, run.pageOk);
    PageEventsPrefix(vnum, pre, imgs, run.pageOk);
    var vt := VolumeTrace(run, idx, vol);
    assert vt[..|all|] == all;
    PrefixTrans(PageEvents(vnum, pre, run.pageOk), all, vt);
  }

  lemma AppendPrefix<T>(t: seq<T>, x: seq<T>, y: seq<T>)
    requires IsPrefix(x, y)
    ensures IsPrefix(t + x, t + y)
  {
    assert (t + y)[..|t + x|] == t + y[..|x|];
  }

  // ------------------------------------------------ lemmas on projections

  lemma {:induction false} CollectAppend<U>(a: seq<Event>, b: seq<Event>, f: Event -> seq<U>)
    ensures Collect(a + b, f) == Collect(a, f) + Collect(b, f)
    decreases |b|
  {
    if |b| == 0 {
      assert a + b == a;
    } else {
      var n := |b| - 1;
      assert (a + b)[..|a + b| - 1] == a + b[..n];
      CollectAppend(a, b[..n], f);
    }
  }

  lemma CollectPrefix<U>(a: seq<Event>, b: seq<Event>, f: Event -> seq<U>)
    requires IsPrefix(a, b)
    ensures IsPrefix(Collect(a, f), Collect(b, f))
  {
    assert b == a + b[|a|..];
    CollectAppend(a, b[|a|..], f);
  }

  lemma {:induction false} CollectPageEvents<U>(vnum: nat, imgs: seq<PagePath>, pageOk: PagePath -> bool,
                                               f: Event -> seq<U>)
    requires forall i :: 0 <= i < |imgs| ==> f(PageAttempt(vnum, i + 1, imgs[i], pageOk(imgs[i]))) == []
    ensures Collect(PageEvents(vnum, imgs, pageOk), f) == []
    decreases |imgs|
  {
    if |imgs| > 0 {
      var n := |imgs| - 1;
      CollectPageEvents(vnum, imgs[..n], pageOk, f);
      CollectSnoc(PageEvents(vnum, imgs[..n], pageOk), PageAttempt(vnum, n + 1, imgs[n], pageOk(imgs[n])), f);
    }
  }

  lemma {:induction false} SeqsOfPageEvents(vnum: nat, imgs: seq<PagePath>, pageOk: PagePath -> bool, v: nat)
    ensures SeqsOf(PageEvents(vnum, imgs, pageOk), v) == if v == vnum then Counting(|imgs|) else []
    decreases |imgs|
  {
    if |imgs| > 0 {
      var n := |imgs| - 1;
      SeqsOfPageEvents(vnum, imgs[..n], pageOk, v);
      CollectSnoc(PageEvents(vnum, imgs[..n], pageOk), PageAttempt(vnum, n + 1, imgs[n], pageOk(imgs[n])),
                  PageSeqOf(v));
      assert Counting(n + 1) == Counting(n) + [n + 1];
    }
  }

  lemma SeqsOfVolumeTraceOwn(run: RunInputs, idx: nat, vol: Volume)
    ensures SeqsOf(VolumeTrace(run, idx, vol), run.startVolume + idx) == Counting(|VolumeImages(vol)|)
  {
    var vnum := run.startVolume + idx;
    var imgs := VolumeImages(vol);
    var pages := PageEvents(vnum, imgs, run.pageOk);
    var pack := PackAttempt(vnum, AnyOk(imgs, run.pageOk) && run.packagerOk(vnum));
    assert VolumeTrace(run, idx, vol) == pages + [pack];
    CollectSnoc(pages, pack, PageSeqOf(vnum));
    SeqsOfPageEvents(vnum, imgs, run.pageOk, vnum);
  }

  lemma SeqsOfVolumeTraceOther(run: RunInputs, idx: nat, vol: Volume, v: nat)
    requires v != run.startVolume + idx
    ensures SeqsOf(VolumeTrace(run, idx, vol), v) == []
  {
    var vnum := run.startVolume + idx;
    var imgs := VolumeImages(vol);
    var pages := PageEvents(vnum, imgs, run.pageOk);
    var pack := PackAttempt(vnum, AnyOk(imgs, run.pageOk) && run.packagerOk(vnum));
    assert VolumeTrace(run, idx, vol) == pages + [pack];
    CollectSnoc(pages, pack, PageSeqOf(v));
    SeqsOfPageEvents(vnum, imgs, run.pageOk, v);
  }

  lemma PackedOfVolumeTrace(run: RunInputs, idx: nat, vol: Volume)
    ensures PackedVolumes(VolumeTrace(run, idx, vol)) == [run.startVolume + idx]
  {
    var vnum := run.startVolume + idx;
    var imgs := VolumeImages(vol);
    var pages := PageEvents(vnum, imgs, run.pageOk);
    var pack := PackAttempt(vnum, AnyOk(imgs, run.pageOk) && run.packagerOk(vnum));
    assert VolumeTrace(run, idx, vol) == pages + [pack];
    CollectSnoc(pages, pack, PackedOf);
    CollectPageEvents(vnum, imgs, run.pageOk, PackedOf);
  }

  lemma ProducedOfVolumeTrace(run: RunInputs, idx: nat, vol: Volume)
    ensures var p := ProducedVolumes(VolumeTrace(run, idx, vol));
      p == [] || (p == [run.startVolume + idx] && AnyOk(VolumeImages(vol), run.pageOk)
                  && run.packagerOk(run.startVolume + idx))
    ensures AnyOk(VolumeImages(vol), run.pageOk) && run.packagerOk(run.startVolume + idx) ==>
      ProducedVolumes(VolumeTrace(run, idx, vol)) == [run.startVolume + idx]
  {
    var vnum := run.startVolume + idx;
    var imgs := VolumeImages(vol);
    var pages := PageEvents(vnum, imgs, run.pageOk);
    var pack := PackAttempt(vnum, AnyOk(imgs, run.pageOk) && run.packagerOk(vnum));
    assert VolumeTrace(run, idx, vol) == pages + [pack];
    CollectSnoc(pages, pack, ProducedOf);
    CollectPageEvents(vnum, imgs, run.pageOk, ProducedOf);
  }

  /** The actions of the first `n` volumes are those of the first `n - 1`
      followed by those of volume `n - 1`. */
  lemma TraceStep(run: RunInputs, plan: Plan, n: nat)
    requires 0 < n <= |plan|
    ensures Trace(run, plan, n) == Trace(run, plan, n - 1) + VolumeTrace(run, n - 1, plan[n - 1])
  {
  }

  /** The page numbers a volume has in the first `n` volumes' actions. */
  function SeqsUpTo(run: RunInputs, plan: Plan, n: nat, v: nat): seq<nat>
    requires n <= |plan|
  {
    if run.startVolume <= v < run.startVolume + n
    then Counting(|VolumeImages(plan[v - run.startVolume])|) else []
  }

  /** In the uncancelled actions of the first `n` volumes, volume `v` has
      the page numbers 1 to its image count when it is one of them, and
      none otherwise. */
  lemma {:induction false} SeqsOfTrace(run: RunInputs, plan: Plan, n: nat, v: nat)
    requires n <= |plan|
    ensures SeqsOf(Trace(run, plan, n), v) == SeqsUpTo(run, plan, n, v)
  {
    if n > 0 {
      SeqsOfTrace(run, plan, n - 1, v);
      SeqsOfTraceStep(run, plan, n, v, Trace(run, plan, n - 1));
      TraceStep(run, plan, n);
    }
  }

  lemma SeqsOfTraceStep(run: RunInputs, plan: Plan, n: nat, v: nat, prev: seq<Event>)
    requires 0 < n <= |plan|
    requires SeqsOf(prev, v) == SeqsUpTo(run, plan, n - 1, v)
    ensures SeqsOf(prev + VolumeTrace(run, n - 1, plan[n - 1]), v) == SeqsUpTo(run, plan, n, v)
  {
    var vt := VolumeTrace(run, n - 1, plan[n - 1]);
    CollectAppend(prev, vt, PageSeqOf(v));
    if v == run.startVolume + n - 1 {
      SeqsOfVolumeTraceOwn(run, n - 1, plan[n - 1]);
      assert SeqsOf(prev, v) == [];
    } else {
      SeqsOfVolumeTraceOther(run, n - 1, plan[n - 1], v);
      assert SeqsUpTo(run, plan, n, v) == SeqsUpTo(run, plan, n - 1, v);
    }
  }

  /** The uncancelled actions of the first `n` volumes call the packager
      for volumes `start, ..., start + n - 1`, in that order. */
  lemma {:induction false} PackedOfTrace(run: RunInputs, plan: Plan, n: nat)
    requires n <= |plan|
    ensures PackedVolumes(Trace(run, plan, n)) == Numbers(run.startVolume, n)
  {
    if n > 0 {
      PackedOfTrace(run, plan, n - 1);
      PackedOfTraceStep(run, plan, n, Trace(run, plan, n - 1));
      TraceStep(run, plan, n);
    }
  }

  lemma PackedOfTraceStep(run: RunInputs, plan: Plan, n: nat, prev: seq<Event>)
    requires 0 < n <= |plan|
    requires PackedVolumes(prev) == Numbers(run.startVolume, n - 1)
    ensures PackedVolumes(prev + VolumeTrace(run, n - 1, plan[n - 1])) == Numbers(run.startVolume, n)
  {
    var vt := VolumeTrace(run, n - 1, plan[n - 1]);
    CollectAppend(prev, vt, PackedOf);
    PackedOfVolumeTrace(run, n - 1, plan[n - 1]);
    assert Numbers(run.startVolume, n) == Numbers(run.startVolume, n - 1) + [run.startVolume + n - 1];
  }

  /** Volume `v` is among the first `n` volumes, one of its pages was
      written and the packager succeeded for it. */
  predicate Producible(run: RunInputs, plan: Plan, n: nat, v: nat)
    requires n <= |plan|
  {
    && run.startVolume <= v < run.startVolume + n
    && AnyOk(VolumeImages(plan[v - run.startVolume]), run.pageOk)
    && run.packagerOk(v)
  }

  /** Every listed volume is producible among the first `n` volumes. */
  predicate ProducedSound(run: RunInputs, plan: Plan, n: nat, produced: seq<nat>)
    requires n <= |plan|
  {
    forall i :: 0 <= i < |produced| ==> Producible(run, plan, n, produced[i])
  }

  /** Every producible volume among the first `n` is listed. */
  ghost predicate ProducedComplete(run: RunInputs, plan: Plan, n: nat, produced: seq<nat>)
    requires n <= |plan|
  {
    forall v :: Producible(run, plan, n, v) ==> v in produced
  }

  /** A book is produced for a volume of the plan exactly when one of its
      pages was written and the packager succeeded. */
  lemma {:induction false} ProducedOfTrace(run: RunInputs, plan: Plan, n: nat)
    requires n <= |plan|
    ensures ProducedSound(run, plan, n, ProducedVolumes(Trace(run, plan, n)))
    ensures ProducedComplete(run, plan, n, ProducedVolumes(Trace(run, plan, n)))
  {
    if n > 0 {
      ProducedOfTrace(run, plan, n - 1);
      ProducedOfTraceStep(run, plan, n, Trace(run, plan, n - 1));
      ProducedCompleteStep(run, plan, n, Trace(run, plan, n - 1));
      TraceStep(run, plan, n);
    }
  }

  lemma ProducedCompleteStep(run: RunInputs, plan: Plan, n: nat, prev: seq<Event>)
    requires 0 < n <= |plan|
    requires ProducedComplete(run, plan, n - 1, ProducedVolumes(prev))
    ensures ProducedComplete(run, plan, n, ProducedVolumes(prev + VolumeTrace(run, n - 1, plan[n - 1])))
  {
    var vt := VolumeTrace(run, n - 1, plan[n - 1]);
    CollectAppend(prev, vt, ProducedOf);
    ProducedOfVolumeTrace(run, n - 1, plan[n - 1]);
    forall v: nat | Producible(run, plan, n, v)
      ensures v in ProducedVolumes(prev) + ProducedVolumes(vt)
    {
      if v < run.startVolume + n - 1 {
        assert Producible(run, plan, n - 1, v);
      }
    }
  }

  lemma ProducedOfTraceStep(run: RunInputs, plan: Plan, n: nat, prev: seq<Event>)
    requires 0 < n <= |plan|
    requires ProducedSound(run, plan, n - 1, ProducedVolumes(prev))
    ensures ProducedSound(run, plan, n, ProducedVolumes(prev + VolumeTrace(run, n - 1, plan[n - 1])))
  {
    var vt := VolumeTrace(run, n - 1, plan[n - 1]);
    CollectAppend(prev, vt, ProducedOf);
    ProducedOfVolumeTrace(run, n - 1, plan[n - 1]);
    ProducedSoundStep(run, plan, n, ProducedVolumes(prev), ProducedVolumes(vt));
  }

  lemma ProducedSoundStep(run: RunInputs, plan: Plan, n: nat, a: seq<nat>, b: seq<nat>)
    requires 0 < n <= |plan|
    requires ProducedSound(run, plan, n - 1, a)
    requires b == [] || (b == [run.startVolume + n - 1] && Producible(run, plan, n, run.startVolume + n - 1))
    ensures ProducedSound(run, plan, n, a + b)
  {
    forall i | 0 <= i < |a + b|
      ensures Producible(run, plan, n, (a + b)[i])
    {
      if i < |a| {
        assert (a + b)[i] == a[i];
        assert Producible(run, plan, n - 1, a[i]);
      }
    }
  }

  // ------------------------------------------------- properties of a run

  /** `total_imgs`: a volume's processing list holds as many images as its
      chapters have pages. */
  lemma {:induction false} VolumeImagesCount(vol: Volume)
    ensures |VolumeImages(vol)| == Pages(vol)
    decreases |vol|
  {
    if |vol| > 0 {
      var n := |vol| - 1;
      VolumeImagesCount(vol[..n]);
      assert vol == vol[..n] + [vol[n]];
      PagesAppend(vol[..n], [vol[n]]);
      assert Pages([vol[n]]) == vol[n].Pages();
    }
  }

  /** Page numbering: in every run, cancelled or not, the pages attempted
      for volume `v` are numbered 1, 2, ..., k with no gap or repeat,
      whether or not each page was written; k is at most the volume's
      page count, and equals it when the run is not cancelled. A number
      outside the plan's volumes gets no pages. */
  lemma PageNumbersPerVolume(run: RunInputs, plan: Plan, cancelAfter: Option<nat>, v: nat)
    ensures var s := SeqsOf(RunTrace(run, plan, cancelAfter), v);
      && s == Counting(|s|)
      && (run.startVolume <= v < run.startVolume + |plan| ==>
            |s| <= Pages(plan[v - run.startVolume])
            && (cancelAfter.None? ==> |s| == Pages(plan[v - run.startVolume])))
      && (!(run.startVolume <= v < run.startVolume + |plan|) ==> s == [])
  {
    var full := FullTrace(run, plan);
    var t := RunTrace(run, plan, cancelAfter);
    var f := PageSeqOf(v);
    SeqsOfTrace(run, plan, |plan|, v);
    CollectPrefix(t, full, f);
    var s := SeqsOf(t, v);
    var all := SeqsOf(full, v);
    assert s == all[..|s|];
    assert s == Counting(|s|);
    if run.startVolume <= v < run.startVolume + |plan| {
      VolumeImagesCount(plan[v - run.startVolume]);
    }
    if cancelAfter.None? {
      assert t == full;
    }
  }

  /** No two pages of one volume share a file name. */
  lemma PageNamesDistinct(run: RunInputs, plan: Plan, cancelAfter: Option<nat>, v: nat, i: nat, j: nat)
    requires i < j < |SeqsOf(RunTrace(run, plan, cancelAfter), v)|
    ensures PageFileName(SeqsOf(RunTrace(run, plan, cancelAfter), v)[i])
         != PageFileName(SeqsOf(RunTrace(run, plan, cancelAfter), v)[j])
  {
    PageNumbersPerVolume(run, plan, cancelAfter, v);
    var s := SeqsOf(RunTrace(run, plan, cancelAfter), v);
    if PageFileName(s[i]) == PageFileName(s[j]) {
      PageFileNameInjective(s[i], s[j]);
      assert false;
    }
  }

  /** The packager is called for volumes `start, start + 1, ...` in order,
      each once, with no volume skipped: for every volume of the plan when
      not cancelled. A produced book always belongs to a volume that was
      packed, had a written page, and for which the packager succeeded. */
  lemma PackingOrder(run: RunInputs, plan: Plan, cancelAfter: Option<nat>)
    ensures var p := PackedVolumes(RunTrace(run, plan, cancelAfter));
      && |p| <= |plan|
      && p == Numbers(run.startVolume, |p|)
      && (cancelAfter.None? ==> |p| == |plan|)
    ensures forall v :: v in ProducedVolumes(RunTrace(run, plan, cancelAfter)) ==>
      && run.startVolume <= v < run.startVolume + |plan|
      && AnyOk(VolumeImages(plan[v - run.startVolume]), run.pageOk)
      && run.packagerOk(v)
    ensures cancelAfter.None? ==> forall v ::
      && run.startVolume <= v < run.startVolume + |plan|
      && AnyOk(VolumeImages(plan[v - run.startVolume]), run.pageOk)
      && run.packagerOk(v)
      ==> v in ProducedVolumes(RunTrace(run, plan, cancelAfter))
  {
    var full := FullTrace(run, plan);
    var t := RunTrace(run, plan, cancelAfter);
    PackedOfTrace(run, plan, |plan|);
    CollectPrefix(t, full, PackedOf);
    var p := PackedVolumes(t);
    assert p == Numbers(run.startVolume, |plan|)[..|p|];
    assert p == Numbers(run.startVolume, |p|);
    if cancelAfter.None? {
      assert t == full;
    }
    ProducedOfTrace(run, plan, |plan|);
    CollectPrefix(t, full, ProducedOf);
    forall v | v in ProducedVolumes(t)
      ensures Producible(run, plan, |plan|, v)
    {
      var q := ProducedVolumes(full);
      var pt := ProducedVolumes(t);
      var k :| 0 <= k < |pt| && pt[k] == v;
      assert pt == q[..|pt|];
      assert q[k] == v;
    }
    if cancelAfter.None? {
      forall v | run.startVolume <= v < run.startVolume + |plan|
                 && AnyOk(VolumeImages(plan[v - run.startVolume]), run.pageOk) && run.packagerOk(v)
        ensures v in ProducedVolumes(t)
      {
        assert Producible(run, plan, |plan|, v);
      }
    }
  }

  /** The books of one run get pairwise distinct titles. */
  lemma BookTitlesDistinct(run: RunInputs, plan: Plan, cancelAfter: Option<nat>, i: nat, j: nat)
    requires i < j < |PackedVolumes(RunTrace(run, plan, cancelAfter))|
    ensures VolumeTitle(run.series, PackedVolumes(RunTrace(run, plan, cancelAfter))[i])
         != VolumeTitle(run.series, PackedVolumes(RunTrace(run, plan, cancelAfter))[j])
  {
    PackingOrder(run, plan, cancelAfter);
    var p := PackedVolumes(RunTrace(run, plan, cancelAfter));
    if VolumeTitle(run.series, p[i]) == VolumeTitle(run.series, p[j]) {
      VolumeTitleInjective(run.series, p[i], p[j]);
      assert false;
    }
  }

  /** Cancelling later never undoes work: a run cancelled after `k`
      actions is a prefix of one cancelled later, and of the uncancelled
      run. */
  lemma CancelLaterExtends(run: RunInputs, plan: Plan, k1: nat, k2: nat)
    requires k1 <= k2
    ensures IsPrefix(RunTrace(run, plan, Some(k1)), RunTrace(run, plan, Some(k2)))
    ensures IsPrefix(RunTrace(run, plan, Some(k2)), RunTrace(run, plan, None))
    ensures |RunTrace(run, plan, Some(k1))| == Min(k1, |FullTrace(run, plan)|)
  {
  }
}
