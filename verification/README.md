# Kindle Manga Optimizer — planning and export core in Dafny

Kindle Manga Optimizer turns a folder of scanned manga into Kindle books.
The program works in four steps:

1. It discovers chapters, either one per subfolder or the folder itself.
2. It orders chapters and pages by a natural-order key that each source
   profile derives from the names.
3. It groups the enabled chapters into volumes.
4. It exports each volume's pages as numbered JPEG files and hands the
   volume folder to an external packager that builds the book.

This project models the integer and list logic behind those steps. It also
models the geometry of the trim-and-pad step and of the preview magnifier,
and which enhancement stages each preset runs.

The modules follow the program's structure:

- `Prelude` holds `Option`, `Min` and `Max`.
- `Strings` models `str.lower` (ASCII and Latin-1), `str.strip` with
  Python's whitespace set, `startswith`, the ordering of `str`, `int()` on
  a run of Unicode decimal digits, and `{n:0Wd}` formatting. `int()` and
  `{n:0Wd}` come with round-trip lemmas; `lower` and `strip` with
  idempotence and commutation lemmas; the order with its laws.
- `Models` holds `Chapter`, `SourceProfile` and the sort key `(0, n)` /
  `(1, lowered name)` as `SortKey = Num | Text`, with its order.
- `Sorting` models `list.sort(key=…)` as an insertion sort. The result is
  ordered by key and is a permutation of the input.
- `Scanner` models `scan_images`. It covers the suffix filter, the per-folder
  page lists, subfolder mode against flat mode, and the dropping of empty
  folders. The directory listing is a value, not a filesystem walk.
- `ChapterList` models `move_chapter` and `toggle_chapter` over the list and
  its list-box selection.
- `Planner` models `build_plan` and `update_plan_view`: chunking the
  enabled chapters, numbering the volumes, and the page totals.
- `Naming` models page file names, volume folder names, book titles and the
  series name.
- `Exporter` models the export loop of `_process_plan_worker`. The run is a
  sequence of page and packager events, and cancellation is a stop index.
  Whether a page was written is an outside outcome of its path, the
  chapter's folder followed by the file name, so same-named pages of
  different chapters are told apart.
- `Geometry` models the canvas of `_auto_trim_and_pad` and the magnifier's
  crop box.
- `Presets` models the stage sequence of `enhance_image_preset`.

## Model

| member | source | states |
|---|---|---|
| Models.KeyFor | main.py:52-70 | The key is numeric exactly when the profile has a pattern, the pattern matches, and the capture parses as an integer. It then carries that integer; otherwise it is the lowered name. |
| Models.NaturalOrder | main.py:52-70 | Numeric keys sort strictly before fallback keys. Numeric keys compare by value and fallback keys by the lowered names' code points. |
| Models.NumericBeatsText | main.py:57 | Captured numbers 2 and 10 order by value, although "chapter 10" sorts before "chapter 2" as text. |
| Models.KeyLeReflexive | main.py:57-60 | The order of keys is reflexive. |
| Models.KeyLeAntisymmetric | main.py:57-60 | Two keys that are each at most the other are equal. |
| Models.KeyLeTransitive | main.py:57-60 | The order of keys is transitive. |
| Models.KeyLeTotal | main.py:57-60 | Any two keys are comparable, so sorting by key is well defined. |
| Strings.LowerChar | main.py:60 | A lowered character is never a capital. Capitals shift by 32 code points and every other character is kept. |
| Strings.Lower | main.py:60 | Lowering keeps the length and lowers each character in place. |
| Strings.LowerIdempotent | main.py:875 | Lowering twice equals lowering once. |
| Strings.Strip | main.py:875 | The result is a slice of the input with only whitespace removed around it. It neither starts nor ends with whitespace. It is empty exactly when the input is all whitespace. |
| Strings.StripTrimmed | main.py:990 | A string without whitespace at either end is its own strip, so stripping is idempotent. |
| Strings.StripLowerCommute | main.py:875 | Stripping then lowering equals lowering then stripping. |
| Strings.SpaceUnderLower | main.py:875 | Lowering neither creates nor removes whitespace. |
| Strings.StrLeReflexive | main.py:60 | Python's order on strings is reflexive. |
| Strings.StrLeAntisymmetric | main.py:60 | Python's order on strings is antisymmetric. |
| Strings.StrLeTransitive | main.py:60 | Python's order on strings is transitive. |
| Strings.StrLeTotal | main.py:60 | Python's order on strings is total. |
| Strings.ParseDigits | main.py:57 | `int()` of a capture gives a value exactly when the capture is a non-empty run of decimal digits of any script (Unicode category Nd, the characters `\d` matches and `str.isdecimal` accepts). |
| Strings.ScriptDigits | main.py:57 | Fullwidth and Arabic-Indic digit captures read as their values (12, 34); a capture holding a colon or a letter gives no value. |
| Strings.DecimalRoundTrip | main.py:57 | Parsing a number's decimal rendering gives the number back. |
| Strings.ZeroPad | main.py:919 | The padded rendering is all digits and has length max(width, digit count). |
| Strings.ZeroPadRoundTrip | main.py:919 | Parsing a zero-padded rendering gives the number back, whatever the width. |
| Strings.ZeroPadInjective | main.py:919 | Distinct numbers have distinct padded renderings. |
| Strings.ZeroPadExactWidth | main.py:919 | A number below 10^width renders in exactly `width` characters. |
| Sorting.Insert | main.py:496 | Inserting into a key-sorted list keeps it sorted and adds exactly the one element. |
| Sorting.SortBy | main.py:493 | The result is ordered by key and is a permutation of the input. |
| Sorting.SortByMembers | main.py:496 | Sorting keeps exactly the same members. |
| Scanner.LastDot | main.py:495 | The index found is a dot, or -1, and no dot follows it. |
| Scanner.FormatShape | main.py:490 | Each accepted extension is a dot followed by at least three non-dot characters. |
| Scanner.ImageNameIffExtension | main.py:495 | The suffix filter accepts a name exactly when the name, lowered, ends in an accepted extension with at least one character before it. This is a reference definition that does not use `Path.suffix`. |
| Scanner.AcceptedFiles | main.py:495 | A name is kept exactly when it is a file entry whose lowered suffix is accepted. |
| Scanner.Subfolders | main.py:492 | An entry is kept exactly when it is a folder. |
| Scanner.ImageList | main.py:495-496 | A folder's pages are its accepted files, sorted by image key, as a permutation. |
| Scanner.ChapterFor | main.py:498 | A subfolder's chapter is enabled and named after the folder. |
| Scanner.ChaptersOfSound | main.py:494-498 | Each chapter is the chapter of one of the given folders: named after it, with its sorted pages. |
| Scanner.ChaptersOfComplete | main.py:494-498 | Each folder with at least one accepted page yields its chapter. |
| Scanner.ChaptersOfSorted | main.py:493-498 | Chapters from key-sorted folders are in chapter-key order. |
| Scanner.SortedSubfolders | main.py:492-493 | The result holds exactly the root's folders, in chapter-key order. |
| Scanner.Scan | main.py:485-503 | With no folder selected there are no chapters. Every chapter is enabled and has at least one page. |
| Scanner.ImageListEmpty | main.py:497 | A folder has pages exactly when it has an accepted file. |
| Scanner.ScanPagesAccepted | main.py:495-503 | Every page of every chapter is an accepted image name, and a chapter's pages are in image-key order. |
| Scanner.ScanSubfolders | main.py:491-498 | In subfolder mode, chapters are in chapter-key order. Each chapter is a subfolder of the root whose pages are exactly its accepted files. Each subfolder with an accepted file yields a chapter. |
| Scanner.ScanFlat | main.py:499-503 | In flat mode there is a chapter exactly when the root has an accepted file. It is the only chapter, it is named after the root, and its pages are the root's accepted files. |
| ChapterList.SwapPermutes | main.py:525 | Exchanging two rows is a permutation. |
| ChapterList.MoveChapter | main.py:518-528 | With no selection, or with a target outside the list, nothing changes. Otherwise the two rows are exchanged, the selection follows the moved chapter, and every other row stays put. The list is always a permutation of the old one. |
| ChapterList.MoveBackRestores | main.py:518-528 | Moving by `delta` and back by `-delta` restores the list and the selection. |
| ChapterList.ToggleChapter | main.py:530-538 | Only the selected chapter's `enabled` flips. Its name, folder and pages, the other chapters, the order and the selection are unchanged. With no selection nothing changes. |
| ChapterList.ToggleTwice | main.py:535 | Toggling twice restores the list. |
| ChapterList.EnabledCountAfterEdits | main.py:518-538 | Moving keeps the number of chapters the planner takes (the length of `Planner.Enabled`). Toggling changes it by one, in the direction of the flip. |
| ChapterList.EnabledCountUpdate | main.py:535 | Replacing one row changes the number of chapters the planner takes by the difference of the two rows' flags. |
| Planner.Enabled | main.py:934 | The filter keeps exactly the enabled chapters. |
| Planner.EnabledSingleton | main.py:934 | A single chapter is kept exactly when it is enabled. |
| Planner.EnabledAppend | main.py:934 | Filtering distributes over concatenation, so the enabled chapters keep their list order and multiplicity. |
| Planner.Chunk | main.py:936 | Laid end to end the groups give back the list. Groups are non-empty and at most `g` long, all but the last are full, and there are ceil(n/g) of them. |
| Planner.ChunkIndex | main.py:936 | Element `q*g + m` of the list is element `m` of group `q`. |
| Planner.GroupStartIsProduct | main.py:936 | Group `q` starts at `q*g`. |
| Planner.BuildPlan | main.py:933-936 | The plan partitions the enabled chapters in list order. Volumes are non-empty and at most `max(1, g)` long, only the last may be shorter, and there are ceil(n/g) of them. |
| Planner.BuildPlanEmpty | main.py:934-936 | The plan is empty exactly when no chapter is enabled. |
| Planner.BuildPlanPlacement | main.py:936 | Enabled chapter `q*g + m` is chapter `m` of volume `q`. |
| Planner.PagesAppend | main.py:943 | The page count of a concatenation is the sum of the parts' page counts. |
| Planner.PagesFlatten | main.py:943 | The pages of all chapters of all volumes equal the sum of the volumes' page counts. |
| Planner.EnabledPagesBound | main.py:934 | The enabled chapters hold no more pages than the whole list, and the same number when all are enabled. |
| Planner.RowPagesOfPlan | main.py:948 | Rows carrying each volume's page count add up to the plan's per-volume sum. |
| Planner.PlanRows | main.py:946-952 | Row `i` shows volume `start + i` with its chapters and page count, so the numbers are contiguous. The rows' page counts add up to the pages of all the plan's chapters. |
| Planner.ViewPlan | main.py:938-953 | The view has one row per volume, numbered from `max(1, start)`. The volume total is the number of rows. The page total equals both the sum over the rows and the pages of the enabled chapters. |
| Naming.PageFileName | main.py:919 | A page file name ends in `.jpg`, and its stem reads back as the counter. |
| Naming.PageFileNameInjective | main.py:919 | Two counters never share a page file name. |
| Naming.PageFileNameWidth | main.py:919 | Below 100000 a page file name has exactly nine characters. |
| Naming.VolumeDirName | main.py:1004 | The work folder name is `vol_` followed by digits that read back as the volume number. |
| Naming.VolumeTitleReadBack | main.py:1025 | A title is the series, then ` - v`, then digits that read back as the volume number. |
| Naming.VolumeTitleInjective | main.py:1025 | Within one series, distinct volume numbers give distinct titles. |
| Naming.SeriesName | main.py:990 | A title with a non-space character gives its strip, which has no whitespace at either end. A blank title gives the folder's name. |
| Naming.SeriesNameStable | main.py:990 | A series name typed back in as the title gives the same series name. |
| Exporter.PageEvents | main.py:1011-1016 | Each image of a volume yields exactly one page attempt. |
| Exporter.PageEventsAt | main.py:1011-1016 | Attempt `i` of a volume is for its `i`-th image path (chapter folder and file name), carries page number `i+1`, and records whether that image was written. |
| Exporter.ExportChapter | main.py:1011-1019 | The loop over a chapter's images attempts a prefix of them. The counter advances once per attempt, whether or not the page was written. It stops early only on the cancel flag. |
| Exporter.ExportVolume | main.py:1008-1019 | A volume's attempts are a prefix of its images across its chapters, numbered from 1. The result says whether any page was written. The loop stops early only on the cancel flag. |
| Exporter.ExportOneVolume | main.py:998-1031 | One turn of the volume loop either stops with the cancelled reference run, or extends the run by this volume's pages and its packager call. The call produces a book only when the packager succeeds. |
| Exporter.ExportPlan | main.py:997-1032 | The events of the run are exactly the uncancelled run cut at the cancellation point. The created-books counter counts the packager calls that produced a book. |
| Exporter.StopIsRunTrace | main.py:999-1023 | Where the loop stops on the cancel flag, what it did is the reference run cut at the budget. |
| Exporter.PackStep | main.py:1021-1028 | Once every image of a volume is attempted, its packager call completes that volume's reference actions. |
| Exporter.Worker | main.py:969-1034 | With no folder selected, or no enabled chapter, nothing is exported. Otherwise the plan is exported with the stripped-or-folder series name and `max(1, start)` as the first volume. |
| Exporter.VolumeImagesCount | main.py:1008 | A volume's processing list holds as many images as its chapters have pages. |
| Exporter.SeqsOfTrace | main.py:1010-1016 | In the uncancelled run, the page numbers of volume `v` are 1..k, where k is its image count. A number outside the plan gets no pages. |
| Exporter.PackedOfTrace | main.py:998-1026 | The uncancelled run calls the packager for `start, start+1, …`, once per volume, in order. |
| Exporter.ProducedOfTrace | main.py:1026-1028 | Among the uncancelled actions of the first `n` volumes, a book is produced for a volume exactly when it is one of those volumes, one of its pages was written, and its packager call succeeded. |
| Exporter.PageNumbersPerVolume | main.py:1010-1016 | In every run, cancelled or not, volume `v`'s pages are numbered 1..k with no gap or repeat. k is at most the volume's page count, and equals it without cancellation. A number outside the plan gets no pages. |
| Exporter.PageNamesDistinct | main.py:1015 | No two pages of one volume share a file name. |
| Exporter.PackingOrder | main.py:998-1028 | Packager calls cover volumes `start, start+1, …` in order, each once, and every volume when not cancelled. Each produced book had a written page and a successful packager call. Without cancellation, every volume with a written page and a successful packager call gets its book. |
| Exporter.BookTitlesDistinct | main.py:1025 | The books of one run get pairwise distinct titles. |
| Exporter.CancelLaterExtends | main.py:999-1023 | A run cancelled after `k1` actions is a prefix of one cancelled after `k2 >= k1`, and of the uncancelled run. It has `min(k1, total)` actions. |
| Geometry.SliceBounds | main.py:839 | numpy slice bounds are clamped to the axis and in order. In-range bounds are kept, and a start past the end gives nothing. |
| Geometry.Crop | main.py:839-840 | The crop is well formed. It has the rectangle's size when the rectangle fits, and is never larger. |
| Geometry.CropPixel | main.py:839 | Crop pixel `(i, j)` is image pixel `(top+i, left+j)`. |
| Geometry.Pad | main.py:841-842 | The canvas is `2*pad` larger than the image in each dimension. |
| Geometry.PadPixel | main.py:841-842 | The image sits at `(pad, pad)` and every other canvas pixel is white. |
| Geometry.PadCropRoundTrip | main.py:841-842 | Cropping the canvas at `(pad, pad)` with the image's size gives the image back. |
| Geometry.TrimAndPad | main.py:832-843 | With no contours the image is returned unchanged. Otherwise the result is the crop's size plus `2*pad`, which is `(h+2*pad) x (w+2*pad)` when the rectangle fits. |
| Geometry.TrimAndPadPixel | main.py:838-842 | Each output pixel is either the corresponding ink pixel shifted by `(pad, pad)` or white. |
| Geometry.TrimAndPadInterior | main.py:842 | The interior block at `(pad, pad)` is exactly the cropped ink rectangle. |
| Geometry.TrimAndPadBorder | main.py:841 | Every pixel in the first or last `pad` rows or columns is white. |
| Geometry.ClampAxis | main.py:707-718 | For a cursor inside the axis, the window lies inside the axis and contains the cursor. Its width is exactly the crop size when the axis is at least that long, and it is the whole axis otherwise. Away from the edges it starts half a window before the cursor. |
| Geometry.MagnifierBox | main.py:695-718 | There is a box exactly when the cursor is on the image. The box is inside the image and contains the cursor. It is `max(8, crop)` wide and tall wherever the image is that large. |
| Presets.MenuNamesSelect | main.py:292-298 | Each of the five menu names selects its own preset branch. |
| Presets.PresetOfNormalised | main.py:875 | The dispatch ignores case and surrounding whitespace. |
| Presets.PipelineOrder | main.py:849-903 | The stages run in this order: the enabled pre-pass toggles in their fixed order, then the preset's stages, then trim-and-pad with a 16-pixel margin, then contrast and sharpness. The dither comes last exactly when the e-ink option is on. Crop-only and unknown names add no preset stage. |
| Presets.TrimOnce | main.py:895 | Every pipeline trims and pads exactly once. |

## Left out

- Pixel work is left out: grayscale, autocontrast, bilateral, CLAHE, unsharp mask, NL-means, Niblack and adaptive thresholds, Otsu and `findContours`, `ImageEnhance`, the Floyd–Steinberg dither, the LANCZOS resize and JPEG encoding. These are OpenCV and PIL calls on floating-point data. The trim step takes the ink's bounding rectangle as an input, and `Presets` records only which stages run, in which order, with which constants.
- The `try/except` around the pre-pass stages is left out. The model assumes they succeed.
- The regex engine is left out. Each profile pattern is an abstract `Matcher` that returns the first capture, if any.
- Strings.ParseDigits: follows the Unicode 15.0 table of decimal digits. `int()` also accepts surrounding whitespace, a sign and underscores between digits, which a `\d+` capture never contains, so those forms are not modelled.
- Strings.Lower, Strings.LowerChar: model `str.lower` for ASCII and Latin-1 capitals only; Greek, Cyrillic and other capitals keep their case. Case mappings beyond U+00FF are not modelled.
- Sorting.SortBy: the insertion sort keeps ties in input order, but stability, which Python guarantees, is not stated as a property.
- `Path.suffix` is modelled with the rules of CPython up to 3.12: the last dot, provided it is neither the first nor the last character.
- The filesystem is left out: `iterdir`, `is_dir`/`is_file`, `rmtree` and `mkdir`. The directory listing is an input value, and a volume's work folder is taken to start empty, as after `rmtree` and `mkdir`.
- The Tk interface is left out, along with the progress bars, the log messages, pan/zoom/fit scaling and preview compositing.
- The magnifier's float arithmetic is left out. `px = rx / s`, `crop_w = int(L / (s * Z))` and the `int(px)` truncation are not modelled: the cursor position and the raw crop size are integer inputs.
- Threading, `ui_queue`, the worker lifecycle and the timing of `cancel_event` are left out. Cancellation is a stop index counted in actions. The flag is checked before every page and every packager call, and the checks after a chapter and after a volume's pages see no new action.
- The packager is left out: KCC and kindlegen discovery, the subprocess call, MOBI detection by modification time, and the timestamp rename on collision. Its outcome is an oracle `packagerOk(vnum)`, consulted only when the volume folder holds a written page, which reproduces the `*.jpg` glob check.
- The packager event records the volume number, not the title string. The title is `VolumeTitle(series, vnum)`, stated through `Naming.VolumeTitleReadBack` and `Exporter.BookTitlesDistinct`.
- The `"Manga"` fallback of the series name is not modelled. The worker returns earlier without a selected folder, so that branch cannot run.
