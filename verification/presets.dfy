/**
 * The enhancement pipeline (`enhance_image_preset`) as the sequence of
 * stages it applies: the optional pre-pass toggles, the stages of the
 * preset chosen by name, the trim-and-pad step, the global contrast and
 * sharpness adjustments and the optional e-ink dither. The pixel work of
 * each stage belongs to OpenCV and PIL; only which stages run, in which
 * order and with which constants is modelled.
 */
module Presets {
  import opened Strings

  /** The branch of the preset dispatch a name selects. */
  datatype Preset = CleanManga | OldManga | JpegArtifacts | SmallText | CropOnly | Unrecognised

  /** One image operation with the constants the program passes to it. */
  datatype Stage =
    | Grayscale
    | AutoContrast
    | Bilateral(diameter: nat, sigmaColor: nat, sigmaSpace: nat)
    | AdaptiveGaussian(blockSize: nat, offset: nat)
    | Clahe(clipLimit: real, tile: nat)
    | Unsharp(radius: real, amount: real)
    | NlMeans(strength: nat, templateWindow: nat, searchWindow: nat)
    | NiBlack(blockSize: nat, k: real)
    | TrimPad(pad: nat)
    | Contrast
    | Sharpness
    | Dither

  /** The check-box toggles and what the OpenCV build offers. */
  datatype Options = Options(
    grayscale: bool,
    autoContrast: bool,
    noiseReduction: bool,
    adaptiveThreshold: bool,
    einkDither: bool,
    hasXimgproc: bool,
    hasNlMeans: bool)

  /** The prefix tests, in order, on an already normalised name; any other
      name applies no preset stage. */
  function Dispatch(p: string): Preset
  {
    if StartsWith(p, "manga limpio") then CleanManga
    else if StartsWith(p, "manga antiguo") then OldManga
    else if StartsWith(p, "escaneo con artefactos") then JpegArtifacts
    else if StartsWith(p, "texto pequeño") then SmallText
    else if StartsWith(p, "sólo recorte") then CropOnly
    else Unrecognised
  }

  /** `p = preset.strip().lower()` followed by the prefix tests. */
  function PresetOf(name: string): Preset
  {
    Dispatch(Lower(Strip(name)))
  }

  /** The toggles applied before the preset, in order. */
  function PrePass(opts: Options): seq<Stage>
  {
    (if opts.grayscale then [Grayscale] else [])
    + (if opts.autoContrast then [AutoContrast] else [])
    + (if opts.noiseReduction then [Bilateral(9, 75, 75)] else [])
    + (if opts.adaptiveThreshold then [AdaptiveGaussian(35, 10)] else [])
  }

  /** The stages of each preset. NL-means falls back to the bilateral
      filter when it is unavailable; the small-text binarisation uses
      Niblack when the contrib module is present and Gaussian adaptive
      thresholding otherwise. */
  function PresetStages(p: Preset, opts: Options): seq<Stage>
  {
    match p
    case CleanManga => [Clahe(2.0, 8), Unsharp(1.0, 0.6)]
    case OldManga => [Clahe(2.6, 8), Unsharp(1.0, 0.5)]
    case JpegArtifacts =>
      [if opts.hasNlMeans then NlMeans(6, 7, 21) else Bilateral(9, 75, 75), Unsharp(1.2, 0.6)]
    case SmallText => [if opts.hasXimgproc then NiBlack(35, 0.2) else AdaptiveGaussian(35, 10)]
    case CropOnly => []
    case Unrecognised => []
  }

  /** The stages run for a given preset. */
  function Stages(p: Preset, opts: Options): seq<Stage>
  {
    PrePass(opts) + PresetStages(p, opts)
      + [TrimPad(16), Contrast, Sharpness]
      + (if opts.einkDither then [Dither] else [])
  }

  /** The full pipeline for a preset name. */
  function Pipeline(name: string, opts: Options): seq<Stage>
  {
    Stages(PresetOf(name), opts)
  }

  // ------------------------------------------------------------- lemmas

  /** Each name offered in the preset menu selects its own branch. */
  lemma MenuNamesSelect()
    ensures PresetOf("Manga limpio (rápido)") == CleanManga
    ensures PresetOf("Manga antiguo / bajo contraste") == OldManga
    ensures PresetOf("Escaneo con artefactos JPEG") == JpegArtifacts
    ensures PresetOf("Texto pequeño B/N (letra clara)") == SmallText
    ensures PresetOf("Sólo recorte y márgenes") == CropOnly
  {
    MenuClean();
    MenuOld();
    MenuJpeg();
    MenuSmallText();
    MenuCropOnly();
  }

  lemma MenuClean()
    ensures PresetOf("Manga limpio (rápido)") == CleanManga
  {
    Selects("Manga limpio (rápido)", "Manga limpio", "manga limpio");
  }

  lemma MenuOld()
    ensures PresetOf("Manga antiguo / bajo contraste") == OldManga
  {
    OldSkips();
    OldSelects();
  }

  lemma OldSkips()
    ensures !StartsWith(Lower(Strip("Manga antiguo / bajo contraste")), "manga limpio")
  {
    Rejects("Manga antiguo / bajo contraste", "manga limpio", 6);
  }

  lemma OldSelects()
    ensures StartsWith(Lower(Strip("Manga antiguo / bajo contraste")), "manga antiguo")
  {
    Selects("Manga antiguo / bajo contraste", "Manga antiguo", "manga antiguo");
  }

  lemma MenuJpeg()
    ensures PresetOf("Escaneo con artefactos JPEG") == JpegArtifacts
  {
    JpegSkips();
    JpegSelects();
  }

  lemma JpegSkips()
    ensures !StartsWith(Lower(Strip("Escaneo con artefactos JPEG")), "manga limpio")
    ensures !StartsWith(Lower(Strip("Escaneo con artefactos JPEG")), "manga antiguo")
  {
    Rejects("Escaneo con artefactos JPEG", "manga limpio", 0);
    Rejects("Escaneo con artefactos JPEG", "manga antiguo", 0);
  }

  lemma JpegSelects()
    ensures StartsWith(Lower(Strip("Escaneo con artefactos JPEG")), "escaneo con artefactos")
  {
    Selects("Escaneo con artefactos JPEG", "Escaneo con artefactos", "escaneo con artefactos");
  }

  lemma MenuSmallText()
    ensures PresetOf("Texto pequeño B/N (letra clara)") == SmallText
  {
    TextSkipsManga();
    TextSkipsJpeg();
    TextSelects();
  }

  lemma TextSkipsManga()
    ensures !StartsWith(Lower(Strip("Texto pequeño B/N (letra clara)")), "manga limpio")
    ensures !StartsWith(Lower(Strip("Texto pequeño B/N (letra clara)")), "manga antiguo")
  {
    Rejects("Texto pequeño B/N (letra clara)", "manga limpio", 0);
    Rejects("Texto pequeño B/N (letra clara)", "manga antiguo", 0);
  }

  lemma TextSkipsJpeg()
    ensures !StartsWith(Lower(Strip("Texto pequeño B/N (letra clara)")), "escaneo con artefactos")
  {
    Rejects("Texto pequeño B/N (letra clara)", "escaneo con artefactos", 0);
  }

  lemma TextSelects()
    ensures StartsWith(Lower(Strip("Texto pequeño B/N (letra clara)")), "texto pequeño")
  {
    Selects("Texto pequeño B/N (letra clara)", "Texto pequeño", "texto pequeño");
  }

  lemma MenuCropOnly()
    ensures PresetOf("Sólo recorte y márgenes") == CropOnly
  {
    CropSkipsManga();
    CropSkipsOthers();
    CropSelects();
  }

  lemma CropSkipsManga()
    ensures !StartsWith(Lower(Strip("Sólo recorte y márgenes")), "manga limpio")
    ensures !StartsWith(Lower(Strip("Sólo recorte y márgenes")), "manga antiguo")
  {
    Rejects("Sólo recorte y márgenes", "manga limpio", 0);
    Rejects("Sólo recorte y márgenes", "manga antiguo", 0);
  }

  lemma CropSkipsOthers()
    ensures !StartsWith(Lower(Strip("Sólo recorte y márgenes")), "escaneo con artefactos")
    ensures !StartsWith(Lower(Strip("Sólo recorte y márgenes")), "texto pequeño")
  {
    Rejects("Sólo recorte y márgenes", "escaneo con artefactos", 0);
    Rejects("Sólo recorte y márgenes", "texto pequeño", 0);
  }

  lemma CropSelects()
    ensures StartsWith(Lower(Strip("Sólo recorte y márgenes")), "sólo recorte")
  {
    Selects("Sólo recorte y márgenes", "Sólo recorte", "sólo recorte");
  }

  /** A name without surrounding whitespace that starts with `q`, where
      `q` lowers to `p`, passes the prefix test for `p`. */
  lemma Selects(name: string, q: string, p: string)
    requires name != [] && !IsSpace(name[0]) && !IsSpace(name[|name| - 1])
    requires StartsWith(name, q) && Lower(q) == p
    ensures StartsWith(Lower(Strip(name)), p)
  {
    StripTrimmed(name);
    LowerSlice(name, 0, |q|);
  }

  /** A name without surrounding whitespace whose `i`-th character lowers
      to something other than `p[i]` fails the prefix test for `p`. */
  lemma Rejects(name: string, p: string, i: nat)
    requires name != [] && !IsSpace(name[0]) && !IsSpace(name[|name| - 1])
    requires i < |p| && i < |name| && LowerChar(name[i]) != p[i]
    ensures !StartsWith(Lower(Strip(name)), p)
  {
    StripTrimmed(name);
  }

  /** The dispatch ignores case and surrounding whitespace. */
  lemma PresetOfNormalised(name: string)
    ensures PresetOf(Lower(name)) == PresetOf(name)
    ensures PresetOf(Strip(name)) == PresetOf(name)
  {
    PresetOfLower(name);
    PresetOfStrip(name);
  }

  lemma PresetOfLower(name: string)
    ensures Lower(Strip(Lower(name))) == Lower(Strip(name))
  {
    StripLowerCommute(name);
    LowerIdempotent(Strip(name));
  }

  lemma PresetOfStrip(name: string)
    ensures Strip(Strip(name)) == Strip(name)
  {
    StripTrimmed(Strip(name));
  }

  /** The pipeline's layout: the pre-pass stages, the preset's stages, the
      trim, contrast and sharpness steps and the optional dither, one after
      another. */
  lemma Layout(pre: seq<Stage>, mid: seq<Stage>, last: seq<Stage>)
    ensures var r := pre + mid + [TrimPad(16), Contrast, Sharpness] + last;
      var k := |pre| + |mid|;
      && |r| == k + 3 + |last|
      && r[..|pre|] == pre
      && r[|pre|..k] == mid
      && r[k] == TrimPad(16) && r[k + 1] == Contrast && r[k + 2] == Sharpness
      && r[k + 3..] == last
  {
    var tail := [TrimPad(16), Contrast, Sharpness];
    var r := pre + mid + tail + last;
    assert r == pre + (mid + tail + last);
    assert r == (pre + mid) + (tail + last);
    assert (pre + mid)[|pre|..] == mid;
    assert r == (pre + mid + tail) + last;
  }

  /** No stage of the sequence is a trim. */
  predicate NoTrim(s: seq<Stage>)
  {
    forall i :: 0 <= i < |s| ==> !s[i].TrimPad?
  }

  /** With no trim before or after it, the trim step is the only one. */
  lemma TrimOnly(pre: seq<Stage>, mid: seq<Stage>, last: seq<Stage>)
    requires NoTrim(pre) && NoTrim(mid) && NoTrim(last)
    ensures var r := pre + mid + [TrimPad(16), Contrast, Sharpness] + last;
      forall i :: 0 <= i < |r| && i != |pre| + |mid| ==> !r[i].TrimPad?
  {
    var tail := [TrimPad(16), Contrast, Sharpness];
    var r := pre + mid + tail + last;
    forall i | 0 <= i < |r| && i != |pre| + |mid|
      ensures !r[i].TrimPad?
    {
      if i < |pre| {
        assert r[i] == pre[i];
      } else if i < |pre| + |mid| {
        assert r[i] == mid[i - |pre|];
      } else if i < |pre| + |mid| + 3 {
        assert r[i] == tail[i - |pre| - |mid|];
      } else {
        assert r[i] == last[i - |pre| - |mid| - 3];
      }
    }
  }

  lemma PrePassNoTrim(opts: Options)
    ensures NoTrim(PrePass(opts))
  {
    var a: seq<Stage> := if opts.grayscale then [Grayscale] else [];
    var b: seq<Stage> := if opts.autoContrast then [AutoContrast] else [];
    var c: seq<Stage> := if opts.noiseReduction then [Bilateral(9, 75, 75)] else [];
    var d: seq<Stage> := if opts.adaptiveThreshold then [AdaptiveGaussian(35, 10)] else [];
    assert NoTrim(a + b) by {
      forall i | 0 <= i < |a + b| ensures !(a + b)[i].TrimPad? {
        if i < |a| { assert (a + b)[i] == a[i]; } else { assert (a + b)[i] == b[i - |a|]; }
      }
    }
    assert NoTrim(a + b + c) by {
      forall i | 0 <= i < |a + b + c| ensures !(a + b + c)[i].TrimPad? {
        if i < |a + b| { assert (a + b + c)[i] == (a + b)[i]; } else { assert (a + b + c)[i] == c[i - |a + b|]; }
      }
    }
    forall i | 0 <= i < |a + b + c + d| ensures !(a + b + c + d)[i].TrimPad? {
      if i < |a + b + c| { assert (a + b + c + d)[i] == (a + b + c)[i]; } else { assert (a + b + c + d)[i] == d[i - |a + b + c|]; }
    }
  }

  /** Whatever the preset and toggles, the pipeline starts with the
      enabled pre-pass stages in their fixed order, then the preset's
      stages, then trims and pads with a 16-pixel margin, adjusts contrast
      and sharpness, and ends with the dither exactly when the e-ink option
      is on. The crop-only preset and unknown names add nothing between
      the pre-pass and the trim. */
  lemma PipelineOrder(p: Preset, opts: Options)
    ensures var r := Stages(p, opts);
      var k := |PrePass(opts)| + |PresetStages(p, opts)|;
      && |r| == k + 3 + (if opts.einkDither then 1 else 0)
      && r[..|PrePass(opts)|] == PrePass(opts)
      && r[|PrePass(opts)|..k] == PresetStages(p, opts)
      && r[k] == TrimPad(16) && r[k + 1] == Contrast && r[k + 2] == Sharpness
      && (opts.einkDither <==> r[|r| - 1] == Dither)
      && (p == CropOnly || p == Unrecognised ==> k == |PrePass(opts)|)
  {
    var last: seq<Stage> := if opts.einkDither then [Dither] else [];
    Layout(PrePass(opts), PresetStages(p, opts), last);
  }

  /** Trim-and-pad runs exactly once: no other stage of any pipeline is a
      trim. */
  lemma TrimOnce(p: Preset, opts: Options)
    ensures var r := Stages(p, opts);
      var k := |PrePass(opts)| + |PresetStages(p, opts)|;
      && k < |r| && r[k].TrimPad?
      && forall i :: 0 <= i < |r| && i != k ==> !r[i].TrimPad?
  {
    var last: seq<Stage> := if opts.einkDither then [Dither] else [];
    PrePassNoTrim(opts);
    assert NoTrim(PresetStages(p, opts));
    Layout(PrePass(opts), PresetStages(p, opts), last);
    TrimOnly(PrePass(opts), PresetStages(p, opts), last);
  }
}
