/**
 * The integer geometry of the image pipeline: the trim-and-pad canvas
 * (`_auto_trim_and_pad`) given the bounding rectangle of the page's ink,
 * and the magnifier's crop window (`_on_mouse_move`).
 */
module Geometry {
  import opened Prelude

  /** One `uint8` channel. */
  newtype byte = x: int | 0 <= x < 256

  /** A BGR pixel of an OpenCV image. */
  datatype Pixel = Pixel(b: byte, g: byte, r: byte)

  /** The fill value 255 in all three channels. */
  const White: Pixel := Pixel(255, 255, 255)

  /** An `height × width × 3` array, row by row. */
  datatype Image = Image(height: nat, width: nat, rows: seq<seq<Pixel>>)
  {
    predicate WellFormed()
    {
      |rows| == height && forall i :: 0 <= i < |rows| ==> |rows[i]| == width
    }
  }

  /** `cv2.boundingRect`: left, top, width, height. */
  datatype Rect = Rect(x: nat, y: nat, w: nat, h: nat)

  /** `n` copies of `x`. */
  function Repeat<T>(x: T, n: nat): (r: seq<T>)
    ensures |r| == n && forall k :: 0 <= k < n ==> r[k] == x
  {
    seq(n, k requires 0 <= k < n => x)
  }

  // ------------------------------------------------------------- slicing

  /** numpy's `a[lo:hi]` along an axis of length `n` with non-negative
      bounds keeps positions `start <= k < stop`: the bounds are cut back
      to the axis, and a stop before the start gives nothing. */
  function SliceBounds(lo: nat, hi: nat, n: nat): (r: (nat, nat))
    ensures r.0 <= r.1 <= n
    ensures lo <= hi <= n ==> r == (lo, hi)
    ensures lo >= n ==> r.0 == r.1
    ensures r.1 - r.0 <= Max(0, hi - lo)
  {
    var start := Min(lo, n);
    var stop := Max(start, Min(hi, n));
    (start, stop)
  }

  /** `img[y:y+h, x:x+w]`. */
  function Crop(img: Image, rect: Rect): (r: Image)
    requires img.WellFormed()
    ensures r.WellFormed()
    ensures rect.y + rect.h <= img.height ==> r.height == rect.h
    ensures rect.x + rect.w <= img.width ==> r.width == rect.w
    ensures r.height <= rect.h && r.width <= rect.w
  {
    var (r0, r1) := SliceBounds(rect.y, rect.y + rect.h, img.height);
    var (c0, c1) := SliceBounds(rect.x, rect.x + rect.w, img.width);
    Image(r1 - r0, c1 - c0, seq(r1 - r0, i requires 0 <= i < r1 - r0 => img.rows[r0 + i][c0..c1]))
  }

  /** Pixel `(i, j)` of a crop is pixel `(top + i, left + j)` of the image,
      where `top` and `left` are the clamped starts. */
  lemma CropPixel(img: Image, rect: Rect, i: nat, j: nat)
    requires img.WellFormed()
    requires i < Crop(img, rect).height && j < Crop(img, rect).width
    ensures SliceBounds(rect.y, rect.y + rect.h, img.height).0 + i < img.height
    ensures SliceBounds(rect.x, rect.x + rect.w, img.width).0 + j < img.width
    ensures Crop(img, rect).rows[i][j]
         == img.rows[SliceBounds(rect.y, rect.y + rect.h, img.height).0 + i]
                    [SliceBounds(rect.x, rect.x + rect.w, img.width).0 + j]
  {
  }

  // ------------------------------------------------------------- padding

  /** The image on a white canvas `pad` pixels larger on every side: `pad`
      white rows, each image row between `pad` white pixels on the left
      and right, and `pad` white rows again. */
  function Pad(img: Image, pad: nat): (r: Image)
    requires img.WellFormed()
    ensures r.WellFormed()
    ensures r.height == img.height + 2 * pad
    ensures r.width == img.width + 2 * pad
  {
    var w := img.width + 2 * pad;
    var side := Repeat(White, pad);
    var band := Repeat(Repeat(White, w), pad);
    var middle := seq(img.height, i requires 0 <= i < img.height => side + img.rows[i] + side);
    Image(img.height + 2 * pad, w, band + middle + band)
  }

  /** The canvas layout: the image sits at offset `(pad, pad)` and every
      other pixel is white. */
  lemma PadPixel(img: Image, pad: nat, i: nat, j: nat)
    requires img.WellFormed()
    requires i < img.height + 2 * pad && j < img.width + 2 * pad
    ensures Pad(img, pad).rows[i][j]
         == if pad <= i < pad + img.height && pad <= j < pad + img.width
            then img.rows[i - pad][j - pad] else White
  {
    var w := img.width + 2 * pad;
    var side := Repeat(White, pad);
    var band := Repeat(Repeat(White, w), pad);
    var middle := seq(img.height, k requires 0 <= k < img.height => side + img.rows[k] + side);
    var all := band + middle + band;
    assert Pad(img, pad).rows == all;
    if i < pad {
      assert all[i] == band[i];
    } else if i < pad + img.height {
      assert all[i] == middle[i - pad];
      var row := side + img.rows[i - pad] + side;
      if j < pad {
        assert row[j] == side[j];
      } else if j < pad + img.width {
        assert row[j] == img.rows[i - pad][j - pad];
      } else {
        assert row[j] == side[j - pad - img.width];
      }
    } else {
      assert all[i] == band[i - pad - img.height];
    }
  }

  /** Cropping the padded canvas at `(pad, pad)` with the image's size
      gives the image back. */
  lemma PadCropRoundTrip(img: Image, pad: nat)
    requires img.WellFormed()
    ensures Crop(Pad(img, pad), Rect(pad, pad, img.width, img.height)) == img
  {
    var p := Pad(img, pad);
    var c := Crop(p, Rect(pad, pad, img.width, img.height));
    forall i | 0 <= i < img.height
      ensures c.rows[i] == img.rows[i]
    {
      forall j | 0 <= j < img.width
        ensures c.rows[i][j] == img.rows[i][j]
      {
        CropPixel(p, Rect(pad, pad, img.width, img.height), i, j);
        PadPixel(img, pad, pad + i, pad + j);
      }
    }
  }

  // -------------------------------------------------------- trim and pad

  /** `_auto_trim_and_pad`: with no ink found the image comes back
      unchanged; otherwise the ink's bounding rectangle is cut out and
      placed on a white canvas `pad` pixels larger on every side. The
      bounding rectangle stands for Otsu thresholding and contour search. */
  function TrimAndPad(img: Image, bound: Option<Rect>, pad: nat): (r: Image)
    requires img.WellFormed()
    ensures r.WellFormed()
    ensures bound.None? ==> r == img
    ensures bound.Some? ==>
      && r.height == Crop(img, bound.value).height + 2 * pad
      && r.width == Crop(img, bound.value).width + 2 * pad
    ensures bound.Some? && bound.value.y + bound.value.h <= img.height
                        && bound.value.x + bound.value.w <= img.width ==>
      r.height == bound.value.h + 2 * pad && r.width == bound.value.w + 2 * pad
  {
    match bound
    case None => img
    case Some(rect) => Pad(Crop(img, rect), pad)
  }

  /** Every pixel of the result is either the corresponding pixel of the
      ink rectangle, shifted by `(pad, pad)`, or white. */
  lemma TrimAndPadPixel(img: Image, rect: Rect, pad: nat, i: nat, j: nat)
    requires img.WellFormed()
    requires i < TrimAndPad(img, Some(rect), pad).height && j < TrimAndPad(img, Some(rect), pad).width
    ensures var c := Crop(img, rect);
      TrimAndPad(img, Some(rect), pad).rows[i][j]
        == if pad <= i < pad + c.height && pad <= j < pad + c.width
           then img.rows[SliceBounds(rect.y, rect.y + rect.h, img.height).0 + (i - pad)]
                        [SliceBounds(rect.x, rect.x + rect.w, img.width).0 + (j - pad)]
           else White
  {
    var c := Crop(img, rect);
    PadPixel(c, pad, i, j);
    if pad <= i < pad + c.height && pad <= j < pad + c.width {
      CropPixel(img, rect, i - pad, j - pad);
    }
  }

  /** The interior block at `(pad, pad)` is exactly the ink rectangle. */
  lemma TrimAndPadInterior(img: Image, rect: Rect, pad: nat)
    requires img.WellFormed()
    ensures Crop(TrimAndPad(img, Some(rect), pad),
                 Rect(pad, pad, Crop(img, rect).width, Crop(img, rect).height))
         == Crop(img, rect)
  {
    PadCropRoundTrip(Crop(img, rect), pad);
  }

  /** The border: every pixel in the first or last `pad` rows or columns
      is white. */
  lemma TrimAndPadBorder(img: Image, rect: Rect, pad: nat, i: nat, j: nat)
    requires img.WellFormed()
    requires i < TrimAndPad(img, Some(rect), pad).height && j < TrimAndPad(img, Some(rect), pad).width
    requires i < pad || j < pad
          || i >= TrimAndPad(img, Some(rect), pad).height - pad
          || j >= TrimAndPad(img, Some(rect), pad).width - pad
    ensures TrimAndPad(img, Some(rect), pad).rows[i][j] == White
  {
    PadPixel(Crop(img, rect), pad, i, j);
  }

  // ----------------------------------------------------------- magnifier

  /** One axis of the magnifier's crop window around the cursor position
      `c`: start half a window before the cursor but not before 0, end a
      window later but not past the image, and when the end was cut back,
      move the start back so the window keeps its size where it can. For a
      cursor inside the image the window lies inside the image and contains
      the cursor; it has exactly the requested size when the image is at
      least that large, and covers the whole axis otherwise. Away from the
      edges it is centred on the cursor. */
  function ClampAxis(c: int, size: int, extent: int): (r: (int, int))
    ensures 0 <= c < extent && size >= 1 ==>
      && 0 <= r.0 <= c < r.1 <= extent
      && (extent >= size ==> r.1 - r.0 == size)
      && (extent < size ==> r.0 == 0 && r.1 == extent)
      && (size / 2 <= c && c - size / 2 + size <= extent ==> r.0 == c - size / 2)
  {
    var lo := Max(0, c - size / 2);
    var hi := Min(extent, lo + size);
    if hi - lo < size then (Max(0, hi - size), hi) else (lo, hi)
  }

  /** The magnifier's crop box `(x1, y1, x2, y2)`. */
  datatype Box = Box(x1: int, y1: int, x2: int, y2: int)

  /** The cursor position in image pixels is `(cx, cy)`; there is a box
      exactly when the cursor is on the image. The box lies inside the
      image and contains the cursor, and it is the square of side
      `max(8, rawCrop)` whenever the image is at least that large in both
      directions. */
  function MagnifierBox(cx: int, cy: int, iw: int, ih: int, rawCrop: int): (r: Option<Box>)
    ensures r.Some? <==> 0 <= cx < iw && 0 <= cy < ih
    ensures r.Some? ==>
      && 0 <= r.value.x1 <= cx < r.value.x2 <= iw
      && 0 <= r.value.y1 <= cy < r.value.y2 <= ih
      && (iw >= Max(8, rawCrop) ==> r.value.x2 - r.value.x1 == Max(8, rawCrop))
      && (ih >= Max(8, rawCrop) ==> r.value.y2 - r.value.y1 == Max(8, rawCrop))
  {
    if cx < 0 || cy < 0 || cx >= iw || cy >= ih then None
    else
      var crop := Max(8, rawCrop);
      var (x1, x2) := ClampAxis(cx, crop, iw);
      var (y1, y2) := ClampAxis(cy, crop, ih);
      Some(Box(x1, y1, x2, y2))
  }
}
