/** Pasting the resized face into the region of interest of a frame:
    an alpha-masked blend for a 4-channel face, an opaque overwrite for a
    3-channel one, nothing for any other channel count. */
module Compositor {
  import opened Raster
  import opened Placement

  /** One pixel of the face image; `a` is the alpha channel of a 4-channel
      image and is ignored for a 3-channel one. */
  datatype FacePx = FacePx(b: byte, g: byte, r: byte, a: byte)

  /** `face[:, :, :3]`: the colour channels. */
  function Rgb(p: FacePx): Pixel
  {
    Pixel(p.b, p.g, p.r)
  }

  /** `cv2.bitwise_and(src, src, mask=m)` at one pixel: the pixel where the
      mask is non-zero, black where it is zero. */
  function Masked(p: Pixel, m: byte): Pixel
  {
    if m != 0 then p else Black
  }

  /** `cv2.add` on 8-bit channels saturates at 255. */
  function SatAdd(x: byte, y: byte): byte
  {
    if x + y > 255 then 255 else x + y
  }

  function AddPx(p: Pixel, q: Pixel): Pixel
  {
    Pixel(SatAdd(p.b, q.b), SatAdd(p.g, q.g), SatAdd(p.r, q.r))
  }

  /** The 4-channel path at one pixel: the background keeps what the inverted
      alpha mask (`bitwise_not`) lets through, the face keeps what the alpha
      mask lets through, and the two are added with saturation. */
  function AlphaBlend(bg: Pixel, fg: FacePx): Pixel
  {
    AddPx(Masked(bg, 255 - fg.a), Masked(Rgb(fg), fg.a))
  }

  function Min255(n: int): int
  {
    if n < 255 then n else 255
  }

  /** What the mask arithmetic amounts to: a transparent face pixel shows the
      frame, a fully opaque one shows the face colour, and a partially
      transparent one the channel-wise sum of both, capped at 255. */
  lemma AlphaBlendCases(bg: Pixel, fg: FacePx)
    ensures fg.a == 0 ==> AlphaBlend(bg, fg) == bg
    ensures fg.a == 255 ==> AlphaBlend(bg, fg) == Rgb(fg)
    ensures 0 < fg.a < 255 ==>
      AlphaBlend(bg, fg) == Pixel(Min255(bg.b + fg.b), Min255(bg.g + fg.g), Min255(bg.r + fg.r))
  {
  }

  /** `roi` lies inside a frame of `w` columns and `h` rows. */
  predicate RoiInside(roi: Roi, w: nat, h: nat)
  {
    0 <= roi.x1 <= roi.x2 <= w && 0 <= roi.y1 <= roi.y2 <= h
  }

  predicate InRoi(roi: Roi, i: int, j: int)
  {
    roi.y1 <= i < roi.y2 && roi.x1 <= j < roi.x2
  }

  /** The value `frame[y1:y2, x1:x2] = dst` (4 channels) or `= face`
      (3 channels) stores at one pixel of the region. */
  function Pasted(bg: Pixel, p: FacePx, channels: nat): Pixel
  {
    if channels == 4 then AlphaBlend(bg, p) else Rgb(p)
  }

  /** One region pixel under the 4-channel path, in the terms of `AlphaBlendCases`. */
  lemma PastedAlpha(bg: Pixel, p: FacePx)
    ensures p.a == 0 ==> Pasted(bg, p, 4) == bg
    ensures p.a == 255 ==> Pasted(bg, p, 4) == Rgb(p)
    ensures 0 < p.a < 255 ==> Pasted(bg, p, 4) == Pixel(Min255(bg.b + p.b), Min255(bg.g + p.g), Min255(bg.r + p.r))
  {
    AlphaBlendCases(bg, p);
  }

  /** The region of the frame replaced by the pasted face. */
  function Paste(f: seq<seq<Pixel>>, roi: Roi, face: seq<seq<FacePx>>, channels: nat): (o: seq<seq<Pixel>>)
    requires Rectangular(f) && RoiInside(roi, Width(f), |f|)
    requires IsGrid(face, roi.x2 - roi.x1, roi.y2 - roi.y1)
    ensures IsGrid(o, Width(f), |f|)
    ensures forall i, j :: 0 <= i < |f| && 0 <= j < Width(f) ==>
      o[i][j] == if InRoi(roi, i, j) then Pasted(f[i][j], face[i - roi.y1][j - roi.x1], channels) else f[i][j]
  {
    seq(|f|, i requires 0 <= i < |f| =>
      seq(|f[i]|, j requires 0 <= j < |f[i]| =>
        if InRoi(roi, i, j) then Pasted(f[i][j], face[i - roi.y1][j - roi.x1], channels) else f[i][j]))
  }

  /** The compositing branch of `get_frame`, chosen by the face's channel count. */
  function Composite(f: seq<seq<Pixel>>, roi: Roi, face: seq<seq<FacePx>>, channels: nat): (o: seq<seq<Pixel>>)
    requires Rectangular(f) && RoiInside(roi, Width(f), |f|)
    requires IsGrid(face, roi.x2 - roi.x1, roi.y2 - roi.y1)
    ensures IsGrid(o, Width(f), |f|)
    ensures forall i, j :: 0 <= i < |f| && 0 <= j < Width(f) && !InRoi(roi, i, j) ==> o[i][j] == f[i][j]
    ensures channels == 4 ==> forall i, j :: 0 <= i < |f| && 0 <= j < Width(f) && InRoi(roi, i, j) ==>
      var p := face[i - roi.y1][j - roi.x1];
      && (p.a == 0 ==> o[i][j] == f[i][j])
      && (p.a == 255 ==> o[i][j] == Rgb(p))
      && (0 < p.a < 255 ==> o[i][j] == Pixel(Min255(f[i][j].b + p.b), Min255(f[i][j].g + p.g), Min255(f[i][j].r + p.r)))
    ensures channels == 3 ==> forall i, j :: 0 <= i < |f| && 0 <= j < Width(f) && InRoi(roi, i, j) ==>
      o[i][j] == Rgb(face[i - roi.y1][j - roi.x1])
    ensures channels != 3 && channels != 4 ==> o == f
  {
    if channels == 4 || channels == 3 then
      var o := Paste(f, roi, face, channels);
      forall i, j | 0 <= i < |f| && 0 <= j < Width(f) && InRoi(roi, i, j)
      {
        PastedAlpha(f[i][j], face[i - roi.y1][j - roi.x1]);
      }
      o
    else
      f
  }
}
