/** `Frame` and its raster conversion (src/blender_camera/models/frame.py):
    clip to [0, 1], scale by 255 and truncate to `uint8`. PNG encoding of
    the resulting byte grid is not part of this model. */
module FrameRaster {
  import opened Entities
  import opened Buffers

  /** `np.clip(v, 0.0, 1.0)` */
  function Clip(v: real): (c: real)
    ensures 0.0 <= c <= 1.0
  {
    if v < 0.0 then 0.0 else if v > 1.0 then 1.0 else v
  }

  /** Clipping twice is clipping once, and in-range values pass unchanged. */
  lemma ClipIdempotent(v: real)
    ensures Clip(Clip(v)) == Clip(v)
    ensures 0.0 <= v <= 1.0 ==> Clip(v) == v
  {
  }

  /** `(np.clip(v, 0, 1) * 255).astype(np.uint8)`: the clipped value scaled
      to [0, 255] and truncated, i.e. the largest integer not above it. */
  function Quantize(v: real): (b: int)
    ensures 0 <= b <= 255
    ensures b as real <= 255.0 * Clip(v) < b as real + 1.0
  {
    (Clip(v) * 255.0).Floor
  }

  /** Everything at or below 0 is black, everything at or above 1 white,
      and an in-range value becomes the integer part of `v * 255`. */
  lemma QuantizeSaturates(v: real)
    ensures v <= 0.0 ==> Quantize(v) == 0
    ensures v >= 1.0 ==> Quantize(v) == 255
    ensures 0.0 <= v <= 1.0 ==> Quantize(v) as real <= v * 255.0 < Quantize(v) as real + 1.0
  {
  }

  /** The truncation table: 0.5 gives 127 (not 128), 0.25 gives 63, 0.8
      gives 204, and the ends clip. */
  lemma QuantizeTable()
    ensures Quantize(0.0) == 0 && Quantize(1.0) == 255
    ensures Quantize(0.5) == 127 && Quantize(0.25) == 63 && Quantize(0.8) == 204
    ensures Quantize(-0.5) == 0 && Quantize(1.5) == 255
  {
  }

  /** A brighter input never gives a darker byte. */
  lemma QuantizeMonotone(v: real, w: real)
    requires v <= w
    ensures Quantize(v) <= Quantize(w)
  {
    assert Clip(v) <= Clip(w);
  }

  /** Each component of a pixel quantised on its own. */
  function QuantizeTriple(t: Triple<real>): Triple<int> {
    Triple(Quantize(t.x), Quantize(t.y), Quantize(t.z))
  }

  /** `_to_8bit_png` on a 2-D grayscale buffer: same shape, each cell
      quantised on its own. */
  function QuantizePlane(p: Plane<real>): (q: Plane<int>)
    ensures SameShape(q, p)
    ensures forall i, j :: 0 <= i < |p| && 0 <= j < |p[i]| ==> q[i][j] == Quantize(p[i][j])
  {
    seq(|p|, i requires 0 <= i < |p| =>
      seq(|p[i]|, j requires 0 <= j < |p[i]| => Quantize(p[i][j])))
  }

  /** `_to_8bit_png` on an `H×W×3` buffer: same shape, each component
      quantised on its own. */
  function QuantizeImage(img: Image3<real>): (q: Image3<int>)
    ensures SameShape(q, img)
    ensures forall i, j :: 0 <= i < |img| && 0 <= j < |img[i]| ==> q[i][j] == QuantizeTriple(img[i][j])
  {
    seq(|img|, i requires 0 <= i < |img| =>
      seq(|img[i]|, j requires 0 <= j < |img[i]| => QuantizeTriple(img[i][j])))
  }

  /** `np.clip` over a plane. */
  function ClipPlane(p: Plane<real>): (c: Plane<real>)
    ensures SameShape(c, p)
    ensures forall i, j :: 0 <= i < |p| && 0 <= j < |p[i]| ==> c[i][j] == Clip(p[i][j])
  {
    seq(|p|, i requires 0 <= i < |p| =>
      seq(|p[i]|, j requires 0 <= j < |p[i]| => Clip(p[i][j])))
  }

  function ClipTriple(t: Triple<real>): Triple<real> {
    Triple(Clip(t.x), Clip(t.y), Clip(t.z))
  }

  /** `np.clip` over an `H×W×3` image. */
  function ClipImage(img: Image3<real>): (c: Image3<real>)
    ensures SameShape(c, img)
    ensures forall i, j :: 0 <= i < |img| && 0 <= j < |img[i]| ==> c[i][j] == ClipTriple(img[i][j])
  {
    seq(|img|, i requires 0 <= i < |img| =>
      seq(|img[i]|, j requires 0 <= j < |img[i]| => ClipTriple(img[i][j])))
  }

  /** `Frame(camera, depth, normal, color)`: the constructor keeps its four
      arguments as they are. */
  datatype Frame = Frame(camera: Entity, depth: Plane<real>, normal: Image3<real>, color: Image3<real>)

  /** `to_depth_png_bytes` (as its byte grid): the extra clip before
      `_to_8bit_png` changes nothing, so the result is the quantised depth. */
  function DepthBytes(f: Frame): (q: Plane<int>)
    ensures q == QuantizePlane(f.depth)
  {
    ClipThenQuantizePlane(f.depth);
    QuantizePlane(ClipPlane(f.depth))
  }

  /** Pre-clipping a plane before quantising it changes nothing. */
  lemma ClipThenQuantizePlane(p: Plane<real>)
    ensures QuantizePlane(ClipPlane(p)) == QuantizePlane(p)
  {
    var q := QuantizePlane(ClipPlane(p));
    forall i, j | 0 <= i < |p| && 0 <= j < |p[i]|
      ensures q[i][j] == QuantizePlane(p)[i][j]
    {
      ClipIdempotent(p[i][j]);
    }
    assert forall i | 0 <= i < |q| :: q[i] == QuantizePlane(p)[i];
  }

  /** Pre-clipping an image before quantising it changes nothing. */
  lemma ClipThenQuantizeImage(img: Image3<real>)
    ensures QuantizeImage(ClipImage(img)) == QuantizeImage(img)
  {
    var q := QuantizeImage(ClipImage(img));
    forall i, j | 0 <= i < |img| && 0 <= j < |img[i]|
      ensures q[i][j] == QuantizeImage(img)[i][j]
    {
      ClipIdempotent(img[i][j].x);
      ClipIdempotent(img[i][j].y);
      ClipIdempotent(img[i][j].z);
    }
    assert forall i | 0 <= i < |q| :: q[i] == QuantizeImage(img)[i];
  }

  /** `to_normal_png_bytes` (as its byte grid): the quantised normals. */
  function NormalBytes(f: Frame): (q: Image3<int>)
    ensures q == QuantizeImage(f.normal)
  {
    ClipThenQuantizeImage(f.normal);
    QuantizeImage(ClipImage(f.normal))
  }

  /** `to_color_png_bytes` (as its byte grid): the quantised colour. */
  function ColorBytes(f: Frame): (q: Image3<int>)
    ensures q == QuantizeImage(f.color)
  {
    ClipThenQuantizeImage(f.color);
    QuantizeImage(ClipImage(f.color))
  }
}
