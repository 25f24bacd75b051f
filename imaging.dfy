/** The image collaborators of the calibration routine: sciimg's `Image` (a stack of
    equally sized bands) and its `crop`, `set_band` and band `multiply`; the `MarsImage`
    wrapper with its metadata; the decompanding lookup table; and the pixel arithmetic
    whose code is not part of this model, given as function parameters. */
module Imaging {
  import opened Wrappers
  import opened Enums

  /** One band: width × height working-precision samples, row by row. */
  type Band = seq<real>

  /** The value of an image: its size and its bands. */
  datatype Raster = Raster(width: nat, height: nat, bands: seq<Band>)
  {
    /** Every band holds one sample per pixel. */
    predicate WellFormed()
    {
      forall k :: 0 <= k < |bands| ==> |bands[k]| == width * height
    }

    /** `Image::is_empty`: an image without bands, as `Image::new_empty` makes. */
    predicate IsEmpty()
    {
      |bands| == 0
    }

    /** `Image::is_grayscale`: a single band (before debayering, still mosaiced). */
    predicate IsGrayscale()
    {
      |bands| == 1
    }
  }

  /** `Image::new_empty()`. */
  function EmptyRaster(): (r: Raster)
    ensures r.IsEmpty() && r.WellFormed()
  {
    Raster(0, 0, [])
  }

  /** A pixel inside a width × height image has a row-major index inside the buffer. */
  lemma PixelIndexInRange(width: nat, height: nat, col: nat, row: nat)
    requires col < width && row < height
    ensures row * width + col < width * height
  {
    assert row * width + col < (row + 1) * width;
    assert (row + 1) * width <= height * width;
  }

  /** A row-major index splits into a row below `h` and a column below `w`. */
  lemma RowMajorSplit(k: nat, w: nat, h: nat)
    requires k < w * h
    ensures w > 0 && k / w < h && k % w < w && k == (k / w) * w + k % w
  {
  }

  /** The row and the column of the row-major index of a pixel. */
  lemma RowMajorIndex(row: nat, col: nat, w: nat)
    requires col < w
    ensures (row * w + col) / w == row && (row * w + col) % w == col
  {
    DivModUnique(row * w + col, w, row, col);
  }

  /** Euclidean division has one quotient and one remainder. */
  lemma DivModUnique(k: int, w: int, q: int, r: int)
    requires w > 0 && 0 <= r < w && k == q * w + r
    ensures k / w == q && k % w == r
  {
    var q0, r0 := k / w, k % w;
    assert k == q0 * w + r0;
    assert (q - q0) * w == r0 - r;
    if q - q0 >= 1 {
      MulAtLeast(q - q0, w);
    } else if q0 - q >= 1 {
      MulAtLeast(q0 - q, w);
    }
  }

  /** A positive multiple of w is at least w. */
  lemma MulAtLeast(a: int, w: int)
    requires a >= 1 && w > 0
    ensures a * w >= w
  {
  }

  /** The sample at column `col` and row `row` of a band. */
  function At(b: Band, width: nat, height: nat, col: nat, row: nat): real
    requires |b| == width * height && col < width && row < height
  {
    PixelIndexInRange(width, height, col, row);
    b[row * width + col]
  }

  /** The w × h window of a band whose top-left corner is at (x, y). */
  function CropBand(b: Band, width: nat, height: nat, x: nat, y: nat, w: nat, h: nat): (r: Band)
    requires |b| == width * height && x + w <= width && y + h <= height
    ensures |r| == w * h
    ensures forall col, row :: 0 <= col < w && 0 <= row < h ==>
              At(r, w, h, col, row) == At(b, width, height, x + col, y + row)
  {
    var r := seq(w * h, k requires 0 <= k < w * h =>
                 RowMajorSplit(k, w, h);
                 PixelIndexInRange(width, height, x + k % w, y + k / w);
                 b[(y + k / w) * width + (x + k % w)]);
    forall col, row | 0 <= col < w && 0 <= row < h
      ensures At(r, w, h, col, row) == At(b, width, height, x + col, y + row)
    {
      PixelIndexInRange(w, h, col, row);
      RowMajorIndex(row, col, w);
    }
    r
  }

  /** A rectangle of an image: origin (x, y), size width × height. */
  datatype Window = Window(x: nat, y: nat, width: nat, height: nat)

  /** `Image::crop`: every band cut to the window, the image taking the window's size.
      Cutting a band to a window that does not lie inside it panics (None); an image
      without bands has nothing to cut. */
  function Cropped(img: Raster, win: Window): (r: Option<Raster>)
    requires img.WellFormed()
    ensures r.None? <==> !img.IsEmpty() && (win.x + win.width > img.width || win.y + win.height > img.height)
    ensures r.Some? ==> r.value.WellFormed() && r.value.width == win.width && r.value.height == win.height
    ensures r.Some? ==> |r.value.bands| == |img.bands|
    ensures r.Some? ==> forall k :: 0 <= k < |img.bands| ==>
              r.value.bands[k] == CropBand(img.bands[k], img.width, img.height, win.x, win.y, win.width, win.height)
  {
    if img.IsEmpty() then Some(Raster(win.width, win.height, []))
    else if win.x + win.width > img.width || win.y + win.height > img.height then None
    else
      Some(Raster(win.width, win.height,
                  seq(|img.bands|, k requires 0 <= k < |img.bands| =>
                      CropBand(img.bands[k], img.width, img.height, win.x, win.y, win.width, win.height))))
  }

  /** Cropping to the whole image changes nothing. */
  lemma CropWholeImage(img: Raster)
    requires img.WellFormed()
    ensures Cropped(img, Window(0, 0, img.width, img.height)) == Some(img)
  {
    var r := Cropped(img, Window(0, 0, img.width, img.height)).value;
    forall k | 0 <= k < |img.bands| ensures r.bands[k] == img.bands[k] {
      var b := img.bands[k];
      var c := r.bands[k];
      forall p | 0 <= p < |b| ensures c[p] == b[p] {
        RowMajorSplit(p, img.width, img.height);
        var row, col := p / img.width, p % img.width;
        assert row * img.width + col == p;
        assert At(c, img.width, img.height, col, row) == At(b, img.width, img.height, col, row);
      }
      assert |c| == |b|;
    }
    assert r.bands == img.bands;
  }

  /** `ImageBuffer::multiply` of two buffers of one size: the product, sample by sample. */
  function Multiply(a: Band, b: Band): (r: Band)
    requires |a| == |b|
    ensures |r| == |a| && forall p :: 0 <= p < |a| ==> r[p] == a[p] * b[p]
  {
    seq(|a|, p requires 0 <= p < |a| => a[p] * b[p])
  }

  /** A decompanding lookup table (an inverse LUT): linear value per companded value. */
  datatype Lut = Lut(table: seq<nat>)

  /** `Lut::max`: the largest linear value of the table (0 for an empty table). */
  function LutMax(lut: Lut): (r: nat)
    ensures forall i :: 0 <= i < |lut.table| ==> lut.table[i] <= r
    ensures lut.table != [] ==> r in lut.table
    decreases |lut.table|
  {
    if lut.table == [] then 0
    else
      var rest := LutMax(Lut(lut.table[1..]));
      assert lut.table[1..] != [] ==> rest in lut.table;
      if lut.table[0] >= rest then lut.table[0] else rest
  }

  /** Two stacks of bands with the same number of bands, band by band of the same length. */
  predicate SameShape(a: seq<Band>, b: seq<Band>)
  {
    |a| == |b| && forall k :: 0 <= k < |a| ==> |a[k]| == |b[k]|
  }

  /** The pixel arithmetic of the routine, whose code is not part of this model:
      `MarsImage::decompand`, `MarsImage::debayer_with_method`, `MarsImage::apply_flat`,
      `MarsImage::apply_weight`, `Image::normalize_to_16bit_decorrelated` and
      `Image::normalize_to_16bit_with_max`, each as a function of the bands it rewrites. */
  datatype PixelOps = PixelOps(
    decompand: (seq<Band>, Lut) -> seq<Band>,
    debayer: (Raster, DebayerMethod) -> seq<Band>,
    applyFlat: (seq<Band>, Raster) -> seq<Band>,
    applyWeight: (seq<Band>, real, real, real) -> seq<Band>,
    normalizeDecorrelated: seq<Band> -> seq<Band>,
    normalizeWithMax: (seq<Band>, real) -> seq<Band>)
  {
    /** What the routine relies on: every operation keeps the size of the image and the
        shape of its bands, except debayering, which makes three full-size bands. */
    ghost predicate ShapePreserving()
    {
      && (forall bs, lut :: SameShape(decompand(bs, lut), bs))
      && (forall img: Raster, m :: |debayer(img, m)| == 3 &&
            forall k :: 0 <= k < 3 ==> |debayer(img, m)[k]| == img.width * img.height)
      && (forall bs, flat :: SameShape(applyFlat(bs, flat), bs))
      && (forall bs, r, g, b :: SameShape(applyWeight(bs, r, g, b), bs))
      && (forall bs :: SameShape(normalizeDecorrelated(bs), bs))
      && (forall bs, max :: SameShape(normalizeWithMax(bs, max), bs))
    }
  }

  /** The frame metadata the routine reads: the on-board downsampling factor and the
      optional subframe rectangle [x, y, width, height] (1-based, full-sensor pixels). */
  datatype Metadata = Metadata(scaleFactor: nat, subframeRect: Option<seq<real>>)

  /** The value of a `MarsImage`: its image and its optional metadata. */
  datatype Frame = Frame(image: Raster, metadata: Option<Metadata>)

  /** sciimg's `Image`, updated in place. */
  class Image {
    var width: nat
    var height: nat
    var bands: seq<Band>

    function Value(): Raster
      reads this
    {
      Raster(width, height, bands)
    }

    predicate IsEmpty()
      reads this
    {
      Value().IsEmpty()
    }

    predicate IsGrayscale()
      reads this
    {
      Value().IsGrayscale()
    }

    constructor (img: Raster)
      ensures Value() == img
    {
      width, height, bands := img.width, img.height, img.bands;
    }

    /** `Image::crop`; `ok` is false where it panics, and then nothing changes. */
    method Crop(win: Window) returns (ok: bool)
      requires Value().WellFormed()
      modifies this
      ensures ok == Cropped(old(Value()), win).Some?
      ensures Value() == if ok then Cropped(old(Value()), win).value else old(Value())
    {
      var c := Cropped(Value(), win);
      if c.None? {
        return false;
      }
      width, height, bands := c.value.width, c.value.height, c.value.bands;
      ok := true;
    }

    /** `Image::set_band`. */
    method SetBand(b: Band, k: nat)
      requires k < |bands|
      modifies this
      ensures Value() == old(Value()).(bands := old(bands)[k := b])
    {
      bands := bands[k := b];
    }

    /** `Image::normalize_to_16bit_decorrelated`. */
    method NormalizeTo16BitDecorrelated(ops: PixelOps)
      modifies this
      ensures Value() == old(Value()).(bands := ops.normalizeDecorrelated(old(bands)))
    {
      bands := ops.normalizeDecorrelated(bands);
    }

    /** `Image::normalize_to_16bit_with_max`. */
    method NormalizeTo16BitWithMax(max: real, ops: PixelOps)
      modifies this
      ensures Value() == old(Value()).(bands := ops.normalizeWithMax(old(bands), max))
    {
      bands := ops.normalizeWithMax(bands, max);
    }
  }

  /** `MarsImage`: an image and its metadata. */
  class MarsImage {
    const image: Image
    var metadata: Option<Metadata>

    function Value(): Frame
      reads this, image
    {
      Frame(image.Value(), metadata)
    }

    /** `MarsImage::open`, given what decoding the file yields. */
    constructor Open(decoded: Frame)
      ensures fresh(image) && Value() == decoded
    {
      image := new Image(decoded.image);
      metadata := decoded.metadata;
    }

    /** `MarsImage::decompand`. */
    method Decompand(lut: Lut, ops: PixelOps)
      modifies image
      ensures image.Value() == old(image.Value()).(bands := ops.decompand(old(image.bands), lut))
    {
      image.bands := ops.decompand(image.bands, lut);
    }

    /** `MarsImage::debayer_with_method`. */
    method DebayerWithMethod(m: DebayerMethod, ops: PixelOps)
      modifies image
      ensures image.Value() == old(image.Value()).(bands := ops.debayer(old(image.Value()), m))
    {
      image.bands := ops.debayer(image.Value(), m);
    }

    /** `MarsImage::apply_flat`. */
    method ApplyFlat(flat: Image, ops: PixelOps)
      requires flat != image
      modifies image
      ensures image.Value() == old(image.Value()).(bands := ops.applyFlat(old(image.bands), flat.Value()))
    {
      image.bands := ops.applyFlat(image.bands, flat.Value());
    }

    /** `MarsImage::apply_weight`. */
    method ApplyWeight(red: real, green: real, blue: real, ops: PixelOps)
      modifies image
      ensures image.Value() == old(image.Value()).(bands := ops.applyWeight(old(image.bands), red, green, blue))
    {
      image.bands := ops.applyWeight(image.bands, red, green, blue);
    }

    /** `MarsImage::crop`. */
    method Crop(win: Window) returns (ok: bool)
      requires image.Value().WellFormed()
      modifies image
      ensures ok == Cropped(old(image.Value()), win).Some?
      ensures image.Value() == if ok then Cropped(old(image.Value()), win).value else old(image.Value())
    {
      ok := image.Crop(win);
    }
  }
}
