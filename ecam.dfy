/** The Mars 2020 engineering-camera calibration routine of src/m20/ecam.rs
    (Navcam, front and rear Hazcam): instrument resolution from the file name, the
    skip-if-exists check, decompanding, debayering, calibration-file selection, alignment
    of the flat field and the mask to the raw subframe, mask application, flat fielding,
    colour weighting, normalisation, and the trim of a 2-pixel border. */
module Ecam {
  import opened Wrappers
  import opened Strings
  import opened Enums
  import opened Imaging

  // ---------------------------------------------------------------------------
  // Instrument resolution

  /** `matches!` in `accepts_instrument`: the six engineering cameras. */
  predicate AcceptsInstrument(instrument: Instrument)
    ensures AcceptsInstrument(instrument) <==> IsNavcam(instrument) || IsFrontHaz(instrument) || IsRearHaz(instrument)
  {
    || instrument == M20FrontHazLeft
    || instrument == M20FrontHazRight
    || instrument == M20NavcamLeft
    || instrument == M20NavcamRight
    || instrument == M20RearHazLeft
    || instrument == M20RearHazRight
  }

  /** The file name of a path: what follows its last '/'. */
  function BaseName(path: string): (r: string)
    ensures |r| <= |path| && r == path[|path| - |r|..]
    ensures '/' !in r
    ensures |r| < |path| ==> path[|path| - |r| - 1] == '/'
  {
    if '/' in path then
      var r := BaseName(path[1..]);
      assert path[1..][|path| - 1 - |r|..] == path[|path| - |r|..];
      assert |r| == |path| - 1 ==> path[0] == '/';
      r
    else path
  }

  /** `util::filename_char_at_pos`: the character at `pos` of the file name, if any. */
  function CharAt(inputFile: string, pos: nat): (r: Option<char>)
    ensures r.Some? <==> pos < |BaseName(inputFile)|
    ensures r.Some? ==> r.value != '/' && r.value == inputFile[|inputFile| - |BaseName(inputFile)| + pos]
  {
    var name := BaseName(inputFile);
    if pos < |name| then Some(name[pos]) else None
  }

  /** The camera family a first file-name character names, if any. */
  predicate IsNavcam(i: Instrument) { i == M20NavcamLeft || i == M20NavcamRight }
  predicate IsFrontHaz(i: Instrument) { i == M20FrontHazLeft || i == M20FrontHazRight }
  predicate IsRearHaz(i: Instrument) { i == M20RearHazLeft || i == M20RearHazRight }
  predicate IsLeft(i: Instrument) { i == M20NavcamLeft || i == M20FrontHazLeft || i == M20RearHazLeft }

  /** The instrument the first two file-name characters select: 'N', 'F' or 'R' picks
      Navcam, front Hazcam or rear Hazcam, and then 'L' the left camera and anything else
      the right one; any other first character gives the right Navcam. */
  function InstrumentFor(first: Option<char>, second: Option<char>): (r: Instrument)
    ensures AcceptsInstrument(r)
    ensures IsFrontHaz(r) <==> first == Some('F')
    ensures IsRearHaz(r) <==> first == Some('R')
    ensures IsNavcam(r) <==> first != Some('F') && first != Some('R')
    ensures IsLeft(r) <==> (first == Some('N') || first == Some('F') || first == Some('R')) && second == Some('L')
  {
    var left := second == Some('L');
    if first == Some('N') then (if left then M20NavcamLeft else M20NavcamRight)
    else if first == Some('F') then (if left then M20FrontHazLeft else M20FrontHazRight)
    else if first == Some('R') then (if left then M20RearHazLeft else M20RearHazRight)
    else M20NavcamRight
  }

  /** The instrument `process_file` settles on for an input path. */
  function ResolveInstrument(inputFile: string): (r: Instrument)
    ensures AcceptsInstrument(r)
    ensures var name := BaseName(inputFile);
            && (IsFrontHaz(r) <==> |name| >= 1 && name[0] == 'F')
            && (IsRearHaz(r) <==> |name| >= 1 && name[0] == 'R')
            && (IsLeft(r) <==> |name| >= 2 && (name[0] == 'N' || name[0] == 'F' || name[0] == 'R') && name[1] == 'L')
  {
    InstrumentFor(CharAt(inputFile, 0), CharAt(inputFile, 1))
  }

  /** A two-character file name that resolves to an accepted instrument. */
  function FileNameFor(instrument: Instrument): (f: string)
    requires AcceptsInstrument(instrument)
    ensures ResolveInstrument(f) == instrument
  {
    var family := if IsFrontHaz(instrument) then 'F' else if IsRearHaz(instrument) then 'R' else 'N';
    var side := if IsLeft(instrument) then 'L' else 'R';
    var f := [family, side];
    assert '/' !in f;
    assert CharAt(f, 0) == Some(family) && CharAt(f, 1) == Some(side);
    f
  }

  /** The routine accepts exactly the instruments a file name can resolve to. */
  lemma AcceptedExactlyWhenResolvable(instrument: Instrument)
    ensures AcceptsInstrument(instrument) <==> exists f :: ResolveInstrument(f) == instrument
  {
    if AcceptsInstrument(instrument) {
      var f := FileNameFor(instrument);
      assert ResolveInstrument(f) == instrument;
    }
  }

  // ---------------------------------------------------------------------------
  // Stages

  /** Why a run panics. */
  datatype PanicReason =
    | MissingLut                              // `get_ilt_for_instrument(..).unwrap()`
    | CalibrationFileUnreadable(path: string) // `load_image(..).unwrap()`
    | IndexOutOfRange                         // `rect[i]`, `get_band(i)`
    | ArithmeticUnderflow                     // `usize` subtraction below zero
    | DivisionByZero                          // `/ scale_factor as usize`
    | CropOutOfBounds                         // a crop window outside a band
    | SizeMismatch                            // `multiply(..).unwrap()` on unequal sizes

  /** The result of a stage: a value, or the panic that ends the run. */
  datatype Stage<+T> = Done(value: T) | Panic(reason: PanicReason)
  {
    predicate IsFailure() { Panic? }

    function PropagateFailure<U>(): Stage<U>
      requires Panic?
    {
      Panic(reason)
    }

    function Extract(): T
      requires Done?
    {
      value
    }
  }

  /** The decompanding step and `data_max`: without `apply_ilt` the image is untouched and
      `data_max` is 255; with it the instrument's table must exist (the `unwrap` panics
      otherwise), the image is decompanded with it and `data_max` is the table's maximum,
      so no decompanded value exceeds it. */
  function Decompanded(img: Raster, applyIlt: bool, instrument: Instrument, luts: map<Instrument, Lut>,
                       ops: PixelOps): (r: Stage<(Raster, real)>)
    ensures !applyIlt ==> r == Done((img, 255.0))
    ensures applyIlt ==> (r.Panic? <==> instrument !in luts)
    ensures applyIlt && r.Done? ==>
              && r.value.0 == img.(bands := ops.decompand(img.bands, luts[instrument]))
              && (forall v :: v in luts[instrument].table ==> v as real <= r.value.1)
              && (luts[instrument].table != [] ==> exists v :: v in luts[instrument].table && v as real == r.value.1)
  {
    if !applyIlt then Done((img, 255.0))
    else if instrument !in luts then Panic(MissingLut)
    else
      var lut := luts[instrument];
      Done((img.(bands := ops.decompand(img.bands, lut)), LutMax(lut) as real))
  }

  /** The scale factor: the metadata's, or 1 without metadata. */
  function ScaleFactor(md: Option<Metadata>): (r: nat)
    ensures md.None? ==> r == 1
    ensures md.Some? ==> r == md.value.scaleFactor
  {
    if md.Some? then md.value.scaleFactor else 1
  }

  /** The placeholder a calibration-file path template holds for the scale factor. */
  const ScaleFactorPlaceholder: string := "-scalefactor-"

  /** The replacement text "sf<N>" holds no '-' and no tail of the placeholder can
      begin it, so replacing leaves no placeholder behind. */
  lemma ReplacementClashes(scaleFactor: nat)
    ensures ScaleFactorPlaceholder[0] !in "sf" + Decimal(scaleFactor)
    ensures forall m :: 1 <= m < |ScaleFactorPlaceholder| ==>
              Clashes("sf" + Decimal(scaleFactor), ScaleFactorPlaceholder[m..])
  {
    var rep := "sf" + Decimal(scaleFactor);
    assert forall i :: 2 <= i < |rep| ==> IsDigit(rep[i]);
    forall m | 1 <= m < |ScaleFactorPlaceholder|
      ensures Clashes(rep, ScaleFactorPlaceholder[m..])
    {
      var q := ScaleFactorPlaceholder[m..];
      if m == 1 {
        assert rep[1] != q[1];
      } else {
        assert m == 2 || m == 3 || m == 4 || m == 5 || m == 6 || m == 7 || m == 8
            || m == 9 || m == 10 || m == 11 || m == 12;
        assert rep[0] != q[0];
      }
    }
  }

  /** The calibration-file path for a scale factor: every placeholder replaced by
      "sf" followed by the factor in decimal, so none is left. */
  function CalibrationPath(template: string, scaleFactor: nat): (r: string)
    ensures forall i: nat :: !OccursAt(r, ScaleFactorPlaceholder, i)
  {
    ReplacementClashes(scaleFactor);
    ReplaceAllLeavesNone(template, ScaleFactorPlaceholder, "sf" + Decimal(scaleFactor));
    ReplaceAll(template, ScaleFactorPlaceholder, "sf" + Decimal(scaleFactor))
  }

  /** A template "<a>-scalefactor-<b>" whose placeholder after `a` is its first becomes
      "<a>sf<N>" followed by the path of `b`, so every placeholder, left to right, is
      substituted; a template without the placeholder is used as it is. */
  lemma CalibrationPathSubstitutes(a: string, b: string, scaleFactor: nat)
    requires forall i: nat :: i < |a| ==> !OccursAt(a + ScaleFactorPlaceholder + b, ScaleFactorPlaceholder, i)
    ensures CalibrationPath(a + ScaleFactorPlaceholder + b, scaleFactor)
              == a + ("sf" + Decimal(scaleFactor)) + CalibrationPath(b, scaleFactor)
    ensures (forall i: nat :: !OccursAt(b, ScaleFactorPlaceholder, i)) ==> CalibrationPath(b, scaleFactor) == b
  {
    ReplaceAllAfterPrefix(a, ScaleFactorPlaceholder, "sf" + Decimal(scaleFactor), b);
    if forall i: nat :: !OccursAt(b, ScaleFactorPlaceholder, i) {
      ReplaceAllAbsent(b, ScaleFactorPlaceholder, "sf" + Decimal(scaleFactor));
    }
  }

  /** What the routine can observe of its surroundings: which paths exist, the
      decompanding tables, the calibration-file templates `calibfile` finds per instrument
      and kind (a missing key is a lookup error), and the images `load_image` can read. */
  datatype Environment = Environment(
    existing: set<string>,
    luts: map<Instrument, Lut>,
    calibrationFiles: map<(Instrument, CalFileType), string>,
    images: map<string, Raster>)
  {
    predicate Valid()
    {
      forall p :: p in images ==> images[p].WellFormed()
    }
  }

  /** A calibration file of this kind is unknown, or readable at its path for the scale factor. */
  predicate CalibrationReadable(env: Environment, instrument: Instrument, kind: CalFileType, scaleFactor: nat)
  {
    (instrument, kind) in env.calibrationFiles ==>
      CalibrationPath(env.calibrationFiles[(instrument, kind)], scaleFactor) in env.images
  }

  /** Loading the flat field or the mask: the empty image when no calibration file is
      known, otherwise the image at the template's path for the scale factor, whose
      `load_image(..).unwrap()` panics when it cannot be read. */
  function LoadCalibration(env: Environment, instrument: Instrument, kind: CalFileType, scaleFactor: nat)
    : (r: Stage<Raster>)
    requires env.Valid()
    ensures r.Done? ==> r.value.WellFormed()
    ensures r.Done? <==> CalibrationReadable(env, instrument, kind, scaleFactor)
    ensures (instrument, kind) !in env.calibrationFiles ==> r == Done(EmptyRaster())
    ensures (instrument, kind) in env.calibrationFiles ==>
              var path := CalibrationPath(env.calibrationFiles[(instrument, kind)], scaleFactor);
              r == if path in env.images then Done(env.images[path]) else Panic(CalibrationFileUnreadable(path))
  {
    if (instrument, kind) in env.calibrationFiles then
      var path := CalibrationPath(env.calibrationFiles[(instrument, kind)], scaleFactor);
      if path in env.images then Done(env.images[path]) else Panic(CalibrationFileUnreadable(path))
    else Done(EmptyRaster())
  }

  /** Rust's saturating `f64 as usize` for the values that matter here: the integer part,
      and 0 for anything not positive. */
  function AsUsize(x: real): (r: nat)
    ensures x <= 0.0 ==> r == 0
    ensures x > 0.0 ==> r as real <= x < r as real + 1.0
  {
    if x <= 0.0 then 0 else x.Floor
  }

  /** The crop window of a subframe rectangle [x, y, w, h] at a scale factor:
      ((x-1)/sf, (y-1)/sf, w/sf, h/sf) in floor division. It panics, in Rust's evaluation
      order, when the rectangle has fewer than four entries, when x or y is below 1 (the
      `usize` subtraction underflows), or when the scale factor is 0. */
  function CropWindow(rect: seq<real>, scaleFactor: nat): (r: Stage<Window>)
    ensures r.Done? <==> |rect| >= 4 && AsUsize(rect[0]) >= 1 && AsUsize(rect[1]) >= 1 && scaleFactor >= 1
    ensures r.Done? ==>
              && FloorQuotient(r.value.x, AsUsize(rect[0]) - 1, scaleFactor)
              && FloorQuotient(r.value.y, AsUsize(rect[1]) - 1, scaleFactor)
              && FloorQuotient(r.value.width, AsUsize(rect[2]), scaleFactor)
              && FloorQuotient(r.value.height, AsUsize(rect[3]), scaleFactor)
  {
    if |rect| < 1 then Panic(IndexOutOfRange)
    else if AsUsize(rect[0]) == 0 then Panic(ArithmeticUnderflow)
    else if scaleFactor == 0 then Panic(DivisionByZero)
    else if |rect| < 2 then Panic(IndexOutOfRange)
    else if AsUsize(rect[1]) == 0 then Panic(ArithmeticUnderflow)
    else if |rect| < 4 then Panic(IndexOutOfRange)
    else ScaledWindow(AsUsize(rect[0]) - 1, AsUsize(rect[1]) - 1, AsUsize(rect[2]), AsUsize(rect[3]), scaleFactor)
  }

  /** The window (x/s, y/s, w/s, h/s) in floor division, wrapped as a finished stage. */
  function ScaledWindow(x: nat, y: nat, w: nat, h: nat, s: nat): (r: Stage<Window>)
    requires s > 0
    ensures r.Done?
    ensures FloorQuotient(r.value.x, x, s) && FloorQuotient(r.value.y, y, s)
    ensures FloorQuotient(r.value.width, w, s) && FloorQuotient(r.value.height, h, s)
  {
    Done(Window(FloorDiv(x, s), FloorDiv(y, s), FloorDiv(w, s), FloorDiv(h, s)))
  }

  /** `usize` division: the floor quotient. */
  function FloorDiv(n: nat, s: nat): (q: nat)
    requires s > 0
    ensures FloorQuotient(q, n, s)
  {
    FloorDivBounds(n, s);
    n / s
  }

  /** q is n divided by s, rounded down: q * s <= n < (q + 1) * s. */
  predicate FloorQuotient(q: int, n: int, s: int)
  {
    q * s <= n < (q + 1) * s
  }

  /** Floor division gives the floor quotient. */
  lemma FloorDivBounds(n: nat, s: nat)
    requires s > 0
    ensures FloorQuotient(n / s, n, s)
  {
    assert n == (n / s) * s + n % s;
    assert (n / s + 1) * s == (n / s) * s + s;
  }

  /** Floor division does not overshoot the sum: a/s + b/s <= (a+b)/s <= c/s for a+b <= c. */
  lemma FloorDivSum(a: nat, b: nat, c: nat, s: nat)
    requires s > 0 && a + b <= c
    ensures a / s + b / s <= c / s
  {
    var qa, qb, qc := a / s, b / s, c / s;
    assert a == qa * s + a % s && b == qb * s + b % s && c == qc * s + c % s;
    assert (qa + qb) * s <= a + b;
    if qa + qb > qc {
      MulAtLeast(qa + qb - qc, s);
    }
  }

  /** A subframe inside a full sensor of fullWidth × fullHeight pixels gives a crop window
      inside that sensor's calibration image at the scale factor (fullWidth/sf ×
      fullHeight/sf), so aligning a calibration image of that size never panics. */
  lemma CropWindowFits(rect: seq<real>, scaleFactor: nat, fullWidth: nat, fullHeight: nat)
    requires CropWindow(rect, scaleFactor).Done?
    requires AsUsize(rect[0]) - 1 + AsUsize(rect[2]) <= fullWidth
    requires AsUsize(rect[1]) - 1 + AsUsize(rect[3]) <= fullHeight
    ensures var win := CropWindow(rect, scaleFactor).value;
            win.x + win.width <= fullWidth / scaleFactor && win.y + win.height <= fullHeight / scaleFactor
  {
    FloorDivSum(AsUsize(rect[0]) - 1, AsUsize(rect[2]), fullWidth, scaleFactor);
    FloorDivSum(AsUsize(rect[1]) - 1, AsUsize(rect[3]), fullHeight, scaleFactor);
  }

  /** A crop that panics when the window does not fit. */
  function CropStage(img: Raster, win: Window): (r: Stage<Raster>)
    requires img.WellFormed()
    ensures r.Done? ==> r.value.WellFormed()
    ensures r.Done? <==> Cropped(img, win).Some?
    ensures r.Done? ==> r.value == Cropped(img, win).value
  {
    match Cropped(img, win)
    case Some(c) => Done(c)
    case None => Panic(CropOutOfBounds)
  }

  /** Aligning the flat field and the mask to the raw frame: without metadata or without
      a subframe rectangle both are used as loaded; otherwise the flat field is always
      cropped to the rectangle's window and the mask only when it is not empty. */
  function Aligned(md: Option<Metadata>, flat: Raster, mask: Raster): (r: Stage<(Raster, Raster)>)
    requires flat.WellFormed() && mask.WellFormed()
    ensures md.None? || md.value.subframeRect.None? ==> r == Done((flat, mask))
    ensures r.Done? ==> r.value.0.WellFormed() && r.value.1.WellFormed()
    ensures r.Done? && md.Some? ==> RectReadable(md.value)
    ensures r.Done? && md.Some? && md.value.subframeRect.Some? ==>
              var win := CropWindow(md.value.subframeRect.value, md.value.scaleFactor);
              && win.Done?
              && Cropped(flat, win.value) == Some(r.value.0)
              && (mask.IsEmpty() ==> r.value.1 == mask)
              && (!mask.IsEmpty() ==> Cropped(mask, win.value) == Some(r.value.1))
    ensures md.Some? && md.value.subframeRect.Some? ==>
              var win := CropWindow(md.value.subframeRect.value, md.value.scaleFactor);
              (r.Done? <==> win.Done? && Cropped(flat, win.value).Some?
                            && (mask.IsEmpty() || Cropped(mask, win.value).Some?))
  {
    if md.None? || md.value.subframeRect.None? then Done((flat, mask))
    else
      var win :- CropWindow(md.value.subframeRect.value, md.value.scaleFactor);
      var flat' :- CropStage(flat, win);
      var mask' :- if mask.IsEmpty() then Done(mask) else CropStage(mask, win);
      Done((flat', mask'))
  }

  /** `create_adjusted_mask`'s result: 1 where the mask exceeds 200 and 0 elsewhere, a
      value of exactly 200 included. */
  function Binarised(mask: Band): (r: Band)
    ensures |r| == |mask|
    ensures forall p :: 0 <= p < |mask| ==> (r[p] == 1.0 <==> mask[p] > 200.0)
    ensures forall p :: 0 <= p < |mask| ==> (r[p] == 0.0 <==> mask[p] <= 200.0)
  {
    seq(|mask|, p requires 0 <= p < |mask| => if mask[p] > 200.0 then 1.0 else 0.0)
  }

  /** src/m20/ecam.rs `create_adjusted_mask`: clones the buffer and overwrites every sample
      with 1 or 0. */
  method CreateAdjustedMask(buffer: Band) returns (adjusted: Band)
    ensures adjusted == Binarised(buffer)
  {
    var a := new real[|buffer|](p requires 0 <= p < |buffer| => buffer[p]);
    for i := 0 to a.Length
      invariant forall p :: 0 <= p < i ==> a[p] == if buffer[p] > 200.0 then 1.0 else 0.0
      invariant forall p :: i <= p < a.Length ==> a[p] == buffer[p]
    {
      if a[i] > 200.0 {
        a[i] := 1.0;
      } else {
        a[i] := 0.0;
      }
    }
    adjusted := a[..];
  }

  /** Binarising is not idempotent: a binarised mask binarises to all zeros (1 is not
      above 200), so binarising twice gives the same mask only when no sample exceeded 200
      in the first place. */
  lemma BinarisedIdempotentOnlyWhenDark(mask: Band)
    ensures Binarised(Binarised(mask)) == seq(|mask|, p => 0.0)
    ensures Binarised(Binarised(mask)) == Binarised(mask) <==> forall p :: 0 <= p < |mask| ==> mask[p] <= 200.0
  {
    if Binarised(Binarised(mask)) == Binarised(mask) {
      forall p | 0 <= p < |mask| ensures mask[p] <= 200.0 {
        assert Binarised(Binarised(mask))[p] == Binarised(mask)[p];
      }
    }
  }

  /** Applying the mask: when it is not empty, its first band is binarised and multiplied
      into bands 0, 1 and 2, which keep their samples where the mask exceeds 200 and are
      0 elsewhere; the image must have those three bands and the mask's size. */
  function Masked(img: Raster, mask: Raster): (r: Stage<Raster>)
    requires img.WellFormed() && mask.WellFormed()
    ensures mask.IsEmpty() ==> r == Done(img)
    ensures !mask.IsEmpty() ==>
              (r.Done? <==> |img.bands| >= 3 && mask.width == img.width && mask.height == img.height)
    ensures r.Done? ==>
              && r.value.width == img.width && r.value.height == img.height
              && |r.value.bands| == |img.bands| && r.value.WellFormed()
              && (forall k :: 3 <= k < |img.bands| ==> r.value.bands[k] == img.bands[k])
    ensures r.Done? && !mask.IsEmpty() ==>
              forall k, p :: 0 <= k < 3 && 0 <= p < img.width * img.height ==>
                r.value.bands[k][p] == if mask.bands[0][p] > 200.0 then img.bands[k][p] else 0.0
  {
    if mask.IsEmpty() then Done(img)
    else
      var adjusted := Binarised(mask.bands[0]);
      if |img.bands| < 1 then Panic(IndexOutOfRange)
      else if mask.width != img.width || mask.height != img.height then Panic(SizeMismatch)
      else if |img.bands| < 3 then Panic(IndexOutOfRange)
      else
        Done(img.(bands := img.bands[0 := Multiply(img.bands[0], adjusted)]
                                    [1 := Multiply(img.bands[1], adjusted)]
                                    [2 := Multiply(img.bands[2], adjusted)]))
  }

  /** The calibration profile of the run (`CalProfile`). */
  datatype CalProfile = CalProfile(
    filenameSuffix: string,
    applyIlt: bool,
    debayerMethod: DebayerMethod,
    redScalar: real,
    greenScalar: real,
    blueScalar: real,
    decorrelateColor: bool)

  /** Colour weights apply to colour images only. */
  function Weighted(img: Raster, profile: CalProfile, ops: PixelOps): (r: Raster)
    ensures img.IsGrayscale() ==> r == img
    ensures !img.IsGrayscale() ==> r == img.(bands := ops.applyWeight(img.bands, profile.redScalar, profile.greenScalar, profile.blueScalar))
  {
    if img.IsGrayscale() then img
    else img.(bands := ops.applyWeight(img.bands, profile.redScalar, profile.greenScalar, profile.blueScalar))
  }

  /** Normalisation: per band with `decorrelate_color`, otherwise against `data_max`. */
  function Normalized(img: Raster, profile: CalProfile, dataMax: real, ops: PixelOps): (r: Raster)
    ensures profile.decorrelateColor ==> r == img.(bands := ops.normalizeDecorrelated(img.bands))
    ensures !profile.decorrelateColor ==> r == img.(bands := ops.normalizeWithMax(img.bands, dataMax))
  {
    img.(bands := if profile.decorrelateColor then ops.normalizeDecorrelated(img.bands)
                  else ops.normalizeWithMax(img.bands, dataMax))
  }

  /** A subframe rectangle the routine can index: absent, or with four entries. */
  predicate RectReadable(md: Metadata)
  {
    md.subframeRect.Some? ==> |md.subframeRect.value| >= 4
  }

  /** The metadata after the trim: with scale factor 1 and a rectangle [x, y, w, h], the
      rectangle becomes [x+2, y+2, w-2, h-2] (its size shrinks by 2 while the image
      shrinks by 4); otherwise nothing changes. */
  function TrimmedMetadata(md: Metadata): (r: Metadata)
    requires RectReadable(md)
    ensures r.scaleFactor == md.scaleFactor
    ensures r.subframeRect.Some? <==> md.subframeRect.Some?
    ensures md.scaleFactor != 1 || md.subframeRect.None? ==> r == md
    ensures md.scaleFactor == 1 && md.subframeRect.Some? ==>
              var old_ := md.subframeRect.value;
              var new_ := r.subframeRect.value;
              && |new_| == 4
              && new_[0] == old_[0] + 2.0 && new_[1] == old_[1] + 2.0
              && new_[2] == old_[2] - 2.0 && new_[3] == old_[3] - 2.0
  {
    if md.scaleFactor == 1 && md.subframeRect.Some? then
      var rect := md.subframeRect.value;
      md.(subframeRect := Some([rect[0] + 2.0, rect[1] + 2.0, rect[2] - 2.0, rect[3] - 2.0]))
    else md
  }

  /** The border trim: whenever metadata is present (whatever the scale factor and
      whether or not there is a rectangle) the image loses 2 pixels on every edge, which
      panics below 4 × 4; the metadata becomes the trimmed metadata. Without metadata
      nothing changes. */
  function Trimmed(f: Frame): (r: Stage<Frame>)
    requires f.image.WellFormed()
    requires f.metadata.Some? ==> RectReadable(f.metadata.value)
    ensures f.metadata.None? ==> r == Done(f)
    ensures f.metadata.Some? ==> (r.Panic? <==> f.image.width < 4 || f.image.height < 4)
    ensures r.Done? && f.metadata.Some? ==>
              && r.value.metadata == Some(TrimmedMetadata(f.metadata.value))
              && r.value.image.width == f.image.width - 4
              && r.value.image.height == f.image.height - 4
              && |r.value.image.bands| == |f.image.bands|
              && r.value.image.WellFormed()
              && forall k :: 0 <= k < |f.image.bands| ==>
                   r.value.image.bands[k] == CropBand(f.image.bands[k], f.image.width, f.image.height,
                                                      2, 2, f.image.width - 4, f.image.height - 4)
  {
    match f.metadata
    case None => Done(f)
    case Some(md) =>
      var md' := TrimmedMetadata(md);
      if f.image.width < 4 || f.image.height < 4 then Panic(ArithmeticUnderflow)
      else
        var img := Cropped(f.image, Window(2, 2, f.image.width - 4, f.image.height - 4)).value;
        Done(Frame(img, Some(md')))
  }

  // ---------------------------------------------------------------------------
  // The routine

  /** Replacing the bands of a well-formed raster by bands of the same shape keeps it
      well formed. */
  lemma SameShapeWellFormed(img: Raster, bands: seq<Band>)
    requires img.WellFormed() && SameShape(bands, img.bands)
    ensures img.(bands := bands).WellFormed()
  {
  }

  /** Decompanding and, for a single-band (Bayer) image, debayering; also `data_max`. */
  function Developed(img: Raster, profile: CalProfile, instrument: Instrument, luts: map<Instrument, Lut>,
                     ops: PixelOps): (r: Stage<(Raster, real)>)
    requires img.WellFormed() && ops.ShapePreserving()
    ensures r.Done? ==> r.value.0.WellFormed() && r.value.0.width == img.width && r.value.0.height == img.height
    ensures r.Done? ==> |r.value.0.bands| == if img.IsGrayscale() then 3 else |img.bands|
    ensures r.Panic? <==> profile.applyIlt && instrument !in luts
  {
    var decompanded :- Decompanded(img, profile.applyIlt, instrument, luts, ops);
    var img1 := decompanded.0;
    assert img1.WellFormed() by {
      if profile.applyIlt {
        SameShapeWellFormed(img, ops.decompand(img.bands, luts[instrument]));
      }
    }
    var img2 := if img1.IsGrayscale() then img1.(bands := ops.debayer(img1, profile.debayerMethod)) else img1;
    Done((img2, decompanded.1))
  }

  /** Flat fielding, colour weighting and normalisation of the masked image. */
  function Finished(masked: Raster, flat: Raster, profile: CalProfile, dataMax: real, ops: PixelOps): (r: Raster)
    requires masked.WellFormed() && ops.ShapePreserving()
    ensures r.WellFormed() && r.width == masked.width && r.height == masked.height
    ensures |r.bands| == |masked.bands|
  {
    var flattened := masked.(bands := ops.applyFlat(masked.bands, flat));
    SameShapeWellFormed(masked, flattened.bands);
    var weighted := Weighted(flattened, profile, ops);
    SameShapeWellFormed(flattened, weighted.bands);
    var normalized := Normalized(weighted, profile, dataMax, ops);
    SameShapeWellFormed(weighted, normalized.bands);
    normalized
  }

  /** The stages after loading the calibration images: alignment, mask, flat field,
      weights, normalisation and trim of the developed frame. */
  function Corrected(developed: Frame, flat: Raster, mask: Raster, profile: CalProfile, dataMax: real,
                     ops: PixelOps): (r: Stage<Frame>)
    requires developed.image.WellFormed() && flat.WellFormed() && mask.WellFormed() && ops.ShapePreserving()
    ensures r.Done? ==> r.value.image.WellFormed() && |r.value.image.bands| == |developed.image.bands|
    ensures r.Done? && developed.metadata.None? ==>
              && r.value.metadata.None?
              && r.value.image.width == developed.image.width
              && r.value.image.height == developed.image.height
    ensures r.Done? && developed.metadata.Some? ==>
              && RectReadable(developed.metadata.value)
              && r.value.metadata == Some(TrimmedMetadata(developed.metadata.value))
              && r.value.image.width == developed.image.width - 4
              && r.value.image.height == developed.image.height - 4
  {
    var aligned :- Aligned(developed.metadata, flat, mask);
    var masked :- Masked(developed.image, aligned.1);
    Trimmed(Frame(Finished(masked, aligned.0, profile, dataMax, ops), developed.metadata))
  }

  /** The stages after the skip check, in the routine's order. */
  function Pipeline(inputFile: string, profile: CalProfile, decoded: Frame, env: Environment, ops: PixelOps)
    : (r: Stage<Frame>)
    requires decoded.image.WellFormed() && env.Valid() && ops.ShapePreserving()
    ensures profile.applyIlt && ResolveInstrument(inputFile) !in env.luts ==> r == Panic(MissingLut)
    ensures r.Done? ==>
              && CalibrationReadable(env, ResolveInstrument(inputFile), FlatField, ScaleFactor(decoded.metadata))
              && CalibrationReadable(env, ResolveInstrument(inputFile), Mask, ScaleFactor(decoded.metadata))
    ensures r.Done? ==> r.value.image.WellFormed()
    ensures r.Done? ==> |r.value.image.bands| == if decoded.image.IsGrayscale() then 3 else |decoded.image.bands|
    ensures r.Done? && decoded.metadata.None? ==>
              && r.value.metadata.None?
              && r.value.image.width == decoded.image.width
              && r.value.image.height == decoded.image.height
    ensures r.Done? && decoded.metadata.Some? ==>
              && RectReadable(decoded.metadata.value)
              && r.value.metadata == Some(TrimmedMetadata(decoded.metadata.value))
              && r.value.image.width == decoded.image.width - 4
              && r.value.image.height == decoded.image.height - 4
  {
    var instrument := ResolveInstrument(inputFile);
    var developed :- Developed(decoded.image, profile, instrument, env.luts, ops);
    var scaleFactor := ScaleFactor(decoded.metadata);
    var flat :- LoadCalibration(env, instrument, FlatField, scaleFactor);
    var mask :- LoadCalibration(env, instrument, Mask, scaleFactor);
    Corrected(Frame(developed.0, decoded.metadata), flat, mask, profile, developed.1, ops)
  }

  /** How a run ends: skipped because the output exists (`cal_warn`), saved to the
      output path (`cal_ok`), or aborted by a panic. */
  datatype CalOutcome = Skipped(outFile: string) | Saved(outFile: string, frame: Frame) | Aborted(reason: PanicReason)

  /** The outcome of `process_file` for an input whose output path is `outFile`
      (`util::append_file_name` of the input and the profile's suffix) and whose decoding
      gives `decoded`. */
  function Calibrate(inputFile: string, outFile: string, profile: CalProfile, onlyNew: bool,
                     decoded: Frame, env: Environment, ops: PixelOps): (r: CalOutcome)
    requires decoded.image.WellFormed() && env.Valid() && ops.ShapePreserving()
    ensures r.Skipped? <==> outFile in env.existing && onlyNew
    ensures r.Skipped? || r.Saved? ==> r.outFile == outFile
  {
    if outFile in env.existing && onlyNew then Skipped(outFile)
    else
      match Pipeline(inputFile, profile, decoded, env, ops)
      case Done(f) => Saved(outFile, f)
      case Panic(why) => Aborted(why)
  }

  /** The instrument selection at the head of `process_file`: start from the right Navcam
      and reassign by the file name's first two characters. */
  method SelectInstrument(inputFile: string) returns (instrument: Instrument)
    ensures instrument == ResolveInstrument(inputFile)
  {
    instrument := M20NavcamRight;
    if CharAt(inputFile, 0) == Some('N') {
      if CharAt(inputFile, 1) == Some('L') {
        instrument := M20NavcamLeft;
      } else {
        instrument := M20NavcamRight;
      }
    } else if CharAt(inputFile, 0) == Some('F') {
      if CharAt(inputFile, 1) == Some('L') {
        instrument := M20FrontHazLeft;
      } else {
        instrument := M20FrontHazRight;
      }
    } else if CharAt(inputFile, 0) == Some('R') {
      if CharAt(inputFile, 1) == Some('L') {
        instrument := M20RearHazLeft;
      } else {
        instrument := M20RearHazRight;
      }
    }
  }

  /** Loading the flat field or the mask for `process_file`: the path template's
      placeholder replaced by the scale-factor text, then `load_image(..).unwrap()`. */
  method LoadCalibrationImage(env: Environment, instrument: Instrument, kind: CalFileType, scaleFactor: nat)
    returns (loaded: Stage<Raster>)
    requires env.Valid()
    ensures loaded == LoadCalibration(env, instrument, kind, scaleFactor)
  {
    if (instrument, kind) !in env.calibrationFiles {
      return Done(EmptyRaster());
    }
    var scaleFactorText := "sf" + Decimal(scaleFactor);
    var path := ReplaceAll(env.calibrationFiles[(instrument, kind)], ScaleFactorPlaceholder, scaleFactorText);
    if path !in env.images {
      return Panic(CalibrationFileUnreadable(path));
    }
    loaded := Done(env.images[path]);
  }

  /** The alignment block of `process_file`: both calibration images cropped in place. */
  method AlignCalibration(md: Option<Metadata>, flat: Image, mask: Image) returns (failure: Option<PanicReason>)
    requires flat != mask
    requires flat.Value().WellFormed() && mask.Value().WellFormed()
    modifies flat, mask
    ensures var a := Aligned(md, old(flat.Value()), old(mask.Value()));
            if a.Done? then failure.None? && flat.Value() == a.value.0 && mask.Value() == a.value.1
            else failure == Some(a.reason)
  {
    if md.Some? && md.value.subframeRect.Some? {
      var win := CropWindow(md.value.subframeRect.value, md.value.scaleFactor);
      if win.Panic? {
        return Some(win.reason);
      }
      var ok := flat.Crop(win.value);
      if !ok {
        return Some(CropOutOfBounds);
      }
      if !mask.IsEmpty() {
        ok := mask.Crop(win.value);
        if !ok {
          return Some(CropOutOfBounds);
        }
      }
    }
    failure := None;
  }

  /** The mask block of `process_file`: `create_adjusted_mask` of the mask's first band,
      multiplied into bands 0, 1 and 2 of the raw image with `set_band`. */
  method ApplyMask(raw: MarsImage, mask: Image) returns (failure: Option<PanicReason>)
    requires raw.image != mask
    requires raw.image.Value().WellFormed() && mask.Value().WellFormed()
    modifies raw.image
    ensures var m := Masked(old(raw.image.Value()), mask.Value());
            if m.Done? then failure.None? && raw.image.Value() == m.value
            else failure == Some(m.reason)
  {
    if mask.IsEmpty() {
      return None;
    }
    var adjusted := CreateAdjustedMask(mask.bands[0]);
    if |raw.image.bands| < 1 {
      return Some(IndexOutOfRange);
    }
    if mask.width != raw.image.width || mask.height != raw.image.height {
      return Some(SizeMismatch);
    }
    raw.image.SetBand(Multiply(raw.image.bands[0], adjusted), 0);
    if |raw.image.bands| < 2 {
      return Some(IndexOutOfRange);
    }
    raw.image.SetBand(Multiply(raw.image.bands[1], adjusted), 1);
    if |raw.image.bands| < 3 {
      return Some(IndexOutOfRange);
    }
    raw.image.SetBand(Multiply(raw.image.bands[2], adjusted), 2);
    failure := None;
  }

  /** The trim block of `process_file`: with metadata, the rectangle is shifted for
      scale factor 1, the metadata stored back and the image cropped by 2 on every edge. */
  method TrimBorder(raw: MarsImage) returns (failure: Option<PanicReason>)
    requires raw.image.Value().WellFormed()
    requires raw.metadata.Some? ==> RectReadable(raw.metadata.value)
    modifies raw, raw.image
    ensures var t := Trimmed(old(raw.Value()));
            if t.Done? then failure.None? && raw.Value() == t.value
            else failure == Some(t.reason)
  {
    if raw.metadata.None? {
      return None;
    }
    var md := raw.metadata.value;
    if md.scaleFactor == 1 && md.subframeRect.Some? {
      var rect := md.subframeRect.value;
      md := md.(subframeRect := Some([rect[0] + 2.0, rect[1] + 2.0, rect[2] - 2.0, rect[3] - 2.0]));
    }
    raw.metadata := Some(md);
    if raw.image.width < 4 || raw.image.height < 4 {
      return Some(ArithmeticUnderflow);
    }
    var ok := raw.Crop(Window(2, 2, raw.image.width - 4, raw.image.height - 4));
    assert ok;
    failure := None;
  }

  /** The decompanding and debayering blocks of `process_file`, with `data_max`. */
  method Develop(raw: MarsImage, profile: CalProfile, instrument: Instrument, luts: map<Instrument, Lut>,
                 ops: PixelOps) returns (dataMax: real, failure: Option<PanicReason>)
    requires raw.image.Value().WellFormed() && ops.ShapePreserving()
    modifies raw.image
    ensures var d := Developed(old(raw.image.Value()), profile, instrument, luts, ops);
            if d.Done? then failure.None? && raw.image.Value() == d.value.0 && dataMax == d.value.1
            else failure == Some(d.reason)
  {
    if profile.applyIlt {
      if instrument !in luts {
        return 0.0, Some(MissingLut);
      }
      var lut := luts[instrument];
      raw.Decompand(lut, ops);
      dataMax := LutMax(lut) as real;
    } else {
      dataMax := 255.0;
    }
    if raw.image.IsGrayscale() {
      raw.DebayerWithMethod(profile.debayerMethod, ops);
    }
    failure := None;
  }

  /** The flat-field, colour-weight and normalisation blocks of `process_file`. */
  method Finish(raw: MarsImage, flat: Image, profile: CalProfile, dataMax: real, ops: PixelOps)
    requires raw.image != flat
    requires raw.image.Value().WellFormed() && ops.ShapePreserving()
    modifies raw.image
    ensures raw.image.Value() == Finished(old(raw.image.Value()), flat.Value(), profile, dataMax, ops)
  {
    raw.ApplyFlat(flat, ops);
    if !raw.image.IsGrayscale() {
      raw.ApplyWeight(profile.redScalar, profile.greenScalar, profile.blueScalar, ops);
    }
    if profile.decorrelateColor {
      raw.image.NormalizeTo16BitDecorrelated(ops);
    } else {
      raw.image.NormalizeTo16BitWithMax(dataMax, ops);
    }
  }

  /** The blocks of `process_file` after loading: alignment, mask, flat field, weights,
      normalisation and trim, on the objects in place. */
  method Correct(raw: MarsImage, flat: Image, mask: Image, profile: CalProfile, dataMax: real, ops: PixelOps)
    returns (failure: Option<PanicReason>)
    requires raw.image != flat && raw.image != mask && flat != mask
    requires raw.image.Value().WellFormed() && flat.Value().WellFormed() && mask.Value().WellFormed()
    requires ops.ShapePreserving()
    modifies raw, raw.image, flat, mask
    ensures var c := Corrected(old(raw.Value()), old(flat.Value()), old(mask.Value()), profile, dataMax, ops);
            if c.Done? then failure.None? && raw.Value() == c.value else failure == Some(c.reason)
  {
    failure := AlignCalibration(raw.metadata, flat, mask);
    if failure.Some? {
      return;
    }
    failure := ApplyMask(raw, mask);
    if failure.Some? {
      return;
    }
    Finish(raw, flat, profile, dataMax, ops);
    failure := TrimBorder(raw);
  }

  /** src/m20/ecam.rs `process_file`, step by step on a `MarsImage` and the two
      calibration `Image`s; a panic ends the run with its reason. */
  method ProcessFile(inputFile: string, outFile: string, profile: CalProfile, onlyNew: bool,
                     decoded: Frame, env: Environment, ops: PixelOps) returns (r: CalOutcome)
    requires decoded.image.WellFormed() && env.Valid() && ops.ShapePreserving()
    ensures r == Calibrate(inputFile, outFile, profile, onlyNew, decoded, env, ops)
  {
    if outFile in env.existing && onlyNew {
      return Skipped(outFile);
    }

    var instrument := SelectInstrument(inputFile);
    var raw := new MarsImage.Open(decoded);
    var dataMax, failure := Develop(raw, profile, instrument, env.luts, ops);
    if failure.Some? {
      return Aborted(failure.value);
    }
    ghost var developed := Frame(raw.image.Value(), decoded.metadata);

    var scaleFactor := if raw.metadata.Some? then raw.metadata.value.scaleFactor else 1;
    var flatLoaded := LoadCalibrationImage(env, instrument, FlatField, scaleFactor);
    if flatLoaded.Panic? {
      return Aborted(flatLoaded.reason);
    }
    var flat := new Image(flatLoaded.value);
    var maskLoaded := LoadCalibrationImage(env, instrument, Mask, scaleFactor);
    if maskLoaded.Panic? {
      return Aborted(maskLoaded.reason);
    }
    var mask := new Image(maskLoaded.value);

    assert Pipeline(inputFile, profile, decoded, env, ops)
        == Corrected(developed, flatLoaded.value, maskLoaded.value, profile, dataMax, ops);
    failure := Correct(raw, flat, mask, profile, dataMax, ops);
    if failure.Some? {
      return Aborted(failure.value);
    }
    r := Saved(outFile, raw.Value());
  }

  // ---------------------------------------------------------------------------
  // Properties of a run

  /** The geometry of a saved image: it is well formed; a single-band (Bayer) input comes
      out with three bands and any other keeps its band count; without metadata the size
      is unchanged, with metadata each dimension loses 4 pixels and the metadata is the
      trimmed metadata. */
  lemma {:induction false} CalibratedGeometry(inputFile: string, outFile: string, profile: CalProfile, onlyNew: bool,
                                              decoded: Frame, env: Environment, ops: PixelOps)
    requires decoded.image.WellFormed() && env.Valid() && ops.ShapePreserving()
    ensures var r := Calibrate(inputFile, outFile, profile, onlyNew, decoded, env, ops);
            r.Saved? ==>
              && r.outFile == outFile
              && r.frame.image.WellFormed()
              && |r.frame.image.bands| == (if decoded.image.IsGrayscale() then 3 else |decoded.image.bands|)
              && (decoded.metadata.None? ==>
                    && r.frame.metadata.None?
                    && r.frame.image.width == decoded.image.width
                    && r.frame.image.height == decoded.image.height)
              && (decoded.metadata.Some? ==>
                    && RectReadable(decoded.metadata.value)
                    && r.frame.metadata == Some(TrimmedMetadata(decoded.metadata.value))
                    && r.frame.image.width == decoded.image.width - 4
                    && r.frame.image.height == decoded.image.height - 4)
  {
    var r := Calibrate(inputFile, outFile, profile, onlyNew, decoded, env, ops);
    if r.Saved? {
      assert r.frame == Pipeline(inputFile, profile, decoded, env, ops).value;
    }
  }

  /** At scale factor 1 the rectangle [1, 1, W, H] selects the whole W × H calibration
      images, so aligning leaves them as they are. */
  lemma FullFrameAligned(md: Metadata, flat: Raster, mask: Raster, width: nat, height: nat)
    requires md == Metadata(1, Some([1.0, 1.0, width as real, height as real]))
    requires flat.WellFormed() && flat.width == width && flat.height == height
    requires mask.WellFormed() && mask.width == width && mask.height == height
    ensures Aligned(Some(md), flat, mask) == Done((flat, mask))
  {
    assert AsUsize(1.0) == 1;
    assert AsUsize(width as real) == width && AsUsize(height as real) == height;
    assert CropWindow(md.subframeRect.value, 1) == Done(Window(0, 0, width, height));
    CropWholeImage(flat);
    CropWholeImage(mask);
  }

  /** A full-sensor frame at scale factor 1 passes every stage: a single-band W × H image
      (W, H >= 4) whose subframe rectangle is [1, 1, W, H], with the decompanding table
      available when it is wanted and a non-empty W × H flat field and mask, is saved. */
  lemma FullFrameSaved(inputFile: string, outFile: string, profile: CalProfile, onlyNew: bool,
                       decoded: Frame, env: Environment, ops: PixelOps, width: nat, height: nat)
    requires env.Valid() && ops.ShapePreserving()
    requires width >= 4 && height >= 4
    requires decoded.image.width == width && decoded.image.height == height
    requires decoded.image.WellFormed() && decoded.image.IsGrayscale()
    requires decoded.metadata == Some(Metadata(1, Some([1.0, 1.0, width as real, height as real])))
    requires !(outFile in env.existing && onlyNew)
    requires profile.applyIlt ==> ResolveInstrument(inputFile) in env.luts
    requires var flat := LoadCalibration(env, ResolveInstrument(inputFile), FlatField, 1);
             flat.Done? && flat.value.width == width && flat.value.height == height
    requires var mask := LoadCalibration(env, ResolveInstrument(inputFile), Mask, 1);
             mask.Done? && !mask.value.IsEmpty() && mask.value.width == width && mask.value.height == height
    ensures Calibrate(inputFile, outFile, profile, onlyNew, decoded, env, ops).Saved?
  {
    var instrument := ResolveInstrument(inputFile);
    var developed := Developed(decoded.image, profile, instrument, env.luts, ops);
    assert developed.Done?;
    var flat := LoadCalibration(env, instrument, FlatField, 1).value;
    var mask := LoadCalibration(env, instrument, Mask, 1).value;
    FullFrameAligned(decoded.metadata.value, flat, mask, width, height);
    assert Masked(developed.value.0, mask).Done?;
  }

  /** The saved full-sensor frame is a three-band (W-4) × (H-4) image whose rectangle is
      [3, 3, W-2, H-2]. */
  lemma FullFrameCalibration(inputFile: string, outFile: string, profile: CalProfile, onlyNew: bool,
                             decoded: Frame, env: Environment, ops: PixelOps, width: nat, height: nat)
    requires env.Valid() && ops.ShapePreserving()
    requires width >= 4 && height >= 4
    requires decoded.image.width == width && decoded.image.height == height
    requires decoded.image.WellFormed() && decoded.image.IsGrayscale()
    requires decoded.metadata == Some(Metadata(1, Some([1.0, 1.0, width as real, height as real])))
    requires !(outFile in env.existing && onlyNew)
    requires profile.applyIlt ==> ResolveInstrument(inputFile) in env.luts
    requires var flat := LoadCalibration(env, ResolveInstrument(inputFile), FlatField, 1);
             flat.Done? && flat.value.width == width && flat.value.height == height
    requires var mask := LoadCalibration(env, ResolveInstrument(inputFile), Mask, 1);
             mask.Done? && !mask.value.IsEmpty() && mask.value.width == width && mask.value.height == height
    ensures var r := Calibrate(inputFile, outFile, profile, onlyNew, decoded, env, ops);
            && r.Saved?
            && r.frame.image.width == width - 4 && r.frame.image.height == height - 4
            && |r.frame.image.bands| == 3
            && r.frame.metadata == Some(Metadata(1, Some([3.0, 3.0, width as real - 2.0, height as real - 2.0])))
  {
    FullFrameSaved(inputFile, outFile, profile, onlyNew, decoded, env, ops, width, height);
    CalibratedGeometry(inputFile, outFile, profile, onlyNew, decoded, env, ops);
    FullFrameTrimmedMetadata(width, height);
  }

  /** The full-frame rectangle [1, 1, W, H] at scale factor 1 is trimmed to [3, 3, W-2, H-2]. */
  lemma FullFrameTrimmedMetadata(width: nat, height: nat)
    ensures TrimmedMetadata(Metadata(1, Some([1.0, 1.0, width as real, height as real])))
              == Metadata(1, Some([3.0, 3.0, width as real - 2.0, height as real - 2.0]))
  {
  }

  /** The full-frame case for the 1024 × 1024 engineering-camera sensor: the rectangle
      [1, 1, 1024, 1024] becomes [3, 3, 1022, 1022] and the image 1020 × 1020. */
  lemma FullSensorExample(inputFile: string, outFile: string, profile: CalProfile,
                          decoded: Frame, env: Environment, ops: PixelOps)
    requires env.Valid() && ops.ShapePreserving()
    requires decoded.image.width == 1024 && decoded.image.height == 1024
    requires decoded.image.WellFormed() && decoded.image.IsGrayscale()
    requires decoded.metadata == Some(Metadata(1, Some([1.0, 1.0, 1024.0, 1024.0])))
    requires profile.applyIlt ==> ResolveInstrument(inputFile) in env.luts
    requires var flat := LoadCalibration(env, ResolveInstrument(inputFile), FlatField, 1);
             flat.Done? && flat.value.width == 1024 && flat.value.height == 1024
    requires var mask := LoadCalibration(env, ResolveInstrument(inputFile), Mask, 1);
             mask.Done? && !mask.value.IsEmpty() && mask.value.width == 1024 && mask.value.height == 1024
    ensures var r := Calibrate(inputFile, outFile, profile, false, decoded, env, ops);
            && r.Saved?
            && r.frame.image.width == 1020 && r.frame.image.height == 1020
            && r.frame.metadata == Some(Metadata(1, Some([3.0, 3.0, 1022.0, 1022.0])))
  {
    FullFrameCalibration(inputFile, outFile, profile, false, decoded, env, ops, 1024, 1024);
  }
}
