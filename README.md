# Mars 2020 engineering-camera calibration and the tuple codecs, in Dafny

This project models two parts of mars-raw-utils, a Rust tool that turns raw rover
images into calibrated products.

**The ECAM calibration routine** (`src/m20/ecam.rs`) calibrates one raw frame from a Mars 2020
engineering camera (Navcam, front Hazcam or rear Hazcam). The routine:

- skips the frame when its output exists and only new files are wanted;
- picks the camera from the first two characters of the file name;
- decompands the frame with the camera's lookup table and records `data_max`;
- debayers a single-band frame;
- loads the flat field and the mask for the frame's scale factor;
- crops both to the frame's subframe window;
- binarises the mask at the threshold 200 and multiplies it into bands 0 to 2;
- applies the flat field, the colour weights and 16-bit normalisation;
- trims 2 pixels from every edge when the frame has metadata.

**The tuple codecs** (`src/jsonfetch.rs`) convert between text and numbers.
`vec_to_str` writes numbers as `"(a,b,c)"` and `str_to_vec` reads such text
back. The serde adapter `tuple_format` stores an optional vector this way. The
reader `cahvor_format::deserialize` splits a camera model on `;` and chooses the
CAHV, CAHVOR or CAHVORE model by the number of parts.

Modules, one per concern:

- `Wrappers` — `Option`, and `Outcome` (a value, or a panic).
- `Strings` — Rust's `trim`, `split`, `replace` and decimal formatting, with the split/join
  and replace lemmas the proofs use.
- `JsonFetch` — `vec_to_str` (`VecToStr`) and `str_to_vec` (`StrToVec`), both as loops proved
  against the functions `TupleText` and `ParseTuple`, and their round trip.
- `TupleFormat` — the `tuple_format` adapter and its round trip.
- `CahvorFormat` — the `cahvor_format` reader: the segment loop (`CollectParts`), the
  part-count dispatch (`ModelFromParts`) and a round trip from tuple texts.
- `Enums` — the instruments and calibration-file kinds.
- `Imaging` — sciimg's `Image` and the routine's `MarsImage`, both as classes updated in
  place. The module also holds their values (`Raster`, `Frame`), crop, band multiply, the
  lookup table, and the pixel arithmetic, which is passed in as a parameter.
- `Ecam` — the routine. Each stage is a pure function: `Developed`, `LoadCalibration`,
  `Aligned`, `Masked`, `Finished` and `Trimmed`. `Corrected`, `Pipeline` and `Calibrate`
  compose them. `ProcessFile` works step by step on a `MarsImage`, as the source does, through
  `SelectInstrument`, `Develop`, `LoadCalibrationImage` and `Correct`. `Correct` in turn runs
  `AlignCalibration`, `ApplyMask`, `Finish` and `TrimBorder`. Each method's postcondition ties
  it to its stage function, and `ProcessFile` produces `Calibrate`'s outcome.

Panics in the source are outcomes in the model, not preconditions. These are:
`unwrap` on a missing table or an unreadable calibration file, out-of-range `rect[i]` or
`get_band(i)`, `usize` subtraction below zero, division by a zero scale factor, a crop
outside a band, and a band multiply of unequal sizes. A run ends as
`Skipped`, `Saved` or `Aborted(reason)`.

Behaviours of the code worth noting:

- The border trim happens whenever the frame has metadata, at any scale factor, with or
  without a subframe rectangle. Only the rectangle update depends on scale factor 1
  and a rectangle being present.
- The rectangle becomes `[x+2, y+2, w-2, h-2]`, while the image loses 4 pixels in each
  dimension. For a full 1024 × 1024 frame with rectangle `[1, 1, 1024, 1024]` the result
  is `[3, 3, 1022, 1022]` on a 1020 × 1020 image (`Ecam.FullSensorExample`).
- Binarising the mask is not idempotent: a binarised mask binarises to all zeros, because 1 is
  not above 200 (`Ecam.BinarisedIdempotentOnlyWhenDark`).
- A missing decompanding table panics (`unwrap`); it does not skip decompanding.
  A calibration file that is known but cannot be read also panics. Only a camera with
  no known calibration file degrades to an empty image.

## Model

| member | source | states |
|---|---|---|
| `Ecam.AcceptsInstrument` | src/m20/ecam.rs:29-39 | an instrument is accepted iff it is a Navcam, a front Hazcam or a rear Hazcam (left or right) |
| `Ecam.CharAt` | src/m20/ecam.rs:56-82 | a character is found iff the position lies inside the file name after the last '/'; it is the path's character at that place in the name, never '/' |
| `Ecam.ResolveInstrument` | src/m20/ecam.rs:53-83 | the camera chosen for a path is accepted; it is a front Hazcam iff the file name starts with 'F', a rear Hazcam iff with 'R', and a left camera iff the name starts with 'N', 'F' or 'R' followed by 'L' |
| `Ecam.AcceptedExactlyWhenResolvable` | src/m20/ecam.rs:29-39 | the accepted instruments are exactly the six Navcam/Hazcam cameras the file-name rule can produce |
| `Ecam.InstrumentFor` | src/m20/ecam.rs:53-83 | the camera chosen from the first two file-name characters is accepted; its family is front Hazcam iff the first file-name character is 'F', rear Hazcam iff 'R', Navcam otherwise; it is a left camera iff the first character is 'N', 'F' or 'R' and the second is 'L' |
| `Ecam.SelectInstrument` | src/m20/ecam.rs:53-83 | the reassignment chain starting from the right Navcam ends at the instrument the file-name rule resolves |
| `Ecam.FileNameFor` | src/m20/ecam.rs:56-82 | every accepted instrument has a file name that resolves to it |
| `Ecam.BaseName` | src/m20/ecam.rs:56 | the file name whose characters are inspected is the suffix of the path after its last '/', and contains no '/' |
| `Ecam.Decompanded` | src/m20/ecam.rs:91-98 | without `apply_ilt` the image is untouched and `data_max` is 255; with it the run panics iff the instrument has no table, otherwise the bands are decompanded and `data_max` is the table's maximum (no entry above it, and attained) |
| `Ecam.Developed` | src/m20/ecam.rs:91-104 | decompanding and debayering keep the image well formed and its size; a single-band image comes out with 3 bands, any other keeps its band count; panic iff the table is wanted and missing |
| `Ecam.Develop` | src/m20/ecam.rs:91-104 | the in-place decompand/debayer steps leave the image `Developed` describes and return its `data_max`, or report its panic |
| `Ecam.ScaleFactor` | src/m20/ecam.rs:107-111 | the metadata's scale factor, and 1 when the frame has no metadata |
| `Ecam.CalibrationPath` | src/m20/ecam.rs:112-120 | after the replacement no "-scalefactor-" is left in the path |
| `Ecam.CalibrationPathSubstitutes` | src/m20/ecam.rs:112-120 | for any template "a-scalefactor-b" whose first marker follows `a`, the path is "a" + "sf" + the decimal scale factor + the path of "b", so every marker is replaced left to right; a template without the marker is unchanged |
| `Ecam.LoadCalibration` | src/m20/ecam.rs:114-160 | no known calibration file gives the empty image; a known one gives the image at the substituted path, or a panic naming that path when it cannot be read; loading succeeds iff the file is unknown or readable |
| `Ecam.LoadCalibrationImage` | src/m20/ecam.rs:115-160 | the loading code yields what `LoadCalibration` specifies |
| `Ecam.AsUsize` | src/m20/ecam.rs:165-168 | `as usize` of a non-positive value is 0, of a positive one its integer part r with r ≤ x < r + 1 |
| `Ecam.CropWindow` | src/m20/ecam.rs:164-168 | the window is computed iff the rectangle has four entries, x and y are at least 1 and the scale factor is non-zero; its fields are the floor quotients ((x-1)/sf, (y-1)/sf, w/sf, h/sf) |
| `Ecam.FloorDiv` | src/m20/ecam.rs:165-168 | `usize` division by a non-zero scale factor gives the floor quotient q, with q·sf ≤ n < (q+1)·sf |
| `Ecam.ScaledWindow` | src/m20/ecam.rs:165-168 | each field of the window is the floor quotient of the corresponding rectangle value by the scale factor |
| `Ecam.CropWindowFits` | src/m20/ecam.rs:162-177 | a subframe inside a W × H sensor gives a window inside W/sf × H/sf, so a calibration image of that size is never cropped out of bounds |
| `Ecam.FloorDivSum` | src/m20/ecam.rs:165-168 | a/s + b/s ≤ c/s when a + b ≤ c, the floor-division fact the window bound rests on |
| `Ecam.CropStage` | src/m20/ecam.rs:164-177 | the stage succeeds iff the window fits the image, and then gives exactly that crop, well formed; otherwise it panics |
| `Ecam.Aligned` | src/m20/ecam.rs:162-182 | without metadata or rectangle both images pass unchanged; otherwise alignment succeeds iff the window is computable, the flat field fits it and the mask is empty or fits it, and then the flat field is cropped to it and the mask only when it is not empty |
| `Ecam.AlignCalibration` | src/m20/ecam.rs:162-182 | the in-place crops leave the flat field and the mask `Aligned` describes, or report its panic |
| `Ecam.Binarised` | src/m20/ecam.rs:13-26 | same length; a sample is 1 iff the mask exceeds 200 and 0 iff it is at most 200 |
| `Ecam.CreateAdjustedMask` | src/m20/ecam.rs:13-26 | the clone-and-overwrite loop yields the binarised mask |
| `Ecam.BinarisedIdempotentOnlyWhenDark` | src/m20/ecam.rs:16-23 | binarising twice gives all zeros, so binarising is idempotent on a mask iff no sample exceeds 200 |
| `Ecam.Masked` | src/m20/ecam.rs:184-192 | an empty mask changes nothing; otherwise success iff the image has 3 bands and the mask's size; bands 0 to 2 keep a pixel where the mask exceeds 200 and are 0 elsewhere, other bands and the size are unchanged |
| `Ecam.ApplyMask` | src/m20/ecam.rs:184-192 | the three in-place `set_band` multiplies leave the image `Masked` describes, or report its panic |
| `Ecam.Weighted` | src/m20/ecam.rs:195-202 | colour weights apply to a multi-band image and never to a single-band one |
| `Ecam.Normalized` | src/m20/ecam.rs:204-210 | decorrelated normalisation with `decorrelate_color`, normalisation against `data_max` otherwise |
| `Ecam.Finished` | src/m20/ecam.rs:193-210 | flat field, weights and normalisation keep the image well formed, its size and its band count |
| `Ecam.Finish` | src/m20/ecam.rs:193-210 | the in-place flat/weight/normalise steps leave the image `Finished` describes |
| `Ecam.TrimmedMetadata` | src/m20/ecam.rs:213-221 | scale factor 1 with a rectangle [x, y, w, h] gives exactly [x+2, y+2, w-2, h-2]; otherwise the metadata is unchanged |
| `Ecam.Trimmed` | src/m20/ecam.rs:212-225 | without metadata nothing changes; with metadata the run panics iff the image is under 4 pixels wide or high, else the image is the window at (2, 2) of size (w-4) × (h-4) of every band and the metadata is trimmed |
| `Ecam.TrimBorder` | src/m20/ecam.rs:212-225 | the in-place metadata update and crop leave the frame `Trimmed` describes, or report its panic |
| `Ecam.Corrected` | src/m20/ecam.rs:162-225 | a corrected frame is well formed and keeps the developed band count; without metadata it keeps the size and has no metadata, with metadata it is 4 pixels smaller in each dimension and carries the trimmed metadata |
| `Ecam.Correct` | src/m20/ecam.rs:162-225 | the in-place blocks after loading (align, mask, flat, weights, normalise, trim) leave the frame the stage functions compose to, or report the first panic |
| `Ecam.Pipeline` | src/m20/ecam.rs:53-225 | a wanted but missing decompanding table aborts with that panic; a finished run could read every known calibration file of its camera; its image is well formed, has 3 bands from a single-band input and the input's band count otherwise, keeps its size without metadata, and with metadata is 4 pixels smaller in each dimension and carries the trimmed metadata |
| `Ecam.Calibrate` | src/m20/ecam.rs:47-51 | the run is skipped iff the output exists and only new files are wanted; a skipped or saved run names the output path |
| `Ecam.ProcessFile` | src/m20/ecam.rs:41-233 | the step-by-step routine on `MarsImage`/`Image` objects ends exactly as `Calibrate` specifies |
| `Ecam.CalibratedGeometry` | src/m20/ecam.rs:101-225 | a saved image is well formed, has 3 bands from a single-band input and the input's band count otherwise, keeps its size without metadata, and with metadata is 4 pixels smaller in each dimension and carries the trimmed metadata |
| `Ecam.FullFrameAligned` | src/m20/ecam.rs:162-182 | at scale factor 1 the rectangle [1, 1, W, H] leaves W × H calibration images as they are |
| `Ecam.FullFrameSaved` | src/m20/ecam.rs:41-233 | a single-band W × H frame (W, H ≥ 4) with rectangle [1, 1, W, H] at scale factor 1, its table, and W × H flat field and non-empty mask passes every stage and is saved |
| `Ecam.FullFrameCalibration` | src/m20/ecam.rs:91-225 | a single-band W × H frame (W, H ≥ 4) at scale factor 1 with rectangle [1, 1, W, H], its table and W × H flat field and mask is saved as a 3-band (W-4) × (H-4) image with rectangle [3, 3, W-2, H-2] |
| `Ecam.FullFrameTrimmedMetadata` | src/m20/ecam.rs:213-221 | the full-frame rectangle [1, 1, W, H] at scale factor 1 is trimmed to [3, 3, W-2, H-2] |
| `Ecam.FullSensorExample` | src/m20/ecam.rs:212-225 | the 1024 × 1024 full frame is saved as 1020 × 1020 with rectangle [3, 3, 1022, 1022] |
| `Imaging.EmptyRaster` | src/m20/ecam.rs:134 | the image made when no calibration file is known is empty and well formed |
| `Imaging.CropBand` | src/m20/ecam.rs:164-169 | the cropped band has w × h samples and pixel (col, row) is the source's pixel (x + col, y + row) |
| `Imaging.Cropped` | src/m20/ecam.rs:164-177 | the crop fails iff a non-empty image does not contain the window; a result has the window's size, the same band count and each band cropped |
| `Imaging.CropWholeImage` | src/m20/ecam.rs:164-169 | cropping to the whole image changes nothing |
| `Imaging.Multiply` | src/m20/ecam.rs:187 | the product of equal-length bands, sample by sample |
| `Imaging.LutMax` | src/m20/ecam.rs:95 | no entry of the table exceeds the result, and a non-empty table contains it |
| `Imaging.Image.constructor` | src/m20/ecam.rs:126 | a new image holds exactly the loaded raster |
| `Imaging.Image.Crop` | src/m20/ecam.rs:164-169 | `Image::crop` in place: succeeds iff `Cropped` does, and the image becomes the cropped raster or stays as it was |
| `Imaging.Image.SetBand` | src/m20/ecam.rs:186-191 | only band k is replaced |
| `Imaging.Image.NormalizeTo16BitDecorrelated` | src/m20/ecam.rs:206 | the bands become their decorrelated normalisation, the size is unchanged |
| `Imaging.Image.NormalizeTo16BitWithMax` | src/m20/ecam.rs:209 | the bands become their normalisation against the given maximum, the size is unchanged |
| `Imaging.MarsImage.Open` | src/m20/ecam.rs:85 | a fresh image holding the decoded frame and its metadata |
| `Imaging.MarsImage.Decompand` | src/m20/ecam.rs:94 | the bands become their decompanding with the table |
| `Imaging.MarsImage.DebayerWithMethod` | src/m20/ecam.rs:103 | the bands become the debayered bands for the method |
| `Imaging.MarsImage.ApplyFlat` | src/m20/ecam.rs:193 | the bands become the flat-fielded bands; the flat field is not modified |
| `Imaging.MarsImage.ApplyWeight` | src/m20/ecam.rs:197-201 | the bands become the weighted bands for the three scalars |
| `Imaging.MarsImage.Crop` | src/m20/ecam.rs:224 | the image is cropped in place as `Image.Crop` specifies; the metadata is untouched |
| `Strings.TrimStart` | src/jsonfetch.rs:58 | the result is a suffix, everything dropped is whitespace, and it does not start with whitespace |
| `Strings.TrimEnd` | src/jsonfetch.rs:58 | the result is a prefix, everything dropped is whitespace, and it does not end with whitespace |
| `Strings.Trim` | src/jsonfetch.rs:58 | the trimmed text is the infix of the text that starts after its leading whitespace, only whitespace lies before and after it, and it neither starts nor ends with whitespace |
| `Strings.TrimUnchanged` | src/jsonfetch.rs:58 | text without whitespace at either end is its own trim |
| `Strings.Split` | src/jsonfetch.rs:56 | there is at least one piece and no piece contains the separator |
| `Strings.JoinSplit` | src/jsonfetch.rs:56 | joining the pieces of a split with the separator gives back the text |
| `Strings.SplitJoin` | src/jsonfetch.rs:112 | splitting the join of separator-free pieces gives back the pieces |
| `Strings.SplitNoSeparator` | src/jsonfetch.rs:112 | text without the separator splits into itself alone |
| `Strings.ReplaceAll` | src/m20/ecam.rs:120 | text shorter than the pattern, and any text when the replacement equals the pattern, is unchanged |
| `Strings.ReplaceAllAbsent` | src/m20/ecam.rs:120 | replacing a pattern that does not occur changes nothing |
| `Strings.ReplaceAllAfterPrefix` | src/m20/ecam.rs:144 | when the pattern starts nowhere in the prefix, the prefix is copied, the occurrence right after it is replaced and replacement continues after it |
| `Strings.ReplaceAllLeavesNone` | src/m20/ecam.rs:120 | when the replacement lacks the pattern's first character and no tail of the pattern can begin it, no occurrence of the pattern is left |
| `Strings.Decimal` | src/m20/ecam.rs:112 | the decimal text of n is a non-empty run of digits, with no leading zero unless it is "0", whose value is n |
| `Strings.DecimalCanonical` | src/m20/ecam.rs:112 | every digit run without a leading zero is the decimal text of its value, so the text is unique |
| `JsonFetch.Formatted` | src/jsonfetch.rs:39-41 | one formatted text per item, in order |
| `JsonFetch.TerminatedIsJoinPlusComma` | src/jsonfetch.rs:39-45 | the builder's "item," texts are the comma-joined items plus one trailing comma, which `remove` drops |
| `JsonFetch.VecToStr` | src/jsonfetch.rs:36-49 | the builder loop yields "(" + the comma-joined formatted items + ")" |
| `JsonFetch.TupleText` | src/jsonfetch.rs:36-49 | the text is wrapped in parentheses, has a one-byte last character (so `str_to_vec` can strip it) and is "()" for the empty vector |
| `JsonFetch.Tokens` | src/jsonfetch.rs:53-56 | the tokens are at least one and join back to the text between the first and last character |
| `JsonFetch.ParseTokens` | src/jsonfetch.rs:57-66 | success iff every trimmed token is a number; the numbers are then the tokens' values, in order |
| `JsonFetch.ParseTuple` | src/jsonfetch.rs:51-67 | a successful read gives one number per comma-separated token, and never the empty vector |
| `JsonFetch.StrToVec` | src/jsonfetch.rs:51-67 | the strip/split/parse loop with early error return yields `ParseTuple` |
| `JsonFetch.TupleRoundTrip` | src/jsonfetch.rs:36-67 | a non-empty vector written by `vec_to_str` is read back by `str_to_vec` as the same vector, without panic |
| `JsonFetch.EmptyTupleRejected` | src/jsonfetch.rs:51-67 | "()" is rejected with `INVALID_FLOAT_VALUE` |
| `TupleFormat.Serialize` | src/jsonfetch.rs:248-259 | `None` is the unit value, `Some(v)` the string `vec_to_str(v)` |
| `TupleFormat.Deserialize` | src/jsonfetch.rs:261-276 | `None` iff the value is not a string or is "UNK"; panic iff another string cannot be stripped or parsed; otherwise `Some` of the parsed vector |
| `TupleFormat.RoundTrip` | src/jsonfetch.rs:248-276 | deserialising what was serialised gives the original, for `None` and every non-empty vector |
| `TupleFormat.EmptyVectorPanics` | src/jsonfetch.rs:255-271 | `Some` of the empty vector is serialised as "()", whose deserialisation panics |
| `CahvorFormat.SegmentPart` | src/jsonfetch.rs:116-125 | a segment without '(' gives a one-number part iff it is a number, and nothing otherwise; a segment with '(' panics iff it cannot be stripped or its tuple does not parse, and otherwise gives the parsed tuple; every part it gives is non-empty |
| `CahvorFormat.Parts` | src/jsonfetch.rs:112-126 | at most one part per segment, each non-empty |
| `CahvorFormat.PanicPersists` | src/jsonfetch.rs:115-126 | once a segment panics, the whole read panics |
| `CahvorFormat.ModelFromParts` | src/jsonfetch.rs:128-236 | 4 parts give CAHV, 6 CAHVOR, 9 CAHVORE, any other count the default model; the vectors are the parts in order and CAHVORE's linearity is the first number of the eighth part |
| `CahvorFormat.DecodeModel` | src/jsonfetch.rs:102-239 | a non-string gives the default model; a string panics iff one of its segments does; a model other than the default has no more vectors than the string has segments |
| `CahvorFormat.CollectParts` | src/jsonfetch.rs:110-126 | the segment loop collects the parts `Parts` specifies, or panics as it does |
| `CahvorFormat.Deserialize` | src/jsonfetch.rs:102-239 | a non-string gives the default model; a string gives the model of its parts |
| `CahvorFormat.TupleTextHasNoSemicolon` | src/jsonfetch.rs:36-49 | a tuple text never contains ';' |
| `CahvorFormat.PartsSnoc` | src/jsonfetch.rs:115-126 | a segment that gives a part appends it to the parts of the segments before it |
| `CahvorFormat.SegmentPartOfTupleText` | src/jsonfetch.rs:116-124 | the tuple text of a non-empty vector is a segment whose part is that vector |
| `CahvorFormat.PartsOfTupleTexts` | src/jsonfetch.rs:112-126 | tuple texts that each read back as their own vector are read back, one part per text, as the list of those vectors |
| `CahvorFormat.DecodeTupleTexts` | src/jsonfetch.rs:102-236 | the ';'-joined tuple texts of non-empty vectors decode to the model their count selects |

## Left out

- I/O is an input of the model: `MarsImage::open` is given the decoded frame, `path::file_exists` is
  the set `existing`, `load_image` is the map `images` and `calibfile` is a template map. The final
  `raw.save` is represented by the `Saved` outcome. The memcache caching of calibration images is
  not modelled.
- `util::append_file_name` is not part of this model; the output path is a parameter.
- `util::filename_char_at_pos` is not part of this model. It is modelled as the character at
  the position in the file name after the last '/', and "no character" when the name is shorter.
- The pixel arithmetic has no source here: `MarsImage::decompand`, `debayer_with_method`,
  `apply_flat`, `apply_weight` and the two normalisations. Each is a function parameter
  (`PixelOps`), assumed to keep band shapes (`ShapePreserving`). Debayering is assumed to give
  three full-size bands.
- `decompanding::get_ilt_for_instrument` is the map `luts`; the tables' contents are not modelled.
- Pixels are `real`, not `f32`. Rounding, NaN and infinities are not modelled; in the model a
  masked-out NaN sample becomes 0.
- `f64 as usize` is modelled for values up to the largest `usize`; saturation at the top is not.
  Overflow of `usize` subtraction is a panic, as in a debug build. A release build would wrap.
- sciimg's `Image::crop` is not part of this model. It is modelled as bounds-checked against
  every band. An image with no bands takes the window's size.
- sciimg's `multiply` is modelled as panicking on a size mismatch (the `unwrap` of its error).
- `f64` text is abstract (`NumberText`): `util::string_is_valid_f64`, `str::parse::<f64>` and
  `{}` formatting are parameters. The round-trip lemmas assume that formatted numbers parse back
  and contain no ',', ';', '(' or surrounding whitespace (`FaithfulNumberText`). Rust's
  formatting does this for finite values; NaN does not parse back equal.
- JsonFetch.StrToVec: requires its input to have at least two characters and a one-byte last
  character. `String::remove` panics otherwise; the callers `TupleFormat.Deserialize` and
  `CahvorFormat.SegmentPart` model that panic as an outcome.
- CahvorFormat.ModelFromParts: `Vector::from_vec(..).unwrap()` (which needs three numbers) is not
  modelled; a model holds its parts as read, so "1;2;3;4" gives a CAHV model where the source
  panics. The `parts.len() >= k` guards and `LINEARITY_PERSPECTIVE` are not modelled separately,
  because each is always satisfied in the arm that uses it.
- TupleFormat.Deserialize and CahvorFormat.DecodeModel: every JSON string is taken to reach the
  string branch. The source deserialises into a borrowed `&str`, which serde_json cannot give for a
  string holding escape sequences; the source then returns `None` or the default model, which the
  model does not capture.
- `cahvor_format::serialize` calls sciimg's `CameraModel::serialize`, which is not part of this
  model, so that direction is left out.
- `JsonFetcher` (HTTP fetching), the other binaries, `src/time.rs`, `src/m20/lmst.rs` and
  `src/lib.rs` are outside the modelled core. The `vprintln!`/`eprintln!` logging is left out.
- Enums: only the instruments and calibration-file kinds this routine meets are listed. The
  debayering method is an index (`DebayerMethod = nat`), because the routine only passes it on.
