# pilroi scan and ROI core, modelled in Dafny

pilroi reduces the detector frames of a scanning diffraction measurement (Pilatus
images from SSRL beamlines 7-2 and 2-1) to one intensity per scan point. This project
models the part of it with real invariants:

- **foil attenuation** (`pilroi/data.py`, `foil_attenuation`): the foil-insertion code
  stored as a decimal number ("0011" stored as 11) is spelled out, left-padded with
  zeros to four digits, and turned into the factor `exp(sum(digit_i * foil_i))`
  (module `Foils`, imperative padding loop as a `method`);
- **scan assembly** (`create_scan`): beamline column selection, one attenuation factor
  per point, frames attached by position, `norm = raw * attenuation / monitor`
  (module `Scans`, the scan table as the class `Scan`, one sequence field per column);
- **cropping** (`crop_scan`): every normalised frame cut to columns `[lim1, lim2)`, and
  the (row, column) of its first largest pixel recorded in place (`Scan.Crop`);
- **crop-window suggestion** (`find_limits` without its plot): profile of the mean frame,
  its first arg-max, and the truncating `int(xmax -/+ window / 2)`;
- **frame ordering** (`image_paths`, `pdi_paths`): the sort key `int(x[-8:-4])` on names
  (module `FrameNames`);
- **regions of interest** (`pilroi/roi.py`): the 0/1 mask of `make_roi` built in a local
  array by two nested loops, masked sums of `roi_extract`, peak-following masks of
  `roi_track_cen`, and the nearest-value lookup of `get_idx` (module `Roi`).

Module `Grid` holds the numpy reductions these rely on: `sum`, element-wise product,
row-major flattening, `argmax` and `unravel_index`. Module `Wrappers` holds `Option`.

Reals stand for floats. `np.exp` is the parameter `exp` of the operations that use it.
Exceptions the source raises become an error value (`Created.Failed`, `Option.None`)
where callers can reach them, and preconditions where they are programming errors.

Where the code and its docstrings disagree, or where a reader might expect otherwise,
the model follows the code:
- the foil code is read in decimal, so digits 2..9 are accepted and weight their foil by
  the digit; a comment calls the code 4 bools, but nothing checks that it is a 0/1 mask;
- `make_roi` does not reject even or non-positive sizes, although its docstring asks for
  odd ones: an even size gives one more row or column than asked (`Roi.MaskCount`), a negative one gives only the centre pixel;
- `get_idx` orders with `argsort`, whose order among equal distances is not fixed, so no
  lowest-index tie rule is promised; a missing column is `None` (a `KeyError` in Python);
  a column of frames is `None` for scans of two or more points, which `argsort` cannot
  order, and index 0 for a one-point scan, where there is nothing to compare;
- `roi_extract` with a list of masks uses the first `len(scan)` masks and ignores the rest;
- the docstring allows only beamlines '72' and '21'; any other leaves `columns` unbound, which raises `NameError`
  (`ColumnsUnassigned`), and a missing metadata column raises `KeyError` (`MissingColumns`);
- `bl is '72'` is read as string equality, which is what it does for the interned
  literals callers pass.

## Model

| member | source | states |
|---|---|---|
| `Foils.Digits` | pilroi/data.py:144 | `str(code)` spelled as at least one decimal digit, each below 10 |
| `Foils.DigitsDenote` | pilroi/data.py:144 | the digits read back as a decimal number give the code |
| `Foils.DigitsCount` | pilroi/data.py:144-147 | a code has at most four digits exactly when it is below 10000 |
| `Foils.InsertZerosLayout` | pilroi/data.py:146-147 | `k` front insertions give `k` zeros followed by the unchanged digits |
| `Foils.PaddingNeverStops` | pilroi/data.py:146-147 | for a code of 10000 or more, no number of insertions reaches length 4: the loop does not end |
| `Foils.FoilBits` | pilroi/data.py:143-147 | the decoded list has four entries and, read as a decimal number, is the code again |
| `Foils.FoilBitsShape` | pilroi/data.py:140-147 | the decoded list has four digits, zeros in front, the code's digits after them, and still denotes the code |
| `Foils.ElevenDecodes` | pilroi/data.py:140-141 | the stored code 11 decodes to [0, 0, 1, 1] |
| `Foils.ExponentTerms` | pilroi/data.py:150-152 | the exponent is the sum of digit_i * foil_i over the four foils |
| `Foils.Attenuation` | pilroi/data.py:150-152 | the factor is exp of b0 * f0 + b1 * f1 + b2 * f2 + b3 * f3 over the decoded digits b and the coefficients f |
| `Foils.NoFoilNoAttenuation` | pilroi/data.py:150-152 | code 0 decodes to four zeros, exponent 0, factor exp(0) = 1 |
| `Foils.ElevenExponent` | pilroi/data.py:150-152 | code 11 with coefficients [0, 0, 0.1, 0.2] gives exp(0.3) |
| `Foils.FoilAttenuation` | pilroi/data.py:130-152 | the padding loop and the weighted sum return the attenuation factor of the code |
| `Scans.SelectColumns` | pilroi/data.py:173-180 | None gives no scan, '72' and '21' their column lists (both with monitor and foils), anything else leaves the columns unassigned |
| `Scans.Restrict` | pilroi/data.py:184 | the selected table keeps exactly the named columns present, with their values |
| `Scans.LayoutOfSelection` | pilroi/data.py:173-184 | a complete selection yields the 7-2 or the 2-1 column set |
| `Scans.FoilCode` | pilroi/data.py:190-191 | a foil-column entry decodes as the whole number it holds, below 10000 |
| `Scans.Normalize` | pilroi/data.py:194 | the normalised frame has the raw frame's shape |
| `Scans.NormalizeScalesTotal` | pilroi/data.py:194 | normalising multiplies a frame's total intensity by attenuation / monitor |
| `Scans.AttenuationColumn` | pilroi/data.py:190-191 | one factor per point, the i-th being the attenuation of the i-th foil code |
| `Scans.Scan.constructor` | pilroi/data.py:184 | a new scan holds the selected metadata and no frame columns |
| `Scans.CreateScan` | pilroi/data.py:155-196 | no scan iff no beamline; each failure iff its cause; otherwise a fresh valid uncropped scan with the selected metadata, the frames in order, per-point attenuation and normalised frames |
| `Scans.CropFrame` | pilroi/data.py:209 | the crop has every row and `lim2 - lim1` columns, cell (r, k) being cell (r, k + lim1) of the frame |
| `Scans.Scan.Crop` | pilroi/data.py:199-217 | adds the crop of every normalised frame and its first-maximum (row, column); metadata, attenuation, raw and normalised frames unchanged; validity kept |
| `Scans.Recrop` | pilroi/data.py:199-217 | cropping again with the same limits leaves crop, px_x and px_y as they were |
| `Grid.ArgMax` | pilroi/data.py:243 | an index of a largest element with every earlier element strictly smaller |
| `Grid.Unravel` | pilroi/data.py:214 | (row, column) with the column below the width and row * width + column the flat index |
| `Grid.Peak` | pilroi/data.py:214 | the unravelled arg-max is a (row, column) inside the frame |
| `Grid.PeakIsFirstMax` | pilroi/data.py:213-214 | the peak is inside the crop, holds a largest value, and every cell before it in row-major order is strictly smaller |
| `Scans.MeanFrame` | pilroi/data.py:241 | the mean of frames of one shape has that shape |
| `Scans.MeanOfCopies` | pilroi/data.py:241 | frames that are all copies of one frame average to that frame |
| `Scans.ColumnSums` | pilroi/data.py:241 | the row-axis sum has one entry per column |
| `Scans.ColumnSumsTotal` | pilroi/data.py:241 | the column sums add up to the sum of every element |
| `Scans.Profile` | pilroi/data.py:241 | the profile has one entry per detector column, and its entries add up to the total of the mean frame |
| `Scans.ProfileOfCopies` | pilroi/data.py:241 | when every normalised frame is the same frame, the profile is that frame's column sums |
| `Scans.Trunc` | pilroi/data.py:255-256 | `int()` truncates toward zero: below or at x for x >= 0, above or at x for x < 0, within one |
| `Scans.Limits` | pilroi/data.py:255-256 | each limit is its end `xmax -/+ window / 2` truncated toward zero (at or below a non-negative end and within one of it, at or above a negative end and within one of it); for a non-negative window they are `window` or `window - 1` apart, exactly `window` when the lower end is not negative |
| `Scans.LimitsSpanWindow` | pilroi/data.py:254-256 | for a whole centre at least half a window from column 0 the limits are `window` apart, enclose the centre, and end at centre + window // 2 |
| `Scans.OddWindowAtEdge` | pilroi/data.py:254-256 | centre 1 with window 3 gives (0, 2), one column short, because of truncation toward zero |
| `Scans.FindLimits` | pilroi/data.py:220-262 | for a non-negative window the suggested limits are `window` or `window - 1` apart |
| `Scans.FindLimitsAroundPeak` | pilroi/data.py:241-256 | without a centre the limits are those computed around the first largest profile column; away from the edge they enclose it and are `window` wide |
| `Scans.CenterOverride` | pilroi/data.py:245-256 | a centre of 0 is ignored; any other centre gives the limits computed around that centre, whatever the frames |
| `Scans.Scan.Column` | pilroi/roi.py:107 | the metadata column, the attenuation column, or (after cropping) px_x / px_y as reals, one entry per point; None exactly for any other name |
| `FrameNames.TailSlice` | pilroi/data.py:57 | `s[-8:-4]` is the four characters before the last four, or a clipped shorter slice |
| `FrameNames.ParseInt` | pilroi/data.py:57 | `int()` of a string of digits is the number they denote, and any accepted string of length k gives a value strictly between -10^k and 10^k |
| `FrameNames.SortKey` | pilroi/data.py:57 | four digits in front of the last four characters give their value as key; every key lies strictly between -10000 and 10000 |
| `FrameNames.FourDigitsParse` | pilroi/data.py:57 | `int()` of a zero-padded four-digit frame number gives the number |
| `FrameNames.RawNameKey` | pilroi/data.py:45-59 | a name ending in `####.raw` sorts by its frame number |
| `FrameNames.PdiNameKeyFails` | pilroi/data.py:62-75 | as written, a name ending in `####.raw.pdi` has no key: `int('.raw')` raises |
| `FrameNames.PdiNameKey` | pilroi/data.py:62-75 | the corrected key `int(x[-12:-8])` recovers the frame number of a `.raw.pdi` name |
| `Roi.Mask` | pilroi/roi.py:4-33 | the mask has the frame shape it is made for |
| `Roi.MakeRoi` | pilroi/roi.py:4-33 | the zeroed array with the centre set and the nested loops' rectangle set is the mask |
| `Roi.MaskIsBinary` | pilroi/roi.py:18-33 | every cell of the mask is 0 or 1 |
| `Roi.MaskCentre` | pilroi/roi.py:25-26 | the centre pixel is always 1 |
| `Roi.MaskRectangle` | pilroi/roi.py:21-32 | for non-negative sizes a cell is 1 iff it is within width // 2 columns and height // 2 rows of the centre |
| `Roi.MaskRowSum` | pilroi/roi.py:29-32 | a row crossing the rectangle holds 2 * (width // 2) + 1 ones, any other row none |
| `Roi.MaskCount` | pilroi/roi.py:14-32 | a fitting mask holds (2 * (height // 2) + 1) * (2 * (width // 2) + 1) ones, height * width for odd sizes |
| `Roi.RoiExtract` | pilroi/roi.py:36-66 | one value per point, the sum of crop times the point's mask (the single mask, or the list's entry at that index) |
| `Roi.OnesMaskSumsAll` | pilroi/roi.py:57-64 | an all-ones mask gives the total intensity of the crop |
| `Roi.RoiTrackCen` | pilroi/roi.py:69-91 | one mask per point, shaped like its crop and centred on its peak column px_x at row ceny |
| `Roi.TrackedMaskCatchesPeak` | pilroi/roi.py:69-91 | on a crop that is zero but for a hot pixel, the mask centred on the pixel's column integrates exactly the hot pixel |
| `Roi.NearestIndex` | pilroi/roi.py:107 | an index whose value is at least as close to the target as any other |
| `Roi.NearestExample` | pilroi/roi.py:107 | values [1.0, 2.5, 4.0] and target 2.6 give index 1 |
| `Roi.GetIdx` | pilroi/roi.py:94-111 | None iff the column is absent, or holds frames (raw, norm, crop) in a scan of two or more points; index 0 for a frame column of a one-point scan; otherwise a scan index whose value is nearest the target |

## Left out

- `read_scan_csv`, `read_raw`, `pdi_parse` and `_find_num` (file parsing) are not modelled: the table enters as columns of reals and the frames as a sequence of matrices.
- `glob.glob` in `image_paths` and `pdi_paths` is not modelled: names enter as strings, and only their sort key is modelled, not the sorting of a listing.
- Plotting in `find_limits` (`plt.subplots`, `semilogy`, `axvline`, `show`) and the `**kwargs` passed to it are left out as output only.
- Floating point is modelled by exact reals; `np.exp` is a parameter, so only properties that follow from `exp(0) = 1` or from the exponent are stated.
- `Scans.CreateScan`: requires non-zero monitor counts when the frames are normalised; numpy would give `inf` or `nan` frames for a zero count.
- `Scans.CreateScan`: the message printed when `bl` is None is left out as output only; the result is `NoScan`.
- `Scans.CreateScan`: requires, once the columns are selected, every foil entry to be a whole number below 10000, and models the `foils` column as integer-typed, as `str()` must spell it without a '.' for `int()` of each character to succeed; a float column (even `11.0`) raises ValueError in `int('.')`, and a code of 10000 or more makes `foil_attenuation` loop forever (`Foils.PaddingNeverStops`).
- `Scans.CreateScan`: the `SettingWithCopyWarning` guard (`.copy()`) has no counterpart: the new scan owns its columns.
- `Scans.Scan.Crop`: requires `lim1 < lim2` and frames at least `lim2` wide; numpy clips wider slices and `argmax` raises on an empty crop.
- `Scans.FindLimitsAroundPeak`: the closed form `x + window // 2 - window .. x + window // 2` is stated only for a peak at least half a window from column 0; nearer the edge the limits are still those of `Scans.Limits`, where truncation toward zero shifts the lower one (`Scans.OddWindowAtEdge`).
- `Scans.FindLimits`: the mean over an empty scan (NaN in pandas) is excluded; pandas' `mean` over an object column is modelled as the element-wise mean of the frames.
- `Roi.MakeRoi`: requires every index it writes to lie in the frame; numpy would wrap negative indices to the other edge and raise on large ones.
- `Roi.RoiExtract`: requires each mask to have its crop's shape; numpy would broadcast `crop * roi` over other compatible shapes (a single row or column, say) and raises on incompatible ones, neither of which is modelled.
- `Roi.RoiExtract`: requires a list of masks at least as long as the scan; a shorter list makes `roi[index]` raise IndexError, which is not modelled.
- `Roi.RoiExtract`: the scan index is taken as the positions 0 .. n-1 that `create_scan` produces; a re-indexed DataFrame is not modelled.
- `Roi.GetIdx`: requires a non-empty scan; on an empty one `row.index[0]` raises IndexError, which is not modelled.
- `Roi.GetIdx`: does not say which of several equally near indices is returned, because `argsort` does not fix it (the model takes the first).
- `FrameNames.ParseInt`: `int()` accepting underscores between digits, non-ASCII digits and non-ASCII whitespace is not modelled.

## Findings

| source | as written | input that shows it | evidently intended | confidence | as-written member | corrected member |
|---|---|---|---|---|---|---|
| pilroi/data.py:73 | `pdi_paths` sorts by `int(x[-8:-4])`, which on a `####.raw.pdi` name is the text `.raw` | any name such as `scan_0001.raw.pdi`: `int('.raw')` raises ValueError, so no folder of `.raw.pdi` files can be listed | the four digits before `.raw.pdi`, `int(x[-12:-8])` | high, not executed | `FrameNames.PdiNameKeyFails` | `FrameNames.PdiNameKey` |
