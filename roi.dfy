/** The region-of-interest engine of pilroi/roi.py: rectangular 0/1 masks (`make_roi`),
    masked sums per scan point (`roi_extract`), masks that follow each point's peak
    column (`roi_track_cen`) and the nearest-value lookup (`get_idx`). */
module Roi {
  import opened Wrappers
  import opened Grid
  import Scans

  /** Cell (y, x) is set by `make_roi`: the centre, or within `width // 2` columns and
      `height // 2` rows of it (Dafny's `/` by 2 is Python's floor division `// 2`). */
  predicate InRoi(y: int, x: int, cenx: int, ceny: int, height: int, width: int)
  {
    (y == ceny && x == cenx)
    || (cenx - width / 2 <= x <= cenx + width / 2 && ceny - height / 2 <= y <= ceny + height / 2)
  }

  /** Every index `make_roi` writes lies inside an (h, w) array: the centre always, and the
      whole rectangle when its loops run (both sizes non-negative). Outside this, numpy
      would wrap negative indices or raise on large ones. */
  predicate WindowFits(h: nat, w: nat, cenx: int, ceny: int, height: int, width: int)
  {
    0 <= ceny < h && 0 <= cenx < w
    && (0 <= height && 0 <= width ==>
          0 <= cenx - width / 2 && cenx + width / 2 < w && 0 <= ceny - height / 2 && ceny + height / 2 < h)
  }

  /** The mask `make_roi` returns, as a value. */
  function Mask(h: nat, w: nat, cenx: int, ceny: int, height: int, width: int): (m: Matrix)
    ensures HasShape(m, h, w)
  {
    seq(h, y requires 0 <= y < h =>
      seq(w, x requires 0 <= x < w => if InRoi(y, x, cenx, ceny, height, width) then 1.0 else 0.0))
  }

  function Abs(x: real): real
  {
    if x < 0.0 then -x else x
  }

  /** `make_roi(im_dim, cenx, ceny, height, width)`: a zeroed (h, w) array whose centre cell
      is set, and then every cell of the rectangle, column by column. */
  method MakeRoi(h: nat, w: nat, cenx: int, ceny: int, height: int, width: int) returns (roi: Matrix)
    requires WindowFits(h, w, cenx, ceny, height, width)
    ensures roi == Mask(h, w, cenx, ceny, height, width)
  {
    var a := new real[h, w]((_, _) => 0.0);
    var relWidth := width / 2;
    var relHeight := height / 2;
    a[ceny, cenx] := 1.0;
    var x0, x1 := cenx - relWidth, cenx + relWidth + 1;
    var y0, y1 := ceny - relHeight, ceny + relHeight + 1;
    var x := x0;
    while x < x1
      invariant x == x0 || x0 < x <= x1
      invariant forall yy, xx :: 0 <= yy < h && 0 <= xx < w ==>
                  a[yy, xx] == if (yy == ceny && xx == cenx) || (x0 <= xx < x && y0 <= yy < y1) then 1.0 else 0.0
    {
      var y := y0;
      while y < y1
        invariant y == y0 || y0 < y <= y1
        invariant forall yy, xx :: 0 <= yy < h && 0 <= xx < w ==>
                    a[yy, xx] == if (yy == ceny && xx == cenx) || (x0 <= xx < x && y0 <= yy < y1)
                                    || (xx == x && y0 <= yy < y) then 1.0 else 0.0
      {
        a[y, x] := 1.0;
        y := y + 1;
      }
      assert y0 <= y1 ==> y == y1;
      forall yy, xx | 0 <= yy < h && 0 <= xx < w
        ensures a[yy, xx] == if (yy == ceny && xx == cenx) || (x0 <= xx < x + 1 && y0 <= yy < y1) then 1.0 else 0.0
      {
        if y0 <= y1 {
          assert (x0 <= xx < x + 1 && y0 <= yy < y1) <==> (x0 <= xx < x && y0 <= yy < y1) || (xx == x && y0 <= yy < y);
        } else {
          assert !(y0 <= yy < y1) && !(y0 <= yy < y);
        }
      }
      x := x + 1;
    }
    assert x == x1 || (x == x0 && x1 < x0);
    roi := seq(h, y requires 0 <= y < h reads a => seq(w, x requires 0 <= x < w reads a => a[y, x]));
    var m := Mask(h, w, cenx, ceny, height, width);
    forall yy | 0 <= yy < h
      ensures roi[yy] == m[yy]
    {
      forall xx | 0 <= xx < w
        ensures roi[yy][xx] == m[yy][xx]
      {
        assert roi[yy][xx] == a[yy, xx];
        assert InRoi(yy, xx, cenx, ceny, height, width)
               == ((yy == ceny && xx == cenx) || (x0 <= xx < x1 && y0 <= yy < y1));
      }
    }
  }

  /** The mask has the frame's shape and holds only zeros and ones. */
  lemma MaskIsBinary(h: nat, w: nat, cenx: int, ceny: int, height: int, width: int)
    ensures HasShape(Mask(h, w, cenx, ceny, height, width), h, w)
    ensures forall y, x :: 0 <= y < h && 0 <= x < w ==>
              Mask(h, w, cenx, ceny, height, width)[y][x] in {0.0, 1.0}
  {
  }

  /** The centre pixel is always set. */
  lemma MaskCentre(h: nat, w: nat, cenx: int, ceny: int, height: int, width: int)
    requires WindowFits(h, w, cenx, ceny, height, width)
    ensures Mask(h, w, cenx, ceny, height, width)[ceny][cenx] == 1.0
  {
  }

  /** With non-negative sizes, a cell is set exactly when it is at most `width // 2`
      columns and `height // 2` rows from the centre, both ends included. */
  lemma MaskRectangle(h: nat, w: nat, cenx: int, ceny: int, height: int, width: int, y: nat, x: nat)
    requires 0 <= height && 0 <= width && y < h && x < w
    ensures (Mask(h, w, cenx, ceny, height, width)[y][x] == 1.0)
              <==> (Abs((x - cenx) as real) <= (width / 2) as real && Abs((y - ceny) as real) <= (height / 2) as real)
  {
  }

  /** Each row of a fitting mask holds 2 * (width // 2) + 1 ones if it crosses the
      rectangle and none otherwise. */
  lemma MaskRowSum(h: nat, w: nat, cenx: int, ceny: int, height: int, width: int, y: nat)
    requires WindowFits(h, w, cenx, ceny, height, width) && 0 <= height && 0 <= width && y < h
    ensures Sum(Mask(h, w, cenx, ceny, height, width)[y])
              == if ceny - height / 2 <= y <= ceny + height / 2 then (2 * (width / 2) + 1) as real else 0.0
  {
    var row := Mask(h, w, cenx, ceny, height, width)[y];
    var rw := width / 2;
    if ceny - height / 2 <= y <= ceny + height / 2 {
      BlockSum(row, cenx - rw, cenx + rw + 1, 1.0);
    } else {
      BlockSum(row, 0, 0, 1.0);
    }
  }

  /** A mask that fits holds (2 * (height // 2) + 1) * (2 * (width // 2) + 1) ones, which is
      height * width for the odd sizes the function is meant for. */
  lemma MaskCount(h: nat, w: nat, cenx: int, ceny: int, height: int, width: int)
    requires WindowFits(h, w, cenx, ceny, height, width) && 0 <= height && 0 <= width
    ensures Total(Mask(h, w, cenx, ceny, height, width))
              == ((2 * (height / 2) + 1) * (2 * (width / 2) + 1)) as real
    ensures height % 2 == 1 && width % 2 == 1 ==>
              Total(Mask(h, w, cenx, ceny, height, width)) == (height * width) as real
  {
    var m := Mask(h, w, cenx, ceny, height, width);
    var rh := height / 2;
    var cols: nat := 2 * (width / 2) + 1;
    var rows := RowSums(m);
    forall y | 0 <= y < h
      ensures rows[y] == if ceny - rh <= y < ceny + rh + 1 then cols as real else 0.0
    {
      MaskRowSum(h, w, cenx, ceny, height, width, y);
    }
    BlockSum(rows, ceny - rh, ceny + rh + 1, cols as real);
    assert Total(m) == ((2 * rh + 1) * cols) as real;
  }

  /** The ROI argument of `roi_extract`: one mask for every point, or a list of masks
      whose i-th entry serves point i. */
  datatype RoiArg = Single(mask: Matrix) | PerPoint(masks: seq<Matrix>)

  /** The mask applied to point i. */
  function MaskFor(roi: RoiArg, i: nat): Matrix
    requires roi.PerPoint? ==> i < |roi.masks|
  {
    match roi
    case Single(m) => m
    case PerPoint(ms) => ms[i]
  }

  /** `(crop * roi).sum().sum()`: the intensity under the mask. */
  function MaskedSum(frame: Matrix, mask: Matrix): real
    requires SameShape(frame, mask)
  {
    Total(Product(frame, mask))
  }

  /** `roi_extract(scan, roi)`: one masked sum per scan point, in scan order. */
  method RoiExtract(s: Scans.Scan, roi: RoiArg) returns (signal: seq<real>)
    requires s.Valid() && s.cropped
    requires roi.PerPoint? ==> s.Length() <= |roi.masks|
    requires forall i :: 0 <= i < s.Length() ==> SameShape(s.crop[i], MaskFor(roi, i))
    ensures |signal| == s.Length()
    ensures forall i :: 0 <= i < s.Length() ==> signal[i] == MaskedSum(s.crop[i], MaskFor(roi, i))
  {
    var crops := s.crop;
    signal := [];
    if roi.PerPoint? {
      for index := 0 to |crops|
        invariant |signal| == index
        invariant forall j :: 0 <= j < index ==> signal[j] == MaskedSum(crops[j], roi.masks[j])
      {
        signal := signal + [MaskedSum(crops[index], roi.masks[index])];
      }
    } else {
      for index := 0 to |crops|
        invariant |signal| == index
        invariant forall j :: 0 <= j < index ==> signal[j] == MaskedSum(crops[j], roi.mask)
      {
        signal := signal + [MaskedSum(crops[index], roi.mask)];
      }
    }
  }

  /** An all-ones mask integrates the whole crop. */
  lemma OnesMaskSumsAll(m: Matrix)
    ensures MaskedSum(m, OnesLike(m)) == Total(m)
  {
    var p := Product(m, OnesLike(m));
    forall r | 0 <= r < |m|
      ensures p[r] == m[r]
    {
      assert |p[r]| == |m[r]|;
    }
    assert p == m;
  }

  /** `roi_track_cen(scan, ceny, height, width)`: for every point, a mask shaped like its
      crop whose horizontal centre is that point's peak column, with the given vertical
      centre and size. */
  method RoiTrackCen(s: Scans.Scan, ceny: int, height: int, width: int) returns (rois: seq<Matrix>)
    requires s.Valid() && s.cropped
    requires forall i :: 0 <= i < s.Length() ==>
               WindowFits(|s.crop[i]|, Width(s.crop[i]), s.pxX[i], ceny, height, width)
    ensures |rois| == s.Length()
    ensures forall i :: 0 <= i < s.Length() ==>
              rois[i] == Mask(|s.crop[i]|, Width(s.crop[i]), s.pxX[i], ceny, height, width)
  {
    var crops, px := s.crop, s.pxX;
    rois := [];
    for index := 0 to |crops|
      invariant |rois| == index
      invariant forall j :: 0 <= j < index ==> rois[j] == Mask(|crops[j]|, Width(crops[j]), px[j], ceny, height, width)
    {
      var m := MakeRoi(|crops[index]|, Width(crops[index]), px[index], ceny, height, width);
      rois := rois + [m];
    }
  }

  /** An array that is zero except for the value v at (py, px) sums to v. */
  lemma SingleCellTotal(p: Matrix, py: nat, px: nat, v: real)
    requires py < |p| && px < |p[py]|
    requires forall r, c :: 0 <= r < |p| && 0 <= c < |p[r]| ==> p[r][c] == if r == py && c == px then v else 0.0
    ensures Total(p) == v
  {
    var rows := RowSums(p);
    forall r | 0 <= r < |p|
      ensures rows[r] == if r == py then v else 0.0
    {
      if r == py {
        BlockSum(p[r], px, px + 1, v);
      } else {
        BlockSum(p[r], 0, 0, v);
      }
    }
    BlockSum(rows, py, py + 1, v);
  }

  /** A tracked mask catches a lone hot pixel: if a crop is zero except for the value v at
      (py, px), the mask centred on column px whose rows reach row py integrates to v,
      wherever px lies in the crop. */
  lemma TrackedMaskCatchesPeak(m: Matrix, py: nat, px: nat, v: real, ceny: int, height: int, width: int)
    requires NonEmptyRect(m) && py < |m| && px < Width(m)
    requires forall r, c :: 0 <= r < |m| && 0 <= c < Width(m) && (r != py || c != px) ==> m[r][c] == 0.0
    requires m[py][px] == v
    requires WindowFits(|m|, Width(m), px, ceny, height, width)
    requires 0 <= height && 0 <= width && ceny - height / 2 <= py <= ceny + height / 2
    ensures MaskedSum(m, Mask(|m|, Width(m), px, ceny, height, width)) == v
  {
    var mask := Mask(|m|, Width(m), px, ceny, height, width);
    var p := Product(m, mask);
    forall r, c | 0 <= r < |p| && 0 <= c < |p[r]|
      ensures p[r][c] == if r == py && c == px then v else 0.0
    {
      assert |m[r]| == Width(m);
    }
    SingleCellTotal(p, py, px, v);
  }

  /** Index of a value nearest to `val` (the model takes the first; the source's
      `argsort` may return any of the tied indices, so the contract does not say which). */
  function NearestIndex(values: seq<real>, val: real): (k: nat)
    requires |values| > 0
    ensures k < |values|
    ensures forall j :: 0 <= j < |values| ==> Abs(values[k] - val) <= Abs(values[j] - val)
  {
    if |values| == 1 then 0
    else
      var k0 := NearestIndex(values[..|values| - 1], val);
      if Abs(values[|values| - 1] - val) < Abs(values[k0] - val) then |values| - 1 else k0
  }

  /** Column values [1.0, 2.5, 4.0] and target 2.6 give index 1. */
  lemma NearestExample()
    ensures NearestIndex([1.0, 2.5, 4.0], 2.6) == 1
  {
  }

  /** `col` names a column of frames: `raw` and `norm`, and `crop` once the scan is cropped. */
  predicate HoldsFrames(s: Scans.Scan, col: string)
    reads s
  {
    col == "raw" || col == "norm" || (s.cropped && col == "crop")
  }

  /** `get_idx(scan, col, val)`: the scan index whose value in `col` is nearest to `val`.
      A missing column raises KeyError (None). A column of frames can only be ordered
      when there is nothing to compare: a one-point scan gives index 0, a longer one
      raises in `argsort` (None). */
  function GetIdx(s: Scans.Scan, col: string, val: real): (idx: Option<nat>)
    reads s
    requires s.Valid() && s.Length() > 0
    ensures idx.None? <==> s.Column(col).None? && !(s.Length() == 1 && HoldsFrames(s, col))
    ensures idx.Some? ==> idx.value < s.Length()
    ensures s.Column(col).None? && idx.Some? ==> idx.value == 0
    ensures s.Column(col).Some? ==> idx.Some? && forall j :: 0 <= j < s.Length() ==>
              Abs(s.Column(col).value[idx.value] - val) <= Abs(s.Column(col).value[j] - val)
  {
    match s.Column(col)
    case None => if s.Length() == 1 && HoldsFrames(s, col) then Some(0) else None
    case Some(values) => Some(NearestIndex(values, val))
  }
}
