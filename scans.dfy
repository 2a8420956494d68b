/** The scan table of pilroi/data.py: `create_scan` joins the selected metadata columns
    with the detector frames and the normalised frames, `crop_scan` adds the cropped
    frames and their peak pixels in place, and `find_limits` suggests a crop window.

    A pandas DataFrame whose columns are assigned in place becomes the class `Scan`
    with one sequence field per column, all indexed by the same scan position. */
module Scans {
  import opened Wrappers
  import opened Grid
  import Foils

  /** The metadata table read from the scan file, column by column. */
  datatype Table = Table(cols: map<string, seq<real>>, rows: nat)
  {
    /** Every column has one entry per row. */
    predicate WellFormed()
    {
      forall c :: c in cols ==> |cols[c]| == rows
    }
  }

  /** Metadata columns kept for beamline 7-2. */
  const Columns72: seq<string> := ["h", "k", "l", "monitor", "foils"]
  /** Metadata columns kept for beamline 2-1. */
  const Columns21: seq<string> := ["twotheta", "theta", "monitor", "foils", "normalized"]

  /** What the beamline argument of `create_scan` leads to: no scan at all (`bl` is
      None), a name error because `columns` was never bound (any other beamline), or
      the list of columns to keep. */
  datatype Selection = NoBeamline | Unassigned | Columns(names: seq<string>)

  function SelectColumns(bl: Option<string>): (sel: Selection)
    ensures sel.NoBeamline? <==> bl.None?
    ensures sel.Unassigned? <==> bl.Some? && bl.value != "72" && bl.value != "21"
    ensures bl == Some("72") ==> sel == Columns(Columns72)
    ensures bl == Some("21") ==> sel == Columns(Columns21)
    ensures sel.Columns? ==> "monitor" in sel.names && "foils" in sel.names
  {
    match bl
    case None => NoBeamline
    case Some(b) =>
      if b == "72" then Columns(Columns72)
      else if b == "21" then Columns(Columns21)
      else Unassigned
  }

  /** The column sets a scan can carry. */
  predicate KnownLayout(keys: set<string>)
  {
    keys == {"h", "k", "l", "monitor", "foils"}
    || keys == {"twotheta", "theta", "monitor", "foils", "normalized"}
  }

  /** The table has every column in `names` (`data[columns]` raises KeyError otherwise). */
  predicate HasColumns(table: Table, names: seq<string>)
  {
    forall c :: c in names ==> c in table.cols
  }

  /** `data[columns]`: the table restricted to the named columns. */
  function Restrict(table: Table, names: seq<string>): (sub: map<string, seq<real>>)
    ensures sub.Keys == (set c | c in names && c in table.cols)
    ensures forall c :: c in sub ==> sub[c] == table.cols[c]
  {
    map c | c in names && c in table.cols :: table.cols[c]
  }

  /** Either beamline's selection, once every column is present, gives a known layout. */
  lemma LayoutOfSelection(table: Table, names: seq<string>)
    requires names == Columns72 || names == Columns21
    requires HasColumns(table, names)
    ensures KnownLayout(Restrict(table, names).Keys)
  {
    var keys := Restrict(table, names).Keys;
    assert keys == set c | c in names;
    if names == Columns72 {
      assert keys == {"h", "k", "l", "monitor", "foils"};
    } else {
      assert keys == {"twotheta", "theta", "monitor", "foils", "normalized"};
    }
  }

  /** A foil-column entry the decoding accepts: a whole number of at most four digits. */
  predicate IsFoilCode(x: real)
  {
    0.0 <= x < 10000.0 && x.Floor as real == x
  }

  function FoilCode(x: real): (code: nat)
    requires IsFoilCode(x)
    ensures Foils.ValidCode(code) && code as real == x
  {
    x.Floor
  }

  /** `raw * attenuation / monitor` for one frame. */
  function Normalize(raw: Matrix, attenuation: real, monitor: real): (n: Matrix)
    requires monitor != 0.0
    ensures SameShape(n, raw)
  {
    seq(|raw|, r requires 0 <= r < |raw| =>
      seq(|raw[r]|, c requires 0 <= c < |raw[r]| => raw[r][c] * attenuation / monitor))
  }

  /** Normalising a frame scales its integrated intensity by attenuation / monitor,
      so any sum taken over normalised frames is the raw sum corrected for foils and flux. */
  lemma NormalizeScalesTotal(raw: Matrix, attenuation: real, monitor: real)
    requires monitor != 0.0
    ensures Total(Normalize(raw, attenuation, monitor)) == Total(raw) * (attenuation / monitor)
  {
    var n := Normalize(raw, attenuation, monitor);
    var k := attenuation / monitor;
    forall r, c | 0 <= r < |raw| && 0 <= c < |raw[r]|
      ensures n[r][c] == raw[r][c] * k
    {
      assert n[r][c] == raw[r][c] * attenuation / monitor;
    }
    TotalScaled(raw, n, k);
  }

  /** A frame `crop_scan` can crop to end at column `lim2`: it has a row, and no row is
      narrower than `lim2` (numpy would clip the slice, and `argmax` of an empty crop raises). */
  predicate Croppable(m: Matrix, lim2: nat)
  {
    0 < |m| && forall r :: 0 <= r < |m| ==> lim2 <= |m[r]|
  }

  /** `x[:, lim1:lim2]`: every row, columns lim1 .. lim2 - 1. */
  function CropFrame(m: Matrix, lim1: nat, lim2: nat): (c: Matrix)
    requires lim1 <= lim2 && Croppable(m, lim2)
    ensures HasShape(c, |m|, lim2 - lim1)
    ensures forall r, k :: 0 <= r < |m| && 0 <= k < lim2 - lim1 ==> c[r][k] == m[r][k + lim1]
  {
    seq(|m|, r requires 0 <= r < |m| => m[r][lim1..lim2])
  }

  /** `int(x)` on a float: truncation toward zero. */
  function Trunc(x: real): (t: int)
    ensures 0.0 <= x ==> t as real <= x < t as real + 1.0
    ensures x < 0.0 ==> t as real - 1.0 < x <= t as real
  {
    if x >= 0.0 then x.Floor else -((-x).Floor)
  }

  /** The crop limits `int(xmax - window / 2)` and `int(xmax + window / 2)`. Truncation
      toward zero keeps them exactly `window` apart unless the lower end is a negative
      fraction, where it rounds up and the window loses one column. */
  function Limits(xmax: real, window: int): (lims: (int, int))
    ensures var lo := xmax - window as real / 2.0;
      (0.0 <= lo ==> lims.0 as real <= lo < lims.0 as real + 1.0)
      && (lo < 0.0 ==> lims.0 as real - 1.0 < lo <= lims.0 as real)
    ensures var hi := xmax + window as real / 2.0;
      (0.0 <= hi ==> lims.1 as real <= hi < lims.1 as real + 1.0)
      && (hi < 0.0 ==> lims.1 as real - 1.0 < hi <= lims.1 as real)
    ensures 0 <= window ==> window - 1 <= lims.1 - lims.0 <= window
    ensures 0 <= window && 0.0 <= xmax - window as real / 2.0 ==> lims.1 - lims.0 == window
  {
    var lo, hi := xmax - window as real / 2.0, xmax + window as real / 2.0;
    assert hi - lo == window as real;
    (Trunc(lo), Trunc(hi))
  }

  /** Around a whole-numbered centre far enough from column 0, the limits enclose the
      centre and are exactly `window` apart; the upper limit is `xmax + window // 2`. */
  lemma LimitsSpanWindow(xmax: int, window: nat)
    requires window <= 2 * xmax
    ensures Limits(xmax as real, window).1 == xmax + window / 2
    ensures Limits(xmax as real, window).1 - Limits(xmax as real, window).0 == window
    ensures Limits(xmax as real, window).0 <= xmax <= Limits(xmax as real, window).1
  {
    var half := window / 2;
    if window % 2 == 0 {
      assert window as real / 2.0 == half as real;
    } else {
      assert window as real / 2.0 == half as real + 0.5;
    }
  }

  /** An odd window whose lower end falls in (-1, 0) is truncated up to 0 and comes out
      one column short: a centre of 1 with window 3 gives the limits (0, 2). */
  lemma OddWindowAtEdge()
    ensures Limits(1.0, 3) == (0, 2)
  {
  }

  /** Element-wise mean of frames that all have shape (h, w). */
  function MeanFrame(frames: seq<Matrix>, h: nat, w: nat): (m: Matrix)
    requires |frames| > 0
    requires forall i :: 0 <= i < |frames| ==> HasShape(frames[i], h, w)
    ensures HasShape(m, h, w)
  {
    seq(h, r requires 0 <= r < h =>
      seq(w, c requires 0 <= c < w =>
        PointSum(frames, h, w, r, c) / |frames| as real))
  }

  /** Frames that are all copies of `f` average to `f`. */
  lemma MeanOfCopies(frames: seq<Matrix>, f: Matrix, h: nat, w: nat)
    requires |frames| > 0 && HasShape(f, h, w)
    requires forall i :: 0 <= i < |frames| ==> frames[i] == f
    ensures MeanFrame(frames, h, w) == f
  {
    var m := MeanFrame(frames, h, w);
    forall r | 0 <= r < h
      ensures m[r] == f[r]
    {
      forall c | 0 <= c < w
        ensures m[r][c] == f[r][c]
      {
        var cells := seq(|frames|, i requires 0 <= i < |frames| => assert HasShape(frames[i], h, w); frames[i][r][c]);
        BlockSum(cells, 0, |frames|, f[r][c]);
        assert PointSum(frames, h, w, r, c) == |frames| as real * f[r][c];
      }
    }
  }

  /** The sum over all frames of cell (r, c). */
  function PointSum(frames: seq<Matrix>, h: nat, w: nat, r: nat, c: nat): real
    requires forall i :: 0 <= i < |frames| ==> HasShape(frames[i], h, w)
    requires r < h && c < w
  {
    Sum(seq(|frames|, i requires 0 <= i < |frames| => assert HasShape(frames[i], h, w); frames[i][r][c]))
  }

  /** `m.sum(axis=0)`: the sum of every column of an array with `w` columns. */
  function ColumnSums(m: Matrix, w: nat): (p: seq<real>)
    requires HasShape(m, |m|, w)
    ensures |p| == w
  {
    seq(w, c requires 0 <= c < w => Sum(seq(|m|, r requires 0 <= r < |m| => m[r][c])))
  }

  /** Adding up the column sums gives the sum of every element. */
  lemma {:induction false} ColumnSumsTotal(m: Matrix, w: nat)
    requires HasShape(m, |m|, w)
    ensures Sum(ColumnSums(m, w)) == Total(m)
  {
    var cs := ColumnSums(m, w);
    if |m| == 0 {
      BlockSum(cs, 0, 0, 0.0);
    } else {
      var n := |m| - 1;
      var init := m[..n];
      var last := m[n];
      ColumnSumsTotal(init, w);
      var ci := ColumnSums(init, w);
      forall c | 0 <= c < w
        ensures cs[c] == ci[c] + last[c]
      {
        var col := seq(|m|, r requires 0 <= r < |m| => m[r][c]);
        assert col[..n] == seq(|init|, r requires 0 <= r < |init| => init[r][c]);
      }
      SumAdded(ci, last, cs);
      assert RowSums(m)[..n] == RowSums(init);
    }
  }

  /** Element-wise addition adds the sums. */
  lemma {:induction false} SumAdded(s: seq<real>, t: seq<real>, u: seq<real>)
    requires |s| == |t| == |u|
    requires forall i :: 0 <= i < |u| ==> u[i] == s[i] + t[i]
    ensures Sum(u) == Sum(s) + Sum(t)
  {
    if |u| > 0 {
      var n := |u| - 1;
      SumAdded(s[..n], t[..n], u[..n]);
    }
  }

  /** The columns `create_scan` builds agree: one entry per point in every column, and
      each normalised frame is its raw frame times its attenuation over its monitor count. */
  ghost predicate Assembled(meta: map<string, seq<real>>, attenuation: seq<real>, raw: seq<Matrix>, norm: seq<Matrix>)
  {
    KnownLayout(meta.Keys)
    && (forall c :: c in meta ==> |meta[c]| == |norm|)
    && |attenuation| == |norm| && |raw| == |norm|
    && (forall i :: 0 <= i < |norm| ==>
          IsRect(raw[i]) && meta["monitor"][i] != 0.0
          && norm[i] == Normalize(raw[i], attenuation[i], meta["monitor"][i]))
  }

  /** The columns `crop_scan` adds agree: `n` crops, and (pxY[i], pxX[i]) is the first
      maximum of crop i. */
  ghost predicate PeaksRecorded(crop: seq<Matrix>, pxX: seq<nat>, pxY: seq<nat>, n: nat)
  {
    |crop| == n && |pxX| == n && |pxY| == n
    && forall i :: 0 <= i < n ==> NonEmptyRect(crop[i]) && Peak(crop[i]) == (pxY[i], pxX[i])
  }

  datatype ScanError = ColumnsUnassigned | MissingColumns | LengthMismatch

  /** Outcome of `create_scan`: None, an exception, or the new scan. */
  datatype Created = NoScan | Failed(error: ScanError) | Made(scan: Scan)

  class Scan {
    /** Selected metadata columns (`data[columns]`), one entry per point. */
    var meta: map<string, seq<real>>
    var attenuation: seq<real>
    var raw: seq<Matrix>
    var norm: seq<Matrix>
    /** Whether `crop_scan` has added the columns below. */
    var cropped: bool
    var crop: seq<Matrix>
    var pxX: seq<nat>
    var pxY: seq<nat>

    /** Number of scan points. */
    function Length(): nat
      reads this
    {
      |norm|
    }

    /** Every column has one entry per point; each normalised frame is its raw frame
        times its attenuation over its monitor count; once cropped, each peak pixel is the
        first maximum of the crop at the same position. */
    ghost predicate Valid()
      reads this
    {
      Assembled(meta, attenuation, raw, norm)
      && (cropped ==> PeaksRecorded(crop, pxX, pxY, |norm|))
    }

    /** `data[columns].copy()`: a scan holding only the selected metadata. */
    constructor (meta: map<string, seq<real>>)
      ensures this.meta == meta
      ensures attenuation == [] && raw == [] && norm == []
      ensures !cropped && crop == [] && pxX == [] && pxY == []
    {
      this.meta := meta;
      attenuation, raw, norm := [], [], [];
      cropped, crop, pxX, pxY := false, [], [], [];
    }

    /** A numeric column by name, or None when the scan has no such numeric column
        (`scan[col]` then raises, or holds arrays that cannot be ordered). */
    function Column(name: string): (col: Option<seq<real>>)
      reads this
      requires Valid()
      ensures col.Some? ==> |col.value| == Length()
      ensures name in meta ==> col == Some(meta[name])
      ensures col.None? <==> name !in meta && name != "attenuation" && !(cropped && name in {"px_x", "px_y"})
      ensures name !in meta && name == "attenuation" ==> col == Some(attenuation)
      ensures name !in meta && cropped && name == "px_x" ==>
                col.Some? && forall i :: 0 <= i < |pxX| ==> col.value[i] == pxX[i] as real
      ensures name !in meta && cropped && name == "px_y" ==>
                col.Some? && forall i :: 0 <= i < |pxY| ==> col.value[i] == pxY[i] as real
    {
      if name in meta then Some(meta[name])
      else if name == "attenuation" then Some(attenuation)
      else if cropped && name == "px_x" then var xs := pxX; Some(seq(|xs|, i requires 0 <= i < |xs| => xs[i] as real))
      else if cropped && name == "px_y" then var ys := pxY; Some(seq(|ys|, i requires 0 <= i < |ys| => ys[i] as real))
      else None
    }

    /** `crop_scan(scan, lim1, lim2)`: adds the crop of every normalised frame to columns
        [lim1, lim2) and the (row, column) of the first maximum of each crop, with the
        column relative to the crop. Nothing else in the scan changes. */
    method Crop(lim1: nat, lim2: nat)
      requires Valid()
      requires lim1 < lim2
      requires forall i :: 0 <= i < |norm| ==> Croppable(norm[i], lim2)
      modifies this
      ensures Valid() && cropped
      ensures meta == old(meta) && attenuation == old(attenuation)
      ensures raw == old(raw) && norm == old(norm)
      ensures |crop| == |norm|
      ensures forall i :: 0 <= i < |norm| ==> crop[i] == CropFrame(norm[i], lim1, lim2)
      ensures forall i :: 0 <= i < |norm| ==> (pxY[i], pxX[i]) == Peak(crop[i])
    {
      var frames := norm;
      var crops := seq(|frames|, i requires 0 <= i < |frames| => CropFrame(frames[i], lim1, lim2));
      var pxmax: seq<(nat, nat)> := [];
      for i := 0 to |crops|
        invariant |pxmax| == i
        invariant forall j :: 0 <= j < i ==> pxmax[j] == Peak(crops[j])
      {
        pxmax := pxmax + [Peak(crops[i])];
      }
      var xs := seq(|pxmax|, j requires 0 <= j < |pxmax| => pxmax[j].1);
      var ys := seq(|pxmax|, j requires 0 <= j < |pxmax| => pxmax[j].0);
      assert PeaksRecorded(crops, xs, ys, |frames|);
      crop, pxX, pxY, cropped := crops, xs, ys, true;
    }
  }

  /** `[foil_attenuation(foils, x) for x in scan['foils']]`: one factor per point, in order. */
  method AttenuationColumn(exp: real -> real, foils: seq<real>, codes: seq<real>) returns (att: seq<real>)
    requires Foils.FoilCount <= |foils|
    requires forall i :: 0 <= i < |codes| ==> IsFoilCode(codes[i])
    ensures |att| == |codes|
    ensures forall i :: 0 <= i < |codes| ==> att[i] == Foils.Attenuation(exp, foils, FoilCode(codes[i]))
  {
    att := [];
    for i := 0 to |codes|
      invariant |att| == i
      invariant forall j :: 0 <= j < i ==> att[j] == Foils.Attenuation(exp, foils, FoilCode(codes[j]))
    {
      var a := Foils.FoilAttenuation(exp, foils, FoilCode(codes[i]));
      att := att + [a];
    }
  }

  /** `create_scan(scanpath, imfolder, foils, bl)` once the table and the frames have been
      read: select the beamline's columns, decode every foil code into an attenuation
      factor, attach the frames by position and normalise them. */
  method CreateScan(table: Table, frames: seq<Matrix>, foils: seq<real>, bl: Option<string>, exp: real -> real)
    returns (res: Created)
    requires table.WellFormed()
    requires Foils.FoilCount <= |foils|
    requires forall i :: 0 <= i < |frames| ==> IsRect(frames[i])
    requires SelectColumns(bl).Columns? && HasColumns(table, SelectColumns(bl).names) ==>
               forall i :: 0 <= i < table.rows ==> IsFoilCode(table.cols["foils"][i])
    requires SelectColumns(bl).Columns? && HasColumns(table, SelectColumns(bl).names) && |frames| == table.rows ==>
               forall i :: 0 <= i < table.rows ==> table.cols["monitor"][i] != 0.0
    ensures res.NoScan? <==> bl.None?
    ensures res == Failed(ColumnsUnassigned) <==> SelectColumns(bl).Unassigned?
    ensures res == Failed(MissingColumns) <==>
              SelectColumns(bl).Columns? && !HasColumns(table, SelectColumns(bl).names)
    ensures res == Failed(LengthMismatch) <==>
              SelectColumns(bl).Columns? && HasColumns(table, SelectColumns(bl).names) && |frames| != table.rows
    ensures res.Made? ==> fresh(res.scan) && res.scan.Valid() && !res.scan.cropped
    ensures res.Made? ==> res.scan.meta == Restrict(table, SelectColumns(bl).names)
    ensures res.Made? ==> res.scan.raw == frames && res.scan.Length() == table.rows
    ensures res.Made? ==> forall i :: 0 <= i < table.rows ==>
              res.scan.attenuation[i] == Foils.Attenuation(exp, foils, FoilCode(table.cols["foils"][i]))
    ensures res.Made? ==> forall i :: 0 <= i < table.rows ==>
              res.scan.norm[i] == Normalize(frames[i], res.scan.attenuation[i], table.cols["monitor"][i])
  {
    var sel := SelectColumns(bl);
    if sel.NoBeamline? {
      return NoScan;
    }
    if sel.Unassigned? {
      return Failed(ColumnsUnassigned);
    }
    if !HasColumns(table, sel.names) {
      return Failed(MissingColumns);
    }
    LayoutOfSelection(table, sel.names);
    var scan := new Scan(Restrict(table, sel.names));

    var att := AttenuationColumn(exp, foils, table.cols["foils"]);
    scan.attenuation := att;

    if |frames| != table.rows {
      return Failed(LengthMismatch);
    }
    scan.raw := frames;

    var monitor := table.cols["monitor"];
    scan.norm := seq(table.rows, i requires 0 <= i < table.rows => Normalize(frames[i], att[i], monitor[i]));
    return Made(scan);
  }

  /** Running `crop_scan` again with the limits a scan was cropped with leaves its crop and
      peak columns as they were: the crop is taken from the normalised frames, not from
      the previous crop. */
  method Recrop(s: Scan, lim1: nat, lim2: nat)
    requires s.Valid() && s.cropped && lim1 < lim2
    requires forall i :: 0 <= i < |s.norm| ==> Croppable(s.norm[i], lim2)
    requires forall i :: 0 <= i < |s.norm| ==> s.crop[i] == CropFrame(s.norm[i], lim1, lim2)
    modifies s
    ensures s.Valid() && s.cropped
    ensures s.crop == old(s.crop) && s.pxX == old(s.pxX) && s.pxY == old(s.pxY)
  {
    s.Crop(lim1, lim2);
  }

  /** The reference profile of `find_limits`: the mean normalised frame, summed over rows. */
  function Profile(s: Scan): (p: seq<real>)
    reads s
    requires s.Valid() && SameShapeScan(s)
    ensures |p| == Width(s.norm[0])
    ensures Sum(p) == Total(MeanFrame(s.norm, |s.norm[0]|, Width(s.norm[0])))
  {
    var h, w := |s.norm[0]|, Width(s.norm[0]);
    var mean := MeanFrame(s.norm, h, w);
    ColumnSumsTotal(mean, w);
    ColumnSums(mean, w)
  }

  /** A scan whose normalised frames are all the same frame has that frame's column
      sums as its profile. */
  lemma ProfileOfCopies(s: Scan)
    requires s.Valid() && SameShapeScan(s)
    requires forall i :: 0 <= i < |s.norm| ==> s.norm[i] == s.norm[0]
    ensures Profile(s) == ColumnSums(s.norm[0], Width(s.norm[0]))
  {
    MeanOfCopies(s.norm, s.norm[0], |s.norm[0]|, Width(s.norm[0]));
  }

  /** A non-empty scan whose normalised frames all share the first one's shape, with at
      least one row and one column. */
  ghost predicate SameShapeScan(s: Scan)
    reads s
  {
    |s.norm| > 0 && |s.norm[0]| > 0 && Width(s.norm[0]) > 0
    && forall i :: 0 <= i < |s.norm| ==> HasShape(s.norm[i], |s.norm[0]|, Width(s.norm[0]))
  }

  /** `find_limits(scan, window, center)` without its plot: the window is centred on the
      first maximum of the profile, or on `center` when that is given and non-zero. */
  function FindLimits(s: Scan, window: int, center: Option<real>): (lims: (int, int))
    reads s
    requires s.Valid() && SameShapeScan(s)
    ensures 0 <= window ==> window - 1 <= lims.1 - lims.0 <= window
  {
    var xmax := if center.Some? && center.value != 0.0 then center.value else ArgMax(Profile(s)) as real;
    Limits(xmax, window)
  }

  /** Without a centre, the window is centred on a column of largest profile value, the
      first such column: the limits are those `Limits` computes around it, and span
      exactly `window` columns when the peak is at least half a window from column 0. */
  lemma FindLimitsAroundPeak(s: Scan, window: nat)
    requires s.Valid() && SameShapeScan(s)
    ensures var p := Profile(s); var x := ArgMax(p);
      (forall c :: 0 <= c < |p| ==> p[c] <= p[x]) && (forall c :: 0 <= c < x ==> p[c] < p[x])
    ensures var x := ArgMax(Profile(s)); window <= 2 * x ==>
      FindLimits(s, window, None).1 == x + window / 2 && FindLimits(s, window, None).0 == x + window / 2 - window
      && FindLimits(s, window, None).0 <= x <= FindLimits(s, window, None).1
    ensures FindLimits(s, window, None) == Limits(ArgMax(Profile(s)) as real, window)
  {
    var x := ArgMax(Profile(s));
    if window <= 2 * x {
      LimitsSpanWindow(x, window);
    }
  }

  /** A centre of 0 is falsy and is ignored; any other centre replaces the profile peak:
      the limits are those around the centre, so the frames no longer matter. */
  lemma CenterOverride(s: Scan, t: Scan, window: int, center: real)
    requires s.Valid() && SameShapeScan(s) && t.Valid() && SameShapeScan(t)
    ensures FindLimits(s, window, Some(0.0)) == FindLimits(s, window, None)
    ensures center != 0.0 ==> FindLimits(s, window, Some(center)) == Limits(center, window)
    ensures center != 0.0 ==> FindLimits(s, window, Some(center)) == FindLimits(t, window, Some(center))
  {
  }
}
