/** Two-dimensional real arrays and the numpy reductions the pipeline relies on:
    full sums, element-wise products, row-major flattening and the first arg-max. */
module Grid {

  /** A detector frame or mask: a list of rows. */
  type Matrix = seq<seq<real>>

  /** `m` is a rectangular array with `h` rows of `w` columns (numpy shape `(h, w)`). */
  predicate HasShape(m: Matrix, h: nat, w: nat)
  {
    |m| == h && forall r :: 0 <= r < |m| ==> |m[r]| == w
  }

  /** Number of columns of a matrix (0 for a matrix without rows). */
  function Width(m: Matrix): nat
  {
    if |m| == 0 then 0 else |m[0]|
  }

  /** Every row as long as the first one. */
  predicate IsRect(m: Matrix)
  {
    HasShape(m, |m|, Width(m))
  }

  predicate SameShape(a: Matrix, b: Matrix)
  {
    |a| == |b| && forall r :: 0 <= r < |a| ==> |a[r]| == |b[r]|
  }

  /** Sum of a sequence (`sum`, `ndarray.sum`); over exact reals the order of the additions does not matter. */
  function Sum(s: seq<real>): real
  {
    if s == [] then 0.0 else Sum(s[..|s| - 1]) + s[|s| - 1]
  }

  function RowSums(m: Matrix): seq<real>
  {
    seq(|m|, r requires 0 <= r < |m| => Sum(m[r]))
  }

  /** `m.sum()`: the sum over every element of the array. */
  function Total(m: Matrix): real
  {
    Sum(RowSums(m))
  }

  /** Element-wise product `a * b` of two arrays of the same shape. */
  function Product(a: Matrix, b: Matrix): (p: Matrix)
    requires SameShape(a, b)
    ensures SameShape(p, a)
    ensures forall r, c :: 0 <= r < |a| && 0 <= c < |a[r]| ==> p[r][c] == a[r][c] * b[r][c]
  {
    seq(|a|, r requires 0 <= r < |a| => seq(|a[r]|, c requires 0 <= c < |a[r]| => a[r][c] * b[r][c]))
  }

  /** An array of ones shaped like `m`. */
  function OnesLike(m: Matrix): (o: Matrix)
    ensures SameShape(o, m)
    ensures forall r, c :: 0 <= r < |o| && 0 <= c < |o[r]| ==> o[r][c] == 1.0
  {
    seq(|m|, r requires 0 <= r < |m| => seq(|m[r]|, c => 1.0))
  }

  /** A sequence that holds `v` on the index range [lo, hi) and 0 elsewhere sums to `(hi - lo) * v`. */
  lemma {:induction false} BlockSum(s: seq<real>, lo: nat, hi: nat, v: real)
    requires lo <= hi <= |s|
    requires forall i :: 0 <= i < |s| ==> s[i] == if lo <= i < hi then v else 0.0
    ensures Sum(s) == (hi - lo) as real * v
  {
    if |s| > 0 {
      var t := s[..|s| - 1];
      if hi == |s| && lo < hi {
        BlockSum(t, lo, hi - 1, v);
      } else if hi == |s| {
        BlockSum(t, 0, 0, v);
      } else {
        BlockSum(t, lo, hi, v);
      }
    }
  }

  /** Scaling every element by `k` scales the sum by `k`. */
  lemma {:induction false} SumScaled(s: seq<real>, t: seq<real>, k: real)
    requires |t| == |s|
    requires forall i :: 0 <= i < |s| ==> t[i] == s[i] * k
    ensures Sum(t) == Sum(s) * k
  {
    if |s| > 0 {
      SumScaled(s[..|s| - 1], t[..|t| - 1], k);
    }
  }

  /** Scaling every element of an array by `k` scales its total by `k`. */
  lemma TotalScaled(m: Matrix, n: Matrix, k: real)
    requires SameShape(n, m)
    requires forall r, c :: 0 <= r < |m| && 0 <= c < |m[r]| ==> n[r][c] == m[r][c] * k
    ensures Total(n) == Total(m) * k
  {
    var rm, rn := RowSums(m), RowSums(n);
    forall r | 0 <= r < |rm|
      ensures rn[r] == rm[r] * k
    {
      SumScaled(m[r], n[r], k);
    }
    SumScaled(rm, rn, k);
  }

  /** First index of a largest element, as `ndarray.argmax` returns it. */
  function ArgMax(s: seq<real>): (k: nat)
    requires |s| > 0
    ensures k < |s|
    ensures forall j :: 0 <= j < |s| ==> s[j] <= s[k]
    ensures forall j :: 0 <= j < k ==> s[j] < s[k]
  {
    if |s| == 1 then 0
    else
      var k0 := ArgMax(s[..|s| - 1]);
      if s[|s| - 1] > s[k0] then |s| - 1 else k0
  }

  /** Row-major (C order) flattening, the order in which numpy's `argmax` scans a 2-D array. */
  function Flatten(m: Matrix): seq<real>
  {
    if |m| == 0 then [] else m[0] + Flatten(m[1..])
  }

  lemma {:induction false} FlattenLength(m: Matrix, w: nat)
    requires HasShape(m, |m|, w)
    ensures |Flatten(m)| == |m| * w
  {
    if |m| > 0 {
      FlattenLength(m[1..], w);
    }
  }

  /** Cell (r, c) of a w-column array sits at flat position r * w + c. */
  lemma {:induction false} FlattenAt(m: Matrix, w: nat, r: nat, c: nat)
    requires HasShape(m, |m|, w) && r < |m| && c < w
    ensures r * w + c < |Flatten(m)| && Flatten(m)[r * w + c] == m[r][c]
  {
    FlattenLength(m, w);
    if r > 0 {
      FlattenAt(m[1..], w, r - 1, c);
      assert r * w + c == w + ((r - 1) * w + c);
    }
  }

  /** Flat positions follow row-major order: an earlier cell has a smaller position. */
  lemma RowMajorBefore(r: nat, c: nat, y: nat, x: nat, w: nat)
    requires c < w && x < w
    requires r < y || (r == y && c < x)
    ensures r * w + c < y * w + x
  {
    if r < y {
      assert (r + 1) * w == r * w + w;
      assert (r + 1) * w <= y * w;
    }
  }

  /** A flat position below `h * w` lies in one of the first `h` rows. */
  lemma RowInRange(k: nat, y: nat, x: nat, w: nat, h: nat)
    requires x < w && k == y * w + x && k < h * w
    ensures y < h
  {
    assert (h - y) * w == h * w - y * w > 0;
  }

  /** A frame on which `argmax` is defined: rectangular, with at least one cell. */
  predicate NonEmptyRect(m: Matrix)
  {
    |m| > 0 && IsRect(m) && Width(m) > 0
  }

  /** `np.unravel_index(m.argmax(), m.shape)`: (row, column) of the first largest cell. */
  function Peak(m: Matrix): (p: (nat, nat))
    requires NonEmptyRect(m)
    ensures p.0 < |m| && p.1 < Width(m)
  {
    FlattenLength(m, Width(m));
    var k := ArgMax(Flatten(m));
    var p := Unravel(k, Width(m));
    RowInRange(k, p.0, p.1, Width(m), |m|);
    p
  }

  /** `np.unravel_index` for a row length `w`: the (row, column) of flat position `k`. */
  function Unravel(k: nat, w: nat): (p: (nat, nat))
    requires w > 0
    ensures p.1 < w && k == p.0 * w + p.1
  {
    (k / w, k % w)
  }

  /** The peak lies in the array, holds a largest value, and every cell before it in
      row-major order is strictly smaller. */
  lemma PeakIsFirstMax(m: Matrix)
    requires NonEmptyRect(m)
    ensures Peak(m).0 < |m| && Peak(m).1 < Width(m)
    ensures forall r, c :: 0 <= r < |m| && 0 <= c < Width(m) ==> m[r][c] <= m[Peak(m).0][Peak(m).1]
    ensures forall r, c ::
              0 <= r < |m| && 0 <= c < Width(m) && (r < Peak(m).0 || (r == Peak(m).0 && c < Peak(m).1))
              ==> m[r][c] < m[Peak(m).0][Peak(m).1]
  {
    var w := Width(m);
    var f := Flatten(m);
    FlattenLength(m, w);
    var k := ArgMax(f);
    var (y, x) := Peak(m);
    RowInRange(k, y, x, w, |m|);
    FlattenAt(m, w, y, x);
    forall r, c | 0 <= r < |m| && 0 <= c < w
      ensures m[r][c] <= m[y][x]
      ensures (r < y || (r == y && c < x)) ==> m[r][c] < m[y][x]
    {
      FlattenAt(m, w, r, c);
      if r < y || (r == y && c < x) {
        RowMajorBefore(r, c, y, x, w);
      }
    }
  }
}
