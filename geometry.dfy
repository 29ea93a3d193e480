/**
 * Masking and bilinear sampling of a raster at a point: `PointInRaster` in geometry.py.
 *
 * The window and the unit offsets come from an external helper and are inputs
 * here, as are the three 2×2 grids the object looks at: the mask of the
 * windowed read, the mask of the full raster array at the window's cells, and
 * the values of the full raster array at those cells. Grids are indexed
 * `[i][j]` by the row and column offset within the window.
 */
module Geometry {
  import opened Wrappers

  const COMPLETELY_MASKED: int := 1
  const PARTIALLY_MASKED: int := 2

  /** A 2×2 grid over the window. */
  predicate IsWindow<T>(g: seq<seq<T>>) {
    |g| == 2 && |g[0]| == 2 && |g[1]| == 2
  }

  /** The row offset of the `k`-th corner in the order of `itertools.product([0, 1], [0, 1])`. */
  function Row(k: nat): nat requires k < 4 { k / 2 }

  /** The column offset of the `k`-th corner in that order. */
  function Col(k: nat): nat requires k < 4 { k % 2 }

  /** A corner is masked when the windowed read masks it, or else when the full raster array does. */
  predicate CornerMasked(windowMask: seq<seq<bool>>, rasterMask: seq<seq<bool>>, k: nat)
    requires IsWindow(windowMask) && IsWindow(rasterMask) && k < 4
  {
    windowMask[Row(k)][Col(k)] || rasterMask[Row(k)][Col(k)]
  }

  /** The number of masked corners among the first `k` corners of the scan. */
  function MaskedCount(windowMask: seq<seq<bool>>, rasterMask: seq<seq<bool>>, k: nat): (n: nat)
    requires IsWindow(windowMask) && IsWindow(rasterMask) && k <= 4
    ensures n <= k
    ensures n == k <==> forall j :: 0 <= j < k ==> CornerMasked(windowMask, rasterMask, j)
    ensures n == 0 <==> forall j :: 0 <= j < k ==> !CornerMasked(windowMask, rasterMask, j)
  {
    if k == 0 then 0
    else MaskedCount(windowMask, rasterMask, k - 1) + if CornerMasked(windowMask, rasterMask, k - 1) then 1 else 0
  }

  /** The last valid corner among the first `k` corners of the scan, if any. */
  function LastValid(windowMask: seq<seq<bool>>, rasterMask: seq<seq<bool>>, k: nat): (last: Option<nat>)
    requires IsWindow(windowMask) && IsWindow(rasterMask) && k <= 4
    ensures last.Some? ==> last.value < k && !CornerMasked(windowMask, rasterMask, last.value)
    ensures last.Some? ==> forall j :: last.value < j < k ==> CornerMasked(windowMask, rasterMask, j)
    ensures last.None? ==> forall j :: 0 <= j < k ==> CornerMasked(windowMask, rasterMask, j)
  {
    if k == 0 then None
    else if !CornerMasked(windowMask, rasterMask, k - 1) then Some(k - 1)
    else LastValid(windowMask, rasterMask, k - 1)
  }

  /** The state the constructor assigns for `m` masked corners: 0 (unmasked), partially or completely masked. */
  function Classify(m: nat): int {
    if m == 4 then COMPLETELY_MASKED
    else if m > 0 then PARTIALLY_MASKED
    else 0
  }

  /** The bilinear blend of the window's values at unit offsets `(x, y)`; `ll` is weighted by `(1-x)(1-y)`. */
  function Blend(ul: real, ur: real, ll: real, lr: real, x: real, y: real): real {
    ll * (1.0 - x) * (1.0 - y) + lr * x * (1.0 - y) + ul * (1.0 - x) * y + ur * x * y
  }

  class PointInRaster {
    /** `window[0][0]` and `window[1][0]`: the raster row and column of the window's first corner. */
    const row0: int
    const col0: int
    /** The unit offsets of the point within the window. */
    const x: real
    const y: real
    /** The two masks the constructor consulted. */
    ghost const windowMask: seq<seq<bool>>
    ghost const rasterMask: seq<seq<bool>>

    var masked: int
    /** The raster row and column of the last valid corner of the scan. */
    var r: int
    var c: int

    ghost predicate Valid()
      reads this
    {
      IsWindow(windowMask) && IsWindow(rasterMask) &&
      masked == Classify(MaskedCount(windowMask, rasterMask, 4)) &&
      match LastValid(windowMask, rasterMask, 4)
      case Some(k) => r == row0 + Row(k) && c == col0 + Col(k)
      case None => true
    }

    /** `__init__`: scans the four corners, counts the masked ones and remembers the last valid one. */
    constructor (windowMask: seq<seq<bool>>, rasterMask: seq<seq<bool>>, rowStart: int, colStart: int, ux: real, uy: real)
      requires IsWindow(windowMask) && IsWindow(rasterMask)
      ensures Valid()
      ensures row0 == rowStart && col0 == colStart && x == ux && y == uy
      ensures this.windowMask == windowMask && this.rasterMask == rasterMask
    {
      row0, col0 := rowStart, colStart;
      x, y := ux, uy;
      this.windowMask, this.rasterMask := windowMask, rasterMask;
      masked := 0;
      new;
      var m := 0;
      for k := 0 to 4
        invariant masked == 0
        invariant m == MaskedCount(windowMask, rasterMask, k)
        invariant match LastValid(windowMask, rasterMask, k)
                  case Some(v) => r == row0 + Row(v) && c == col0 + Col(v)
                  case None => true
      {
        var i, j := Row(k), Col(k);
        var rr, cc := row0 + i, col0 + j;
        if windowMask[i][j] {
          m := m + 1;
        } else if rasterMask[i][j] {
          m := m + 1;
        } else {
          r, c := rr, cc;
        }
      }
      if m == 4 {
        masked := COMPLETELY_MASKED;
      } else if m > 0 {
        masked := PARTIALLY_MASKED;
      }
    }

    /** `is_masked`: true exactly when all four corners are masked. */
    predicate IsMasked()
      reads this
      requires Valid()
      ensures IsMasked() <==> forall k :: 0 <= k < 4 ==> CornerMasked(windowMask, rasterMask, k)
    {
      masked == COMPLETELY_MASKED
    }

    /** `bilinear`: `None`, the value at the remembered corner, or the blend of the four values. */
    function Bilinear(values: seq<seq<real>>): (v: Option<real>)
      reads this
      requires Valid() && IsWindow(values)
      ensures v.None? <==> forall k :: 0 <= k < 4 ==> CornerMasked(windowMask, rasterMask, k)
      ensures (forall k :: 0 <= k < 4 ==> !CornerMasked(windowMask, rasterMask, k)) ==>
                v == Some(Blend(values[0][0], values[0][1], values[1][0], values[1][1], x, y))
      ensures (exists k :: 0 <= k < 4 && CornerMasked(windowMask, rasterMask, k)) &&
              LastValid(windowMask, rasterMask, 4).Some? ==>
                var k := LastValid(windowMask, rasterMask, 4).value;
                v == Some(values[Row(k)][Col(k)])
    {
      if masked == COMPLETELY_MASKED then None
      else if masked == PARTIALLY_MASKED then Some(values[r - row0][c - col0])
      else Some(Blend(values[0][0], values[0][1], values[1][0], values[1][1], x, y))
    }
  }
}

/** Properties of the point sampler. */
module GeometryProperties {
  import opened Wrappers
  import opened Geometry

  /** The scan visits the corners (0,0), (0,1), (1,0), (1,1), in that order. */
  lemma ScanOrder()
    ensures seq(4, k requires 0 <= k < 4 => (Row(k), Col(k))) == [(0, 0), (0, 1), (1, 0), (1, 1)]
  {
  }

  /** No valid corner among the first `k` exactly when all `k` are masked. */
  lemma {:induction false} NoValidCornerIffAllMasked(windowMask: seq<seq<bool>>, rasterMask: seq<seq<bool>>, k: nat)
    requires IsWindow(windowMask) && IsWindow(rasterMask) && k <= 4
    ensures LastValid(windowMask, rasterMask, k).None? <==> MaskedCount(windowMask, rasterMask, k) == k
  {
    if k > 0 {
      NoValidCornerIffAllMasked(windowMask, rasterMask, k - 1);
    }
  }

  /** The state is completely masked for 4 masked corners, partially masked for 1 to 3, and 0 for none. */
  lemma Classification(p: PointInRaster)
    requires p.Valid()
    ensures var m := MaskedCount(p.windowMask, p.rasterMask, 4);
            (p.masked == COMPLETELY_MASKED <==> m == 4) &&
            (p.masked == PARTIALLY_MASKED <==> 1 <= m <= 3) &&
            (p.masked == 0 <==> m == 0)
  {
  }

  /** Unless every corner is masked, the remembered cell is a window corner valid under both masks, the last such in the scan. */
  lemma RememberedCornerValid(p: PointInRaster)
    requires p.Valid() && !p.IsMasked()
    ensures p.row0 <= p.r < p.row0 + 2 && p.col0 <= p.c < p.col0 + 2
    ensures !p.windowMask[p.r - p.row0][p.c - p.col0] && !p.rasterMask[p.r - p.row0][p.c - p.col0]
    ensures forall k :: 0 <= k < 4 && 2 * (p.r - p.row0) + (p.c - p.col0) < k ==>
              CornerMasked(p.windowMask, p.rasterMask, k)
  {
    NoValidCornerIffAllMasked(p.windowMask, p.rasterMask, 4);
    var k := LastValid(p.windowMask, p.rasterMask, 4).value;
    assert 2 * Row(k) + Col(k) == k;
  }

  /** Two samplers over the same masks and window that are partially masked give the same value, whatever their offsets. */
  lemma PartialIgnoresPosition(p: PointInRaster, q: PointInRaster, values: seq<seq<real>>)
    requires p.Valid() && q.Valid() && IsWindow(values)
    requires p.windowMask == q.windowMask && p.rasterMask == q.rasterMask
    requires p.row0 == q.row0 && p.col0 == q.col0
    requires p.masked == PARTIALLY_MASKED
    ensures p.Bilinear(values) == q.Bilinear(values)
  {
    NoValidCornerIffAllMasked(p.windowMask, p.rasterMask, 4);
  }

  /** When exactly one corner is valid, the sample is that corner's value. */
  lemma SingleValidCorner(p: PointInRaster, values: seq<seq<real>>, k: nat)
    requires p.Valid() && IsWindow(values) && k < 4
    requires !CornerMasked(p.windowMask, p.rasterMask, k)
    requires forall j :: 0 <= j < 4 && j != k ==> CornerMasked(p.windowMask, p.rasterMask, j)
    ensures p.Bilinear(values) == Some(values[Row(k)][Col(k)])
  {
    assert CornerMasked(p.windowMask, p.rasterMask, if k == 0 then 1 else 0);
    var last := LastValid(p.windowMask, p.rasterMask, 4);
    assert last == Some(k);
  }

  /** At the window's corners the blend is that corner's value: `ll` at (0,0), `lr` at (1,0), `ul` at (0,1), `ur` at (1,1). */
  lemma BlendAtCorners(ul: real, ur: real, ll: real, lr: real)
    ensures Blend(ul, ur, ll, lr, 0.0, 0.0) == ll
    ensures Blend(ul, ur, ll, lr, 1.0, 0.0) == lr
    ensures Blend(ul, ur, ll, lr, 0.0, 1.0) == ul
    ensures Blend(ul, ur, ll, lr, 1.0, 1.0) == ur
  {
  }

  /** The four weights of the blend add up to one. */
  lemma WeightsSumToOne(x: real, y: real)
    ensures (1.0 - x) * (1.0 - y) + x * (1.0 - y) + (1.0 - x) * y + x * y == 1.0
  {
    calc {
      (1.0 - x) * (1.0 - y) + x * (1.0 - y) + (1.0 - x) * y + x * y;
      ((1.0 - x) + x) * (1.0 - y) + ((1.0 - x) + x) * y;
      (1.0 - y) + y;
    }
  }

  /** Blending four equal values gives that value, at any offset. */
  lemma BlendConstant(v: real, x: real, y: real)
    ensures Blend(v, v, v, v, x, y) == v
  {
    WeightsSumToOne(x, y);
    calc {
      Blend(v, v, v, v, x, y);
      v * ((1.0 - x) * (1.0 - y) + x * (1.0 - y) + (1.0 - x) * y + x * y);
      v * 1.0;
    }
  }

  lemma ProductNonNegative(a: real, b: real)
    requires 0.0 <= a && 0.0 <= b
    ensures 0.0 <= a * b
  {
  }

  /** A weighted sum with non-negative weights adding up to one lies between the bounds of its terms. */
  lemma WeightedBetween(a: real, b: real, c: real, d: real, wa: real, wb: real, wc: real, wd: real, lo: real, hi: real)
    requires 0.0 <= wa && 0.0 <= wb && 0.0 <= wc && 0.0 <= wd && wa + wb + wc + wd == 1.0
    requires lo <= a <= hi && lo <= b <= hi && lo <= c <= hi && lo <= d <= hi
    ensures lo <= a * wa + b * wb + c * wc + d * wd <= hi
  {
    ProductNonNegative(a - lo, wa);
    ProductNonNegative(b - lo, wb);
    ProductNonNegative(c - lo, wc);
    ProductNonNegative(d - lo, wd);
    ProductNonNegative(hi - a, wa);
    ProductNonNegative(hi - b, wb);
    ProductNonNegative(hi - c, wc);
    ProductNonNegative(hi - d, wd);
    assert lo * wa + lo * wb + lo * wc + lo * wd == lo * (wa + wb + wc + wd) == lo;
    assert hi * wa + hi * wb + hi * wc + hi * wd == hi * (wa + wb + wc + wd) == hi;
    assert a * wa + b * wb + c * wc + d * wd - lo ==
           (a - lo) * wa + (b - lo) * wb + (c - lo) * wc + (d - lo) * wd;
    assert hi - (a * wa + b * wb + c * wc + d * wd) ==
           (hi - a) * wa + (hi - b) * wb + (hi - c) * wc + (hi - d) * wd;
  }

  /** Inside the unit square the blend lies between the smallest and the largest corner value. */
  lemma BlendBounds(ul: real, ur: real, ll: real, lr: real, x: real, y: real, lo: real, hi: real)
    requires 0.0 <= x <= 1.0 && 0.0 <= y <= 1.0
    requires lo <= ul <= hi && lo <= ur <= hi && lo <= ll <= hi && lo <= lr <= hi
    ensures lo <= Blend(ul, ur, ll, lr, x, y) <= hi
  {
    var wll, wlr, wul, wur := (1.0 - x) * (1.0 - y), x * (1.0 - y), (1.0 - x) * y, x * y;
    ProductNonNegative(1.0 - x, 1.0 - y);
    ProductNonNegative(x, 1.0 - y);
    ProductNonNegative(1.0 - x, y);
    ProductNonNegative(x, y);
    WeightsSumToOne(x, y);
    assert Blend(ul, ur, ll, lr, x, y) == ll * wll + lr * wlr + ul * wul + ur * wur;
    WeightedBetween(ll, lr, ul, ur, wll, wlr, wul, wur, lo, hi);
  }

  /** Upper corners 10, lower corners 0: the middle of the window samples to 5. */
  lemma BlendMidpoint()
    ensures Blend(10.0, 10.0, 0.0, 0.0, 0.5, 0.5) == 5.0
  {
  }
}
