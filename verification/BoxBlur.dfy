/** `box_blur` of `ensotrace`: a separable box blur over prefix sums, on an image stored row by row.
    Floats are modelled as reals. */
module BoxBlur {

  // ---------------------------------------------------------------- lines of cells

  /** The k-th cell of the line that starts at `start` and steps by `stride`. Row y of an image is the
      line (y * w, 1), column x is the line (x, w). */
  function Cell(start: nat, stride: nat, k: nat): nat {
    start + k * stride
  }

  /** Where row `y` starts when rows are `n` long. */
  function Start(y: nat, n: nat): nat {
    y * n
  }

  lemma NextStart(y: nat, n: nat)
    ensures Start(0, n) == 0 && Start(y + 1, n) == Start(y, n) + n
  {
  }

  lemma StartsApart(y: nat, v: nat, n: nat)
    requires y < v
    ensures Start(y, n) + n <= Start(v, n)
  {
    Gap(y, v, n);
  }

  /** The cells of the line are all inside a buffer of length `size`. */
  ghost predicate Fits(start: nat, stride: nat, n: nat, size: nat) {
    forall k: nat :: k < n ==> Cell(start, stride, k) < size
  }

  lemma {:induction false} Gap(a: nat, b: nat, w: nat)
    ensures a < b ==> a * w + w <= b * w
    decreases b
  {
    if a < b {
      Gap(a, b - 1, w);
      assert b * w == (b - 1) * w + w;
    }
  }

  lemma CellInjective(start: nat, stride: nat, k: nat, j: nat)
    requires stride > 0
    ensures Cell(start, stride, k) == Cell(start, stride, j) ==> k == j
  {
    Gap(k, j, stride);
    Gap(j, k, stride);
  }

  lemma RowFits(w: nat, h: nat, y: nat)
    requires y < h
    ensures Fits(Start(y, w), 1, w, w * h)
  {
    Gap(y, h, w);
  }

  lemma ColumnFits(w: nat, h: nat, x: nat)
    requires x < w
    ensures Fits(x, w, h, w * h)
  {
    forall y: nat | y < h ensures Cell(x, w, y) < w * h {
      Gap(y, h, w);
    }
  }

  /** Two pixels share a cell only if they are the same pixel. */
  lemma PixelsApart(w: nat, x: nat, y: nat, x': nat, y': nat)
    requires x < w && x' < w
    ensures Cell(x, w, y) == Cell(x', w, y') ==> x == x' && y == y'
  {
    Gap(y, y', w);
    Gap(y', y, w);
  }

  /** Pixel (x, y) is reached along its row as along its column. */
  lemma SameCell(w: nat, x: nat, y: nat)
    ensures Cell(Start(y, w), 1, x) == Cell(x, w, y)
  {
  }

  // ---------------------------------------------------------------- the specification

  /** The value at a cell. */
  function At(img: seq<real>, i: nat): real {
    if i < |img| then img[i] else 0.0
  }

  /** Pixel (x, y) of an image of width `w`. */
  function Pixel(img: seq<real>, w: nat, x: nat, y: nat): real {
    At(img, Cell(x, w, y))
  }

  /** The window of radius `r` around `c`, clipped to [0, n). */
  function Lo(c: nat, r: nat): (lo: nat)
    ensures lo <= c
  {
    if c < r then 0 else c - r
  }

  function Hi(c: nat, r: nat, n: nat): (hi: nat)
    requires c < n
    ensures c < hi <= n
  {
    if c + r + 1 < n then c + r + 1 else n
  }

  function Width(c: nat, r: nat, n: nat): (d: real)
    requires c < n
    ensures d >= 1.0
  {
    (Hi(c, r, n) - Lo(c, r)) as real
  }

  /** The mean of values adding up to `a`, counted `d`. */
  function Over(a: real, d: real): real
    requires d >= 1.0
  {
    a / d
  }

  /** The number of cells in a rectangle. */
  function Area(c: real, d: real): (n: real)
    requires c >= 1.0 && d >= 1.0
    ensures n >= 1.0
  {
    assert (c - 1.0) * d >= 0.0;
    c * d
  }

  /** The sum of the cells `lo` to `hi` of a line. */
  ghost function LineSum(img: seq<real>, start: nat, stride: nat, lo: nat, hi: nat): real
    requires lo <= hi
    decreases hi
  {
    if lo == hi then 0.0 else LineSum(img, start, stride, lo, hi - 1) + At(img, Cell(start, stride, hi - 1))
  }

  /** The sum of the rectangle [lx, hx) × [ly, hy). */
  ghost function AreaSum(img: seq<real>, w: nat, lx: nat, hx: nat, ly: nat, hy: nat): real
    requires lx <= hx && ly <= hy
    decreases hy
  {
    if ly == hy then 0.0 else AreaSum(img, w, lx, hx, ly, hy - 1) + LineSum(img, Start(hy - 1, w), 1, lx, hx)
  }

  // The blur is specified pixel by pixel, with no window bounds and no prefix sums.

  predicate Near(a: nat, b: nat, r: nat) {
    a <= b + r && b <= a + r
  }

  /** The sum of the first `n` pixels of row `y` that are within `r` columns of `x`. */
  ghost function NearInRow(img: seq<real>, w: nat, y: nat, x: nat, r: nat, n: nat): real {
    if n == 0 then 0.0
    else NearInRow(img, w, y, x, r, n - 1) + if Near(n - 1, x, r) then At(img, y * w + (n - 1)) else 0.0
  }

  /** The sum of the pixels of the first `m` rows that are within `r` rows and columns of (x, y). */
  ghost function NearInArea(img: seq<real>, w: nat, x: nat, y: nat, r: nat, m: nat): real {
    if m == 0 then 0.0
    else NearInArea(img, w, x, y, r, m - 1) + if Near(m - 1, y, r) then NearInRow(img, w, m - 1, x, r, w) else 0.0
  }

  /** How many of the first `n` places are within `r` of `c`. */
  ghost function NearCount(c: nat, r: nat, n: nat): nat {
    if n == 0 then 0 else NearCount(c, r, n - 1) + if Near(n - 1, c, r) then 1 else 0
  }

  lemma {:induction false} SomeAreNear(c: nat, r: nat, n: nat)
    requires c < n
    ensures NearCount(c, r, n) >= 1
  {
    if c < n - 1 {
      SomeAreNear(c, r, n - 1);
    }
  }

  /** The mean of all the pixels within `r` rows and columns of (x, y). */
  ghost function NearMean(img: seq<real>, w: nat, h: nat, r: nat, x: nat, y: nat): real
    requires x < w && y < h
  {
    SomeAreNear(x, r, w);
    SomeAreNear(y, r, h);
    NearInArea(img, w, x, y, r, h) / ((NearCount(x, r, w) * NearCount(y, r, h)) as real)
  }

  /** The same mean over the clipped window. */
  ghost function WindowMean(img: seq<real>, w: nat, h: nat, r: nat, x: nat, y: nat): real
    requires x < w && y < h
  {
    Over(AreaSum(img, w, Lo(x, r), Hi(x, r, w), Lo(y, r), Hi(y, r, h)), Area(Width(x, r, w), Width(y, r, h)))
  }

  ghost predicate IsBlur(img: seq<real>, out: seq<real>, w: nat, h: nat, r: nat) {
    && |img| == |out| == w * h
    && forall x: nat, y: nat :: x < w && y < h ==> Pixel(out, w, x, y) == NearMean(img, w, h, r, x, y)
  }

  ghost predicate IsBlurred(img: seq<real>, out: seq<real>, w: nat, h: nat, r: nat, passes: nat)
    decreases passes
  {
    if passes == 0 then out == img
    else exists mid :: IsBlurred(img, mid, w, h, r, passes - 1) && IsBlur(mid, out, w, h, r)
  }

  /** Rows are stored one after the other. */
  lemma PixelIsStored(img: seq<real>, w: nat, h: nat, x: nat, y: nat)
    requires |img| == w * h && x < w && y < h
    ensures y * w + x < |img| && Pixel(img, w, x, y) == img[y * w + x]
  {
    ColumnFits(w, h, x);
    assert Cell(x, w, y) < w * h;
  }

  // ---------------------------------------------------------------- the window is what is near

  /** The clipped window holds exactly the places in the line that are near. */
  lemma WindowIff(c: nat, r: nat, n: nat, k: nat)
    requires c < n
    ensures Lo(c, r) <= k < Hi(c, r, n) <==> k < n && Near(k, c, r)
  {
  }

  function Least(a: nat, b: nat): nat {
    if a < b then a else b
  }

  lemma {:induction false} NearRowIsWindow(img: seq<real>, w: nat, y: nat, x: nat, r: nat, n: nat)
    requires x < w && n <= w
    ensures NearInRow(img, w, y, x, r, n) ==
            LineSum(img, Start(y, w), 1, Least(Lo(x, r), n), Least(Hi(x, r, w), n))
  {
    if n > 0 {
      NearRowIsWindow(img, w, y, x, r, n - 1);
      WindowIff(x, r, w, n - 1);
      assert Cell(Start(y, w), 1, n - 1) == y * w + (n - 1);
    }
  }

  lemma {:induction false} NearAreaIsWindow(img: seq<real>, w: nat, h: nat, x: nat, y: nat, r: nat, m: nat)
    requires x < w && y < h && m <= h
    ensures NearInArea(img, w, x, y, r, m) ==
            AreaSum(img, w, Lo(x, r), Hi(x, r, w), Least(Lo(y, r), m), Least(Hi(y, r, h), m))
  {
    hide NearInRow, LineSum;
    if m > 0 {
      NearAreaIsWindow(img, w, h, x, y, r, m - 1);
      WindowIff(y, r, h, m - 1);
      NearRowIsWindow(img, w, m - 1, x, r, w);
    }
  }

  lemma {:induction false} NearCountIsWidth(c: nat, r: nat, n: nat, k: nat)
    requires c < n && k <= n
    ensures NearCount(c, r, k) == Least(Hi(c, r, n), k) - Least(Lo(c, r), k)
  {
    if k > 0 {
      NearCountIsWidth(c, r, n, k - 1);
      WindowIff(c, r, n, k - 1);
    }
  }

  lemma AreaIsCount(c: nat, d: nat, a: real)
    requires c >= 1 && d >= 1
    ensures c * d >= 1 && Over(a, Area(c as real, d as real)) == a / ((c * d) as real)
  {
    assert (c * d) as real == c as real * d as real by {
      ProductIsReal(c, d);
    }
    assert c * d >= 1 by {
      assert (c - 1) * d >= 0;
    }
  }

  lemma {:induction false} ProductIsReal(c: nat, d: nat)
    ensures (c * d) as real == (c as real) * (d as real)
  {
    if c > 0 {
      ProductIsReal(c - 1, d);
      assert c * d == (c - 1) * d + d;
      assert (c as real) * (d as real) == ((c - 1) as real) * (d as real) + d as real;
    }
  }

  lemma NearMeanIsWindow(img: seq<real>, w: nat, h: nat, r: nat, x: nat, y: nat)
    requires x < w && y < h
    ensures NearMean(img, w, h, r, x, y) == WindowMean(img, w, h, r, x, y)
  {
    NearAreaIsWindow(img, w, h, x, y, r, h);
    NearCountIsWidth(x, r, w, w);
    NearCountIsWidth(y, r, h, h);
    SomeAreNear(x, r, w);
    SomeAreNear(y, r, h);
    AreaIsCount(NearCount(x, r, w), NearCount(y, r, h), NearInArea(img, w, x, y, r, h));
    hide NearInArea, NearCount, AreaSum, Over, Area;
  }

  // ---------------------------------------------------------------- prefix sums and separability

  lemma {:induction false} LineSumSplits(img: seq<real>, start: nat, stride: nat, lo: nat, hi: nat)
    requires lo <= hi
    ensures LineSum(img, start, stride, 0, hi) - LineSum(img, start, stride, 0, lo)
         == LineSum(img, start, stride, lo, hi)
    decreases hi
  {
    if lo < hi {
      LineSumSplits(img, start, stride, lo, hi - 1);
    }
  }

  /** The mean of the window around cell `k` of a line of `n` cells. */
  ghost function LineMean(img: seq<real>, start: nat, stride: nat, n: nat, r: nat, k: nat): real
    requires k < n
  {
    Over(LineSum(img, start, stride, Lo(k, r), Hi(k, r, n)), Width(k, r, n))
  }

  /** `mid` holds the mean of every row window. */
  ghost predicate IsRowBlur(img: seq<real>, mid: seq<real>, w: nat, h: nat, r: nat) {
    forall x: nat, y: nat :: x < w && y < h ==> Pixel(mid, w, x, y) == LineMean(img, Start(y, w), 1, w, r, x)
  }

  lemma OverSum(a: real, b: real, d: real)
    requires d >= 1.0
    ensures Over(a, d) + Over(b, d) == Over(a + b, d) && Over(0.0, d) == 0.0
  {
  }

  /** The column sum of row means is the area sum divided once: the row window is the same width in
      every row. */
  lemma {:induction false} ColumnOfRowMeans(
    img: seq<real>, mid: seq<real>, w: nat, h: nat, r: nat, x: nat, lo: nat, hi: nat)
    requires IsRowBlur(img, mid, w, h, r) && x < w && lo <= hi <= h
    ensures LineSum(mid, x, w, lo, hi) == Over(AreaSum(img, w, Lo(x, r), Hi(x, r, w), lo, hi), Width(x, r, w))
    decreases hi
  {
    hide Over, Start, Cell, At, Lo, Hi, Width;
    OverSum(0.0, 0.0, Width(x, r, w));
    if lo < hi {
      ColumnOfRowMeans(img, mid, w, h, r, x, lo, hi - 1);
      var area := AreaSum(img, w, Lo(x, r), Hi(x, r, w), lo, hi - 1);
      var row := LineSum(img, Start(hi - 1, w), 1, Lo(x, r), Hi(x, r, w));
      assert Pixel(mid, w, x, hi - 1) == Over(row, Width(x, r, w));
      assert AreaSum(img, w, Lo(x, r), Hi(x, r, w), lo, hi) == area + row;
      assert LineSum(mid, x, w, lo, hi) == LineSum(mid, x, w, lo, hi - 1) + Pixel(mid, w, x, hi - 1);
      OverSum(area, row, Width(x, r, w));
    }
  }

  lemma OverTwice(a: real, c: real, d: real)
    requires c >= 1.0 && d >= 1.0
    ensures Over(Over(a, c), d) == Over(a, Area(c, d))
  {
    var q := a / c / d;
    assert a / c == q * d;
    assert a == a / c * c;
    assert a == q * d * c == q * (c * d);
  }

  /** Averaging the row means down a column gives the exact two-dimensional mean. */
  lemma SeparableMean(img: seq<real>, mid: seq<real>, w: nat, h: nat, r: nat, x: nat, y: nat)
    requires IsRowBlur(img, mid, w, h, r) && x < w && y < h
    ensures LineMean(mid, x, w, h, r, y) == WindowMean(img, w, h, r, x, y)
  {
    hide Over, Area, IsRowBlur, LineSum, AreaSum, Width, Lo, Hi;
    ColumnOfRowMeans(img, mid, w, h, r, x, Lo(y, r), Hi(y, r, h));
    OverTwice(AreaSum(img, w, Lo(x, r), Hi(x, r, w), Lo(y, r), Hi(y, r, h)), Width(x, r, w), Width(y, r, h));
  }

  // ---------------------------------------------------------------- the loops

  /** The prefix-sum loop. */
  method Accumulate(src: seq<real>, start: nat, stride: nat, n: nat) returns (acc: array<real>)
    requires Fits(start, stride, n, |src|)
    ensures fresh(acc) && acc.Length == n + 1
    ensures forall k: nat :: k <= n ==> acc[k] == LineSum(src, start, stride, 0, k)
  {
    acc := new real[n + 1](_ => 0.0);
    for x := 0 to n
      invariant forall k: nat :: k <= x ==> acc[k] == LineSum(src, start, stride, 0, k)
    {
      acc[x + 1] := acc[x] + src[Cell(start, stride, x)];
    }
  }

  lemma OverIsMean(a: real, d: real)
    requires d >= 1.0
    ensures Over(a, d) == a / d
  {
  }

  lemma Stored(before: seq<real>, after: seq<real>, i: nat)
    requires i < |before| == |after| && after == before[i := after[i]]
    ensures At(after, i) == after[i]
    ensures forall j: nat :: j != i ==> At(after, j) == At(before, j)
  {
  }

  /** The body of the loop over rows, and of the loop over columns: one line of the image. */
  method BlurLine(src: seq<real>, dst: array<real>, start: nat, stride: nat, n: nat, radius: nat)
    requires |src| == dst.Length && stride > 0 && Fits(start, stride, n, |src|)
    modifies dst
    ensures forall k: nat :: k < n ==> At(dst[..], Cell(start, stride, k)) == LineMean(src, start, stride, n, radius, k)
    ensures forall i: nat :: (forall k: nat :: k < n ==> i != Cell(start, stride, k)) ==>
              At(dst[..], i) == old(At(dst[..], i))
  {
    hide LineSum, At, Over;
    var acc := Accumulate(src, start, stride, n);
    for x := 0 to n
      invariant forall k: nat :: k <= n ==> acc[k] == LineSum(src, start, stride, 0, k)
      invariant forall k: nat :: k < x ==>
                  At(dst[..], Cell(start, stride, k)) == LineMean(src, start, stride, n, radius, k)
      invariant forall i: nat :: (forall k: nat :: k < n ==> i != Cell(start, stride, k)) ==>
                  At(dst[..], i) == old(At(dst[..], i))
    {
      var lo, hi := Lo(x, radius), Hi(x, radius, n);
      LineSumSplits(src, start, stride, lo, hi);
      var mean := (acc[hi] - acc[lo]) / ((hi - lo) as real);
      OverIsMean(acc[hi] - acc[lo], (hi - lo) as real);
      assert mean == LineMean(src, start, stride, n, radius, x);
      forall k: nat | k < x ensures Cell(start, stride, k) != Cell(start, stride, x) {
        CellInjective(start, stride, k, x);
      }
      ghost var before := dst[..];
      dst[Cell(start, stride, x)] := mean;
      Stored(before, dst[..], Cell(start, stride, x));
    }
  }

  /** The horizontal half of a pass. */
  method BlurRows(current: seq<real>, w: nat, h: nat, radius: nat) returns (horizontal: seq<real>)
    requires |current| == w * h
    ensures |horizontal| == w * h && IsRowBlur(current, horizontal, w, h, radius)
  {
    var rows := new real[w * h](_ => 0.0);
    for y := 0 to h
      invariant IsRowBlur(current, rows[..], w, y, radius)
    {
      RowFits(w, h, y);
      ghost var before := rows[..];
      BlurLine(current, rows, Start(y, w), 1, w, radius);
      NextRow(current, before, rows[..], w, y, radius);
    }
    horizontal := rows[..];
  }

  lemma NextRow(img: seq<real>, before: seq<real>, after: seq<real>, w: nat, y: nat, r: nat)
    requires IsRowBlur(img, before, w, y, r)
    requires forall x: nat :: x < w ==> At(after, Cell(Start(y, w), 1, x)) == LineMean(img, Start(y, w), 1, w, r, x)
    requires forall i: nat :: (forall x: nat :: x < w ==> i != Cell(Start(y, w), 1, x)) ==>
               At(after, i) == At(before, i)
    ensures IsRowBlur(img, after, w, y + 1, r)
  {
    hide LineMean, At, Start, Cell;
    forall x: nat, v: nat | x < w && v < y + 1 ensures Pixel(after, w, x, v) == LineMean(img, Start(v, w), 1, w, r, x) {
      SameCell(w, x, v);
      if v < y {
        forall k: nat | k < w ensures Cell(x, w, v) != Cell(Start(y, w), 1, k) {
          SameCell(w, k, y);
          PixelsApart(w, x, v, k, y);
        }
        assert Pixel(before, w, x, v) == LineMean(img, Start(v, w), 1, w, r, x);
      }
    }
  }

  /** The vertical half of a pass. */
  method BlurColumns(horizontal: seq<real>, w: nat, h: nat, radius: nat) returns (current: seq<real>)
    requires |horizontal| == w * h
    ensures |current| == w * h
    ensures forall x: nat, y: nat :: x < w && y < h ==>
              Pixel(current, w, x, y) == LineMean(horizontal, x, w, h, radius, y)
  {
    var columns := new real[w * h](_ => 0.0);
    for x := 0 to w
      invariant forall k: nat, y: nat :: k < x && y < h ==>
                  Pixel(columns[..], w, k, y) == LineMean(horizontal, k, w, h, radius, y)
    {
      ColumnFits(w, h, x);
      ghost var before := columns[..];
      BlurLine(horizontal, columns, x, w, h, radius);
      NextColumn(horizontal, before, columns[..], w, h, x, radius);
    }
    current := columns[..];
  }

  lemma NextColumn(img: seq<real>, before: seq<real>, after: seq<real>, w: nat, h: nat, x: nat, r: nat)
    requires x < w
    requires forall k: nat, y: nat :: k < x && y < h ==> Pixel(before, w, k, y) == LineMean(img, k, w, h, r, y)
    requires forall y: nat :: y < h ==> At(after, Cell(x, w, y)) == LineMean(img, x, w, h, r, y)
    requires forall i: nat :: (forall y: nat :: y < h ==> i != Cell(x, w, y)) ==> At(after, i) == At(before, i)
    ensures forall k: nat, y: nat :: k < x + 1 && y < h ==> Pixel(after, w, k, y) == LineMean(img, k, w, h, r, y)
  {
    hide LineMean, At;
    forall k: nat, y: nat | k < x + 1 && y < h ensures Pixel(after, w, k, y) == LineMean(img, k, w, h, r, y) {
      if k < x {
        forall v: nat | v < h ensures Cell(k, w, y) != Cell(x, w, v) {
          PixelsApart(w, k, y, x, v);
        }
        assert Pixel(before, w, k, y) == LineMean(img, k, w, h, r, y);
      }
    }
  }

  /** One pass is the exact mean over the clipped window of every pixel. */
  method Pass(current: seq<real>, w: nat, h: nat, radius: nat) returns (blurred: seq<real>)
    requires |current| == w * h
    ensures IsBlur(current, blurred, w, h, radius)
  {
    var horizontal := BlurRows(current, w, h, radius);
    blurred := BlurColumns(horizontal, w, h, radius);
    forall x: nat, y: nat | x < w && y < h
      ensures Pixel(blurred, w, x, y) == NearMean(current, w, h, radius, x, y)
    {
      NearMeanIsWindow(current, w, h, radius, x, y);
      SeparableMean(current, horizontal, w, h, radius, x, y);
    }
  }

  method BoxBlur(w: nat, h: nat, plane: seq<real>, radius: nat, passes: nat) returns (current: seq<real>)
    requires |plane| == w * h
    ensures |current| == w * h && IsBlurred(plane, current, w, h, radius, passes)
  {
    current := plane;
    for p := 0 to passes
      invariant |current| == w * h && IsBlurred(plane, current, w, h, radius, p)
    {
      var next := Pass(current, w, h, radius);
      assert IsBlurred(plane, next, w, h, radius, p + 1);
      current := next;
    }
  }

  // ---------------------------------------------------------------- the range

  ghost predicate InRange(img: seq<real>, w: nat, h: nat, a: real, b: real) {
    forall x: nat, y: nat :: x < w && y < h ==> a <= Pixel(img, w, x, y) <= b
  }

  function Times(a: real, n: nat): real {
    a * (n as real)
  }

  lemma TimesNext(a: real, n: nat)
    ensures Times(a, n + 1) == Times(a, n) + a && Times(a, 0) == 0.0
  {
    assert (n + 1) as real == n as real + 1.0;
  }

  lemma {:induction false} RowSumRange(img: seq<real>, w: nat, h: nat, y: nat, lo: nat, hi: nat, a: real, b: real)
    requires InRange(img, w, h, a, b) && y < h && lo <= hi <= w
    ensures Times(a, hi - lo) <= LineSum(img, Start(y, w), 1, lo, hi) <= Times(b, hi - lo)
    decreases hi
  {
    hide Times;
    if lo < hi {
      RowSumRange(img, w, h, y, lo, hi - 1, a, b);
      SameCell(w, hi - 1, y);
      assert a <= Pixel(img, w, hi - 1, y) <= b;
      TimesNext(a, hi - 1 - lo);
      TimesNext(b, hi - 1 - lo);
    } else {
      TimesNext(a, 0);
      TimesNext(b, 0);
    }
  }

  lemma {:induction false} AreaSumRange(
    img: seq<real>, w: nat, h: nat, lx: nat, hx: nat, ly: nat, hy: nat, a: real, b: real)
    requires InRange(img, w, h, a, b) && lx <= hx <= w && ly <= hy <= h
    ensures Times(Times(a, hx - lx), hy - ly) <= AreaSum(img, w, lx, hx, ly, hy)
    ensures AreaSum(img, w, lx, hx, ly, hy) <= Times(Times(b, hx - lx), hy - ly)
    decreases hy
  {
    hide Times, LineSum, InRange;
    if ly < hy {
      AreaSumRange(img, w, h, lx, hx, ly, hy - 1, a, b);
      RowSumRange(img, w, h, hy - 1, lx, hx, a, b);
      TimesNext(Times(a, hx - lx), hy - 1 - ly);
      TimesNext(Times(b, hx - lx), hy - 1 - ly);
    } else {
      TimesNext(Times(a, hx - lx), 0);
      TimesNext(Times(b, hx - lx), 0);
    }
  }

  lemma OverAbove(s: real, n: real, a: real)
    requires n >= 1.0 && a * n <= s
    ensures a <= Over(s, n)
  {
    var q := s / n;
    assert (q - a) * n >= 0.0;
  }

  lemma OverBelow(s: real, n: real, b: real)
    requires n >= 1.0 && s <= b * n
    ensures Over(s, n) <= b
  {
    var q := s / n;
    assert (b - q) * n >= 0.0;
  }

  lemma TimesArea(a: real, c: nat, d: nat)
    requires c >= 1 && d >= 1
    ensures Times(Times(a, c), d) == a * Area(c as real, d as real)
  {
  }

  lemma MeanInRange(img: seq<real>, w: nat, h: nat, r: nat, x: nat, y: nat, a: real, b: real)
    requires InRange(img, w, h, a, b) && x < w && y < h
    ensures a <= WindowMean(img, w, h, r, x, y) <= b
  {
    hide Over, Area, Times, AreaSum, InRange;
    AreaSumRange(img, w, h, Lo(x, r), Hi(x, r, w), Lo(y, r), Hi(y, r, h), a, b);
    var s := AreaSum(img, w, Lo(x, r), Hi(x, r, w), Lo(y, r), Hi(y, r, h));
    var c, d := Hi(x, r, w) - Lo(x, r), Hi(y, r, h) - Lo(y, r);
    TimesArea(a, c, d);
    TimesArea(b, c, d);
    OverAbove(s, Area(c as real, d as real), a);
    OverBelow(s, Area(c as real, d as real), b);
  }

  /** Any number of passes stays within the input's smallest and largest pixel. */
  lemma {:induction false} PassesStayInRange(
    img: seq<real>, out: seq<real>, w: nat, h: nat, r: nat, passes: nat, a: real, b: real)
    requires IsBlurred(img, out, w, h, r, passes) && InRange(img, w, h, a, b)
    ensures InRange(out, w, h, a, b)
    decreases passes
  {
    if passes > 0 {
      var mid :| IsBlurred(img, mid, w, h, r, passes - 1) && IsBlur(mid, out, w, h, r);
      PassesStayInRange(img, mid, w, h, r, passes - 1, a, b);
      forall x: nat, y: nat | x < w && y < h ensures a <= Pixel(out, w, x, y) <= b {
        NearMeanIsWindow(mid, w, h, r, x, y);
        MeanInRange(mid, w, h, r, x, y, a, b);
      }
    }
  }
}
