/** The video track's frame: a square crop of the current grid at the viewer's
    position and zoom, coloured through the palette, clamped to bytes and
    scaled to the video size by nearest-neighbour sampling. Nothing is
    written. */
module Compositor {
  import opened Wrappers
  import opened Numeric
  import opened Grids
  import opened Templates

  /** Rows of pixels; each pixel holds the three components in the palette's
      stored order, which is the frame's BGR order. */
  type Image = seq<seq<Triple>>

  function Add(x: Triple, y: Triple): Triple {
    Triple(x.c0 + y.c0, x.c1 + y.c1, x.c2 + y.c2)
  }

  function Scale(x: Triple, s: int): Triple {
    Triple(x.c0 * s, x.c1 * s, x.c2 * s)
  }

  /** The palette weighted by the first m channels of a cell. */
  function MixPrefix(colors: seq<Triple>, cell: Cell, m: nat): Triple
    requires m <= |colors| && m <= |cell|
  {
    if m == 0 then Triple(0, 0, 0)
    else Add(MixPrefix(colors, cell, m - 1), Scale(colors[m - 1], cell[m - 1]))
  }

  /** The colour of a cell: the palette transposed times its channel vector.
      A one-hot cell gets the palette colour of its set channel. */
  function Mix(colors: seq<Triple>, cell: Cell): (r: Triple)
    requires |cell| == |colors|
    ensures forall t :: 0 <= t < |cell| && OneHot(cell) && cell[t] == 1 ==> r == colors[t]
  {
    assert forall t :: 0 <= t < |cell| && OneHot(cell) && cell[t] == 1 ==> MixPrefix(colors, cell, |cell|) == colors[t] by {
      forall t | 0 <= t < |cell| && OneHot(cell) && cell[t] == 1 {
        MixOneHot(colors, cell, t, |cell|);
      }
    }
    MixPrefix(colors, cell, |cell|)
  }

  function ClampByte(x: int): (r: int)
    ensures 0 <= r <= 255
    ensures 0 <= x <= 255 ==> r == x
  {
    if x < 0 then 0 else if x > 255 then 255 else x
  }

  predicate IsByteTriple(t: Triple) {
    0 <= t.c0 <= 255 && 0 <= t.c1 <= 255 && 0 <= t.c2 <= 255
  }

  function ClampTriple(t: Triple): (r: Triple)
    ensures IsByteTriple(r)
    ensures IsByteTriple(t) ==> r == t
  {
    Triple(ClampByte(t.c0), ClampByte(t.c1), ClampByte(t.c2))
  }

  /** The pixel a cell becomes: always a byte triple, and the mix itself
      when that already is one. */
  function Pixel(colors: seq<Triple>, cell: Cell): (r: Triple)
    requires |cell| == |colors|
    ensures IsByteTriple(r)
    ensures IsByteTriple(Mix(colors, cell)) ==> r == Mix(colors, cell)
  {
    ClampTriple(Mix(colors, cell))
  }

  /** The crop index that output index d reads when k crop cells are scaled
      to n output cells by nearest-exact sampling: the cell whose centre is
      nearest to the centre of output cell d. */
  function Src(d: nat, k: nat, n: nat): (r: nat)
    requires k > 0 && n > 0
    ensures r < k
  {
    MulMonotone(0, 2 * d + 1, k);
    Min((2 * d + 1) * k / (2 * n), k - 1)
  }

  /** The crop side: the grid height scaled by the zoom, truncated. */
  function CropSide(h: nat, zoom: real): int {
    Trunc(h as real * zoom)
  }

  /** A zoom in [0, 1] never crops more than the grid, and zoom 1 crops all
      of it. */
  lemma CropSideBounds(h: nat, zoom: real)
    ensures 0.0 <= zoom <= 1.0 ==> 0 <= CropSide(h, zoom) <= h
    ensures zoom == 1.0 ==> CropSide(h, zoom) == h
  {
    if 0.0 <= zoom <= 1.0 {
      assert 0.0 <= h as real * zoom <= h as real * 1.0;
      assert CropSide(h, zoom) as real <= h as real;
    }
  }

  /** The frame sent for the viewport at (p0, p1) with the given zoom, or None
      where the code raises instead (the crop is not a full non-empty square
      inside the grid, or the video size is not positive). */
  function Frame(g: Grid, colors: seq<Triple>, p0: int, p1: int, zoom: real, size: int): (r: Option<Image>)
    requires Shaped(g, |colors|)
    ensures r.Some? ==> size > 0 && |r.value| == size
    ensures r.Some? ==> forall d0 :: 0 <= d0 < size ==> |r.value[d0]| == size
    ensures r.Some? ==> forall d0, d1 :: 0 <= d0 < size && 0 <= d1 < size ==> IsByteTriple(r.value[d0][d1])
  {
    var k := CropSide(|g|, zoom);
    var top, left := SliceBound(p0, |g|), SliceBound(p1, Width(g));
    if k > 0 && size > 0 && SliceLength(p0, p0 + k, |g|) == k && SliceLength(p1, p1 + k, Width(g)) == k then
      Some(seq(size, d0 requires 0 <= d0 < size =>
        seq(size, d1 requires 0 <= d1 < size =>
          Pixel(colors, g[top + Src(d0, k, size)][left + Src(d1, k, size)]))))
    else None
  }

  /** Nearest-exact sampling stays inside the crop, never goes backwards, and
      is the identity when no scaling happens. */
  lemma SrcProperties(d: nat, e: nat, k: nat, n: nat)
    requires k > 0 && n > 0
    ensures Src(d, k, n) < k
    ensures d <= e ==> Src(d, k, n) <= Src(e, k, n)
    ensures k == n && d < n ==> Src(d, k, n) == d
  {
    if d <= e {
      SrcMonotone(d, e, k, n);
    }
    if k == n && d < n {
      SrcIdentity(d, n);
    }
  }

  lemma SrcMonotone(d: nat, e: nat, k: nat, n: nat)
    requires k > 0 && n > 0 && d <= e
    ensures Src(d, k, n) <= Src(e, k, n)
  {
    MulMonotone(2 * d + 1, 2 * e + 1, k);
    DivMonotone((2 * d + 1) * k, (2 * e + 1) * k, 2 * n);
  }

  lemma SrcIdentity(d: nat, n: nat)
    requires d < n
    ensures Src(d, n, n) == d
  {
    var y := (2 * d + 1) * n;
    assert y == 2 * n * d + n;
    ModUniqueDiv(y, 2 * n, d, n);
  }

  lemma MulMonotone(x: nat, y: nat, k: nat)
    requires x <= y
    ensures x * k <= y * k
  {
  }

  lemma DivMonotone(x: nat, y: nat, m: nat)
    requires x <= y && m > 0
    ensures x / m <= y / m
  {
    var qx, qy := x / m, y / m;
    assert m * (qx - qy) == (x - x % m) - (y - y % m);
    if qx - qy >= 1 {
      MulAtLeast(m, qx - qy);
    }
  }

  lemma ModUniqueDiv(y: int, m: int, q: int, r: int)
    requires m > 0 && y == m * q + r && 0 <= r < m
    ensures y / m == q
  {
    ModUnique(y, m, q, r);
  }

  /** With the viewport inside the grid (the bound the client keeps), the
      frame exists exactly when the crop side and the video size are positive
      and the crop fits. */
  lemma {:induction false} FrameDefined(g: Grid, colors: seq<Triple>, p0: int, p1: int, zoom: real, size: int)
    requires Shaped(g, |colors|) && p0 >= 0 && p1 >= 0
    ensures var k := CropSide(|g|, zoom);
      Frame(g, colors, p0, p1, zoom, size).Some? <==>
        k > 0 && size > 0 && p0 + k <= |g| && p1 + k <= Width(g)
  {
  }

  /** Output pixel (d0, d1) shows the colour of crop cell (Src(d0), Src(d1)),
      read at the viewport offset, and the frame is size x size. */
  lemma FramePixels(g: Grid, colors: seq<Triple>, p0: int, p1: int, zoom: real, size: int, d0: int, d1: int)
    requires Shaped(g, |colors|) && p0 >= 0 && p1 >= 0
    requires Frame(g, colors, p0, p1, zoom, size).Some?
    requires 0 <= d0 < size && 0 <= d1 < size
    ensures var k, img := CropSide(|g|, zoom), Frame(g, colors, p0, p1, zoom, size).value;
      && |img| == size && |img[d0]| == size
      && p0 + Src(d0, k, size) < |g| && p1 + Src(d1, k, size) < Width(g)
      && img[d0][d1] == Pixel(colors, g[p0 + Src(d0, k, size)][p1 + Src(d1, k, size)])
  {
    var k := CropSide(|g|, zoom);
    SrcProperties(d0, d0, k, size);
    SrcProperties(d1, d1, k, size);
  }

  /** At zoom 1 from the origin, with the video as large as the grid, every
      pixel shows its own cell. */
  lemma FullView(g: Grid, colors: seq<Triple>, size: int, d0: int, d1: int)
    requires Shaped(g, |colors|) && |g| == Width(g) == size
    requires 0 <= d0 < size && 0 <= d1 < size
    ensures Frame(g, colors, 0, 0, 1.0, size).Some?
    ensures Frame(g, colors, 0, 0, 1.0, size).value[d0][d1] == Pixel(colors, g[d0][d1])
  {
    assert CropSide(|g|, 1.0) == size;
    SrcProperties(d0, d0, size, size);
    SrcProperties(d1, d1, size, size);
  }

  /** A one-hot cell is drawn in the palette colour of its set channel. */
  lemma {:induction false} MixOneHot(colors: seq<Triple>, cell: Cell, t: nat, m: nat)
    requires |cell| == |colors| && OneHot(cell) && t < |cell| && cell[t] == 1
    requires m <= |cell|
    ensures MixPrefix(colors, cell, m) == if t < m then colors[t] else Triple(0, 0, 0)
  {
    if m > 0 {
      MixOneHot(colors, cell, t, m - 1);
      if m - 1 != t {
        OneHotOthersZero(cell, t, m - 1);
      }
    }
  }

  /** For a one-hot cell and a palette of byte values, the pixel is exactly
      the palette colour of the cell's state. */
  lemma PixelOfOneHot(colors: seq<Triple>, cell: Cell, t: nat)
    requires |cell| == |colors| && OneHot(cell) && t < |cell| && cell[t] == 1
    requires IsByteTriple(colors[t])
    ensures Pixel(colors, cell) == colors[t]
  {
    MixOneHot(colors, cell, t, |cell|);
  }
}
