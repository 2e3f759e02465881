/** The world of the automaton: an H x W grid whose cells are vectors of C
    channel values, read with toroidal (circular) wrap-around on both axes.
    The tensor's leading batch dimension of one is dropped and the layout is
    row, column, channel. */
module Grids {

  type Cell = seq<int>
  type Grid = seq<seq<Cell>>

  /** At least one row and one column, and all rows equally long. */
  predicate Rectangular(g: Grid) {
    && |g| > 0
    && |g[0]| > 0
    && (forall i :: 0 <= i < |g| ==> |g[i]| == |g[0]|)
  }

  /** A rectangular grid whose every cell has c channels. */
  predicate Shaped(g: Grid, c: nat) {
    Rectangular(g) && forall i, j :: 0 <= i < |g| && 0 <= j < |g[i]| ==> |g[i][j]| == c
  }

  function Width(g: Grid): nat
    requires |g| > 0
  {
    |g[0]|
  }

  /** A shaped grid whose cells all have a channel c. */
  predicate Readable(g: Grid, c: nat) {
    Rectangular(g) && forall i, j :: 0 <= i < |g| && 0 <= j < |g[i]| ==> c < |g[i][j]|
  }

  /** Channel c of the cell at (i, j), both indices wrapped around the torus. */
  function At(g: Grid, i: int, j: int, c: nat): int
    requires Readable(g, c)
  {
    g[i % |g|][j % Width(g)][c]
  }

  /** Every channel value of every cell is 0 or 1. */
  predicate Binary(g: Grid) {
    forall i, j, k :: 0 <= i < |g| && 0 <= j < |g[i]| && 0 <= k < |g[i][j]| ==> g[i][j][k] == 0 || g[i][j][k] == 1
  }

  /** Sum of a cell's channels (the tensor's `sum(1)`). */
  function ChannelSum(cell: Cell): int {
    if cell == [] then 0 else ChannelSum(cell[..|cell| - 1]) + cell[|cell| - 1]
  }

  /** Exactly one channel is 1 and every other is 0. */
  predicate OneHot(cell: Cell) {
    (forall k :: 0 <= k < |cell| ==> cell[k] == 0 || cell[k] == 1) && ChannelSum(cell) == 1
  }

  predicate OneHotGrid(g: Grid) {
    forall i, j :: 0 <= i < |g| && 0 <= j < |g[i]| ==> OneHot(g[i][j])
  }

  /** The n-channel cell whose channel t alone is 1. */
  function OneHotVector(n: nat, t: nat): (v: Cell)
    requires t < n
    ensures |v| == n && v[t] == 1
    ensures forall k :: 0 <= k < n && k != t ==> v[k] == 0
  {
    seq(n, k => if k == t then 1 else 0)
  }

  lemma {:induction false} ChannelSumOfPrefix(n: nat, t: nat, m: nat)
    requires t < n && m <= n
    ensures ChannelSum(OneHotVector(n, t)[..m]) == if t < m then 1 else 0
  {
    if m > 0 {
      var v := OneHotVector(n, t);
      assert v[..m][..m - 1] == v[..m - 1];
      ChannelSumOfPrefix(n, t, m - 1);
    }
  }

  lemma OneHotVectorIsOneHot(n: nat, t: nat)
    requires t < n
    ensures OneHot(OneHotVector(n, t))
  {
    var v := OneHotVector(n, t);
    ChannelSumOfPrefix(n, t, n);
    assert v[..n] == v;
  }

  /** In a one-hot cell, the channel that is 1 is the only one that is not 0. */
  lemma {:induction false} OneHotOthersZero(cell: Cell, t: nat, k: nat)
    requires OneHot(cell) && t < |cell| && cell[t] == 1
    requires k < |cell| && k != t
    ensures cell[k] == 0
  {
    assert cell[..|cell|] == cell;
    if cell[k] == 1 {
      SumAtLeastTwo(cell, t, k, |cell|);
    }
  }

  /** A prefix whose channels are all 0 or 1 sums to at least 2 when two of them are 1. */
  lemma {:induction false} SumAtLeastTwo(cell: Cell, t: nat, k: nat, m: nat)
    requires m <= |cell| && t < m && k < m && t != k
    requires cell[t] == 1 && cell[k] == 1
    requires forall x :: 0 <= x < |cell| ==> cell[x] == 0 || cell[x] == 1
    ensures ChannelSum(cell[..m]) >= 2
  {
    assert cell[..m][..m - 1] == cell[..m - 1];
    if m - 1 == t || m - 1 == k {
      var other := if m - 1 == t then k else t;
      SumAtLeastOne(cell, other, m - 1);
    } else {
      SumAtLeastTwo(cell, t, k, m - 1);
    }
  }

  lemma {:induction false} SumAtLeastOne(cell: Cell, t: nat, m: nat)
    requires m <= |cell| && t < m && cell[t] == 1
    requires forall x :: 0 <= x < |cell| ==> cell[x] == 0 || cell[x] == 1
    ensures ChannelSum(cell[..m]) >= 1
  {
    assert cell[..m][..m - 1] == cell[..m - 1];
    if m - 1 != t {
      SumAtLeastOne(cell, t, m - 1);
    } else {
      SumNonNegative(cell, m - 1);
    }
  }

  lemma {:induction false} SumNonNegative(cell: Cell, m: nat)
    requires m <= |cell|
    requires forall x :: 0 <= x < |cell| ==> cell[x] == 0 || cell[x] == 1
    ensures ChannelSum(cell[..m]) >= 0
  {
    if m > 0 {
      assert cell[..m][..m - 1] == cell[..m - 1];
      SumNonNegative(cell, m - 1);
    }
  }

  /** The grid rotated on the torus so that cell (i, j) of the result is cell
      (i + a, j + b) of g. */
  function Shift(g: Grid, a: int, b: int): (r: Grid)
    requires Rectangular(g)
    ensures |r| == |g| && forall i :: 0 <= i < |r| ==> |r[i]| == Width(g)
  {
    seq(|g|, i requires 0 <= i < |g| =>
      seq(Width(g), j requires 0 <= j < Width(g) => g[(i + a) % |g|][(j + b) % Width(g)]))
  }

  lemma ShiftShaped(g: Grid, n: nat, a: int, b: int)
    requires Shaped(g, n)
    ensures Shaped(Shift(g, a, b), n)
  {
  }

  lemma ShiftAt(g: Grid, a: int, b: int, i: int, j: int)
    requires Rectangular(g) && 0 <= i < |g| && 0 <= j < Width(g)
    ensures Shift(g, a, b)[i][j] == g[(i + a) % |g|][(j + b) % Width(g)]
  {
  }

  /** Euclidean remainder is unique: the facts that pin down y % n. */
  lemma ModUnique(y: int, n: int, d: int, r: int)
    requires n > 0 && y == n * d + r && 0 <= r < n
    ensures y % n == r
  {
    var d', r' := y / n, y % n;
    assert y == n * d' + r';
    assert n * (d - d') == r' - r;
    if d - d' >= 1 {
      MulAtLeast(n, d - d');
    } else if d' - d >= 1 {
      MulAtLeast(n, d' - d);
    }
  }

  lemma {:induction false} MulAtLeast(n: int, k: int)
    requires n > 0 && k >= 1
    ensures n * k >= n
  {
    if k > 1 {
      MulAtLeast(n, k - 1);
      assert n * k == n * (k - 1) + n;
    }
  }

  /** Wrapping an index before adding an offset wraps to the same place. */
  lemma ModShift(x: int, a: int, n: int)
    requires n > 0
    ensures (x % n + a) % n == (x + a) % n
  {
    var q := (x + a) / n;
    var r := (x + a) % n;
    assert x == n * (x / n) + x % n;
    assert x + a == n * q + r;
    assert x % n + a == n * (q - x / n) + r;
    ModUnique(x % n + a, n, q - x / n, r);
  }

  /** Inside the grid no wrapping happens. */
  lemma AtInside(g: Grid, i: int, j: int, c: nat)
    requires Readable(g, c) && 0 <= i < |g| && 0 <= j < Width(g)
    ensures At(g, i, j, c) == g[i][j][c]
  {
    ModUnique(i, |g|, 0, i);
    ModUnique(j, Width(g), 0, j);
  }

  lemma AtShift(g: Grid, n: nat, a: int, b: int, x: int, y: int, c: nat)
    requires Shaped(g, n) && c < n
    ensures Shaped(Shift(g, a, b), n)
    ensures At(Shift(g, a, b), x, y, c) == At(g, x + a, y + b, c)
  {
    ShiftShaped(g, n, a, b);
    var h := Shift(g, a, b);
    var i, j := x % |g|, y % Width(g);
    assert |h| == |g| && Width(h) == Width(g);
    assert h[i][j] == g[(i + a) % |g|][(j + b) % Width(g)];
    ModShift(x, a, |g|);
    ModShift(y, b, Width(g));
  }

  lemma AtPeriodic(g: Grid, n: nat, x: int, y: int, di: int, dj: int, c: nat)
    requires Shaped(g, n) && c < n
    ensures At(g, x % |g| + di, y % Width(g) + dj, c) == At(g, x + di, y + dj, c)
  {
    ModShift(x, di, |g|);
    ModShift(y, dj, Width(g));
  }
}
