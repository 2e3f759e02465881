/** Drawing requests and what the scheduler does with them: each queued edit
    names a centre cell, a radius and a target cell state, and overwrites a
    square window of the grid with the one-hot vector of that state. */
module Edits {
  import opened Wrappers
  import opened Numeric
  import opened Grids

  /** One queued request `[row, col, radius, cellState]`. */
  datatype Edit = Edit(row: int, col: int, radius: int, target: int)

  /** The half-open rectangle of rows [top, bottom) and columns [left, right). */
  datatype Window = Window(top: int, bottom: int, left: int, right: int)

  predicate InWindow(w: Window, a: int, b: int) {
    w.top <= a < w.bottom && w.left <= b < w.right
  }

  /** The rows and columns the scheduler overwrites, as the code computes them:
      `top`/`left` are clamped below by 0 and `bottom`/`right` above by the grid
      size, and the slice then reinterprets a negative stop as counting from
      the end of the axis. */
  function WrittenWindow(e: Edit, h: nat, w: nat): (r: Window)
    ensures 0 <= r.top <= h && 0 <= r.bottom <= h
    ensures 0 <= r.left <= w && 0 <= r.right <= w
  {
    Window(SliceBound(Max(e.row - e.radius, 0), h), SliceBound(Min(e.row + e.radius + 1, h), h),
           SliceBound(Max(e.col - e.radius, 0), w), SliceBound(Min(e.col + e.radius + 1, w), w))
  }

  /** The window clamped to the grid on both sides, which is what the edit
      evidently means: the square of radius `radius` around the centre, cut
      down to the cells that exist. The scheduler does not use it; it agrees
      with `WrittenWindow` whenever neither slice stop is negative. */
  function ClampedWindow(e: Edit, h: nat, w: nat): (r: Window)
    ensures 0 <= r.top <= h && 0 <= r.bottom <= h
    ensures 0 <= r.left <= w && 0 <= r.right <= w
  {
    Window(Min(Max(e.row - e.radius, 0), h), Max(Min(e.row + e.radius + 1, h), 0),
           Min(Max(e.col - e.radius, 0), w), Max(Min(e.col + e.radius + 1, w), 0))
  }

  /** A cell is overwritten exactly when it lies on the grid and within
      `radius` of the centre on both axes: nothing off the grid is touched
      and an edit wholly off the grid touches nothing. */
  lemma ClampedWindowExact(e: Edit, h: nat, w: nat, a: int, b: int)
    ensures InWindow(ClampedWindow(e, h, w), a, b) <==>
      && 0 <= a < h && 0 <= b < w
      && e.row - e.radius <= a <= e.row + e.radius
      && e.col - e.radius <= b <= e.col + e.radius
  {
  }

  /** As long as neither slice stop is negative, the window the code computes
      is the clamped window. */
  lemma WrittenIsClampedForNonNegativeStops(e: Edit, h: nat, w: nat)
    requires e.row + e.radius + 1 >= 0 && e.col + e.radius + 1 >= 0
    ensures WrittenWindow(e, h, w) == ClampedWindow(e, h, w)
  {
  }

  /** A request centred five rows above a 10 x 10 grid with radius 1 should
      change nothing, but the negative slice stop -3 is read as row 7, so the
      code overwrites rows 0..6 of columns 2..4. */
  lemma NegativeStopPaintsFromTop()
    ensures var e := Edit(-5, 3, 1, 1);
      && WrittenWindow(e, 10, 10) == Window(0, 7, 2, 5)
      && InWindow(WrittenWindow(e, 10, 10), 0, 2)
      && forall a, b :: !InWindow(ClampedWindow(e, 10, 10), a, b)
  {
  }

  /** The cell state index as Python normalises it for a channel vector of
      length n: negative indices count from the end, anything outside
      [-n, n) is an IndexError. */
  function NormIndex(t: int, n: nat): (r: Option<nat>)
    ensures r.Some? <==> -(n as int) <= t < n
    ensures r.Some? ==> r.value < n && (r.value == t || r.value == t + n)
  {
    if 0 <= t < n then Some(t) else if -(n as int) <= t < 0 then Some(t + n) else None
  }

  /** The grid with every cell of the window replaced by `cell`. */
  function Paint(g: Grid, w: Window, cell: Cell): (r: Grid)
    requires Rectangular(g)
    ensures |r| == |g| && forall i :: 0 <= i < |r| ==> |r[i]| == Width(g)
  {
    seq(|g|, i requires 0 <= i < |g| =>
      seq(Width(g), j requires 0 <= j < Width(g) => if InWindow(w, i, j) then cell else g[i][j]))
  }

  /** Painting a cell of the grid's channel count keeps the grid's shape,
      and painting a one-hot cell into a one-hot grid keeps it one-hot. */
  lemma PaintShaped(g: Grid, w: Window, cell: Cell)
    requires Shaped(g, |cell|)
    ensures Shaped(Paint(g, w, cell), |cell|)
    ensures OneHotGrid(g) && OneHot(cell) ==> OneHotGrid(Paint(g, w, cell))
  {
  }

  /** The outcome of draining a queue: the grid afterwards, how many requests
      were taken off the queue, and whether the last of them raised an
      IndexError (which ends the scheduler thread). */
  datatype Drained = Drained(grid: Grid, taken: nat, crashed: bool)

  /** Processes the requests in queue order until the queue is empty or a
      request names a cell state outside the channel vector; each valid
      request paints the window as the code slices it (`WrittenWindow`). */
  function Drain(g: Grid, es: seq<Edit>, c: nat): (r: Drained)
    requires Shaped(g, c)
    ensures Shaped(r.grid, c) && |r.grid| == |g| && Width(r.grid) == Width(g)
    ensures r.taken <= |es|
    ensures !r.crashed ==> r.taken == |es|
    ensures r.crashed ==> r.taken > 0 && NormIndex(es[r.taken - 1].target, c).None?
    decreases |es|
  {
    if es == [] then Drained(g, 0, false)
    else match NormIndex(es[0].target, c)
      case None => Drained(g, 1, true)
      case Some(t) =>
        var cell := OneHotVector(c, t);
        PaintShaped(g, WrittenWindow(es[0], |g|, Width(g)), cell);
        var rest := Drain(Paint(g, WrittenWindow(es[0], |g|, Width(g)), cell), es[1..], c);
        Drained(rest.grid, rest.taken + 1, rest.crashed)
  }

  /** Mid-drain: `rest` is what is left of the queue `q0`, and draining it
      from the current grid `g` ends where draining all of `q0` from the
      start ends (`outcome`). */
  predicate Resumes(g: Grid, rest: seq<Edit>, q0: seq<Edit>, outcome: Drained, c: nat) {
    && Shaped(g, c) && |rest| <= |q0| && rest == q0[|q0| - |rest|..]
    && var r := Drain(g, rest, c);
       r.grid == outcome.grid && r.crashed == outcome.crashed && outcome.taken == |q0| - |rest| + r.taken
  }

  lemma ResumesStart(g: Grid, q0: seq<Edit>, c: nat)
    requires Shaped(g, c)
    ensures Resumes(g, q0, q0, Drain(g, q0, c), c)
  {
  }

  /** Handling a valid front request keeps the drain on course. */
  lemma ResumesStep(g: Grid, rest: seq<Edit>, q0: seq<Edit>, outcome: Drained, c: nat)
    requires Resumes(g, rest, q0, outcome, c) && rest != [] && NormIndex(rest[0].target, c).Some?
    ensures Resumes(Paint(g, WrittenWindow(rest[0], |g|, Width(g)), OneHotVector(c, NormIndex(rest[0].target, c).value)),
                    rest[1..], q0, outcome, c)
  {
    PaintShaped(g, WrittenWindow(rest[0], |g|, Width(g)), OneHotVector(c, NormIndex(rest[0].target, c).value));
    assert rest[1..] == q0[|q0| - |rest| + 1..];
  }

  /** An invalid front request is where the drain crashes: the grid is final
      and the queue keeps what follows it. */
  lemma ResumesCrash(g: Grid, rest: seq<Edit>, q0: seq<Edit>, outcome: Drained, c: nat)
    requires Resumes(g, rest, q0, outcome, c) && rest != [] && NormIndex(rest[0].target, c).None?
    ensures outcome.crashed && outcome.grid == g && outcome.taken <= |q0| && rest[1..] == q0[outcome.taken..]
  {
    assert rest[1..] == q0[|q0| - |rest| + 1..];
  }

  /** An empty rest is where the drain finishes without a crash. */
  lemma ResumesDone(g: Grid, q0: seq<Edit>, outcome: Drained, c: nat)
    requires Resumes(g, [], q0, outcome, c)
    ensures !outcome.crashed && outcome.grid == g && outcome.taken == |q0|
  {
  }

  /** Every target in the queue is a valid cell state index. */
  predicate TargetsValid(es: seq<Edit>, c: nat) {
    forall k :: 0 <= k < |es| ==> NormIndex(es[k].target, c).Some?
  }

  /** The one-hot cell an edit with a valid target stamps. */
  function Stamp(e: Edit, c: nat): (cell: Cell)
    requires NormIndex(e.target, c).Some?
    ensures OneHot(cell) && |cell| == c
  {
    OneHotVectorIsOneHot(c, NormIndex(e.target, c).value);
    OneHotVector(c, NormIndex(e.target, c).value)
  }

  /** A queue crashes the scheduler exactly when one of its targets is
      invalid, and then it stops right after the first invalid one. */
  lemma {:induction false} DrainCrashesAtFirstInvalid(g: Grid, es: seq<Edit>, c: nat)
    requires Shaped(g, c)
    ensures !Drain(g, es, c).crashed <==> TargetsValid(es, c)
    ensures Drain(g, es, c).crashed ==> TargetsValid(es[..Drain(g, es, c).taken - 1], c)
    decreases |es|
  {
    if es != [] && NormIndex(es[0].target, c).Some? {
      var g' := Paint(g, WrittenWindow(es[0], |g|, Width(g)), Stamp(es[0], c));
      PaintShaped(g, WrittenWindow(es[0], |g|, Width(g)), Stamp(es[0], c));
      DrainCrashesAtFirstInvalid(g', es[1..], c);
      var r := Drain(g', es[1..], c);
      if r.crashed {
        assert es[..r.taken + 1 - 1] == [es[0]] + es[1..][..r.taken - 1];
      } else {
        assert es == [es[0]] + es[1..];
      }
      if !TargetsValid(es, c) {
        var k :| 0 <= k < |es| && NormIndex(es[k].target, c).None?;
        assert es[1..][k - 1] == es[k];
      }
    }
  }

  /** Draining a queue with one more request at its end paints that request's
      window over the result of draining the rest: requests are applied in
      FIFO order, so a later window overwrites an earlier one. */
  lemma {:induction false} DrainSnoc(g: Grid, es: seq<Edit>, e: Edit, c: nat)
    requires Shaped(g, c) && TargetsValid(es, c) && NormIndex(e.target, c).Some?
    ensures !Drain(g, es, c).crashed
    ensures Drain(g, es + [e], c).grid == Paint(Drain(g, es, c).grid, WrittenWindow(e, |g|, Width(g)), Stamp(e, c))
    decreases |es|
  {
    DrainCrashesAtFirstInvalid(g, es, c);
    if es == [] {
      assert [e][1..] == [];
    } else {
      var g' := Paint(g, WrittenWindow(es[0], |g|, Width(g)), Stamp(es[0], c));
      PaintShaped(g, WrittenWindow(es[0], |g|, Width(g)), Stamp(es[0], c));
      assert (es + [e])[0] == es[0];
      assert (es + [e])[1..] == es[1..] + [e];
      assert TargetsValid(es[1..], c) by {
        forall k | 0 <= k < |es[1..]| ensures NormIndex(es[1..][k].target, c).Some? {
          assert es[1..][k] == es[k + 1];
        }
      }
      DrainSnoc(g', es[1..], e, c);
    }
  }

  /** The index of the last request whose window covers cell (a, b). */
  function LastCovering(es: seq<Edit>, h: nat, w: nat, a: int, b: int): (r: Option<nat>)
    ensures r.Some? ==> r.value < |es| && InWindow(WrittenWindow(es[r.value], h, w), a, b)
    ensures r.Some? ==> forall k :: r.value < k < |es| ==> !InWindow(WrittenWindow(es[k], h, w), a, b)
    ensures r.None? ==> forall k :: 0 <= k < |es| ==> !InWindow(WrittenWindow(es[k], h, w), a, b)
    decreases |es|
  {
    if es == [] then None
    else if InWindow(WrittenWindow(es[|es| - 1], h, w), a, b) then Some(|es| - 1)
    else LastCovering(es[..|es| - 1], h, w, a, b)
  }

  /** After draining a queue of valid requests, a cell that some window covers
      holds the one-hot state of the last request covering it, and every other
      cell is unchanged. */
  lemma {:induction false} DrainLastWriterWins(g: Grid, es: seq<Edit>, c: nat, a: int, b: int)
    requires Shaped(g, c) && TargetsValid(es, c)
    requires 0 <= a < |g| && 0 <= b < Width(g)
    ensures !Drain(g, es, c).crashed
    ensures var r := Drain(g, es, c).grid;
      match LastCovering(es, |g|, Width(g), a, b)
      case None => r[a][b] == g[a][b]
      case Some(k) => r[a][b] == Stamp(es[k], c)
    decreases |es|
  {
    DrainCrashesAtFirstInvalid(g, es, c);
    if es == [] {
    } else {
      var init, e := es[..|es| - 1], es[|es| - 1];
      assert es == init + [e];
      assert TargetsValid(init, c) by {
        forall k | 0 <= k < |init| ensures NormIndex(init[k].target, c).Some? {
          assert init[k] == es[k];
        }
      }
      DrainSnoc(g, init, e, c);
      DrainLastWriterWins(g, init, c, a, b);
    }
  }

  /** While no request has a negative slice stop, the drain only touches
      cells within some request's radius: a cell farther than the radius from
      every centre on some axis keeps its value. */
  lemma DrainUntouchedOutsideRadius(g: Grid, es: seq<Edit>, c: nat, a: int, b: int)
    requires Shaped(g, c) && TargetsValid(es, c)
    requires 0 <= a < |g| && 0 <= b < Width(g)
    requires forall k :: 0 <= k < |es| ==> es[k].row + es[k].radius + 1 >= 0 && es[k].col + es[k].radius + 1 >= 0
    requires forall k :: 0 <= k < |es| ==>
      !(es[k].row - es[k].radius <= a <= es[k].row + es[k].radius && es[k].col - es[k].radius <= b <= es[k].col + es[k].radius)
    ensures Drain(g, es, c).grid[a][b] == g[a][b]
  {
    forall k | 0 <= k < |es| ensures !InWindow(WrittenWindow(es[k], |g|, Width(g)), a, b) {
      WrittenIsClampedForNonNegativeStops(es[k], |g|, Width(g));
      ClampedWindowExact(es[k], |g|, Width(g), a, b);
    }
    DrainLastWriterWins(g, es, c, a, b);
  }
}
