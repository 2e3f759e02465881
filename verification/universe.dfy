/** The running automaton: a universe whose grid is overwritten by drawing
    requests and advanced by its rule, and the scheduler that drains the
    request queue before every step. */
module Universes {
  import opened Wrappers
  import opened Grids
  import opened Rules
  import opened Edits
  import opened Templates

  /** One universe: its name, its state grid, its rule and its palette (one
      stored colour per channel). */
  class Universe {
    const name: string
    var state: array2<Cell>
    const rule: Rule
    var colors: seq<Triple>

    /** A square grid whose every cell has the rule's channel count, and one
        palette colour per channel. */
    ghost predicate Valid()
      reads this, state
    {
      && state.Length0 > 0 && state.Length0 == state.Length1
      && (forall i, j :: 0 <= i < state.Length0 && 0 <= j < state.Length1 ==> |state[i, j]| == Channels(rule))
      && |colors| == Channels(rule)
    }

    /** The grid as a value, row by row. */
    function Snapshot(): (g: Grid)
      reads this, state
      ensures |g| == state.Length0
      ensures forall i :: 0 <= i < |g| ==> |g[i]| == state.Length1
      ensures forall i, j :: 0 <= i < state.Length0 && 0 <= j < state.Length1 ==> g[i][j] == state[i, j]
    {
      var a := state;
      seq(a.Length0, i requires 0 <= i < a.Length0 reads a =>
        seq(a.Length1, j requires 0 <= j < a.Length1 reads a => a[i, j]))
    }

    lemma SnapshotShaped()
      requires Valid()
      ensures Shaped(Snapshot(), Channels(rule)) && |Snapshot()| == Width(Snapshot()) == state.Length0
    {
    }

    /** A fresh universe from a template: an all-zero size x size grid with one
        channel per palette colour. */
    constructor (t: Template, size: nat)
      requires WellFormed(t) && size > 0
      ensures Valid() && fresh(state)
      ensures name == t.name && rule == t.rule && colors == t.colors
      ensures state.Length0 == size
      ensures forall i, j :: 0 <= i < size && 0 <= j < size ==> state[i, j] == seq(|t.colors|, _ => 0)
    {
      name := t.name;
      rule := t.rule;
      colors := t.colors;
      var zero: Cell := seq(|t.colors|, _ => 0);
      state := new Cell[size, size]((i, j) => zero);
    }

    /** Replaces the grid by the rule applied to it; nothing else changes. */
    method Step()
      requires Valid()
      modifies this
      ensures Valid() && fresh(state)
      ensures Snapshot() == Apply(rule, old(Snapshot()))
      ensures colors == old(colors)
    {
      SnapshotShaped();
      var next := Apply(rule, Snapshot());
      var h, w := state.Length0, state.Length1;
      assert forall i :: 0 <= i < h ==> |next[i]| == w;
      state := new Cell[h, w]((i, j) requires 0 <= i < h && 0 <= j < w => next[i][j]);
      forall i | 0 <= i < h ensures Snapshot()[i] == next[i] {
      }
    }

    /** Overwrites every cell of the window (which lies inside the grid) with
        `cell`, row by row; every other cell and the palette keep their
        values. */
    method Paste(w: Window, cell: Cell)
      requires Valid() && |cell| == Channels(rule)
      requires 0 <= w.top && w.bottom <= state.Length0 && 0 <= w.left && w.right <= state.Length1
      modifies state
      ensures Valid()
      ensures Snapshot() == Paint(old(Snapshot()), w, cell)
    {
      SnapshotShaped();
      ghost var before := Snapshot();
      var i := w.top;
      while i < w.bottom
        invariant w.top <= i && (i <= w.bottom || i == w.top)
        invariant Valid()
        invariant forall a, b :: 0 <= a < state.Length0 && 0 <= b < state.Length1 ==>
          state[a, b] == if w.top <= a < i && w.left <= b < w.right then cell else before[a][b]
      {
        var j := w.left;
        while j < w.right
          invariant w.left <= j && (j <= w.right || j == w.left)
          invariant Valid()
          invariant forall a, b :: 0 <= a < state.Length0 && 0 <= b < state.Length1 ==>
            state[a, b] == if (w.top <= a < i || (a == i && b < j)) && w.left <= b < w.right then cell else before[a][b]
        {
          state[i, j] := cell;
          j := j + 1;
        }
        i := i + 1;
      }
      assert forall a :: 0 <= a < state.Length0 ==> Snapshot()[a] == Paint(before, w, cell)[a];
    }

    /** Stores colour `t` as palette entry k; the grid is untouched. */
    method SetColor(k: nat, t: Triple)
      requires Valid() && k < |colors|
      modifies this
      ensures Valid() && state == old(state)
      ensures colors == old(colors)[k := t]
    {
      colors := colors[k := t];
    }
  }

  /** The scheduler's view of the world: the shared slot holding the current
      universe, the FIFO queue of drawing requests, and whether the scheduler
      thread is still alive. */
  class Simulation {
    var universe: Universe
    var queue: seq<Edit>
    var running: bool
    const size: nat

    ghost predicate Valid()
      reads this, universe, universe.state
    {
      universe.Valid() && universe.state.Length0 == size
    }

    /** Starts with the given template, an empty queue and a live scheduler. */
    constructor (t: Template, size: nat)
      requires WellFormed(t) && size > 0
      ensures Valid() && fresh(universe) && fresh(universe.state)
      ensures universe.name == t.name && universe.rule == t.rule && universe.colors == t.colors
      ensures queue == [] && running && this.size == size
    {
      universe := new Universe(t, size);
      queue := [];
      running := true;
      this.size := size;
    }

    /** Appends a request to the queue. */
    method Push(e: Edit)
      modifies this
      ensures queue == old(queue) + [e]
      ensures universe == old(universe) && running == old(running)
    {
      queue := queue + [e];
    }

    /** Replaces the current universe by a fresh one from the template; the
        queue and any requests still in it are kept. */
    method Switch(t: Template)
      requires WellFormed(t) && size > 0
      modifies this
      ensures Valid() && fresh(universe) && fresh(universe.state)
      ensures universe.name == t.name && universe.rule == t.rule && universe.colors == t.colors
      ensures forall i, j :: 0 <= i < size && 0 <= j < size ==> universe.state[i, j] == seq(|t.colors|, _ => 0)
      ensures queue == old(queue) && running == old(running)
    {
      universe := new Universe(t, size);
    }

    /** One pass of the scheduler loop: take requests off the front of the
        queue until it is empty, painting each one's window with the one-hot
        vector of its cell state, then advance the universe by one step. A
        request whose cell state is out of range raises an IndexError that
        ends the thread: that request has been taken off the queue, the rest
        stay, and no step is taken. Once the thread has ended nothing happens. */
    method RunIteration()
      requires Valid()
      modifies this, universe, universe.state
      ensures Valid() && universe == old(universe) && universe.colors == old(universe.colors)
      ensures !old(running) ==>
        !running && queue == old(queue) && universe.Snapshot() == old(universe.Snapshot())
      ensures old(running) ==>
        var d := Drain(old(universe.Snapshot()), old(queue), Channels(universe.rule));
        && running == !d.crashed
        && queue == old(queue)[d.taken..]
        && universe.Snapshot() == if d.crashed then d.grid else Apply(universe.rule, d.grid)
    {
      if !running {
        return;
      }
      var crashed := DrainQueue();
      if crashed {
        running := false;
        return;
      }
      universe.Step();
    }

    /** The inner loop of a pass: requests are taken off the front of the
        queue and painted until the queue is empty or a request's cell state
        is out of range; the grid and the queue end as `Drain` says. Only
        this thread takes requests, so the loop pops a local copy and stores
        what is left when it ends. */
    method DrainQueue() returns (crashed: bool)
      requires Valid()
      modifies this, universe.state
      ensures Valid() && universe == old(universe) && running == old(running)
      ensures var d := Drain(old(universe.Snapshot()), old(queue), Channels(universe.rule));
        && crashed == d.crashed
        && queue == old(queue)[d.taken..]
        && universe.Snapshot() == d.grid
    {
      var u := universe;
      var c := Channels(u.rule);
      u.SnapshotShaped();
      ghost var start, q0 := u.Snapshot(), queue;
      ghost var outcome := Drain(start, q0, c);
      ghost var cur := start;
      ResumesStart(start, q0, c);
      var pending := queue;
      while pending != []
        invariant universe == u && running == old(running) && queue == q0
        invariant u.Valid() && u.state == old(u.state) && u.state.Length0 == size
        invariant Resumes(cur, pending, q0, outcome, c)
        invariant |cur| == Width(cur) == size && u.Snapshot() == cur
      {
        var e := pending[0];
        var target := NormIndex(e.target, c);
        if target.None? {
          ResumesCrash(cur, pending, q0, outcome, c);
          queue := pending[1..];
          return true;
        }
        var w, cell := WrittenWindow(e, size, size), OneHotVector(c, target.value);
        assert w == WrittenWindow(pending[0], |cur|, Width(cur));
        ResumesStep(cur, pending, q0, outcome, c);
        pending := pending[1..];
        u.Paste(w, cell);
        cur := Paint(cur, w, cell);
      }
      ResumesDone(cur, q0, outcome, c);
      queue := [];
      return false;
    }
  }
}
