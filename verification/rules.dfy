/** The three rule kernels. Each one pads the grid circularly by one cell,
    takes a 3 x 3 cross-correlation with a fixed table of integer weights (the
    weights' first index is the output channel, the second the input channel,
    the last two the row and column of the kernel), thresholds the result and
    then repairs channel 0. */
module Rules {
  import opened Grids

  datatype Rule = GameOfLifeRule | FallingSandRule | GrowthRule

  /** The channel count the rule's weight table is built for. */
  function Channels(rule: Rule): nat {
    match rule
    case GameOfLifeRule => 2
    case FallingSandRule => 3
    case GrowthRule => 3
  }

  /** GameOfLife's 2 x 2 x 3 x 3 table: all ones from alive to alive, 9 at the centre. */
  function GameOfLifeWeight(o: nat, c: nat, ki: nat, kj: nat): (r: int)
    ensures o == 0 || c == 0 || ki >= 3 || kj >= 3 ==> r == 0
  {
    if o == 1 && c == 1 && ki < 3 && kj < 3 then
      if ki == 1 && kj == 1 then 9 else 1
    else 0
  }

  /** FallingSand's 3 x 3 x 3 x 3 table, entry by entry; every other entry is 0. */
  function FallingSandWeight(o: nat, c: nat, ki: nat, kj: nat): (r: int)
    ensures o == 0 || c == 0 || ki >= 3 || kj >= 3 ==> r == 0
  {
    match (o, c, ki, kj)
    case (1, 1, 1, 1) => 4
    case (1, 1, 2, 0) => 1
    case (1, 1, 2, 1) => 1
    case (1, 1, 2, 2) => 1
    case (1, 2, 1, 1) => 1
    case (2, 2, 0, 1) => 4
    case (2, 2, 0, 0) => 3
    case (2, 1, 1, 0) => 1
    case (2, 2, 0, 2) => 3
    case (2, 1, 1, 2) => 1
    case (2, 1, 1, 1) => -12
    case _ => 0
  }

  /** Growth's 3 x 3 x 3 x 3 table: 9 for growing on itself, all ones from grown
      to grown with 9 at the centre, and 8 from growing to grown at the centre. */
  function GrowthWeight(o: nat, c: nat, ki: nat, kj: nat): (r: int)
    ensures o == 0 || c == 0 || ki >= 3 || kj >= 3 ==> r == 0
  {
    if o == 1 && c == 1 && ki == 1 && kj == 1 then 9
    else if o == 2 && c == 2 && ki < 3 && kj < 3 then (if ki == 1 && kj == 1 then 9 else 1)
    else if o == 2 && c == 1 && ki == 1 && kj == 1 then 8
    else 0
  }

  function Weight(rule: Rule, o: nat, c: nat, ki: nat, kj: nat): (r: int)
    ensures o == 0 || c == 0 || ki >= 3 || kj >= 3 ==> r == 0
  {
    match rule
    case GameOfLifeRule => GameOfLifeWeight(o, c, ki, kj)
    case FallingSandRule => FallingSandWeight(o, c, ki, kj)
    case GrowthRule => GrowthWeight(o, c, ki, kj)
  }

  /** Kernel position (ki, kj) of input channel c for output channel o at
      (i, j): it reads the padded cell (i + ki, j + kj), which is grid cell
      (i + ki - 1, j + kj - 1) wrapped around the torus. */
  function Tap(rule: Rule, g: Grid, o: nat, c: nat, i: int, j: int, ki: nat, kj: nat): int
    requires Shaped(g, Channels(rule)) && c < Channels(rule)
  {
    Weight(rule, o, c, ki, kj) * At(g, i + ki - 1, j + kj - 1, c)
  }

  /** The nine kernel taps of input channel c, summed. */
  function Taps(rule: Rule, g: Grid, o: nat, c: nat, i: int, j: int): int
    requires Shaped(g, Channels(rule)) && c < Channels(rule)
  {
    Tap(rule, g, o, c, i, j, 0, 0) + Tap(rule, g, o, c, i, j, 0, 1) + Tap(rule, g, o, c, i, j, 0, 2) +
    Tap(rule, g, o, c, i, j, 1, 0) + Tap(rule, g, o, c, i, j, 1, 1) + Tap(rule, g, o, c, i, j, 1, 2) +
    Tap(rule, g, o, c, i, j, 2, 0) + Tap(rule, g, o, c, i, j, 2, 1) + Tap(rule, g, o, c, i, j, 2, 2)
  }

  /** The taps of the first m input channels, summed. */
  function CorrelatePrefix(rule: Rule, g: Grid, o: nat, i: int, j: int, m: nat): int
    requires Shaped(g, Channels(rule)) && m <= Channels(rule)
  {
    if m == 0 then 0 else CorrelatePrefix(rule, g, o, i, j, m - 1) + Taps(rule, g, o, m - 1, i, j)
  }

  /** Output channel o of the circular-padded cross-correlation at (i, j).
      No rule gives output channel 0 any weight, so its correlation is 0
      before channel 0 is repaired. */
  function Correlate(rule: Rule, g: Grid, o: nat, i: int, j: int): (r: int)
    requires Shaped(g, Channels(rule))
    ensures o == 0 ==> r == 0
  {
    assert o == 0 ==> CorrelatePrefix(rule, g, o, i, j, 0) == 0;
    assert o == 0 ==> CorrelatePrefix(rule, g, o, i, j, 1) == 0;
    assert o == 0 ==> CorrelatePrefix(rule, g, o, i, j, 2) == 0;
    assert o == 0 && Channels(rule) == 3 ==> CorrelatePrefix(rule, g, o, i, j, 3) == 0;
    CorrelatePrefix(rule, g, o, i, j, Channels(rule))
  }

  function Indicator(b: bool): int {
    if b then 1 else 0
  }

  /** Alive is the indicator of a weighted sum of 3, 11 or 12; dead is 1 - alive. */
  function GameOfLifeCell(g: Grid, i: int, j: int): (cell: Cell)
    requires Shaped(g, 2)
    ensures |cell| == 2 && OneHot(cell)
  {
    var s := Correlate(GameOfLifeRule, g, 1, i, j);
    var alive := Indicator(s == 3 || s == 11 || s == 12);
    ChannelSumOfTwo(1 - alive, alive);
    [1 - alive, alive]
  }

  /** Channels 1 and 2 are the indicators of a sum above 3; channel 0 becomes
      1 minus the sum of all three thresholded channels. */
  function FallingSandCell(g: Grid, i: int, j: int): (cell: Cell)
    requires Shaped(g, 3)
    ensures |cell| == 3 && ChannelSum(cell) == 1
    ensures (cell[1] == 0 || cell[1] == 1) && (cell[2] == 0 || cell[2] == 1)
  {
    var t0 := Indicator(Correlate(FallingSandRule, g, 0, i, j) > 3);
    var t1 := Indicator(Correlate(FallingSandRule, g, 1, i, j) > 3);
    var t2 := Indicator(Correlate(FallingSandRule, g, 2, i, j) > 3);
    ChannelSumOfThree(1 - (t0 + t1 + t2), t1, t2);
    [1 - (t0 + t1 + t2), t1, t2]
  }

  /** Channels above 8 fire; a grown cell suppresses growing in the same place,
      and channel 0 becomes 1 minus the sum of the three channels. */
  function GrowthCell(g: Grid, i: int, j: int): (cell: Cell)
    requires Shaped(g, 3)
    ensures |cell| == 3 && OneHot(cell)
  {
    var t0 := Indicator(Correlate(GrowthRule, g, 0, i, j) > 8);
    var t1 := Indicator(Correlate(GrowthRule, g, 1, i, j) > 8);
    var t2 := Indicator(Correlate(GrowthRule, g, 2, i, j) > 8);
    var growing := t1 * (1 - t2);
    ChannelSumOfThree(1 - (t0 + growing + t2), growing, t2);
    [1 - (t0 + growing + t2), growing, t2]
  }

  function GameOfLife(g: Grid): (r: Grid)
    requires Shaped(g, 2)
    ensures Shaped(r, 2) && |r| == |g| && Width(r) == Width(g)
    ensures OneHotGrid(r)
  {
    seq(|g|, i requires 0 <= i < |g| =>
      seq(Width(g), j requires 0 <= j < Width(g) => GameOfLifeCell(g, i, j)))
  }

  function FallingSand(g: Grid): (r: Grid)
    requires Shaped(g, 3)
    ensures Shaped(r, 3) && |r| == |g| && Width(r) == Width(g)
    ensures forall i, j :: 0 <= i < |r| && 0 <= j < |r[i]| ==>
      ChannelSum(r[i][j]) == 1 && (r[i][j][1] == 0 || r[i][j][1] == 1) && (r[i][j][2] == 0 || r[i][j][2] == 1)
  {
    seq(|g|, i requires 0 <= i < |g| =>
      seq(Width(g), j requires 0 <= j < Width(g) => FallingSandCell(g, i, j)))
  }

  function Growth(g: Grid): (r: Grid)
    requires Shaped(g, 3)
    ensures Shaped(r, 3) && |r| == |g| && Width(r) == Width(g)
    ensures OneHotGrid(r)
  {
    seq(|g|, i requires 0 <= i < |g| =>
      seq(Width(g), j requires 0 <= j < Width(g) => GrowthCell(g, i, j)))
  }

  /** One application of a rule: what `self.rule(self.state)` computes. */
  function Apply(rule: Rule, g: Grid): (r: Grid)
    requires Shaped(g, Channels(rule))
    ensures Shaped(r, Channels(rule)) && |r| == |g| && Width(r) == Width(g)
    ensures rule != FallingSandRule ==> OneHotGrid(r)
  {
    match rule
    case GameOfLifeRule => GameOfLife(g)
    case FallingSandRule => FallingSand(g)
    case GrowthRule => Growth(g)
  }

  // ---------------------------------------------------------------------
  // Helpers

  lemma ChannelSumOfTwo(a: int, b: int)
    ensures ChannelSum([a, b]) == a + b
  {
    assert [a][..0] == [];
    assert ChannelSum([a]) == a;
    assert [a, b][..1] == [a];
  }

  lemma ChannelSumOfThree(a: int, b: int, c: int)
    ensures ChannelSum([a, b, c]) == a + b + c
  {
    assert [a, b, c][..2] == [a, b];
    ChannelSumOfTwo(a, b);
  }

  lemma AtBinary(g: Grid, n: nat, x: int, y: int, c: nat)
    requires Shaped(g, n) && c < n && Binary(g)
    ensures At(g, x, y, c) == 0 || At(g, x, y, c) == 1
  {
    var a, b := x % |g|, y % Width(g);
    assert g[a][b][c] == 0 || g[a][b][c] == 1;
  }

  // ---------------------------------------------------------------------
  // GameOfLife

  /** Live cells among the eight wrapped Moore neighbours of (i, j). */
  function LiveNeighbours(g: Grid, i: int, j: int): int
    requires Shaped(g, 2)
  {
    At(g, i - 1, j - 1, 1) + At(g, i - 1, j, 1) + At(g, i - 1, j + 1, 1) +
    At(g, i, j - 1, 1) + At(g, i, j + 1, 1) +
    At(g, i + 1, j - 1, 1) + At(g, i + 1, j, 1) + At(g, i + 1, j + 1, 1)
  }

  /** The alive channel's weighted sum is the live neighbour count plus nine
      times the centre. */
  lemma GameOfLifeSum(g: Grid, i: int, j: int)
    requires Shaped(g, 2)
    ensures Correlate(GameOfLifeRule, g, 1, i, j) == LiveNeighbours(g, i, j) + 9 * At(g, i, j, 1)
  {
    assert Taps(GameOfLifeRule, g, 1, 0, i, j) == 0;
    assert CorrelatePrefix(GameOfLifeRule, g, 1, i, j, 1) == 0;
  }

  lemma LiveNeighboursRange(g: Grid, i: int, j: int)
    requires Shaped(g, 2) && Binary(g)
    ensures 0 <= LiveNeighbours(g, i, j) <= 8
  {
    AtBinary(g, 2, i - 1, j - 1, 1);
    AtBinary(g, 2, i - 1, j, 1);
    AtBinary(g, 2, i - 1, j + 1, 1);
    AtBinary(g, 2, i, j - 1, 1);
    AtBinary(g, 2, i, j + 1, 1);
    AtBinary(g, 2, i + 1, j - 1, 1);
    AtBinary(g, 2, i + 1, j, 1);
    AtBinary(g, 2, i + 1, j + 1, 1);
  }

  /** With 0/1 input a cell is alive next iff it is dead with exactly three live
      neighbours or alive with two or three, and the dead channel is the
      complement of the alive one. */
  lemma GameOfLifeNext(g: Grid, i: int, j: int)
    requires Shaped(g, 2) && Binary(g) && 0 <= i < |g| && 0 <= j < Width(g)
    ensures var n, next := LiveNeighbours(g, i, j), GameOfLife(g)[i][j];
      && next[0] == 1 - next[1]
      && (next[1] == 1 <==> (g[i][j][1] == 0 && n == 3) || (g[i][j][1] == 1 && (n == 2 || n == 3)))
  {
    var next := GameOfLife(g)[i][j];
    assert next == GameOfLifeCell(g, i, j);
    var n, a := LiveNeighbours(g, i, j), g[i][j][1];
    LiveNeighboursRange(g, i, j);
    GameOfLifeSum(g, i, j);
    AtInside(g, i, j, 1);
    assert a == 0 || a == 1;
    LifeThreshold(n, a);
  }

  lemma LifeThreshold(n: int, a: int)
    requires 0 <= n <= 8 && (a == 0 || a == 1)
    ensures var s := n + 9 * a;
      (s == 3 || s == 11 || s == 12) <==> (a == 0 && n == 3) || (a == 1 && (n == 2 || n == 3))
  {
  }

  /** A live cell with no live neighbour dies. */
  lemma IsolatedCellDies(g: Grid, i: int, j: int)
    requires Shaped(g, 2) && Binary(g) && 0 <= i < |g| && 0 <= j < Width(g)
    requires g[i][j][1] == 1 && LiveNeighbours(g, i, j) == 0
    ensures GameOfLife(g)[i][j] == [1, 0]
  {
    GameOfLifeNext(g, i, j);
  }

  // ---------------------------------------------------------------------
  // FallingSand

  /** Channel 1's sum: four times the centre's sand, the three wrapped cells
      below, and the centre's channel 2. */
  function SandSum(g: Grid, i: int, j: int): int
    requires Shaped(g, 3)
  {
    4 * At(g, i, j, 1) + At(g, i + 1, j - 1, 1) + At(g, i + 1, j, 1) + At(g, i + 1, j + 1, 1) + At(g, i, j, 2)
  }

  /** Channel 2's sum: 4, 3 and 3 for channel 2 straight above and diagonally
      above, one for sand on either side, and -12 for sand at the centre. */
  function SettleSum(g: Grid, i: int, j: int): int
    requires Shaped(g, 3)
  {
    4 * At(g, i - 1, j, 2) + 3 * At(g, i - 1, j - 1, 2) + 3 * At(g, i - 1, j + 1, 2) +
    At(g, i, j - 1, 1) + At(g, i, j + 1, 1) - 12 * At(g, i, j, 1)
  }

  lemma FallingSandSums(g: Grid, i: int, j: int)
    requires Shaped(g, 3)
    ensures Correlate(FallingSandRule, g, 1, i, j) == SandSum(g, i, j)
    ensures Correlate(FallingSandRule, g, 2, i, j) == SettleSum(g, i, j)
  {
    var r := FallingSandRule;
    assert Taps(r, g, 1, 0, i, j) == 0;
    assert Taps(r, g, 1, 1, i, j) == 4 * At(g, i, j, 1) + At(g, i + 1, j - 1, 1) + At(g, i + 1, j, 1) + At(g, i + 1, j + 1, 1);
    assert Taps(r, g, 1, 2, i, j) == At(g, i, j, 2);
    assert CorrelatePrefix(r, g, 1, i, j, 1) == 0;
    assert CorrelatePrefix(r, g, 1, i, j, 2) == Taps(r, g, 1, 1, i, j);
    assert CorrelatePrefix(r, g, 1, i, j, 3) == Taps(r, g, 1, 1, i, j) + Taps(r, g, 1, 2, i, j);
    assert Taps(r, g, 2, 0, i, j) == 0;
    assert Taps(r, g, 2, 1, i, j) == At(g, i, j - 1, 1) + At(g, i, j + 1, 1) - 12 * At(g, i, j, 1);
    assert Taps(r, g, 2, 2, i, j) == 4 * At(g, i - 1, j, 2) + 3 * At(g, i - 1, j - 1, 2) + 3 * At(g, i - 1, j + 1, 2);
    assert CorrelatePrefix(r, g, 2, i, j, 1) == 0;
    assert CorrelatePrefix(r, g, 2, i, j, 2) == Taps(r, g, 2, 1, i, j);
    assert CorrelatePrefix(r, g, 2, i, j, 3) == Taps(r, g, 2, 1, i, j) + Taps(r, g, 2, 2, i, j);
  }

  /** Channel 1 fires iff its sum exceeds 3, channel 2 likewise, and the three
      output channels always sum to 1. */
  lemma FallingSandNext(g: Grid, i: int, j: int)
    requires Shaped(g, 3) && 0 <= i < |g| && 0 <= j < Width(g)
    ensures var next := FallingSand(g)[i][j];
      && (next[1] == 1 <==> SandSum(g, i, j) > 3)
      && (next[2] == 1 <==> SettleSum(g, i, j) > 3)
      && next[0] + next[1] + next[2] == 1
  {
    assert FallingSand(g)[i][j] == FallingSandCell(g, i, j);
    FallingSandSums(g, i, j);
  }

  /** With 0/1 input a sand cell stays sand and never also takes channel 2. */
  lemma SandStaysSand(g: Grid, i: int, j: int)
    requires Shaped(g, 3) && Binary(g) && 0 <= i < |g| && 0 <= j < Width(g)
    requires g[i][j][1] == 1
    ensures FallingSand(g)[i][j][1] == 1 && FallingSand(g)[i][j][2] == 0
  {
    FallingSandNext(g, i, j);
    AtInside(g, i, j, 1);
    AtBinary(g, 3, i, j, 2);
    AtBinary(g, 3, i + 1, j - 1, 1);
    AtBinary(g, 3, i + 1, j, 1);
    AtBinary(g, 3, i + 1, j + 1, 1);
    AtBinary(g, 3, i - 1, j, 2);
    AtBinary(g, 3, i - 1, j - 1, 2);
    AtBinary(g, 3, i - 1, j + 1, 2);
    AtBinary(g, 3, i, j - 1, 1);
    AtBinary(g, 3, i, j + 1, 1);
  }

  /** FallingSand does not keep the one-hot invariant: in this one-hot grid the
      centre holds channel 2, channel 2 is above it and sand fills the row
      below, so both channels fire there and channel 0 becomes -1. */
  lemma FallingSandBreaksOneHot()
    ensures var e, s, f := [1, 0, 0], [0, 1, 0], [0, 0, 1];
      var g := [[f, f, f], [e, f, e], [s, s, s]];
      && Shaped(g, 3) && OneHotGrid(g)
      && FallingSand(g)[1][1] == [-1, 1, 1]
  {
    var e, s, f := [1, 0, 0], [0, 1, 0], [0, 0, 1];
    var g := [[f, f, f], [e, f, e], [s, s, s]];
    ChannelSumOfThree(1, 0, 0);
    ChannelSumOfThree(0, 1, 0);
    ChannelSumOfThree(0, 0, 1);
    assert Shaped(g, 3);
    FallingSandNext(g, 1, 1);
    assert SandSum(g, 1, 1) == 4;
    assert SettleSum(g, 1, 1) == 10;
  }

  // ---------------------------------------------------------------------
  // Growth

  /** Grown cells among the eight wrapped neighbours of (i, j). */
  function GrownNeighbours(g: Grid, i: int, j: int): int
    requires Shaped(g, 3)
  {
    At(g, i - 1, j - 1, 2) + At(g, i - 1, j, 2) + At(g, i - 1, j + 1, 2) +
    At(g, i, j - 1, 2) + At(g, i, j + 1, 2) +
    At(g, i + 1, j - 1, 2) + At(g, i + 1, j, 2) + At(g, i + 1, j + 1, 2)
  }

  lemma GrowthSums(g: Grid, i: int, j: int)
    requires Shaped(g, 3)
    ensures Correlate(GrowthRule, g, 1, i, j) == 9 * At(g, i, j, 1)
    ensures Correlate(GrowthRule, g, 2, i, j) == GrownNeighbours(g, i, j) + 9 * At(g, i, j, 2) + 8 * At(g, i, j, 1)
  {
    var r := GrowthRule;
    assert Taps(r, g, 1, 0, i, j) == 0;
    assert Taps(r, g, 1, 1, i, j) == 9 * At(g, i, j, 1);
    assert Taps(r, g, 1, 2, i, j) == 0;
    assert CorrelatePrefix(r, g, 1, i, j, 1) == 0;
    assert CorrelatePrefix(r, g, 1, i, j, 2) == Taps(r, g, 1, 1, i, j);
    assert CorrelatePrefix(r, g, 1, i, j, 3) == Taps(r, g, 1, 1, i, j);
    assert Taps(r, g, 2, 0, i, j) == 0;
    assert Taps(r, g, 2, 1, i, j) == 8 * At(g, i, j, 1);
    assert Taps(r, g, 2, 2, i, j) == GrownNeighbours(g, i, j) + 9 * At(g, i, j, 2);
    assert CorrelatePrefix(r, g, 2, i, j, 1) == 0;
    assert CorrelatePrefix(r, g, 2, i, j, 2) == Taps(r, g, 2, 1, i, j);
    assert CorrelatePrefix(r, g, 2, i, j, 3) == Taps(r, g, 2, 1, i, j) + Taps(r, g, 2, 2, i, j);
  }

  lemma GrownNeighboursRange(g: Grid, i: int, j: int)
    requires Shaped(g, 3) && Binary(g)
    ensures 0 <= GrownNeighbours(g, i, j) <= 8
  {
    AtBinary(g, 3, i - 1, j - 1, 2);
    AtBinary(g, 3, i - 1, j, 2);
    AtBinary(g, 3, i - 1, j + 1, 2);
    AtBinary(g, 3, i, j - 1, 2);
    AtBinary(g, 3, i, j + 1, 2);
    AtBinary(g, 3, i + 1, j - 1, 2);
    AtBinary(g, 3, i + 1, j, 2);
    AtBinary(g, 3, i + 1, j + 1, 2);
  }

  /** With 0/1 input: a cell is grown next iff it is grown, or growing with at
      least one grown neighbour; it is growing next iff it is growing and not
      about to be grown; an empty cell stays empty. */
  lemma GrowthNext(g: Grid, i: int, j: int)
    requires Shaped(g, 3) && Binary(g) && 0 <= i < |g| && 0 <= j < Width(g)
    ensures var n, next := GrownNeighbours(g, i, j), Growth(g)[i][j];
      var grown := g[i][j][2] == 1 || (g[i][j][1] == 1 && n >= 1);
      && (next[2] == 1 <==> grown)
      && (next[1] == 1 <==> g[i][j][1] == 1 && !grown)
      && (g[i][j][1] == 0 && g[i][j][2] == 0 ==> next == [1, 0, 0])
  {
    assert Growth(g)[i][j] == GrowthCell(g, i, j);
    GrowthSums(g, i, j);
    GrownNeighboursRange(g, i, j);
    AtInside(g, i, j, 1);
    AtInside(g, i, j, 2);
    assert g[i][j][1] == 0 || g[i][j][1] == 1;
    assert g[i][j][2] == 0 || g[i][j][2] == 1;
  }

  // ---------------------------------------------------------------------
  // Toroidal topology

  lemma TapShift(rule: Rule, g: Grid, o: nat, c: nat, i: int, j: int, a: int, b: int, ki: nat, kj: nat)
    requires Shaped(g, Channels(rule)) && c < Channels(rule)
    ensures Shaped(Shift(g, a, b), Channels(rule))
    ensures Tap(rule, Shift(g, a, b), o, c, i, j, ki, kj) == Tap(rule, g, o, c, (i + a) % |g|, (j + b) % Width(g), ki, kj)
  {
    var n := Channels(rule);
    AtShift(g, n, a, b, i + ki - 1, j + kj - 1, c);
    AtPeriodic(g, n, i + a, j + b, ki - 1, kj - 1, c);
  }

  lemma TapsShift(rule: Rule, g: Grid, o: nat, c: nat, i: int, j: int, a: int, b: int)
    requires Shaped(g, Channels(rule)) && c < Channels(rule)
    ensures Shaped(Shift(g, a, b), Channels(rule))
    ensures Taps(rule, Shift(g, a, b), o, c, i, j) == Taps(rule, g, o, c, (i + a) % |g|, (j + b) % Width(g))
  {
    TapShift(rule, g, o, c, i, j, a, b, 0, 0);
    TapShift(rule, g, o, c, i, j, a, b, 0, 1);
    TapShift(rule, g, o, c, i, j, a, b, 0, 2);
    TapShift(rule, g, o, c, i, j, a, b, 1, 0);
    TapShift(rule, g, o, c, i, j, a, b, 1, 1);
    TapShift(rule, g, o, c, i, j, a, b, 1, 2);
    TapShift(rule, g, o, c, i, j, a, b, 2, 0);
    TapShift(rule, g, o, c, i, j, a, b, 2, 1);
    TapShift(rule, g, o, c, i, j, a, b, 2, 2);
  }

  lemma {:induction false} CorrelatePrefixShift(rule: Rule, g: Grid, o: nat, i: int, j: int, a: int, b: int, m: nat)
    requires Shaped(g, Channels(rule)) && m <= Channels(rule)
    ensures Shaped(Shift(g, a, b), Channels(rule))
    ensures CorrelatePrefix(rule, Shift(g, a, b), o, i, j, m) == CorrelatePrefix(rule, g, o, (i + a) % |g|, (j + b) % Width(g), m)
  {
    ShiftShaped(g, Channels(rule), a, b);
    if m > 0 {
      CorrelatePrefixShift(rule, g, o, i, j, a, b, m - 1);
      TapsShift(rule, g, o, m - 1, i, j, a, b);
    }
  }

  lemma CorrelateShift(rule: Rule, g: Grid, o: nat, i: int, j: int, a: int, b: int)
    requires Shaped(g, Channels(rule))
    ensures Shaped(Shift(g, a, b), Channels(rule))
    ensures Correlate(rule, Shift(g, a, b), o, i, j) == Correlate(rule, g, o, (i + a) % |g|, (j + b) % Width(g))
  {
    CorrelatePrefixShift(rule, g, o, i, j, a, b, Channels(rule));
  }

  lemma NextCellShift(rule: Rule, g: Grid, a: int, b: int, i: int, j: int)
    requires Shaped(g, Channels(rule))
    ensures Shaped(Shift(g, a, b), Channels(rule))
    ensures var h, x, y := Shift(g, a, b), (i + a) % |g|, (j + b) % Width(g);
      match rule
      case GameOfLifeRule => GameOfLifeCell(h, i, j) == GameOfLifeCell(g, x, y)
      case FallingSandRule => FallingSandCell(h, i, j) == FallingSandCell(g, x, y)
      case GrowthRule => GrowthCell(h, i, j) == GrowthCell(g, x, y)
  {
    match rule
    case GameOfLifeRule => GameOfLifeCellShift(g, a, b, i, j);
    case FallingSandRule => FallingSandCellShift(g, a, b, i, j);
    case GrowthRule => GrowthCellShift(g, a, b, i, j);
  }

  lemma GameOfLifeCellShift(g: Grid, a: int, b: int, i: int, j: int)
    requires Shaped(g, 2)
    ensures Shaped(Shift(g, a, b), 2)
    ensures GameOfLifeCell(Shift(g, a, b), i, j) == GameOfLifeCell(g, (i + a) % |g|, (j + b) % Width(g))
  {
    CorrelateShift(GameOfLifeRule, g, 1, i, j, a, b);
  }

  lemma FallingSandCellShift(g: Grid, a: int, b: int, i: int, j: int)
    requires Shaped(g, 3)
    ensures Shaped(Shift(g, a, b), 3)
    ensures FallingSandCell(Shift(g, a, b), i, j) == FallingSandCell(g, (i + a) % |g|, (j + b) % Width(g))
  {
    CorrelateShift(FallingSandRule, g, 1, i, j, a, b);
    CorrelateShift(FallingSandRule, g, 2, i, j, a, b);
  }

  lemma GrowthCellShift(g: Grid, a: int, b: int, i: int, j: int)
    requires Shaped(g, 3)
    ensures Shaped(Shift(g, a, b), 3)
    ensures GrowthCell(Shift(g, a, b), i, j) == GrowthCell(g, (i + a) % |g|, (j + b) % Width(g))
  {
    CorrelateShift(GrowthRule, g, 1, i, j, a, b);
    CorrelateShift(GrowthRule, g, 2, i, j, a, b);
  }

  lemma CellCommutesWithShift(rule: Rule, g: Grid, a: int, b: int, i: int, j: int)
    requires Shaped(g, Channels(rule)) && 0 <= i < |g| && 0 <= j < Width(g)
    ensures Shaped(Shift(g, a, b), Channels(rule))
    ensures Apply(rule, Shift(g, a, b))[i][j] == Shift(Apply(rule, g), a, b)[i][j]
  {
    var h := Shift(g, a, b);
    var x, y := (i + a) % |g|, (j + b) % Width(g);
    ShiftAt(Apply(rule, g), a, b, i, j);
    NextCellShift(rule, g, a, b, i, j);
    match rule
    case GameOfLifeRule =>
      assert Apply(rule, h)[i][j] == GameOfLifeCell(h, i, j);
      assert Apply(rule, g)[x][y] == GameOfLifeCell(g, x, y);
    case FallingSandRule =>
      assert Apply(rule, h)[i][j] == FallingSandCell(h, i, j);
      assert Apply(rule, g)[x][y] == FallingSandCell(g, x, y);
    case GrowthRule =>
      assert Apply(rule, h)[i][j] == GrowthCell(h, i, j);
      assert Apply(rule, g)[x][y] == GrowthCell(g, x, y);
  }

  lemma RowCommutesWithShift(rule: Rule, g: Grid, a: int, b: int, i: int)
    requires Shaped(g, Channels(rule)) && 0 <= i < |g|
    ensures Shaped(Shift(g, a, b), Channels(rule))
    ensures Apply(rule, Shift(g, a, b))[i] == Shift(Apply(rule, g), a, b)[i]
  {
    ShiftShaped(g, Channels(rule), a, b);
    var lhs, rhs := Apply(rule, Shift(g, a, b))[i], Shift(Apply(rule, g), a, b)[i];
    assert |lhs| == |rhs| == Width(g);
    forall j | 0 <= j < Width(g)
      ensures Apply(rule, Shift(g, a, b))[i][j] == Shift(Apply(rule, g), a, b)[i][j]
    {
      CellCommutesWithShift(rule, g, a, b, i, j);
    }
  }

  /** Every rule commutes with rotating the torus: the neighbours of a border
      cell are read from the opposite edge exactly as for an interior cell. */
  lemma ApplyCommutesWithShift(rule: Rule, g: Grid, a: int, b: int)
    requires Shaped(g, Channels(rule))
    ensures Shaped(Shift(g, a, b), Channels(rule))
    ensures Apply(rule, Shift(g, a, b)) == Shift(Apply(rule, g), a, b)
  {
    ShiftShaped(g, Channels(rule), a, b);
    var lhs, rhs := Apply(rule, Shift(g, a, b)), Shift(Apply(rule, g), a, b);
    assert |lhs| == |rhs| == |g|;
    forall i | 0 <= i < |g|
      ensures lhs[i] == rhs[i]
    {
      RowCommutesWithShift(rule, g, a, b, i);
    }
  }
}
