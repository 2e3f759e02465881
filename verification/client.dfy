/** The browser client's bookkeeping: the colour picker's hex encoding and
    parsing, the reducer for server messages, and the key handler that moves
    and zooms the viewport and keeps it inside the grid. */
module Client {
  import opened Wrappers
  import opened Numeric
  import opened Grids
  import opened Templates
  import opened Compositor
  import opened Protocol
  import opened Universes

  // ---------------------------------------------------------------------
  // Hex colours

  /** A lower-case hex digit, as toString(16) writes them. */
  predicate IsLowerHex(c: char) {
    '0' <= c <= '9' || 'a' <= c <= 'f'
  }

  /** The lower-case hex digit of a value below 16. */
  function Digit(d: nat): (c: char)
    requires d < 16
    ensures IsLowerHex(c)
  {
    if d < 10 then ('0' as int + d) as char else ('a' as int + d - 10) as char
  }

  /** Number.prototype.toString(16) of a non-negative integer: its hex
      digits, most significant first, without leading zeros. */
  function ToHex(n: nat): (s: string)
    ensures |s| >= 1
    ensures forall i :: 0 <= i < |s| ==> IsLowerHex(s[i])
    ensures n > 0 ==> s[0] != '0'
    decreases n
  {
    if n < 16 then [Digit(n)] else ToHex(n / 16) + [Digit(n % 16)]
  }

  /** The two lower-case hex digits of a byte. */
  function HexPair(x: nat): string
    requires x < 256
  {
    [Digit(x / 16), Digit(x % 16)]
  }

  /** `rgbToHex`: a 1 is placed above the 24 colour bits so that toString(16)
      keeps leading zeros, and then dropped. */
  function RgbToHex(rgb: Triple): (s: string)
    requires IsByteTriple(rgb)
    ensures |s| == 7 && s[0] == '#' && forall i :: 1 <= i < 7 ==> IsLowerHex(s[i])
  {
    ColourNumberDigits(rgb);
    "#" + ToHex(0x100_0000 + rgb.c0 * 0x1_0000 + rgb.c1 * 0x100 + rgb.c2)[1..]
  }

  lemma DigitValue(d: nat)
    requires d < 16
    ensures IsAlnum(Digit(d)) && IsHexChar(Digit(d)) && HexValue(Digit(d)) == d && Digit(d) != 'x'
  {
  }

  lemma {:induction false} ToHexAppend(q: nat, d: nat)
    requires q >= 1 && d < 16
    ensures ToHex(16 * q + d) == ToHex(q) + [Digit(d)]
  {
    ModUniqueDiv(16 * q + d, 16, q, d);
    ModUnique(16 * q + d, 16, q, d);
  }

  /** The encoding is '#' and two lower-case hex digits per component, in
      red, green, blue order. */
  lemma RgbToHexDigits(rgb: Triple)
    requires IsByteTriple(rgb)
    ensures RgbToHex(rgb) == "#" + HexPair(rgb.c0) + HexPair(rgb.c1) + HexPair(rgb.c2)
  {
    ColourNumberDigits(rgb);
    var t := ToHex(0x100_0000 + rgb.c0 * 0x1_0000 + rgb.c1 * 0x100 + rgb.c2);
    assert t[1..] == HexPair(rgb.c0) + HexPair(rgb.c1) + HexPair(rgb.c2);
  }

  /** The number `rgbToHex` prints is a 1 followed by the components' hex
      pairs. */
  lemma ColourNumberDigits(rgb: Triple)
    requires IsByteTriple(rgb)
    ensures ToHex(0x100_0000 + rgb.c0 * 0x1_0000 + rgb.c1 * 0x100 + rgb.c2) == "1" + HexPair(rgb.c0) + HexPair(rgb.c1) + HexPair(rgb.c2)
  {
    var r, g, b := rgb.c0, rgb.c1, rgb.c2;
    var red := 256 * 1 + r;
    var green := 256 * red + g;
    ToHexPair(1, r);
    ToHexPair(red, g);
    ToHexPair(green, b);
    assert 256 * green + b == 0x100_0000 + r * 0x1_0000 + g * 0x100 + b;
    assert ToHex(1) == "1";
  }

  /** Appending a byte appends its two hex digits. */
  lemma ToHexPair(q: nat, x: nat)
    requires q >= 1 && x < 256
    ensures ToHex(256 * q + x) == ToHex(q) + HexPair(x)
  {
    ToHexAppend(q, x / 16);
    assert 256 * q + x == 16 * (16 * q + x / 16) + x % 16;
    ToHexAppend(16 * q + x / 16, x % 16);
  }

  predicate IsAlnum(c: char) {
    'A' <= c <= 'Z' || 'a' <= c <= 'z' || '0' <= c <= '9'
  }

  predicate IsHexChar(c: char) {
    '0' <= c <= '9' || 'a' <= c <= 'f' || 'A' <= c <= 'F'
  }

  function HexValue(c: char): (v: nat)
    requires IsHexChar(c)
    ensures v < 16
  {
    if '0' <= c <= '9' then c as nat - '0' as nat
    else if 'a' <= c <= 'f' then c as nat - 'a' as nat + 10
    else c as nat - 'A' as nat + 10
  }

  /** The successive non-overlapping matches of /[A-Za-z0-9]{2}/g, scanning
      left to right. */
  function Pairs(s: string): (r: seq<string>)
    ensures forall i :: 0 <= i < |r| ==> |r[i]| == 2 && IsAlnum(r[i][0]) && IsAlnum(r[i][1])
    decreases |s|
  {
    if |s| < 2 then []
    else if IsAlnum(s[0]) && IsAlnum(s[1]) then [s[..2]] + Pairs(s[2..])
    else Pairs(s[1..])
  }

  /** parseInt(p, 16) of a two-character match: the leading hex digits, after
      dropping a "0x" prefix; None stands for NaN. */
  function ParseHex(p: string): (r: Option<int>)
    requires |p| == 2
    ensures r.Some? ==> 0 <= r.value < 256
  {
    if p == "0x" || p == "0X" || !IsHexChar(p[0]) then None
    else if IsHexChar(p[1]) then Some(16 * HexValue(p[0]) + HexValue(p[1]))
    else Some(HexValue(p[0]))
  }

  /** The colour `handleColorChange` sends for the picker's value; None when
      nothing matches, where `null.map` throws and nothing is sent. Otherwise
      there is one component per match, each a byte or NaN. */
  function ParseColor(s: string): (r: Option<seq<Option<int>>>)
    ensures r.None? <==> Pairs(s) == []
    ensures r.Some? ==> |r.value| == |Pairs(s)|
    ensures r.Some? ==> forall i :: 0 <= i < |r.value| && r.value[i].Some? ==> 0 <= r.value[i].value < 256
  {
    var ps := Pairs(s);
    if ps == [] then None else Some(seq(|ps|, i requires 0 <= i < |ps| => ParseHex(ps[i])))
  }

  lemma HexPairParses(x: nat)
    requires x < 256
    ensures IsAlnum(HexPair(x)[0]) && IsAlnum(HexPair(x)[1])
    ensures ParseHex(HexPair(x)) == Some(x)
  {
    DigitValue(x / 16);
    DigitValue(x % 16);
    assert HexPair(x)[1] != 'x' && HexPair(x)[1] != 'X';
  }

  /** Parsing the encoding of a colour gives back its three components. */
  lemma ParseRgbToHex(rgb: Triple)
    requires IsByteTriple(rgb)
    ensures ParseColor(RgbToHex(rgb)) == Some([Some(rgb.c0), Some(rgb.c1), Some(rgb.c2)])
  {
    RgbToHexDigits(rgb);
    var pr, pg, pb := HexPair(rgb.c0), HexPair(rgb.c1), HexPair(rgb.c2);
    HexPairParses(rgb.c0);
    HexPairParses(rgb.c1);
    HexPairParses(rgb.c2);
    var s := "#" + pr + pg + pb;
    PairsOfColour(pr, pg, pb);
    assert ParseColor(s).value == [ParseHex(pr), ParseHex(pg), ParseHex(pb)];
  }

  /** The matches in '#' followed by three alphanumeric pairs are those
      pairs. */
  lemma PairsOfColour(pr: string, pg: string, pb: string)
    requires |pr| == 2 && IsAlnum(pr[0]) && IsAlnum(pr[1])
    requires |pg| == 2 && IsAlnum(pg[0]) && IsAlnum(pg[1])
    requires |pb| == 2 && IsAlnum(pb[0]) && IsAlnum(pb[1])
    ensures Pairs("#" + pr + pg + pb) == [pr, pg, pb]
  {
    assert "#" + pr + pg + pb == ['#'] + (pr + (pg + (pb + [])));
    PairsSkip('#', pr + (pg + (pb + [])));
    PairsTake(pr, pg + (pb + []));
    PairsTake(pg, pb + []);
    PairsTake(pb, []);
  }

  lemma PairsSkip(c: char, rest: string)
    requires !IsAlnum(c)
    ensures Pairs([c] + rest) == Pairs(rest)
  {
    if |rest| >= 1 {
      assert ([c] + rest)[1..] == rest;
    }
  }

  lemma PairsTake(p: string, rest: string)
    requires |p| == 2 && IsAlnum(p[0]) && IsAlnum(p[1])
    ensures Pairs(p + rest) == [p] + Pairs(rest)
  {
    assert (p + rest)[..2] == p && (p + rest)[2..] == rest;
  }

  /** Encoding the parse of a picker value '#rrggbb' (lower case) gives the
      same string back. */
  lemma RgbToHexOfParse(s: string)
    requires |s| == 7 && s[0] == '#' && forall i :: 1 <= i < 7 ==> IsLowerHex(s[i])
    ensures var p := ParseColor(s);
      && p.Some? && |p.value| == 3 && p.value[0].Some? && p.value[1].Some? && p.value[2].Some?
      && var rgb := Triple(p.value[0].value, p.value[1].value, p.value[2].value);
         IsByteTriple(rgb) && RgbToHex(rgb) == s
  {
    var rgb := HexTriple(s);
    ParseRgbToHex(rgb);
    RgbToHexDigits(rgb);
  }

  /** The three components a lower-case '#rrggbb' string spells. */
  function HexTriple(s: string): (rgb: Triple)
    requires |s| == 7 && s[0] == '#' && forall i :: 1 <= i < 7 ==> IsLowerHex(s[i])
    ensures IsByteTriple(rgb) && s == "#" + HexPair(rgb.c0) + HexPair(rgb.c1) + HexPair(rgb.c2)
  {
    var r, g, b := PairValue(s, 1), PairValue(s, 3), PairValue(s, 5);
    assert s == "#" + s[1..3] + s[3..5] + s[5..7];
    Triple(r, g, b)
  }

  /** The byte spelled by the two lower-case hex digits at k and k + 1. */
  function PairValue(s: string, k: nat): (v: nat)
    requires k + 1 < |s| && IsLowerHex(s[k]) && IsLowerHex(s[k + 1])
    ensures v < 256 && HexPair(v) == s[k..k + 2]
  {
    DigitOfValue(s[k]);
    DigitOfValue(s[k + 1]);
    PairDigits(s[k], s[k + 1]);
    16 * HexValue(s[k]) + HexValue(s[k + 1])
  }

  lemma DigitOfValue(c: char)
    requires IsLowerHex(c)
    ensures IsHexChar(c) && Digit(HexValue(c)) == c
  {
  }

  lemma PairDigits(hi: char, lo: char)
    requires IsHexChar(hi) && IsHexChar(lo)
    requires Digit(HexValue(hi)) == hi && Digit(HexValue(lo)) == lo
    ensures HexPair(16 * HexValue(hi) + HexValue(lo)) == [hi, lo]
  {
    var v := 16 * HexValue(hi) + HexValue(lo);
    ModUniqueDiv(v, 16, HexValue(hi), HexValue(lo));
    ModUnique(v, 16, HexValue(hi), HexValue(lo));
  }

  // ---------------------------------------------------------------------
  // Server messages

  /** What the client keeps from the server: the universe name, the palette
      entries, the selected cell state and the player count. */
  datatype Session = Session(universe: Option<string>, cellStates: seq<CellState>, selected: int, players: int)

  /** The `color` reducer: the entries whose value matches get the new
      colour. */
  function Recolored(states: seq<CellState>, cellState: int, color: Triple): (r: seq<CellState>)
    ensures |r| == |states|
    ensures forall i :: 0 <= i < |r| ==> r[i].value == states[i].value
    ensures forall i :: 0 <= i < |r| ==> r[i].color == if states[i].value == cellState then color else states[i].color
  {
    seq(|states|, i requires 0 <= i < |states| =>
      if states[i].value == cellState then CellState(states[i].value, color) else states[i])
  }

  /** `handleMessages`: `init` replaces the universe name and the palette and
      selects state 1, `color` recolours entries in place, and `players`
      only updates the count. */
  function Handle(v: Session, msg: ServerMsg): (r: Session)
    ensures msg.Init? ==>
      r.universe == Some(msg.universe) && r.cellStates == msg.cellStates && r.selected == 1 && r.players == v.players
    ensures msg.ColorChanged? ==>
      && r.universe == v.universe && r.selected == v.selected && r.players == v.players
      && |r.cellStates| == |v.cellStates|
      && forall i :: 0 <= i < |r.cellStates| ==> r.cellStates[i].value == v.cellStates[i].value
    ensures msg.Players? ==>
      r.universe == v.universe && r.cellStates == v.cellStates && r.selected == v.selected && r.players == msg.count
  {
    match msg
    case Init(name, states) => v.(universe := Some(name), cellStates := states, selected := 1)
    case ColorChanged(k, color) => v.(cellStates := Recolored(v.cellStates, k, color))
    case Players(n) => v.(players := n)
  }

  /** After the `init` of any universe of either table the selected state 1
      names an entry, so the colour picker has a colour to show. */
  lemma InitSelectsExistingState(v: Session, colors: seq<Triple>, name: string)
    requires |colors| >= 2
    ensures var w := Handle(v, Init(name, InitStates(colors)));
      w.universe == Some(name) && 0 <= w.selected < |w.cellStates| && w.cellStates[w.selected].value == w.selected
  {
  }

  /** The client's palette follows the server's: if it matches what `init`
      reports and a colour message for entry k arrives, it matches what `init`
      would report after the server stored that colour. */
  lemma ClientPaletteFollowsServer(v: Session, colors: seq<Triple>, k: nat, color: Triple)
    requires v.cellStates == InitStates(colors) && k < |colors| && IsByteTriple(color)
    ensures Handle(v, ColorChanged(k, color)).cellStates == InitStates(colors[k := Reverse(color)])
  {
    RecolorRoundTrip(colors, k, color);
  }

  // ---------------------------------------------------------------------
  // Viewport keys

  const ZoomVelocity: real := 0.1
  const MoveVelocity: real := 0.1
  const MinZoom: real := 0.05

  function Clamp(v: real, lo: real, hi: real): (r: real)
    requires lo <= hi
    ensures lo <= r <= hi
    ensures lo <= v <= hi ==> r == v
  {
    if v < lo then lo else if v > hi then hi else v
  }

  /** The viewport the server can crop: zoom in [MinZoom, 1] and the origin
      in [0, 1 - zoom] on both axes. */
  predicate InBounds(zoom: real, x: real, y: real) {
    MinZoom <= zoom <= 1.0 && 0.0 <= x <= 1.0 - zoom && 0.0 <= y <= 1.0 - zoom
  }

  /** `handleKeyDown`: q and e zoom in steps of 0.1, s and w move down and up
      and d and a right and left by 0.1 of the zoom, any other key only
      clamps; then the zoom is clamped to [0.05, 1] and the position to
      [0, 1 - zoom]. Returns the `video` message's zoom and position. */
  method KeyDown(zoom: real, x: real, y: real, key: int) returns (z: real, px: real, py: real)
    ensures InBounds(z, px, py)
    ensures z == Clamp(zoom + (if key == 81 then ZoomVelocity else if key == 69 then -ZoomVelocity else 0.0), MinZoom, 1.0)
    ensures var d := MoveVelocity * zoom;
      && px == Clamp(x + (if key == 68 then d else if key == 65 then -d else 0.0), 0.0, 1.0 - z)
      && py == Clamp(y + (if key == 83 then d else if key == 87 then -d else 0.0), 0.0, 1.0 - z)
    ensures key !in {81, 69, 83, 87, 68, 65} && InBounds(zoom, x, y) ==> z == zoom && px == x && py == y
  {
    z, px, py := zoom, x, y;
    var delta := MoveVelocity * zoom;
    if key == 81 {
      z := z + ZoomVelocity;
    } else if key == 69 {
      z := z - ZoomVelocity;
    } else if key == 83 {
      py := py + delta;
    } else if key == 87 {
      py := py - delta;
    } else if key == 68 {
      px := px + delta;
    } else if key == 65 {
      px := px - delta;
    }
    z := Min'(Max'(z, MinZoom), 1.0);
    px := Min'(Max'(px, 0.0), 1.0 - z);
    py := Min'(Max'(py, 0.0), 1.0 - z);
  }

  /** Math.max and Math.min on reals. */
  function Max'(a: real, b: real): real { if a < b then b else a }
  function Min'(a: real, b: real): real { if a < b then a else b }

  /** The key handler's bound is what the server needs: on a grid of side at
      least 20, the viewport it sends yields a non-empty crop that lies inside
      the grid, so every video frame exists. */
  lemma ViewportFitsGrid(s: nat, zoom: real, x: real, y: real)
    requires InBounds(zoom, x, y) && s >= 20
    ensures var k := CropSide(s, zoom);
      && k > 0
      && Trunc(y * s as real) >= 0 && Trunc(x * s as real) >= 0
      && Trunc(y * s as real) + k <= s && Trunc(x * s as real) + k <= s
  {
    CropAtLeastOne(s, zoom);
    AxisFits(s, zoom, y, CropSide(s, zoom));
    AxisFits(s, zoom, x, CropSide(s, zoom));
  }

  /** From a side of 20 up, even the smallest zoom crops at least one cell. */
  lemma CropAtLeastOne(s: nat, zoom: real)
    requires MinZoom <= zoom && s >= 20
    ensures 1 <= CropSide(s, zoom) && CropSide(s, zoom) as real <= s as real * zoom
  {
    MulMonotoneReal(20.0, s as real, zoom);
    MulMonotoneReal(MinZoom, zoom, 20.0);
  }

  /** One axis of the viewport: the truncated origin plus the crop side stay
      within the side. */
  lemma AxisFits(s: nat, zoom: real, y: real, k: int)
    requires 0.0 <= y && y + zoom <= 1.0 && k as real <= s as real * zoom
    ensures Trunc(y * s as real) >= 0 && Trunc(y * s as real) + k <= s
  {
    var sr := s as real;
    MulMonotoneReal(0.0, y, sr);
    var a, b := AxisSum(sr, zoom, y);
    SumWithin(Trunc(y * sr), k, a, b, sr);
  }

  /** The origin's fraction plus the zoom, both scaled by the side, stay
      within the side. */
  lemma AxisSum(sr: real, zoom: real, y: real) returns (a: real, b: real)
    requires y + zoom <= 1.0 && sr >= 0.0
    ensures a == y * sr && b == sr * zoom && a + b <= sr
  {
    a, b := y * sr, sr * zoom;
    MulMonotoneReal(y + zoom, 1.0, sr);
    assert y * sr + sr * zoom == (y + zoom) * sr;
  }

  lemma SumWithin(t: int, k: int, a: real, b: real, s: real)
    requires t as real <= a && k as real <= b && a + b <= s
    ensures (t + k) as real <= s
  {
  }

  lemma MulMonotoneReal(a: real, b: real, c: real)
    requires a <= b && c >= 0.0
    ensures a * c <= b * c && c * a <= c * b
  {
  }

  /** So after the server applies the `video` message, whose origin is the
      truncated fractions of the side (`Protocol.Moved`), the player's frame
      exists for every universe of that side and any positive video size. */
  lemma MovedViewHasFrame(g: Grid, colors: seq<Triple>, zoom: real, x: real, y: real, size: int)
    requires InBounds(zoom, x, y) && Shaped(g, |colors|) && |g| == Width(g) >= 20 && size > 0
    ensures Frame(g, colors, Trunc(y * |g| as real), Trunc(x * |g| as real), zoom, size).Some?
  {
    ViewportFitsGrid(|g|, zoom, x, y);
    FrameFits(g, colors, Trunc(y * |g| as real), Trunc(x * |g| as real), zoom, size);
  }

  /** The same on the objects: once a player's `video` message has been
      applied, its track's next `recv` yields a frame of the current
      universe. */
  lemma MovedTrackHasFrame(u: Universe, a: Agent, py: real, px: real, zoom: real)
    requires u.Valid() && InBounds(zoom, px, py) && u.state.Length0 >= 20 && a.track.size > 0
    ensures View(u, Moved(a, py, px, zoom, u.state.Length0).track).Some?
  {
    var n: nat := u.state.Length0;
    var t := Moved(a, py, px, zoom, n).track;
    assert t.position.0 == Trunc(py * n as real);
    assert t.position.1 == Trunc(px * n as real);
    TrackHasFrame(u, t, n, py, px);
  }

  /** A track whose origin is the truncated fractions of the side shows a
      frame. */
  lemma TrackHasFrame(u: Universe, t: Track, n: nat, py: real, px: real)
    requires u.Valid() && InBounds(t.zoom, px, py) && n == u.state.Length0 >= 20 && t.size > 0
    requires t.position.0 == Trunc(py * n as real) && t.position.1 == Trunc(px * n as real)
    ensures View(u, t).Some?
  {
    u.SnapshotShaped();
    var g := u.Snapshot();
    ViewportFitsGrid(n, t.zoom, px, py);
    assert CropSide(|g|, t.zoom) == CropSide(n, t.zoom);
    FrameFits(g, u.colors, t.position.0, t.position.1, t.zoom, t.size);
  }

  /** The frame exists once the crop lies inside the grid. */
  lemma FrameFits(g: Grid, colors: seq<Triple>, p0: int, p1: int, zoom: real, size: int)
    requires Shaped(g, |colors|) && size > 0
    requires var k := CropSide(|g|, zoom); k > 0 && p0 >= 0 && p1 >= 0 && p0 + k <= |g| && p1 + k <= Width(g)
    ensures Frame(g, colors, p0, p1, zoom, size).Some?
  {
    FrameDefined(g, colors, p0, p1, zoom, size);
  }
}
