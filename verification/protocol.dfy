/** What the servers and the browser client exchange over a connection's data
    channel, and the per-connection bookkeeping the servers keep. */
module Protocol {
  import opened Wrappers
  import opened Numeric
  import opened Edits
  import opened Templates
  import opened Compositor
  import opened Universes

  /** A connection id (a random UUID in the program). */
  type ConnId = int

  /** One entry of the palette as the client sees it. */
  datatype CellState = CellState(value: int, color: Triple)

  /** Messages to the browser: `init`, `color` and `players`. */
  datatype ServerMsg =
    | Init(universe: string, cellStates: seq<CellState>)
    | ColorChanged(cellState: int, color: Triple)
    | Players(count: nat)

  /** A message handed to a connection's data channel. */
  datatype Sent = Sent(to: ConnId, msg: ServerMsg)

  /** What a connection's video track shows: the viewport origin in cells, the
      zoom and the video side in pixels. */
  datatype Track = Track(position: (int, int), zoom: real, size: int)

  /** One connected player: whether its data channel has opened, whether its
      message handler is registered, its viewport, and its video track. */
  datatype Agent = Agent(channel: bool, listening: bool, position: (int, int), zoom: real, track: Track)

  /** The track mirrors the agent's viewport. */
  predicate Mirrored(a: Agent) {
    a.track.position == a.position && a.track.zoom == a.zoom
  }

  /** A player as registered when its offer arrives: no data channel yet,
      viewport at the origin with zoom 1. */
  function NewAgent(videoSize: int): (a: Agent)
    ensures Mirrored(a) && !a.channel && !a.listening && a.track.size == videoSize
  {
    Agent(false, false, (0, 0), 1.0, Track((0, 0), 1.0, videoSize))
  }

  /** The conversion of a stored colour value to a byte: wrap modulo 256. */
  function Byte(x: int): (r: int)
    ensures 0 <= r < 256
    ensures 0 <= x < 256 ==> r == x
  {
    x % 256
  }

  function ByteTriple(t: Triple): Triple {
    Triple(Byte(t.c0), Byte(t.c1), Byte(t.c2))
  }

  /** The cell states an `init` message lists: entry k is state k in the
      palette's reversed component order, converted to bytes. */
  function InitStates(colors: seq<Triple>): (r: seq<CellState>)
    ensures |r| == |colors|
    ensures forall k :: 0 <= k < |r| ==> r[k].value == k && r[k].color == ByteTriple(Reverse(colors[k]))
  {
    seq(|colors|, k requires 0 <= k < |colors| => CellState(k, ByteTriple(Reverse(colors[k]))))
  }

  /** A colour sent in a `color` message is stored reversed and reported
      back by `init` exactly as sent, when its components are bytes; the
      other entries are reported as before. */
  lemma RecolorRoundTrip(colors: seq<Triple>, k: nat, color: Triple)
    requires k < |colors| && IsByteTriple(color)
    ensures InitStates(colors[k := Reverse(color)])[k] == CellState(k, color)
    ensures forall j :: 0 <= j < |colors| && j != k ==>
      InitStates(colors[k := Reverse(color)])[j] == InitStates(colors)[j]
  {
    ReverseInvolutive(color);
  }

  /** The `init` message for a universe: its name and one entry per palette
      colour, numbered from 0, with byte components; a byte-valued stored
      colour is reported in RGB order. */
  function InitOf(u: Universe): (r: ServerMsg)
    reads u
    ensures r.Init? && r.universe == u.name && |r.cellStates| == |u.colors|
    ensures forall k :: 0 <= k < |r.cellStates| ==> r.cellStates[k].value == k && IsByteTriple(r.cellStates[k].color)
    ensures forall k :: 0 <= k < |r.cellStates| && IsByteTriple(u.colors[k]) ==> r.cellStates[k].color == Reverse(u.colors[k])
  {
    Init(u.name, InitStates(u.colors))
  }

  /** The request a `draw` message queues: the pointer position, given as a
      fraction of the video, scaled by the sender's zoom and the grid side and
      offset by the sender's viewport origin. */
  function DrawEdit(a: Agent, x: real, y: real, size: int, cellState: int, universeSize: nat): (e: Edit)
    ensures e.radius == size && e.target == cellState
  {
    Edit(Trunc(y * a.zoom * universeSize as real + a.position.0 as real),
         Trunc(x * a.zoom * universeSize as real + a.position.1 as real), size, cellState)
  }

  /** The sender after a `video` message: the new origin is the given
      fractions of the grid side, and the track follows. */
  function Moved(a: Agent, py: real, px: real, zoom: real, universeSize: nat): (r: Agent)
    ensures Mirrored(r)
    ensures r.channel == a.channel && r.listening == a.listening && r.track.size == a.track.size
    ensures r.zoom == zoom
    ensures r.position == (Trunc(py * universeSize as real), Trunc(px * universeSize as real))
  {
    var p := (Trunc(py * universeSize as real), Trunc(px * universeSize as real));
    a.(position := p, zoom := zoom, track := a.track.(position := p, zoom := zoom))
  }

  /** Drawing at the top-left corner of the video stamps the cell at the
      sender's viewport origin; with the whole grid in view, a pointer at
      fraction (x, y) of the video lands on cell (y * S, x * S), truncated. */
  lemma DrawEditLandsInView(a: Agent, x: real, y: real, size: int, cellState: int, s: nat)
    requires a.position.0 >= 0 && a.position.1 >= 0 && a.zoom >= 0.0 && x >= 0.0 && y >= 0.0
    ensures var e := DrawEdit(a, x, y, size, cellState, s);
      && e.row >= a.position.0 && e.col >= a.position.1
      && (x == 0.0 && y == 0.0 ==> e.row == a.position.0 && e.col == a.position.1)
      && (a.zoom == 1.0 && a.position == (0, 0) ==> e.row == Trunc(y * s as real) && e.col == Trunc(x * s as real))
  {
    assert y * a.zoom * s as real >= 0.0 by {
      NonNegativeProduct(y, a.zoom, s as real);
    }
    assert x * a.zoom * s as real >= 0.0 by {
      NonNegativeProduct(x, a.zoom, s as real);
    }
  }

  /** A request from a pointer inside the video, with a non-negative radius
      and a viewport origin on the grid, has no negative slice stop, so the
      window the scheduler writes is the clamped one. */
  lemma PointerRequestsAreClamped(a: Agent, x: real, y: real, size: int, cellState: int, s: nat)
    requires a.position.0 >= 0 && a.position.1 >= 0 && a.zoom >= 0.0 && x >= 0.0 && y >= 0.0 && size >= 0
    ensures var e := DrawEdit(a, x, y, size, cellState, s);
      WrittenWindow(e, s, s) == ClampedWindow(e, s, s)
  {
    DrawEditLandsInView(a, x, y, size, cellState, s);
    WrittenIsClampedForNonNegativeStops(DrawEdit(a, x, y, size, cellState, s), s, s);
  }

  lemma NonNegativeProduct(x: real, y: real, z: real)
    requires x >= 0.0 && y >= 0.0 && z >= 0.0
    ensures x * y * z >= 0.0
  {
  }

  /** The frame a track shows of a universe. */
  function View(u: Universe, t: Track): Option<Image>
    reads u, u.state
    requires u.Valid()
  {
    u.SnapshotShaped();
    Frame(u.Snapshot(), u.colors, t.position.0, t.position.1, t.zoom, t.size)
  }

  // ---------------------------------------------------------------------
  // The registry

  predicate Distinct(s: seq<ConnId>) {
    forall p, q :: 0 <= p < q < |s| ==> s[p] != s[q]
  }

  /** The connection ids in registration order are exactly the registered
      ones, each once (a dict's keys in insertion order). */
  ghost predicate Registry(agents: map<ConnId, Agent>, order: seq<ConnId>) {
    (forall id :: id in agents <==> id in order) && Distinct(order)
  }

  /** The registration order with one id taken out. */
  function Without(s: seq<ConnId>, id: ConnId): (r: seq<ConnId>)
    ensures forall x :: x in r <==> x in s && x != id
    ensures Distinct(s) ==> Distinct(r)
  {
    if s == [] then []
    else
      assert Distinct(s) ==> Distinct(s[1..]) && s[0] !in s[1..];
      (if s[0] == id then [] else [s[0]]) + Without(s[1..], id)
  }

  /** Removing a registered connection keeps the registry consistent and
      lowers the count by one. */
  lemma RegistryRemove(agents: map<ConnId, Agent>, order: seq<ConnId>, id: ConnId)
    requires Registry(agents, order) && id in agents
    ensures Registry(agents - {id}, Without(order, id))
    ensures |agents - {id}| == |agents| - 1
  {
    assert agents.Keys == (agents - {id}).Keys + {id};
  }

  // ---------------------------------------------------------------------
  // Broadcasts

  /** A send to this connection succeeds: it has a data channel and the
      channel does not raise. */
  predicate Reachable(agents: map<ConnId, Agent>, failing: set<ConnId>, id: ConnId) {
    id in agents && agents[id].channel && id !in failing
  }

  /** The messages a broadcast that skips failing recipients hands out,
      in registration order. */
  function Delivered(order: seq<ConnId>, agents: map<ConnId, Agent>, failing: set<ConnId>, msg: ServerMsg): (r: seq<Sent>)
    ensures |r| <= |order|
  {
    if order == [] then []
    else
      var last := order[|order| - 1];
      Delivered(order[..|order| - 1], agents, failing, msg) +
        (if Reachable(agents, failing, last) then [Sent(last, msg)] else [])
  }

  /** The tolerant broadcast sends the message only to reachable recipients
      in the order, and to every one of them. */
  lemma {:induction false} DeliveredExactlyReachable(order: seq<ConnId>, agents: map<ConnId, Agent>, failing: set<ConnId>, msg: ServerMsg)
    ensures forall s :: s in Delivered(order, agents, failing, msg) ==> s.msg == msg && s.to in order && Reachable(agents, failing, s.to)
    ensures forall id :: id in order && Reachable(agents, failing, id) ==> Sent(id, msg) in Delivered(order, agents, failing, msg)
  {
    if order != [] {
      var init, last := order[..|order| - 1], order[|order| - 1];
      DeliveredExactlyReachable(init, agents, failing, msg);
      assert order == init + [last];
    }
  }

  /** Without repeated ids, each reachable connection gets the message
      exactly once. */
  lemma {:induction false} DeliveredOnce(order: seq<ConnId>, agents: map<ConnId, Agent>, failing: set<ConnId>, msg: ServerMsg)
    requires forall p, q :: 0 <= p < q < |order| ==> order[p] != order[q]
    ensures forall p, q :: 0 <= p < q < |Delivered(order, agents, failing, msg)| ==>
      Delivered(order, agents, failing, msg)[p].to != Delivered(order, agents, failing, msg)[q].to
  {
    if order != [] {
      var init := order[..|order| - 1];
      DeliveredOnce(init, agents, failing, msg);
      DeliveredExactlyReachable(init, agents, failing, msg);
      var d := Delivered(init, agents, failing, msg);
      forall s | s in d ensures s.to != order[|order| - 1] {
        var k :| 0 <= k < |init| && init[k] == s.to;
        assert order[k] == init[k];
      }
    }
  }

  /** Delivering to a concatenation delivers to each part in turn. */
  lemma {:induction false} DeliveredAppend(a: seq<ConnId>, b: seq<ConnId>, agents: map<ConnId, Agent>, failing: set<ConnId>, msg: ServerMsg)
    ensures Delivered(a + b, agents, failing, msg) == Delivered(a, agents, failing, msg) + Delivered(b, agents, failing, msg)
    decreases |b|
  {
    if b == [] {
      assert a + b == a;
    } else {
      var b', last := b[..|b| - 1], b[|b| - 1];
      var tail := if Reachable(agents, failing, last) then [Sent(last, msg)] else [];
      assert (a + b)[..|a + b| - 1] == a + b' && (a + b)[|a + b| - 1] == last;
      assert Delivered(a + b, agents, failing, msg) == Delivered(a + b', agents, failing, msg) + tail;
      DeliveredAppend(a, b', agents, failing, msg);
    }
  }

  /** How far a broadcast without exception handling gets: the length of the
      longest prefix of recipients that all accept the message. */
  function Reach(order: seq<ConnId>, agents: map<ConnId, Agent>, failing: set<ConnId>): (r: nat)
    ensures r <= |order|
    ensures forall k :: 0 <= k < r ==> Reachable(agents, failing, order[k])
    ensures r < |order| ==> !Reachable(agents, failing, order[r])
  {
    if order == [] || !Reachable(agents, failing, order[0]) then 0
    else 1 + Reach(order[1..], agents, failing)
  }

  /** The message addressed to each of the given connections in turn. */
  function SendAll(ids: seq<ConnId>, msg: ServerMsg): (r: seq<Sent>)
    ensures |r| == |ids| && forall k :: 0 <= k < |ids| ==> r[k] == Sent(ids[k], msg)
  {
    seq(|ids|, k requires 0 <= k < |ids| => Sent(ids[k], msg))
  }

  /** The messages such a broadcast hands out before the first send raises. */
  function DeliveredUntilFailure(order: seq<ConnId>, agents: map<ConnId, Agent>, failing: set<ConnId>, msg: ServerMsg): seq<Sent> {
    SendAll(order[..Reach(order, agents, failing)], msg)
  }

  /** Over recipients that all accept, skipping nobody means sending to
      everybody in order. */
  lemma {:induction false} DeliveredAllReachable(order: seq<ConnId>, agents: map<ConnId, Agent>, failing: set<ConnId>, msg: ServerMsg)
    requires forall k :: 0 <= k < |order| ==> Reachable(agents, failing, order[k])
    ensures Delivered(order, agents, failing, msg) == SendAll(order, msg)
  {
    if order != [] {
      var n := |order|;
      var init := order[..n - 1];
      DeliveredAllReachable(init, agents, failing, msg);
      assert Reachable(agents, failing, order[n - 1]);
      assert SendAll(order, msg) == SendAll(init, msg) + [Sent(order[n - 1], msg)];
    }
  }

  /** Nothing is delivered exactly when no recipient accepts. */
  lemma DeliveredNothing(order: seq<ConnId>, agents: map<ConnId, Agent>, failing: set<ConnId>, msg: ServerMsg)
    ensures Delivered(order, agents, failing, msg) == [] <==> forall k :: 0 <= k < |order| ==> !Reachable(agents, failing, order[k])
  {
    var d := Delivered(order, agents, failing, msg);
    DeliveredExactlyReachable(order, agents, failing, msg);
    if d != [] {
      assert d[0] in d;
    }
  }

  /** The failure-tolerant broadcast is the stopping one followed by what it
      still delivers from the first failure on. */
  lemma DeliveredSplitAtReach(order: seq<ConnId>, agents: map<ConnId, Agent>, failing: set<ConnId>, msg: ServerMsg)
    ensures var r := Reach(order, agents, failing);
      Delivered(order, agents, failing, msg) ==
        DeliveredUntilFailure(order, agents, failing, msg) + Delivered(order[r..], agents, failing, msg)
  {
    var r := Reach(order, agents, failing);
    var head := order[..r];
    assert forall k :: 0 <= k < |head| ==> Reachable(agents, failing, head[k]);
    DeliveredAllReachable(head, agents, failing, msg);
    assert order == head + order[r..];
    DeliveredAppend(head, order[r..], agents, failing, msg);
  }

  /** The broadcast that stops at the first failure sends a prefix of what the
      failure-tolerant broadcast sends; the two agree exactly when no
      recipient after the first failure would have accepted, in particular
      when every recipient accepts. */
  lemma DeliveredUntilFailureIsPrefix(order: seq<ConnId>, agents: map<ConnId, Agent>, failing: set<ConnId>, msg: ServerMsg)
    ensures var full, part := Delivered(order, agents, failing, msg), DeliveredUntilFailure(order, agents, failing, msg);
      && |part| <= |full| && part == full[..|part|]
      && (part == full <==> forall k :: Reach(order, agents, failing) <= k < |order| ==> !Reachable(agents, failing, order[k]))
  {
    var r := Reach(order, agents, failing);
    DeliveredSplitAtReach(order, agents, failing, msg);
    DeliveredNothing(order[r..], agents, failing, msg);
    var full, part := Delivered(order, agents, failing, msg), DeliveredUntilFailure(order, agents, failing, msg);
    var ahead := Delivered(order[r..], agents, failing, msg);
    assert full == part + ahead;
    assert full[..|part|] == part;
    assert (forall k :: 0 <= k < |order[r..]| ==> !Reachable(agents, failing, order[r..][k])) <==>
      (forall k :: r <= k < |order| ==> !Reachable(agents, failing, order[k])) by {
      forall k | r <= k < |order| ensures order[r..][k - r] == order[k] {}
    }
  }
}
