/** The earlier server: the same registry and handlers as the current one,
    except that it starts with Falling Sand, stores palettes as given, never
    sends a player count, and its broadcasts have no exception handling, so
    the first recipient without a channel or whose send raises ends the
    broadcast. */
module LegacyServer {
  import opened Wrappers
  import opened Edits
  import opened Templates
  import opened Universes
  import opened Protocol

  class Server {
    var agents: map<ConnId, Agent>
    var order: seq<ConnId>
    var outbox: seq<Sent>
    const sim: Simulation
    const universeSize: nat
    const videoSize: int

    /** The simulation is consistent with the grid side, the registry lists
        every player once, and every track mirrors its player's viewport. */
    ghost predicate Valid()
      reads this, sim, sim.universe, sim.universe.state
    {
      && sim.Valid() && sim.size == universeSize
      && Registry(agents, order)
      && (forall id :: id in agents ==> Mirrored(agents[id]) && agents[id].track.size == videoSize)
    }

    /** No players, nothing sent, and a fresh Falling Sand universe. */
    constructor (universeSize: nat, videoSize: int)
      requires universeSize > 0
      ensures Valid() && fresh(sim) && fresh(sim.universe)
      ensures agents == map[] && order == [] && outbox == []
      ensures sim.universe.name == "falling_sand" && sim.universe.rule == Rules.FallingSandRule
      ensures sim.queue == [] && sim.running
      ensures this.universeSize == universeSize && this.videoSize == videoSize
    {
      TablesWellFormed();
      sim := new Simulation(LegacyTable()[LegacyInitial], universeSize);
      agents := map[];
      order := [];
      outbox := [];
      this.universeSize := universeSize;
      this.videoSize := videoSize;
    }

    /** Hands `msg` to the players in registration order until one has no
        data channel or its send raises; that exception ends the handler. */
    method Broadcast(msg: ServerMsg, failing: set<ConnId>)
      modifies this
      ensures outbox == old(outbox) + DeliveredUntilFailure(order, agents, failing, msg)
      ensures agents == old(agents) && order == old(order)
    {
      var i := 0;
      while i < |order| && order[i] in agents && agents[order[i]].channel && order[i] !in failing
        invariant 0 <= i <= Reach(order, agents, failing)
        invariant agents == old(agents) && order == old(order)
        invariant outbox == old(outbox) + SendAll(order[..i], msg)
      {
        assert SendAll(order[..i + 1], msg) == SendAll(order[..i], msg) + [Sent(order[i], msg)];
        outbox := outbox + [Sent(order[i], msg)];
        i := i + 1;
      }
    }

    /** An offer arrives: the player is registered with the default
        viewport. */
    method Connect(id: ConnId)
      requires Valid() && id !in agents
      modifies this
      ensures Valid()
      ensures agents == old(agents)[id := NewAgent(videoSize)] && order == old(order) + [id]
      ensures outbox == old(outbox)
    {
      agents := agents[id := NewAgent(videoSize)];
      order := order + [id];
    }

    /** The connection failed: the player is removed and nobody is told. A
        second failure report for a removed player raises a KeyError and
        changes nothing. */
    method ConnectionFailed(id: ConnId)
      requires Valid()
      modifies this
      ensures Valid() && outbox == old(outbox)
      ensures id !in old(agents) ==> agents == old(agents) && order == old(order)
      ensures id in old(agents) ==> agents == old(agents) - {id} && order == Without(old(order), id)
    {
      if id !in agents {
        return;
      }
      RegistryRemove(agents, order, id);
      agents := agents - {id};
      order := Without(order, id);
    }

    /** The player's data channel opens: it is sent the current universe and
        its messages are handled from then on, unless that send raises. */
    method OpenChannel(id: ConnId, failing: set<ConnId>)
      requires Valid() && id in agents
      modifies this
      ensures Valid()
      ensures order == old(order)
      ensures agents == old(agents)[id := old(agents)[id].(channel := true, listening := id !in failing)]
      ensures outbox == old(outbox) + if id in failing then [] else [Sent(id, InitOf(sim.universe))]
    {
      var a := agents[id];
      if id in failing {
        agents := agents[id := a.(channel := true, listening := false)];
        return;
      }
      outbox := outbox + [Sent(id, InitOf(sim.universe))];
      agents := agents[id := a.(channel := true, listening := true)];
    }

    /** A `universe` message: the named template replaces the current
        universe with an all-zero grid, and every player is sent its `init`;
        an unknown name raises a KeyError and changes nothing. The universe
        is replaced before the broadcast, which stops at the first failure. */
    method SwitchUniverse(id: ConnId, name: string, failing: set<ConnId>)
      requires Valid() && id in agents && agents[id].listening
      modifies this, sim
      ensures Valid() && agents == old(agents) && order == old(order)
      ensures sim.queue == old(sim.queue) && sim.running == old(sim.running)
      ensures name !in LegacyTable() ==> sim.universe == old(sim.universe) && outbox == old(outbox)
      ensures name in LegacyTable() ==>
        var t := LegacyTable()[name];
        && fresh(sim.universe) && sim.universe.name == name && sim.universe.rule == t.rule
        && sim.universe.colors == t.colors
        && (forall i, j :: 0 <= i < universeSize && 0 <= j < universeSize ==>
              sim.universe.state[i, j] == seq(|t.colors|, _ => 0))
        && outbox == old(outbox) + DeliveredUntilFailure(order, agents, failing, Init(name, InitStates(t.colors)))
    {
      var t := Lookup(LegacyTable(), name);
      if t.None? {
        return;
      }
      TablesWellFormed();
      sim.Switch(t.value);
      Broadcast(InitOf(sim.universe), failing);
    }

    /** A `draw` message queues a request at the pointer position mapped
        through the sender's own viewport. */
    method Draw(id: ConnId, x: real, y: real, size: int, cellState: int)
      requires Valid() && id in agents && agents[id].listening
      modifies sim
      ensures Valid()
      ensures sim.queue == old(sim.queue) + [DrawEdit(agents[id], x, y, size, cellState, universeSize)]
      ensures sim.universe == old(sim.universe) && sim.running == old(sim.running)
    {
      sim.Push(DrawEdit(agents[id], x, y, size, cellState, universeSize));
    }

    /** A `color` message stores the colour with its components reversed as
        the palette entry of the given cell state (negative states count from
        the end) and tells the players up to the first failure; a state
        outside the palette raises an IndexError and changes nothing. */
    method Recolor(id: ConnId, cellState: int, color: Triple, failing: set<ConnId>)
      requires Valid() && id in agents && agents[id].listening
      modifies this, sim.universe
      ensures Valid() && agents == old(agents) && order == old(order)
      ensures sim.universe.state == old(sim.universe.state)
      ensures var k := NormIndex(cellState, |old(sim.universe.colors)|);
        && (k.None? ==> sim.universe.colors == old(sim.universe.colors) && outbox == old(outbox))
        && (k.Some? ==>
              && sim.universe.colors == old(sim.universe.colors)[k.value := Reverse(color)]
              && outbox == old(outbox) + DeliveredUntilFailure(order, agents, failing, ColorChanged(cellState, color)))
    {
      var k := NormIndex(cellState, |sim.universe.colors|);
      if k.None? {
        return;
      }
      sim.universe.SetColor(k.value, Reverse(color));
      Broadcast(ColorChanged(cellState, color), failing);
    }

    /** A `video` message moves only the sender's viewport, and its track
        follows. */
    method MoveView(id: ConnId, py: real, px: real, zoom: real)
      requires Valid() && id in agents && agents[id].listening
      modifies this
      ensures Valid() && order == old(order) && outbox == old(outbox)
      ensures agents == old(agents)[id := Moved(old(agents)[id], py, px, zoom, universeSize)]
    {
      agents := agents[id := Moved(agents[id], py, px, zoom, universeSize)];
    }
  }
}
