/** A network of meshes with one hop limit: packets may be lost, repeated and reordered, and yet an event reaches
    only nodes within the hop limit of a node that published or replayed it. */
module MeshNetwork {
  import opened Wrappers
  import opened MeshState
  import opened MeshInvariant
  import opened MeshSteps

  /** `sender` to `to`. A packet once sent may arrive any number of times, in any order, or never. */
  datatype Packet = Packet(sender: Peer, to: Peer, message: Message)

  datatype Network = Network(
    nodes: map<Peer, Mesh>, clocks: map<Peer, nat>, packets: set<Packet>,
    published: set<(Peer, EventId)>, replayed: set<(Peer, EventId)>, delivered: set<(Peer, EventId)>)

  datatype Move = Move(node: Peer, call: Call, now: nat)

  ghost function Start(options: map<Peer, Options>): Network {
    Network(map n | n in options :: Empty(options[n]), map n | n in options :: 0, {}, {}, {}, {})
  }

  /** The peers a call may announce events to. */
  function Told(call: Call): set<Peer> {
    match call
    case Hear(_, _, _, selected) => set p | p in selected
    case Originate(_, selected) => set p | p in selected
    case Replays(_, peer) => {peer}
    case ReplaysCached(peer) => {peer}
    case _ => {}
  }

  /** A node acts on a packet addressed to it or on a call, under its own clock, and announces to linked peers. */
  ghost predicate Allowed(links: set<(Peer, Peer)>, n: Network, move: Move) {
    && move.node in n.nodes && move.node in n.clocks && n.clocks[move.node] <= move.now
    && (move.call.Hear? ==> Packet(move.call.source, move.node, move.call.message) in n.packets)
    && forall p :: p in Told(move.call) ==> (move.node, p) in links
  }

  /** What a node replays by a call. */
  ghost function Replayed(p: Mesh, node: Peer, call: Call, ok: bool): set<(Peer, EventId)> {
    match call
    case Replays(event, _) => if ok then {(node, event.id)} else {}
    case ReplaysCached(_) => set id | id in p.cacheOrder :: (node, id)
    case _ => {}
  }

  ghost function Moved(c: Contents, n: Network, move: Move): Network {
    if move.node !in n.nodes then n
    else
      var p := Ready(n.nodes[move.node], move.call, move.now);
      var s := Acted(c, p, move.call, move.now);
      Network(n.nodes[move.node := s.mesh], n.clocks[move.node := move.now],
              n.packets + Sent(move.node, Done(s)),
              n.published + (if move.call.Originate? && s.actions.Some? then {(move.node, move.call.event.id)} else {}),
              n.replayed + Replayed(p, move.node, move.call, s.actions.Some?),
              n.delivered + (set a | a in Done(s) && a.Deliver? :: (move.node, a.event.id)))
  }

  function Sent(node: Peer, actions: seq<Action>): set<Packet> {
    set a | a in actions && a.Send? :: Packet(node, a.peer, a.message)
  }

  ghost function RunOf(c: Contents, options: map<Peer, Options>, moves: seq<Move>): Network {
    if moves == [] then Start(options)
    else Moved(c, RunOf(c, options, moves[..|moves| - 1]), moves[|moves| - 1])
  }

  ghost predicate Legal(c: Contents, links: set<(Peer, Peer)>, options: map<Peer, Options>, moves: seq<Move>) {
    moves == []
    || (Legal(c, links, options, moves[..|moves| - 1])
        && Allowed(links, RunOf(c, options, moves[..|moves| - 1]), moves[|moves| - 1]))
  }

  // ---- Walks

  ghost predicate Walk(links: set<(Peer, Peer)>, path: seq<Peer>) {
    path != [] && forall i :: 0 <= i < |path| - 1 ==> (path[i], path[i + 1]) in links
  }

  /** A walk of so many links leads from a node that published or replayed the event to this one. */
  ghost predicate Reached(links: set<(Peer, Peer)>, n: Network, id: EventId, node: Peer, length: nat) {
    exists path :: Walk(links, path) && |path| == length + 1 && path[length] == node
                   && (path[0], id) in n.published + n.replayed
  }

  lemma ReachedNext(links: set<(Peer, Peer)>, n: Network, id: EventId, node: Peer, next: Peer, length: nat)
    requires Reached(links, n, id, node, length) && (node, next) in links
    ensures Reached(links, n, id, next, length + 1)
  {
    var path :| Walk(links, path) && |path| == length + 1 && path[length] == node
                && (path[0], id) in n.published + n.replayed;
    var longer := path + [next];
    assert forall i :: 0 <= i < |longer| - 1 ==> (longer[i], longer[i + 1]) in links;
    assert Walk(links, longer);
  }

  lemma ReachedStays(links: set<(Peer, Peer)>, n: Network, r: Network, id: EventId, node: Peer, length: nat)
    requires Reached(links, n, id, node, length) && n.published <= r.published && n.replayed <= r.replayed
    ensures Reached(links, r, id, node, length)
  {
    var path :| Walk(links, path) && |path| == length + 1 && path[length] == node
                && (path[0], id) in n.published + n.replayed;
    assert (path[0], id) in r.published + r.replayed;
  }

  lemma ReachedOrigin(links: set<(Peer, Peer)>, n: Network, id: EventId, node: Peer)
    requires (node, id) in n.published || (node, id) in n.replayed
    ensures Reached(links, n, id, node, 0)
  {
    var path := [node];
    assert Walk(links, path) && |path| == 1 && path[0] == node && (path[0], id) in n.published + n.replayed;
  }

  // ---- The invariant

  /** An announcement with h hops left has come maxHops - h links from where it started. */
  ghost predicate PacketOk(links: set<(Peer, Peer)>, n: Network, maxHops: nat, packet: Packet) {
    packet.message.Inventory? && packet.message.hops > 0 ==>
      && packet.message.hops <= maxHops && (packet.sender, packet.to) in links
      && Reached(links, n, packet.message.id, packet.sender, maxHops - packet.message.hops)
  }

  /** A route's hops are those of some announcement sent to the node. */
  ghost predicate RouteHeard(n: Network, node: Peer, id: EventId, hops: nat) {
    exists q :: q in n.packets && q.to == node && q.message.Inventory? && q.message.id == id && q.message.hops == hops
  }

  ghost predicate NodeOk(c: Contents, n: Network, maxHops: nat, node: Peer)
    requires node in n.nodes && node in n.clocks
  {
    && LockStep(c, n.nodes[node], n.clocks[node]) && n.nodes[node].options.maxHops == maxHops
    && forall id :: id in n.nodes[node].routes ==> RouteHeard(n, node, id, n.nodes[node].routes[id].hops)
  }

  ghost predicate WithinHops(links: set<(Peer, Peer)>, n: Network, maxHops: nat, id: EventId, node: Peer) {
    exists length: nat :: length <= maxHops && Reached(links, n, id, node, length)
  }

  ghost predicate Budget(c: Contents, links: set<(Peer, Peer)>, n: Network, maxHops: nat) {
    && n.nodes.Keys == n.clocks.Keys
    && (forall node :: node in n.nodes ==> NodeOk(c, n, maxHops, node))
    && (forall q :: q in n.packets ==> PacketOk(links, n, maxHops, q))
    && (forall d :: d in n.delivered ==> WithinHops(links, n, maxHops, d.1, d.0))
  }

  lemma StartBudget(c: Contents, links: set<(Peer, Peer)>, options: map<Peer, Options>, maxHops: nat)
    requires forall n :: n in options ==> Clamped(options[n]).maxHops == maxHops
    ensures Budget(c, links, Start(options), maxHops)
  {
    hide LockStep, Clamped;
    var start := Start(options);
    forall node | node in start.nodes ensures NodeOk(c, start, maxHops, node) {
      EmptyLockStep(c, options[node], 0);
    }
  }

  /** A route's node was reached with one link more than the announcement behind it. */
  lemma RouteReached(c: Contents, links: set<(Peer, Peer)>, n: Network, maxHops: nat, node: Peer, id: EventId)
    requires Budget(c, links, n, maxHops) && node in n.nodes && id in n.nodes[node].routes
    ensures var hops := n.nodes[node].routes[id].hops;
            0 < hops <= maxHops && Reached(links, n, id, node, maxHops - hops + 1)
  {
    hide LockStep, Reached;
    assert NodeOk(c, n, maxHops, node);
    var m := n.nodes[node];
    RouteIsOk(c, m, id, n.clocks[node]);
    var q :| q in n.packets && q.to == node && q.message.Inventory? && q.message.id == id && q.message.hops == m.routes[id].hops;
    assert PacketOk(links, n, maxHops, q);
    ReachedNext(links, n, id, q.sender, node, maxHops - q.message.hops);
  }

  // ---- A move keeps it

  lemma MovedPacket(c: Contents, links: set<(Peer, Peer)>, n: Network, maxHops: nat, move: Move, packet: Packet)
    requires Budget(c, links, n, maxHops) && Allowed(links, n, move) && packet in Moved(c, n, move).packets
    ensures PacketOk(links, Moved(c, n, move), maxHops, packet)
  {
    hide LockStep, Reached, Ready, Acted, Current;
    var r, m := Moved(c, n, move), n.nodes[move.node];
    if packet in n.packets {
      assert PacketOk(links, n, maxHops, packet);
      if packet.message.Inventory? && packet.message.hops > 0 {
        ReachedStays(links, n, r, packet.message.id, packet.sender, maxHops - packet.message.hops);
      }
    } else if packet.message.Inventory? {
      assert NodeOk(c, n, maxHops, move.node);
      var p := Ready(m, move.call, move.now);
      ReadyKeeps(c, m, move.call, n.clocks[move.node], move.now);
      ActedAnnounces(c, p, move.call, move.now);
      assert Announces(c, p, move.call, packet.to, packet.message);
      ReadyRoutes(m, move.call, move.now);
      if move.call.Hear? {
        RouteReached(c, links, n, maxHops, move.node, packet.message.id);
        ReachedStays(links, n, r, packet.message.id, move.node, maxHops - packet.message.hops);
      } else {
        ReachedOrigin(links, r, packet.message.id, move.node);
      }
    }
  }

  lemma MovedRoutes(c: Contents, links: set<(Peer, Peer)>, n: Network, maxHops: nat, move: Move)
    requires Budget(c, links, n, maxHops) && Allowed(links, n, move)
    ensures NodeOk(c, Moved(c, n, move), maxHops, move.node)
  {
    hide LockStep, Ready, Acted, Current, SameOffer;
    assert NodeOk(c, n, maxHops, move.node);
    var r, m := Moved(c, n, move), n.nodes[move.node];
    var p := Ready(m, move.call, move.now);
    ReadyKeeps(c, m, move.call, n.clocks[move.node], move.now);
    ActedKeeps(c, p, move.call, move.now);
    ActedRoutes(c, p, move.call, move.now);
    ReadyRoutes(m, move.call, move.now);
    var s := Acted(c, p, move.call, move.now);
    forall id | id in s.mesh.routes ensures RouteHeard(r, move.node, id, s.mesh.routes[id].hops) {
      assert RouteStep(p, s, move.call, id);
      if id in p.routes && s.mesh.routes[id].hops == p.routes[id].hops {
        assert RouteHeard(n, move.node, id, m.routes[id].hops);
      } else {
        RouteNew(p, s, move.call, id);
        assert Packet(move.call.source, move.node, move.call.message) in r.packets;
      }
    }
  }

  lemma RouteNew(p: Mesh, s: Step, call: Call, id: EventId)
    requires id in s.mesh.routes && RouteStep(p, s, call, id)
    requires !(id in p.routes && s.mesh.routes[id].hops == p.routes[id].hops)
    ensures call.Hear? && call.message.Inventory? && call.message.id == id && call.message.hops == s.mesh.routes[id].hops
  {}

  lemma MovedDelivered(c: Contents, links: set<(Peer, Peer)>, n: Network, maxHops: nat, move: Move, d: (Peer, EventId))
    requires Budget(c, links, n, maxHops) && Allowed(links, n, move) && d in Moved(c, n, move).delivered
    ensures WithinHops(links, Moved(c, n, move), maxHops, d.1, d.0)
  {
    hide LockStep, Ready, Acted, Current, Reached, Delivers;
    var r, m := Moved(c, n, move), n.nodes[move.node];
    if d in n.delivered {
      var length: nat :| length <= maxHops && Reached(links, n, d.1, d.0, length);
      ReachedStays(links, n, r, d.1, d.0, length);
    } else {
      assert NodeOk(c, n, maxHops, move.node);
      var p := Ready(m, move.call, move.now);
      ReadyKeeps(c, m, move.call, n.clocks[move.node], move.now);
      ActedDelivers(c, p, move.call, move.now);
      ReadyRoutes(m, move.call, move.now);
      RouteReached(c, links, n, maxHops, move.node, d.1);
      ReachedStays(links, n, r, d.1, move.node, maxHops - m.routes[d.1].hops + 1);
    }
  }

  lemma MovedBudget(c: Contents, links: set<(Peer, Peer)>, n: Network, maxHops: nat, move: Move)
    requires Budget(c, links, n, maxHops) && Allowed(links, n, move)
    ensures Budget(c, links, Moved(c, n, move), maxHops)
  {
    hide LockStep, Ready, Acted, PacketOk, WithinHops, RouteHeard;
    var r := Moved(c, n, move);
    MovedRoutes(c, links, n, maxHops, move);
    forall node | node in r.nodes && node != move.node ensures NodeOk(c, r, maxHops, node) {
      assert NodeOk(c, n, maxHops, node);
      forall id | id in n.nodes[node].routes ensures RouteHeard(r, node, id, n.nodes[node].routes[id].hops) {
        HeardStays(n, r, node, id, n.nodes[node].routes[id].hops);
      }
    }
    forall q | q in r.packets ensures PacketOk(links, r, maxHops, q) { MovedPacket(c, links, n, maxHops, move, q); }
    forall d | d in r.delivered ensures WithinHops(links, r, maxHops, d.1, d.0) { MovedDelivered(c, links, n, maxHops, move, d); }
  }

  lemma HeardStays(n: Network, r: Network, node: Peer, id: EventId, hops: nat)
    requires RouteHeard(n, node, id, hops) && n.packets <= r.packets
    ensures RouteHeard(r, node, id, hops)
  {}

  lemma {:induction false} RunBudget(c: Contents, links: set<(Peer, Peer)>, options: map<Peer, Options>, moves: seq<Move>,
                                     maxHops: nat)
    requires forall p :: p in options ==> Clamped(options[p]).maxHops == maxHops
    requires Legal(c, links, options, moves)
    ensures Budget(c, links, RunOf(c, options, moves), maxHops)
  {
    hide Budget, Allowed, Moved, Clamped, Start;
    if moves == [] {
      StartBudget(c, links, options, maxHops);
    } else {
      var n := |moves| - 1;
      RunBudget(c, links, options, moves[..n], maxHops);
      MovedBudget(c, links, RunOf(c, options, moves[..n]), maxHops, moves[n]);
    }
  }

  /** Whoever delivers an event is within the hop limit of a node that published or replayed it, and an announcement
      with h hops left was sent by a node a walk of maxHops - h links away from one. */
  lemma HopBudget(c: Contents, links: set<(Peer, Peer)>, options: map<Peer, Options>, moves: seq<Move>, maxHops: nat)
    requires forall p :: p in options ==> Clamped(options[p]).maxHops == maxHops
    requires Legal(c, links, options, moves)
    ensures var n := RunOf(c, options, moves);
            && (forall node, id :: (node, id) in n.delivered ==> WithinHops(links, n, maxHops, id, node))
            && (forall q :: q in n.packets && q.message.Inventory? && q.message.hops > 0 ==>
                  q.message.hops <= maxHops && Reached(links, n, q.message.id, q.sender, maxHops - q.message.hops))
  {
    hide Legal, RunOf, Clamped, NodeOk, WithinHops, Reached;
    RunBudget(c, links, options, moves, maxHops);
    var n := RunOf(c, options, moves);
    forall q | q in n.packets && q.message.Inventory? && q.message.hops > 0
      ensures q.message.hops <= maxHops && Reached(links, n, q.message.id, q.sender, maxHops - q.message.hops)
    {
      assert PacketOk(links, n, maxHops, q);
    }
    forall node, id | (node, id) in n.delivered ensures WithinHops(links, n, maxHops, id, node) {
      assert WithinHops(links, n, maxHops, (node, id).1, (node, id).0);
    }
  }

  /** Without replays every walk starts at a publisher. */
  lemma {:induction false} NothingReplayed(c: Contents, options: map<Peer, Options>, moves: seq<Move>)
    requires forall move :: move in moves ==> !move.call.Replays? && !move.call.ReplaysCached?
    ensures RunOf(c, options, moves).replayed == {}
  {
    hide Ready, Acted;
    if moves != [] {
      NothingReplayed(c, options, moves[..|moves| - 1]);
      assert moves[|moves| - 1] in moves;
    }
  }
}
