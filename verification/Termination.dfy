/** The network always comes to rest: a weighted count of queued messages falls with every step of work. */
module Termination {
  import opened PeerTypes
  import opened PeerMaps
  import opened Workers
  import opened Network

  // ---- Sums over sets of addresses ----

  ghost function Sum(s: set<SocketAddr>, f: SocketAddr -> nat): nat {
    if s == {} then 0 else var x :| x in s; f(x) + Sum(s - {x}, f)
  }

  lemma {:induction false} SumExtract(s: set<SocketAddr>, f: SocketAddr -> nat, x: SocketAddr)
    requires x in s
    ensures Sum(s, f) == f(x) + Sum(s - {x}, f)
  {
    var y :| y in s && Sum(s, f) == f(y) + Sum(s - {y}, f);
    if x != y {
      SumExtract(s - {y}, f, x);
      SumExtract(s - {x}, f, y);
      assert s - {x} - {y} == s - {y} - {x};
    }
  }

  lemma {:induction false} SumLe(s: set<SocketAddr>, f: SocketAddr -> nat, g: SocketAddr -> nat)
    requires forall y :: y in s ==> g(y) <= f(y)
    ensures Sum(s, g) <= Sum(s, f)
  {
    if s == {} {
    } else {
      var x :| x in s;
      SumExtract(s, f, x);
      SumExtract(s, g, x);
      SumLe(s - {x}, f, g);
    }
  }

  /** All terms shrink except possibly the one at `x`. */
  lemma SumChange(s: set<SocketAddr>, f: SocketAddr -> nat, g: SocketAddr -> nat, x: SocketAddr)
    requires x in s
    requires forall y :: y in s && y != x ==> g(y) <= f(y)
    ensures Sum(s, g) + f(x) <= Sum(s, f) + g(x)
  {
    SumExtract(s, f, x);
    SumExtract(s, g, x);
    SumLe(s - {x}, f, g);
  }

  // ---- Weights ----

  ghost predicate Knows(s: Net, a: SocketAddr, id: PeerId) {
    a in s.nodes && id in s.nodes[a].known
  }

  /** The receiver will know the pinger when the Ping is handled: it does already, or a Pong of the same
      id travels ahead of the Ping on the same path and cannot be dropped. */
  ghost predicate WillKnow(s: Net, ahead: set<Packet>, p: Packet)
    requires p.msg.Ping?
  {
    || Knows(s, p.dst, p.msg.id)
    || (p.dst in s.registered && Packet(p.src, p.dst, Pong(p.msg.id)) in ahead)
  }

  /** A Ping that may be pinged back weighs 4, or 6 if the ping-back goes to an unregistered address. */
  ghost function Cost(s: Net, delivered: bool, ahead: set<Packet>, p: Packet): nat {
    match p.msg
    case Ping(_) => if WillKnow(s, ahead, p) then 2 else if delivered && p.src !in s.registered then 6 else 4
    case FindPeer(_) => 2
    case _ => 1
  }

  ghost function Members(q: seq<Packet>): set<Packet> { set p | p in q }

  /** The weight of a queue behind the packets `ahead`. */
  ghost function Weigh(s: Net, delivered: bool, q: seq<Packet>, ahead: set<Packet>): nat {
    if q == [] then 0
    else Weigh(s, delivered, q[..|q| - 1], ahead) +
         Cost(s, delivered, ahead + Members(q[..|q| - 1]), q[|q| - 1])
  }

  ghost function InPackets(a: SocketAddr, inbox: seq<Letter>): (q: seq<Packet>)
    ensures |q| == |inbox|
  {
    seq(|inbox|, i requires 0 <= i < |inbox| => Packet(inbox[i].src, a, inbox[i].msg))
  }

  ghost function OutPackets(a: SocketAddr, outbox: seq<Outgoing>): (q: seq<Packet>)
    ensures |q| == |outbox|
  {
    seq(|outbox|, i requires 0 <= i < |outbox| => Packet(a, outbox[i].dest, outbox[i].msg))
  }

  /** Everything that has been delivered and not handled. */
  ghost function Delivered(s: Net): set<Packet> {
    set a, l | a in s.nodes && l in s.nodes[a].inbox :: Packet(l.src, a, l.msg)
  }

  lemma DeliveredMember(s: Net, p: Packet)
    ensures p in Delivered(s) <==> p.dst in s.nodes && Letter(p.src, p.msg) in s.nodes[p.dst].inbox
  {}

  lemma DeliveredSame(s: Net, s': Net)
    requires s'.nodes.Keys == s.nodes.Keys
    requires forall a :: a in s.nodes ==> s'.nodes[a].inbox == s.nodes[a].inbox
    ensures Delivered(s') == Delivered(s)
  {}

  ghost function NodePotential(s: Net, a: SocketAddr): nat {
    if a !in s.nodes then 0
    else
      5 * Weigh(s, true, InPackets(a, s.nodes[a].inbox), {}) +
      5 * Weigh(s, false, OutPackets(a, s.nodes[a].outbox), Delivered(s) + Members(s.wire)) +
      2 * |s.nodes[a].outbox|
  }

  ghost function WirePotential(s: Net): nat {
    5 * Weigh(s, false, s.wire, Delivered(s)) + |s.wire|
  }

  ghost function Potential(s: Net): nat {
    Sum(s.nodes.Keys, a => NodePotential(s, a)) + WirePotential(s)
  }

  // ---- Monotonicity ----

  /** No Ping whose sender will be known in `s` behind `ahead` loses that in `s'` behind `ahead'`. */
  ghost predicate Better(s: Net, ahead: set<Packet>, s': Net, ahead': set<Packet>) {
    && (forall a, id :: Knows(s, a, id) ==> Knows(s', a, id))
    && s.registered <= s'.registered
    && forall p :: p in ahead && p.msg.Pong? && p.dst in s.registered ==>
         p in ahead' || Knows(s', p.dst, p.msg.id)
  }

  lemma {:induction false} WeighMonotone(s: Net, s': Net, delivered: bool, q: seq<Packet>,
                                         ahead: set<Packet>, ahead': set<Packet>)
    requires Better(s, ahead, s', ahead')
    ensures Weigh(s', delivered, q, ahead') <= Weigh(s, delivered, q, ahead)
  {
    if q == [] {
    } else {
      var r, p := q[..|q| - 1], q[|q| - 1];
      WeighMonotone(s, s', delivered, r, ahead, ahead');
      assert Better(s, ahead + Members(r), s', ahead' + Members(r));
      if p.msg.Ping? && WillKnow(s, ahead + Members(r), p) {
        assert WillKnow(s', ahead' + Members(r), p);
      }
    }
  }

  lemma {:induction false} WeighConcat(s: Net, delivered: bool, a: seq<Packet>, b: seq<Packet>, ahead: set<Packet>)
    ensures Weigh(s, delivered, a + b, ahead) ==
            Weigh(s, delivered, a, ahead) + Weigh(s, delivered, b, ahead + Members(a))
    decreases |b|
  {
    if b == [] {
      assert a + b == a;
    } else {
      var r := b[..|b| - 1];
      assert (a + b)[..|a + b| - 1] == a + r;
      WeighConcat(s, delivered, a, r, ahead);
      assert ahead + Members(a + r) == ahead + Members(a) + Members(r);
    }
  }

  lemma WeighOne(s: Net, delivered: bool, p: Packet, ahead: set<Packet>)
    ensures Weigh(s, delivered, [p], ahead) == Cost(s, delivered, ahead, p)
  {}

  lemma WeighHead(s: Net, delivered: bool, q: seq<Packet>, ahead: set<Packet>)
    requires q != []
    ensures Weigh(s, delivered, q, ahead) ==
            Cost(s, delivered, ahead, q[0]) + Weigh(s, delivered, q[1..], ahead + {q[0]})
  {
    assert q == [q[0]] + q[1..];
    WeighConcat(s, delivered, [q[0]], q[1..], ahead);
    WeighOne(s, delivered, q[0], ahead);
    assert Members([q[0]]) == {q[0]};
  }

  /** A node whose queues are untouched does not gain weight. */
  lemma NodeMonotone(s: Net, s': Net, a: SocketAddr)
    requires a in s.nodes && a in s'.nodes
    requires s'.nodes[a].inbox == s.nodes[a].inbox && s'.nodes[a].outbox == s.nodes[a].outbox
    requires Better(s, {}, s', {})
    requires Better(s, Delivered(s) + Members(s.wire), s', Delivered(s') + Members(s'.wire))
    ensures NodePotential(s', a) <= NodePotential(s, a)
  {
    WeighMonotone(s, s', true, InPackets(a, s.nodes[a].inbox), {}, {});
    WeighMonotone(s, s', false, OutPackets(a, s.nodes[a].outbox),
                  Delivered(s) + Members(s.wire), Delivered(s') + Members(s'.wire));
  }

  /** If only the node at `x` and the wire change their queues, the potential changes by what they change. */
  lemma PotentialChange(s: Net, s': Net, x: SocketAddr)
    requires x in s.nodes && s'.nodes.Keys == s.nodes.Keys
    requires forall a :: a in s.nodes && a != x ==>
               s'.nodes[a].inbox == s.nodes[a].inbox && s'.nodes[a].outbox == s.nodes[a].outbox
    requires Better(s, {}, s', {})
    requires Better(s, Delivered(s) + Members(s.wire), s', Delivered(s') + Members(s'.wire))
    ensures Potential(s') + NodePotential(s, x) + WirePotential(s) <=
            Potential(s) + NodePotential(s', x) + WirePotential(s')
  {
    forall a | a in s.nodes && a != x ensures NodePotential(s', a) <= NodePotential(s, a) {
      NodeMonotone(s, s', a);
    }
    SumChange(s.nodes.Keys, a => NodePotential(s, a), a => NodePotential(s', a), x);
  }

  // ---- Work lowers the potential ----

  /** The outbox gives up its head. */
  lemma CollectedNode(s: Net, at: SocketAddr)
    requires Enabled(s, Collect(at))
    ensures var n := s.nodes[at];
            var p := Packet(at, n.outbox[0].dest, n.outbox[0].msg);
            var cost := Cost(s, false, Delivered(s) + Members(s.wire), p);
            NodePotential(Apply(s, Collect(at)), at) + 5 * cost + 2 <= NodePotential(s, at)
  {
    var s', n := Apply(s, Collect(at)), s.nodes[at];
    var p := Packet(at, n.outbox[0].dest, n.outbox[0].msg);
    var ahead := Delivered(s) + Members(s.wire);
    DeliveredSame(s, s');
    assert Delivered(s') + Members(s'.wire) == ahead + {p};
    var out := OutPackets(at, n.outbox);
    assert out[0] == p && out[1..] == OutPackets(at, s'.nodes[at].outbox);
    WeighHead(s, false, out, ahead);
    WeighMonotone(s, s', false, out[1..], ahead + {p}, ahead + {p});
    WeighMonotone(s, s', true, InPackets(at, n.inbox), {}, {});
  }

  /** The wire gains it. */
  lemma CollectedWire(s: Net, at: SocketAddr)
    requires Enabled(s, Collect(at))
    ensures var n := s.nodes[at];
            var p := Packet(at, n.outbox[0].dest, n.outbox[0].msg);
            var cost := Cost(s, false, Delivered(s) + Members(s.wire), p);
            WirePotential(Apply(s, Collect(at))) <= WirePotential(s) + 5 * cost + 1
  {
    var s', n, d := Apply(s, Collect(at)), s.nodes[at], Delivered(s);
    var p := Packet(at, n.outbox[0].dest, n.outbox[0].msg);
    DeliveredSame(s, s');
    WeighConcat(s', false, s.wire, [p], d);
    WeighMonotone(s, s', false, s.wire, d, d);
    WeighMonotone(s, s', false, [p], d + Members(s.wire), d + Members(s.wire));
    WeighOne(s, false, p, d + Members(s.wire));
  }

  lemma CollectLowers(s: Net, at: SocketAddr)
    requires Enabled(s, Collect(at))
    ensures Potential(Apply(s, Collect(at))) < Potential(s)
  {
    var s' := Apply(s, Collect(at));
    DeliveredSame(s, s');
    assert Members(s.wire) <= Members(s'.wire);
    PotentialChange(s, s', at);
    CollectedNode(s, at);
    CollectedWire(s, at);
  }

  /** Delivery adds the packet to what has been delivered. */
  lemma DeliveredGrows(s: Net, s': Net, p: Packet)
    requires p.dst in s.nodes && s'.nodes == s.nodes[p.dst := Queue(s.nodes[p.dst], Letter(p.src, p.msg))]
    ensures Delivered(s') == Delivered(s) + {p}
  {
    forall q ensures q in Delivered(s') <==> q in Delivered(s) + {p} {
      DeliveredMember(s, q);
      DeliveredMember(s', q);
    }
  }

  /** Only packets already delivered to the same worker can tell of the sender of a newly delivered one. */
  lemma WillKnowIsLocal(s: Net, p: Packet)
    requires p.dst in s.nodes && p.msg.Ping?
    ensures WillKnow(s, Delivered(s), p) <==> WillKnow(s, Members(InPackets(p.dst, s.nodes[p.dst].inbox)), p)
  {
    var pong := Packet(p.src, p.dst, Pong(p.msg.id));
    var inbox := s.nodes[p.dst].inbox;
    DeliveredMember(s, pong);
    var q := InPackets(p.dst, inbox);
    if pong in Delivered(s) {
      var i :| 0 <= i < |inbox| && inbox[i] == Letter(pong.src, pong.msg);
      assert q[i] == pong;
    }
    if pong in q {
      var i :| 0 <= i < |q| && q[i] == pong;
      assert inbox[i] == Letter(pong.src, pong.msg);
    }
  }

  /** The node that receives a letter gains its cost and nothing else. */
  lemma QueueCost(s: Net, s': Net, p: Packet)
    requires p.dst in s.nodes && p.dst in s'.nodes
    requires s'.nodes[p.dst] == Queue(s.nodes[p.dst], Letter(p.src, p.msg))
    requires Better(s, {}, s', {})
    requires Better(s, Delivered(s) + Members(s.wire), s', Delivered(s') + Members(s'.wire))
    requires Better(s, Delivered(s), s', Delivered(s))
    ensures NodePotential(s', p.dst) <= NodePotential(s, p.dst) + 5 * Cost(s, true, Delivered(s), p)
  {
    var n := s.nodes[p.dst];
    var q := InPackets(p.dst, n.inbox);
    assert InPackets(p.dst, n.inbox + [Letter(p.src, p.msg)]) == q + [p];
    WeighConcat(s', true, q, [p], {});
    assert {} + Members(q) == Members(q);
    WeighMonotone(s, s', true, q, {}, {});
    WeighMonotone(s, s', false, OutPackets(p.dst, n.outbox),
                  Delivered(s) + Members(s.wire), Delivered(s') + Members(s'.wire));
    WeighOne(s', true, p, Members(q));
    if p.msg.Ping? {
      WillKnowIsLocal(s, p);
      assert WillKnow(s, Members(q), p) ==> WillKnow(s', Members(q), p);
    }
  }

  /** The wire gives up its head, which stays ahead of the rest as a delivered packet. */
  lemma DeliveredWire(s: Net)
    requires s.wire != [] && s.wire[0].dst in s.registered && s.wire[0].dst in s.nodes
    ensures WirePotential(RouteFirst(s)) + 5 * Cost(s, false, Delivered(s), s.wire[0]) + 1 <= WirePotential(s)
  {
    var s', p := RouteFirst(s), s.wire[0];
    DeliveredGrows(s, s', p);
    WeighHead(s, false, s.wire, Delivered(s));
    WeighMonotone(s, s', false, s.wire[1..], Delivered(s) + {p}, Delivered(s) + {p});
  }

  lemma DeliverLowers(s: Net)
    requires RouterOk(s) && s.wire != [] && s.wire[0].dst in s.registered
    ensures Potential(RouteFirst(s)) < Potential(s)
  {
    var s', p := RouteFirst(s), s.wire[0];
    DeliveredGrows(s, s', p);
    assert s.wire == [p] + s.wire[1..];
    assert Delivered(s) + Members(s.wire) == Delivered(s') + Members(s'.wire);
    PotentialChange(s, s', p.dst);
    QueueCost(s, s', p);
    DeliveredWire(s);
    assert p.src in s.registered;
  }

  lemma DropLowers(s: Net)
    requires RouterOk(s) && s.wire != [] && s.wire[0].dst !in s.registered
    ensures Potential(RouteFirst(s)) < Potential(s)
  {
    var s', p := RouteFirst(s), s.wire[0];
    DeliveredSame(s, s');
    var d, rest := Delivered(s), s.wire[1..];
    assert s.wire == [p] + rest;
    assert Members(s.wire) == {p} + Members(rest);
    forall a | a in s.nodes ensures NodePotential(s', a) <= NodePotential(s, a) {
      NodeMonotone(s, s', a);
    }
    SumLe(s.nodes.Keys, a => NodePotential(s, a), a => NodePotential(s', a));
    WeighHead(s, false, s.wire, d);
    WeighMonotone(s, s', false, rest, d + {p}, d);
  }

  // ---- Handling ----

  /** Handling removes the letter, and a Pong leaves its knowledge behind. */
  lemma HandleBetter(s: Net, at: SocketAddr, orders: Orders)
    requires Enabled(s, Handle(at, orders))
    ensures var s' := Apply(s, Handle(at, orders));
            var l := s.nodes[at].inbox[0];
            && Better(s, {}, s', {})
            && Better(s, {Packet(l.src, at, l.msg)}, s', {})
            && Better(s, Delivered(s), s', Delivered(s'))
            && Better(s, Delivered(s) + Members(s.wire), s', Delivered(s') + Members(s'.wire))
  {}

  /** The replies weigh at least one less than the message they answer. */
  lemma RepliesCost(s: Net, s': Net, at: SocketAddr, orders: Orders, ahead: set<Packet>)
    requires Enabled(s, Handle(at, orders)) && s'.registered == s.registered
    ensures var n := s.nodes[at];
            var l := n.inbox[0];
            var r := Replies(n.id, n.known, l.src, l.msg, orders);
            && |r| <= 2
            && Weigh(s', false, OutPackets(at, r), ahead) < Cost(s, true, {}, Packet(l.src, at, l.msg))
  {
    var n := s.nodes[at];
    var l := n.inbox[0];
    var r := Replies(n.id, n.known, l.src, l.msg, orders);
    var q := OutPackets(at, r);
    if |r| >= 1 {
      WeighOne(s', false, q[0], ahead);
      if |r| == 1 {
        assert q == [q[0]];
      } else {
        assert q == [q[0]] + [q[1]];
        WeighConcat(s', false, [q[0]], [q[1]], ahead);
        WeighOne(s', false, q[1], ahead + Members([q[0]]));
        assert q[0] == Packet(at, l.src, Pong(n.id)) && q[0] in Members([q[0]]);
      }
    }
  }

  lemma HandleLowers(s: Net, at: SocketAddr, orders: Orders)
    requires Enabled(s, Handle(at, orders))
    ensures Potential(Apply(s, Handle(at, orders))) < Potential(s)
  {
    var s' := Apply(s, Handle(at, orders));
    HandleBetter(s, at, orders);
    PotentialChange(s, s', at);
    WeighMonotone(s, s', false, s.wire, Delivered(s), Delivered(s'));
    HandleNodeLowers(s, at, orders);
  }

  /** The inbox gives up its head. */
  lemma HandledInbox(s: Net, at: SocketAddr, orders: Orders)
    requires Enabled(s, Handle(at, orders))
    ensures var n := s.nodes[at];
            var h := Packet(n.inbox[0].src, at, n.inbox[0].msg);
            Weigh(Apply(s, Handle(at, orders)), true, InPackets(at, n.inbox[1..]), {}) + Cost(s, true, {}, h) <=
            Weigh(s, true, InPackets(at, n.inbox), {})
  {
    hide Better, Delivered;
    var s', n := Apply(s, Handle(at, orders)), s.nodes[at];
    var h := Packet(n.inbox[0].src, at, n.inbox[0].msg);
    HandleBetter(s, at, orders);
    var q := InPackets(at, n.inbox);
    assert q[0] == h && q[1..] == InPackets(at, n.inbox[1..]);
    WeighHead(s, true, q, {});
    assert {} + {h} == {h};
    WeighMonotone(s, s', true, q[1..], {h}, {});
  }

  /** The outbox gains the replies. */
  lemma HandledOutbox(s: Net, at: SocketAddr, orders: Orders)
    requires Enabled(s, Handle(at, orders))
    ensures var s', n := Apply(s, Handle(at, orders)), s.nodes[at];
            var h := Packet(n.inbox[0].src, at, n.inbox[0].msg);
            && |s'.nodes[at].outbox| <= |n.outbox| + 2
            && Weigh(s', false, OutPackets(at, s'.nodes[at].outbox), Delivered(s') + Members(s'.wire)) <
               Weigh(s, false, OutPackets(at, n.outbox), Delivered(s) + Members(s.wire)) + Cost(s, true, {}, h)
  {
    hide Better, Delivered;
    var s', n := Apply(s, Handle(at, orders)), s.nodes[at];
    HandleBetter(s, at, orders);
    var r := Replies(n.id, n.known, n.inbox[0].src, n.inbox[0].msg, orders);
    var before, after := Delivered(s) + Members(s.wire), Delivered(s') + Members(s'.wire);
    var q := OutPackets(at, n.outbox);
    assert OutPackets(at, n.outbox + r) == q + OutPackets(at, r);
    WeighConcat(s', false, q, OutPackets(at, r), after);
    WeighMonotone(s, s', false, q, before, after);
    RepliesCost(s, s', at, orders, after + Members(q));
  }

  lemma HandleNodeLowers(s: Net, at: SocketAddr, orders: Orders)
    requires Enabled(s, Handle(at, orders))
    ensures NodePotential(Apply(s, Handle(at, orders)), at) < NodePotential(s, at)
  {
    HandledInbox(s, at, orders);
    HandledOutbox(s, at, orders);
  }

  // ---- The environment's steps raise it by a bounded amount ----

  lemma InjectRaises(s: Net, at: SocketAddr, src: SocketAddr, msg: Message)
    requires at in s.nodes
    ensures Potential(Apply(s, Inject(at, src, msg))) <= Potential(s) + 30
  {
    hide Better, Delivered;
    var s', p := Apply(s, Inject(at, src, msg)), Packet(src, at, msg);
    InjectBetter(s, at, src, msg);
    PotentialChange(s, s', at);
    QueueCost(s, s', p);
    WeighMonotone(s, s', false, s.wire, Delivered(s), Delivered(s'));
  }

  lemma InjectBetter(s: Net, at: SocketAddr, src: SocketAddr, msg: Message)
    requires at in s.nodes
    ensures var s' := Apply(s, Inject(at, src, msg));
            && Better(s, {}, s', {})
            && Better(s, Delivered(s), s', Delivered(s)) && Better(s, Delivered(s), s', Delivered(s'))
            && Better(s, Delivered(s) + Members(s.wire), s', Delivered(s') + Members(s'.wire))
  {
    DeliveredGrows(s, Apply(s, Inject(at, src, msg)), Packet(src, at, msg));
  }

  lemma RegisterKeeps(s: Net, addr: SocketAddr)
    requires addr in s.nodes
    ensures Potential(Apply(s, Register(addr))) <= Potential(s)
  {
    var s' := Apply(s, Register(addr));
    DeliveredSame(s, s');
    forall a | a in s.nodes ensures NodePotential(s', a) <= NodePotential(s, a) {
      NodeMonotone(s, s', a);
    }
    SumLe(s.nodes.Keys, a => NodePotential(s, a), a => NodePotential(s', a));
    WeighMonotone(s, s', false, s.wire, Delivered(s), Delivered(s'));
  }

  lemma SpawnRaises(s: Net, addr: SocketAddr, id: PeerId, bootstrap: Option<SocketAddr>)
    requires addr !in s.nodes
    ensures Potential(Apply(s, Spawn(addr, id, bootstrap))) <= Potential(s) + 20
  {
    var s' := Apply(s, Spawn(addr, id, bootstrap));
    forall p | p in Delivered(s) ensures p in Delivered(s') {
      DeliveredMember(s, p);
      DeliveredMember(s', p);
    }
    forall a | a in s.nodes ensures NodePotential(s', a) <= NodePotential(s, a) {
      NodeMonotone(s, s', a);
    }
    SumLe(s.nodes.Keys, a => NodePotential(s, a), a => NodePotential(s', a));
    SumExtract(s'.nodes.Keys, a => NodePotential(s', a), addr);
    assert s'.nodes.Keys - {addr} == s.nodes.Keys;
    WeighMonotone(s, s', false, s.wire, Delivered(s), Delivered(s'));
    NewNodePotential(s', addr, id, bootstrap);
  }

  lemma NewNodePotential(s: Net, addr: SocketAddr, id: PeerId, bootstrap: Option<SocketAddr>)
    requires addr in s.nodes && s.nodes[addr] == NewNode(addr, id, bootstrap)
    ensures NodePotential(s, addr) <= 20
  {
    var q := InPackets(addr, s.nodes[addr].inbox);
    if bootstrap.Some? {
      assert q == [q[0]] + [q[1]];
      WeighConcat(s, true, [q[0]], [q[1]], {});
      WeighOne(s, true, q[0], {});
      WeighOne(s, true, q[1], {} + Members([q[0]]));
      assert Knows(s, addr, id);
    }
  }

  // ---- Whole runs ----

  ghost function CountWork(steps: seq<Step>): nat {
    if steps == [] then 0 else CountWork(steps[..|steps| - 1]) + (if IsWork(steps[|steps| - 1]) then 1 else 0)
  }

  /** What the environment's steps entitle the network to. */
  ghost function Budget(steps: seq<Step>): nat {
    if steps == [] then 0
    else Budget(steps[..|steps| - 1]) +
         match steps[|steps| - 1] {
           case Inject(_, _, _) => 30
           case Spawn(_, _, _) => 20
           case _ => 0
         }
  }

  lemma StepPotential(s: Net, step: Step)
    requires RouterOk(s) && Enabled(s, step)
    ensures Potential(Apply(s, step)) + CountWork([step]) <= Potential(s) + Budget([step])
  {
    assert [step][..0] == [];
    match step
    case Spawn(addr, id, bootstrap) => SpawnRaises(s, addr, id, bootstrap);
    case Register(addr) => RegisterKeeps(s, addr);
    case Inject(at, src, msg) => InjectRaises(s, at, src, msg);
    case Handle(at, orders) => HandleLowers(s, at, orders);
    case Collect(at) => CollectLowers(s, at);
    case Route => if s.wire[0].dst in s.registered { DeliverLowers(s); } else { DropLowers(s); }
  }

  /** From any state, under any environment: the steps of work are at most the potential plus the budget. */
  lemma {:induction false} WorkIsBounded(s: Net, steps: seq<Step>)
    requires RouterOk(s) && IsRun(s, steps)
    ensures Potential(Final(s, steps)) + CountWork(steps) <= Potential(s) + Budget(steps)
  {
    if steps == [] {
    } else {
      var front, last := steps[..|steps| - 1], steps[|steps| - 1];
      WorkIsBounded(s, front);
      RunKeepsRouterOk(s, front);
      StepPotential(Final(s, front), last);
      assert [last][..0] == [];
    }
  }

  /** From nothing: at most 30 steps of work per injected message and 20 per started worker, whatever is
      injected, wherever, and from whatever source. */
  lemma WorkFromEmpty(steps: seq<Step>)
    requires IsRun(EMPTY, steps)
    ensures CountWork(steps) <= Budget(steps)
  {
    WorkIsBounded(EMPTY, steps);
    assert Potential(EMPTY) == 0;
  }

  /** Left alone, the network does at most a fixed amount of work from any state, and stops only when it is
      drained; with every worker registered that is when every queue is empty. */
  lemma NetworkTerminates(s: Net, steps: seq<Step>)
    requires RouterOk(s) && IsRun(s, steps)
    requires forall i :: 0 <= i < |steps| ==> IsWork(steps[i])
    ensures |steps| <= Potential(s)
    ensures Drained(Final(s, steps)) <==> forall step :: IsWork(step) ==> !Enabled(Final(s, steps), step)
    ensures s.registered == s.nodes.Keys ==> (Drained(Final(s, steps)) <==> Quiescent(Final(s, steps)))
  {
    WorkIsBounded(s, steps);
    AllWork(steps);
    StuckIffDrained(Final(s, steps));
    if s.registered == s.nodes.Keys { WorkKeepsRegistration(s, steps); }
  }

  lemma {:induction false} AllWork(steps: seq<Step>)
    requires forall i :: 0 <= i < |steps| ==> IsWork(steps[i])
    ensures CountWork(steps) == |steps| && Budget(steps) == 0
  {
    if steps == [] {
    } else {
      AllWork(steps[..|steps| - 1]);
    }
  }

  lemma {:induction false} WorkKeepsRegistration(s: Net, steps: seq<Step>)
    requires RouterOk(s) && s.registered == s.nodes.Keys && IsRun(s, steps)
    requires forall i :: 0 <= i < |steps| ==> IsWork(steps[i])
    ensures Final(s, steps).registered == Final(s, steps).nodes.Keys
  {
    if steps == [] {
    } else {
      WorkKeepsRegistration(s, steps[..|steps| - 1]);
    }
  }

  lemma WorkLowers(s: Net, step: Step)
    requires RouterOk(s) && Enabled(s, step) && IsWork(step)
    ensures Potential(Apply(s, step)) < Potential(s)
  {
    StepPotential(s, step);
    assert [step][..0] == [];
  }

  /** One more step of work, unless the network is drained. */
  lemma WorkOnce(s: Net, steps: seq<Step>) returns (step: Step)
    requires RouterOk(s) && IsRun(s, steps) && !Drained(Final(s, steps))
    ensures IsWork(step) && IsRun(s, steps + [step])
    ensures Potential(Final(s, steps + [step])) < Potential(Final(s, steps))
  {
    var t := Final(s, steps);
    step := Progress(t);
    RunKeepsRouterOk(s, steps);
    WorkLowers(t, step);
    RunExtend(s, steps, step);
  }

  /** Every run can be continued by work until the network is drained. */
  lemma {:induction false} ComesToRest(s: Net, steps: seq<Step>) returns (all: seq<Step>)
    requires RouterOk(s) && IsRun(s, steps)
    ensures steps <= all && IsRun(s, all) && Drained(Final(s, all))
    ensures forall i :: |steps| <= i < |all| ==> IsWork(all[i])
    decreases Potential(Final(s, steps))
  {
    if Drained(Final(s, steps)) {
      all := steps;
    } else {
      var step := WorkOnce(s, steps);
      var longer := steps + [step];
      all := ComesToRest(s, longer);
      assert longer[|steps|] == step;
    }
  }
}
