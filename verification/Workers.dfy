/** One peer: how it answers messages and what it learns from them (src/worker.rs). */
module Workers {
  import opened PeerTypes
  import opened PeerMaps
  import opened Refinement

  datatype WorkerMessage = Quit | Incoming(source: SocketAddr, msg: Message)

  /** A message queued for sending, with its destination. */
  datatype Outgoing = Outgoing(dest: SocketAddr, msg: Message)

  // ---- One message ----

  /** Only a Pong teaches: the sender's address becomes the address of the id it names. */
  function Learn(known: Known, src: SocketAddr, msg: Message): Known {
    if msg.Pong? then known[msg.id := src] else known
  }

  /** A Ping is ponged, and pinged back if its id is unknown; a FindPeer gets the address or neighbours. */
  function Replies(self: PeerId, known: Known, src: SocketAddr, msg: Message, orders: Orders): seq<Outgoing> {
    match msg
    case Ping(id) =>
      [Outgoing(src, Pong(self))] + (if id in known then [] else [Outgoing(src, Ping(self))])
    case FindPeer(id) =>
      if id in known then [Outgoing(src, PeerFound(id, known[id]))]
      else [Outgoing(src, PeerNotFound(id, SearchResult(orders, DistanceRank(self, id), BUCKET_SIZE)))]
    case _ => []
  }

  /** What a peer that knows `known` answers when it is asked for `id`: the address it knows, or neighbours. */
  ghost predicate AnswersFind(self: PeerId, known: Known, asker: SocketAddr, id: PeerId, answer: Outgoing) {
    && answer.dest == asker
    && if id in known then answer.msg == PeerFound(id, known[id])
       else
         && answer.msg.PeerNotFound? && answer.msg.id == id
         && IsNeighbourList(self, known, DistanceRank(self, id), answer.msg.neighbors)
  }

  /** A FindPeer gets exactly one answer. */
  lemma FindIsAnswered(self: PeerId, known: Known, src: SocketAddr, id: PeerId, orders: Orders)
    requires IsOrder(orders, BucketsOf(self, known))
    ensures var r := Replies(self, known, src, FindPeer(id), orders);
            |r| == 1 && AnswersFind(self, known, src, id, r[0])
  {
    SearchIsNeighbourList(self, known, orders, DistanceRank(self, id));
  }

  // ---- A run over a control queue ----

  /** How many messages are handled: all up to the first Quit. */
  function HandledCount(control: seq<WorkerMessage>): (n: nat)
    ensures n <= |control|
    ensures n < |control| ==> control[n].Quit?
    ensures forall i :: 0 <= i < n ==> control[i].Incoming?
  {
    if control == [] then 0
    else
      var n := HandledCount(control[..|control| - 1]);
      if n == |control| - 1 && control[n].Incoming? then n + 1 else n
  }

  /** The map after a sequence of handled messages. */
  function KnownAfter(known: Known, inbox: seq<WorkerMessage>): Known {
    if inbox == [] then known
    else
      var before := KnownAfter(known, inbox[..|inbox| - 1]);
      match inbox[|inbox| - 1]
      case Quit => before
      case Incoming(src, msg) => Learn(before, src, msg)
  }

  /** Everything sent, given the iteration orders met at each message. */
  function SentAfter(self: PeerId, known: Known, inbox: seq<WorkerMessage>, orders: seq<Orders>): seq<Outgoing>
    requires |orders| == |inbox|
  {
    if inbox == [] then []
    else
      var n := |inbox| - 1;
      SentAfter(self, known, inbox[..n], orders[..n]) +
      match inbox[n] {
        case Quit => []
        case Incoming(src, msg) => Replies(self, KnownAfter(known, inbox[..n]), src, msg, orders[n])
      }
  }

  /** The iteration orders are those of the map as it was at each message. */
  ghost predicate OrdersMet(self: PeerId, known: Known, inbox: seq<WorkerMessage>, orders: seq<Orders>) {
    |orders| <= |inbox| && forall i: nat :: i < |orders| ==> OrderMet(self, known, inbox, i, orders[i])
  }

  ghost predicate OrderMet(self: PeerId, known: Known, inbox: seq<WorkerMessage>, i: nat, order: Orders)
    requires i <= |inbox|
  {
    IsOrder(order, BucketsOf(self, KnownAfter(known, inbox[..i])))
  }

  class WorkerState {
    const peerId: PeerId
    const peerMap: PeerMap
    var outgoing: seq<Outgoing>

    /** What the peer map represents. */
    ghost var known: Known

    ghost predicate Valid()
      reads this, peerMap
    {
      peerMap.Represents(peerId, known) && peerMap.bucketSize == BUCKET_SIZE
    }

    /** A fresh worker knows itself. */
    constructor Start(peerId: PeerId, addr: SocketAddr)
      ensures Valid() && fresh(peerMap)
      ensures this.peerId == peerId && known == map[peerId := addr] && outgoing == []
    {
      this.peerId := peerId;
      peerMap := new PeerMap.Default();
      outgoing := [];
      known := map[peerId := addr];
      new;
      assert peerMap.Represents(peerId, map[]);
      peerMap.Insert(peerId, addr, peerId);
      assert map[][peerId := addr] == map[peerId := addr];
    }

    method Send(dest: SocketAddr, msg: Message)
      modifies this`outgoing
      ensures outgoing == old(outgoing) + [Outgoing(dest, msg)]
    {
      outgoing := outgoing + [Outgoing(dest, msg)];
    }

    method Handle(src: SocketAddr, msg: Message) returns (ghost orders: Orders)
      requires Valid()
      modifies this`outgoing, this`known, peerMap
      ensures Valid() && IsOrder(orders, BucketsOf(peerId, old(known)))
      ensures known == Learn(old(known), src, msg)
      ensures outgoing == old(outgoing) + Replies(peerId, old(known), src, msg, orders)
      ensures msg.FindPeer? ==> |outgoing| == |old(outgoing)| + 1 &&
                                AnswersFind(peerId, old(known), src, msg.id, outgoing[|old(outgoing)|])
    {
      hide AnswersFind, IsOrder;
      var order := peerMap.IterationOrders();
      orders := order;
      match msg {
        case Ping(id) =>
          Send(src, Pong(peerId));
          if peerMap.Contains(peerId, id).None? {
            Send(src, Ping(peerId));
          }
        case Pong(id) =>
          assert peerMap.Represents(peerId, known);
          peerMap.Insert(peerId, src, id);
          known := known[id := src];
        case FindPeer(id) =>
          FindIsAnswered(peerId, known, src, id, order);
          var found := peerMap.Lookup(peerId, id, order);
          if found.Ok? {
            Send(src, PeerFound(found.value.peerId, found.value.address));
          } else {
            Send(src, PeerNotFound(id, found.error));
          }
        case _ =>
      }
    }

    /** The state after `n` messages of the queue, from a start with `known0` and `sent0`. */
    ghost predicate Ran(known0: Known, sent0: seq<Outgoing>, control: seq<WorkerMessage>, n: nat, orders: seq<Orders>)
      reads this
    {
      && n <= |control|
      && |orders| == n
      && OrdersMet(peerId, known0, control, orders)
      && known == KnownAfter(known0, control[..n])
      && outgoing == sent0 + SentAfter(peerId, known0, control[..n], orders)
    }

    method HandleNext(control: seq<WorkerMessage>, n: nat, ghost known0: Known, ghost sent0: seq<Outgoing>,
                      ghost orders: seq<Orders>)
      returns (ghost orders': seq<Orders>)
      requires Valid() && n < |control| && control[n].Incoming? && Ran(known0, sent0, control, n, orders)
      modifies this`outgoing, this`known, peerMap
      ensures Valid() && Ran(known0, sent0, control, n + 1, orders')
    {
      hide AnswersFind, Replies, KnownAfter, SentAfter, IsOrder;
      ghost var order := Handle(control[n].source, control[n].msg);
      assert OrderMet(peerId, known0, control, n, order);
      AfterStep(peerId, known0, control, n, orders, order);
      orders' := orders + [order];
    }

    /** The main loop, fed everything that arrives on the control channel until it closes. */
    method Run(control: seq<WorkerMessage>) returns (handled: nat, ghost orders: seq<Orders>)
      requires Valid()
      modifies this`outgoing, this`known, peerMap
      ensures Valid() && handled == HandledCount(control)
      ensures |orders| == handled && OrdersMet(peerId, old(known), control, orders)
      ensures known == KnownAfter(old(known), control[..handled])
      ensures outgoing == old(outgoing) + SentAfter(peerId, old(known), control[..handled], orders)
    {
      handled := 0;
      orders := [];
      assert control[..0] == [];
      assert Ran(known, outgoing, control, 0, orders);
      hide KnownAfter, SentAfter, OrdersMet;
      while handled < |control| && control[handled].Incoming?
        invariant handled <= |control| && forall i :: 0 <= i < handled ==> control[i].Incoming?
        invariant Valid() && Ran(old(known), old(outgoing), control, handled, orders)
      {
        orders := HandleNext(control, handled, old(known), old(outgoing), orders);
        handled := handled + 1;
      }
      HandledCountUnique(control, handled);
    }
  }

  lemma AfterStep(self: PeerId, known: Known, control: seq<WorkerMessage>, n: nat, orders: seq<Orders>, order: Orders)
    requires n < |control| && |orders| == n && control[n].Incoming?
    ensures KnownAfter(known, control[..n + 1]) ==
            Learn(KnownAfter(known, control[..n]), control[n].source, control[n].msg)
    ensures SentAfter(self, known, control[..n + 1], orders + [order]) ==
            SentAfter(self, known, control[..n], orders) +
            Replies(self, KnownAfter(known, control[..n]), control[n].source, control[n].msg, order)
  {
    assert control[..n + 1][..n] == control[..n];
    assert (orders + [order])[..n] == orders;
  }

  lemma HandledCountUnique(control: seq<WorkerMessage>, n: nat)
    requires n <= |control| && forall i :: 0 <= i < n ==> control[i].Incoming?
    requires n < |control| ==> control[n].Quit?
    ensures n == HandledCount(control)
  {}

  // ---- The worker's map is a fold over the Pongs it handled ----

  ghost function PongEntries(inbox: seq<WorkerMessage>): seq<Contact> {
    if inbox == [] then []
    else
      var before, last := PongEntries(inbox[..|inbox| - 1]), inbox[|inbox| - 1];
      if last.Incoming? && last.msg.Pong? then before + [Entry(last.msg.id, last.source)] else before
  }

  /** The map is the own binding overwritten by the Pongs handled, last writer winning. */
  lemma {:induction false} MapIsFold(self: PeerId, addr: SocketAddr, inbox: seq<WorkerMessage>)
    ensures KnownAfter(map[self := addr], inbox) == LastWriter([Entry(self, addr)] + PongEntries(inbox))
  {
    var own := [Entry(self, addr)];
    if inbox == [] {
      assert own + PongEntries(inbox) == own;
      assert LastWriter(own[..0]) == map[];
    } else {
      var before := inbox[..|inbox| - 1];
      MapIsFold(self, addr, before);
      var all := own + PongEntries(inbox);
      if PongEntries(inbox) != PongEntries(before) {
        assert all[..|all| - 1] == own + PongEntries(before);
      }
    }
  }

  /** The position of the last Pong that named `id`, or -1. */
  ghost function LastPong(inbox: seq<WorkerMessage>, id: PeerId): (j: int)
    ensures -1 <= j < |inbox|
    ensures j >= 0 ==> inbox[j].Incoming? && inbox[j].msg == Pong(id)
    ensures forall i :: j < i < |inbox| ==> inbox[i].Quit? || inbox[i].msg != Pong(id)
  {
    if inbox == [] then -1
    else
      var last := inbox[|inbox| - 1];
      if last.Incoming? && last.msg == Pong(id) then |inbox| - 1 else LastPong(inbox[..|inbox| - 1], id)
  }

  /** The address known for an id is that of the last Pong naming it, or the worker's own. */
  lemma {:induction false} KnownIsLastPong(self: PeerId, addr: SocketAddr, inbox: seq<WorkerMessage>, id: PeerId)
    ensures var known, j := KnownAfter(map[self := addr], inbox), LastPong(inbox, id);
            && (id in known <==> j >= 0 || id == self)
            && (id in known ==> known[id] == if j >= 0 then inbox[j].source else addr)
  {
    if inbox == [] {
    } else {
      KnownIsLastPong(self, addr, inbox[..|inbox| - 1], id);
    }
  }

  /** Known ids are never lost. */
  lemma {:induction false} KnownGrows(known: Known, inbox: seq<WorkerMessage>, n: nat)
    requires n <= |inbox|
    ensures KnownAfter(known, inbox[..n]).Keys <= KnownAfter(known, inbox).Keys
    decreases |inbox|
  {
    if n < |inbox| {
      var before := inbox[..|inbox| - 1];
      KnownGrows(known, before, n);
      assert before[..n] == inbox[..n];
    } else {
      assert inbox[..n] == inbox;
    }
  }

  // ---- Reply conservation, per correspondent ----

  datatype Kind = PingKind | PongKind | FindKind | ResponseKind

  function KindOf(msg: Message): Kind {
    match msg
    case Ping(_) => PingKind
    case Pong(_) => PongKind
    case FindPeer(_) => FindKind
    case _ => ResponseKind
  }

  /** Messages of a kind sent to `peer`. */
  function CountSent(out: seq<Outgoing>, peer: SocketAddr, kind: Kind): nat {
    if out == [] then 0 else CountSent(out[..|out| - 1], peer, kind) + CountsAs(out[|out| - 1], peer, kind)
  }

  function CountsAs(o: Outgoing, peer: SocketAddr, kind: Kind): nat {
    if o.dest == peer && KindOf(o.msg) == kind then 1 else 0
  }

  /** Messages of a kind received from `peer`. */
  function CountReceived(inbox: seq<WorkerMessage>, peer: SocketAddr, kind: Kind): nat {
    if inbox == [] then 0
    else
      var last := inbox[|inbox| - 1];
      CountReceived(inbox[..|inbox| - 1], peer, kind) +
      (if last.Incoming? && last.source == peer && KindOf(last.msg) == kind then 1 else 0)
  }

  /** Pings from `peer` naming an id that was unknown when they were handled. */
  function CountUnknownPings(known: Known, inbox: seq<WorkerMessage>, peer: SocketAddr): nat {
    if inbox == [] then 0
    else
      var before, last := inbox[..|inbox| - 1], inbox[|inbox| - 1];
      CountUnknownPings(known, before, peer) +
      (if last.Incoming? && last.source == peer && last.msg.Ping? && last.msg.id !in KnownAfter(known, before)
       then 1 else 0)
  }

  lemma {:induction false} CountSentConcat(a: seq<Outgoing>, b: seq<Outgoing>, peer: SocketAddr, kind: Kind)
    ensures CountSent(a + b, peer, kind) == CountSent(a, peer, kind) + CountSent(b, peer, kind)
    decreases |b|
  {
    if b == [] {
      assert a + b == a;
    } else {
      assert (a + b)[..|a + b| - 1] == a + b[..|b| - 1];
      CountSentConcat(a, b[..|b| - 1], peer, kind);
    }
  }

  lemma CountOne(o: Outgoing, peer: SocketAddr, kind: Kind)
    ensures CountSent([o], peer, kind) == CountsAs(o, peer, kind)
  {}

  /** What the replies to one message count as. */
  lemma CountReplies(self: PeerId, known: Known, src: SocketAddr, msg: Message, orders: Orders,
                     peer: SocketAddr, kind: Kind)
    ensures CountSent(Replies(self, known, src, msg, orders), peer, kind) ==
            if src != peer then 0
            else match kind
              case PongKind => if msg.Ping? then 1 else 0
              case ResponseKind => if msg.FindPeer? then 1 else 0
              case PingKind => if msg.Ping? && msg.id !in known then 1 else 0
              case FindKind => 0
  {
    var r := Replies(self, known, src, msg, orders);
    if |r| >= 1 { CountOne(r[0], peer, kind); }
    if |r| == 2 {
      CountOne(r[1], peer, kind);
      CountSentConcat([r[0]], [r[1]], peer, kind);
      assert r == [r[0]] + [r[1]];
    } else if |r| == 1 {
      assert r == [r[0]];
    }
  }

  /** To every correspondent: one Pong per Ping, one response per FindPeer, one Ping per unknown Ping. */
  lemma {:induction false} ReplyConservation(self: PeerId, known: Known, inbox: seq<WorkerMessage>,
                                             orders: seq<Orders>, peer: SocketAddr)
    requires |orders| == |inbox|
    ensures var out := SentAfter(self, known, inbox, orders);
            && CountSent(out, peer, PongKind) == CountReceived(inbox, peer, PingKind)
            && CountSent(out, peer, ResponseKind) == CountReceived(inbox, peer, FindKind)
            && CountSent(out, peer, PingKind) == CountUnknownPings(known, inbox, peer)
            && CountSent(out, peer, FindKind) == 0
  {
    if inbox == [] {
    } else {
      var n := |inbox| - 1;
      ReplyConservation(self, known, inbox[..n], orders[..n], peer);
      var sent, here := SentAfter(self, known, inbox[..n], orders[..n]), KnownAfter(known, inbox[..n]);
      if inbox[n].Incoming? {
        var r := Replies(self, here, inbox[n].source, inbox[n].msg, orders[n]);
        forall kind: Kind
          ensures CountSent(sent + r, peer, kind) == CountSent(sent, peer, kind) + CountSent(r, peer, kind)
        {
          CountSentConcat(sent, r, peer, kind);
        }
        CountReplies(self, here, inbox[n].source, inbox[n].msg, orders[n], peer, PongKind);
        CountReplies(self, here, inbox[n].source, inbox[n].msg, orders[n], peer, PingKind);
        CountReplies(self, here, inbox[n].source, inbox[n].msg, orders[n], peer, ResponseKind);
        CountReplies(self, here, inbox[n].source, inbox[n].msg, orders[n], peer, FindKind);
      } else {
        assert sent + [] == sent;
      }
    }
  }
}
