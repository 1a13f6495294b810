/** Many peers and the router between them, as a system of atomic steps (src/worker.rs, src/bin/sim.rs). */
module Network {
  import opened PeerTypes
  import opened PeerMaps
  import opened Workers

  /** An inbox entry: a message with the source address the router stamped on it. */
  datatype Letter = Letter(src: SocketAddr, msg: Message)

  /** A message in the router's hands. */
  datatype Packet = Packet(src: SocketAddr, dst: SocketAddr, msg: Message)

  datatype Node = Node(id: PeerId, known: Known, inbox: seq<Letter>, outbox: seq<Outgoing>)

  /** All started workers, the addresses registered with the router, and the messages it carries. */
  datatype Net = Net(nodes: map<SocketAddr, Node>, registered: set<SocketAddr>, wire: seq<Packet>)

  datatype Step =
    | Spawn(addr: SocketAddr, id: PeerId, bootstrap: Option<SocketAddr>)
    | Register(addr: SocketAddr)
    | Inject(at: SocketAddr, src: SocketAddr, msg: Message)
    | Handle(at: SocketAddr, orders: Orders)
    | Collect(at: SocketAddr)
    | Route

  const EMPTY := Net(map[], {}, [])

  ghost predicate Enabled(s: Net, step: Step) {
    match step
    case Spawn(addr, _, _) => addr !in s.nodes
    case Register(addr) => addr in s.nodes
    case Inject(at, _, _) => at in s.nodes
    case Handle(at, orders) =>
      at in s.nodes && s.nodes[at].inbox != [] && IsOrder(orders, BucketsOf(s.nodes[at].id, s.nodes[at].known))
    case Collect(at) => at in s.registered && at in s.nodes && s.nodes[at].outbox != []
    case Route => s.wire != []
  }

  /** A new worker: it knows itself, and with a bootstrap address it finds a Ping and a FindPeer for its
      own id in its OWN inbox, marked as coming from the bootstrap address. */
  function NewNode(addr: SocketAddr, id: PeerId, bootstrap: Option<SocketAddr>): Node {
    Node(id, map[id := addr],
         if bootstrap.Some?
         then [Letter(bootstrap.value, Ping(id)), Letter(bootstrap.value, FindPeer(id))] else [],
         [])
  }

  /** The worker handles the message at the head of its inbox. */
  function HandleNode(n: Node, orders: Orders): Node
    requires n.inbox != []
  {
    var l := n.inbox[0];
    Node(n.id, Learn(n.known, l.src, l.msg), n.inbox[1..],
         n.outbox + Replies(n.id, n.known, l.src, l.msg, orders))
  }

  function Queue(n: Node, l: Letter): Node { n.(inbox := n.inbox + [l]) }

  /** The router takes the head of a registered worker's outbox, stamping the true source. */
  function CollectFrom(s: Net, at: SocketAddr): Net
    requires at in s.nodes && s.nodes[at].outbox != []
  {
    var n := s.nodes[at];
    Net(s.nodes[at := n.(outbox := n.outbox[1..])], s.registered,
        s.wire + [Packet(at, n.outbox[0].dest, n.outbox[0].msg)])
  }

  /** The router delivers its first message, or drops it if the destination is not registered. */
  function RouteFirst(s: Net): Net
    requires s.wire != []
  {
    var p := s.wire[0];
    if p.dst in s.registered && p.dst in s.nodes
    then Net(s.nodes[p.dst := Queue(s.nodes[p.dst], Letter(p.src, p.msg))], s.registered, s.wire[1..])
    else Net(s.nodes, s.registered, s.wire[1..])
  }

  ghost function Apply(s: Net, step: Step): Net
    requires Enabled(s, step)
  {
    match step
    case Spawn(addr, id, bootstrap) => s.(nodes := s.nodes[addr := NewNode(addr, id, bootstrap)])
    case Register(addr) => s.(registered := s.registered + {addr})
    case Inject(at, src, msg) => s.(nodes := s.nodes[at := Queue(s.nodes[at], Letter(src, msg))])
    case Handle(at, orders) => s.(nodes := s.nodes[at := HandleNode(s.nodes[at], orders)])
    case Collect(at) => CollectFrom(s, at)
    case Route => RouteFirst(s)
  }

  // ---- Runs ----

  ghost predicate IsRun(s: Net, steps: seq<Step>)
    decreases |steps|, 0
  {
    steps == [] ||
    (IsRun(s, steps[..|steps| - 1]) && Enabled(Final(s, steps[..|steps| - 1]), steps[|steps| - 1]))
  }

  ghost function Final(s: Net, steps: seq<Step>): Net
    requires IsRun(s, steps)
    decreases |steps|, 1
  {
    if steps == [] then s else Apply(Final(s, steps[..|steps| - 1]), steps[|steps| - 1])
  }

  lemma RunExtend(s: Net, steps: seq<Step>, step: Step)
    requires IsRun(s, steps) && Enabled(Final(s, steps), step)
    ensures IsRun(s, steps + [step]) && Final(s, steps + [step]) == Apply(Final(s, steps), step)
  {}

  lemma {:induction false} RunPrefix(s: Net, steps: seq<Step>, n: nat)
    requires IsRun(s, steps) && n <= |steps|
    ensures IsRun(s, steps[..n])
    decreases |steps|
  {
    if n < |steps| {
      RunPrefix(s, steps[..|steps| - 1], n);
      assert steps[..|steps| - 1][..n] == steps[..n];
    } else {
      assert steps[..n] == steps;
    }
  }

  /** Steps that workers and router take on their own. */
  predicate IsWork(step: Step) { step.Handle? || step.Collect? || step.Route? }

  ghost predicate Quiescent(s: Net) {
    && s.wire == []
    && forall a :: a in s.nodes ==> s.nodes[a].inbox == [] && s.nodes[a].outbox == []
  }

  /** Nothing is left to do: the router's hands, all inboxes and the outboxes it collects from are empty. */
  ghost predicate Drained(s: Net) {
    && s.wire == []
    && forall a :: a in s.nodes ==> s.nodes[a].inbox == [] && (a in s.registered ==> s.nodes[a].outbox == [])
  }

  ghost predicate DistinctNodeIds(s: Net) {
    forall x, y :: x in s.nodes && y in s.nodes && x != y ==> s.nodes[x].id != s.nodes[y].id
  }

  /** Routing the first message: its destination gets it, behind everything else, exactly if it is registered;
      otherwise it is gone, whether or not a worker has been started there. Nothing else changes. */
  lemma RoutedIfRegistered(s: Net)
    requires RouterOk(s) && s.wire != []
    ensures var s', p := RouteFirst(s), s.wire[0];
            && s'.registered == s.registered && s'.wire == s.wire[1..] && s'.nodes.Keys == s.nodes.Keys
            && forall a :: a in s.nodes ==>
                 && s'.nodes[a].id == s.nodes[a].id && s'.nodes[a].known == s.nodes[a].known
                 && s'.nodes[a].outbox == s.nodes[a].outbox
                 && s'.nodes[a].inbox ==
                    s.nodes[a].inbox + if a == p.dst && a in s.registered then [Letter(p.src, p.msg)] else []
  {}

  /** Registered addresses have workers, and only their messages reach the router. */
  ghost predicate RouterOk(s: Net) {
    && s.registered <= s.nodes.Keys
    && forall i :: 0 <= i < |s.wire| ==> s.wire[i].src in s.registered
  }

  lemma StepKeepsRouterOk(s: Net, step: Step)
    requires RouterOk(s) && Enabled(s, step)
    ensures RouterOk(Apply(s, step))
  {}

  lemma {:induction false} RunKeepsRouterOk(s: Net, steps: seq<Step>)
    requires RouterOk(s) && IsRun(s, steps)
    ensures RouterOk(Final(s, steps))
  {
    if steps == [] {
    } else {
      RunKeepsRouterOk(s, steps[..|steps| - 1]);
      StepKeepsRouterOk(Final(s, steps[..|steps| - 1]), steps[|steps| - 1]);
    }
  }

  /** In every state work is possible until the network is drained. */
  lemma Progress(s: Net) returns (step: Step)
    requires !Drained(s)
    ensures IsWork(step) && Enabled(s, step)
  {
    if s.wire != [] {
      step := Route;
    } else if a :| a in s.nodes && s.nodes[a].inbox != [] {
      var orders := OrdersExist(BucketsOf(s.nodes[a].id, s.nodes[a].known));
      step := Handle(a, orders);
    } else {
      var a :| a in s.nodes && a in s.registered && s.nodes[a].outbox != [];
      step := Collect(a);
    }
  }

  /** In every state: no work is possible exactly when the network is drained. */
  lemma StuckIffDrained(s: Net)
    ensures Drained(s) <==> forall step :: IsWork(step) ==> !Enabled(s, step)
  {
    if !Drained(s) {
      var step := Progress(s);
    }
  }

  /** A drained network stays as it is until somebody outside does something. */
  lemma DrainedStays(before: seq<Step>, all: seq<Step>)
    requires IsRun(EMPTY, before) && IsRun(EMPTY, all) && before <= all && Drained(Final(EMPTY, before))
    requires forall i :: |before| <= i < |all| ==> IsWork(all[i])
    ensures all == before
  {
    if |before| < |all| {
      var next := all[..|before| + 1];
      RunPrefix(EMPTY, all, |before| + 1);
      assert next[..|next| - 1] == before && next[|before|] == all[|before|];
      StuckIffDrained(Final(EMPTY, before));
      assert false;
    }
  }
}
