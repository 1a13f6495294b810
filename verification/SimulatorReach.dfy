/** What the simulator's own start-up traffic achieves: only the bootstrap worker learns anything (src/bin/sim.rs). */
module SimulatorReach {
  import opened Sequences
  import opened PeerTypes
  import opened PeerMaps
  import opened Workers
  import opened Network
  import opened Termination
  import opened AddressBinding

  /** Every worker is started with the same bootstrap address, and nobody injects anything. */
  ghost predicate BootStep(boot: SocketAddr, step: Step) {
    match step
    case Spawn(_, _, bootstrap) => bootstrap == Some(boot)
    case Inject(_, _, _) => false
    case _ => true
  }

  ghost predicate BootRun(boot: SocketAddr, steps: seq<Step>) {
    IsRun(EMPTY, steps) && forall i :: 0 <= i < |steps| ==> BootStep(boot, steps[i])
  }

  /** The addresses registered, in order. */
  ghost function Registrations(steps: seq<Step>): seq<SocketAddr> {
    if steps == [] then []
    else
      var last := steps[|steps| - 1];
      Registrations(steps[..|steps| - 1]) + if last.Register? then [last.addr] else []
  }

  /** The bootstrap worker is the first to be registered, if anybody is. */
  ghost predicate BootFirst(boot: SocketAddr, steps: seq<Step>) {
    Registrations(steps) == [] || Registrations(steps)[0] == boot
  }

  // ---- What holds in every state ----

  /** Traffic towards the bootstrap worker: the sender's own Pong, or a found answer. */
  ghost predicate Report(s: Net, src: SocketAddr, msg: Message) {
    src in s.nodes && (msg == Pong(s.nodes[src].id) || msg.PeerFound?)
  }

  /** The two start-up requests, which a worker finds in its own inbox. */
  ghost predicate StartUp(boot: SocketAddr, id: PeerId, l: Letter) {
    l == Letter(boot, Ping(id)) || l == Letter(boot, FindPeer(id))
  }

  ghost predicate InboxOk(s: Net, boot: SocketAddr, a: SocketAddr, l: Letter)
    requires a in s.nodes
  {
    || StartUp(boot, s.nodes[a].id, l)
    || (a == boot && boot in s.registered && l.src in s.registered && Report(s, l.src, l.msg))
  }

  ghost predicate KnownOk(s: Net, boot: SocketAddr, a: SocketAddr)
    requires a in s.nodes
  {
    var n := s.nodes[a];
    if a != boot then n.known == map[n.id := a]
    else n.id in n.known && forall id :: id in n.known ==>
           Bound(s, id, n.known[id]) && (n.known[id] == boot || n.known[id] in s.registered)
  }

  ghost predicate NodeOk(s: Net, boot: SocketAddr, a: SocketAddr)
    requires a in s.nodes
  {
    && KnownOk(s, boot, a)
    && (forall i :: 0 <= i < |s.nodes[a].inbox| ==> InboxOk(s, boot, a, s.nodes[a].inbox[i]))
    && (forall i :: 0 <= i < |s.nodes[a].outbox| ==>
          s.nodes[a].outbox[i].dest == boot && Report(s, a, s.nodes[a].outbox[i].msg))
  }

  ghost predicate WireOk(s: Net, boot: SocketAddr) {
    forall i :: 0 <= i < |s.wire| ==> s.wire[i].dst == boot && Report(s, s.wire[i].src, s.wire[i].msg)
  }

  ghost predicate BootOk(s: Net, boot: SocketAddr) {
    RouterOk(s) && WireOk(s, boot) && forall a :: a in s.nodes ==> NodeOk(s, boot, a)
  }

  lemma WireOkKept(s: Net, s': Net, boot: SocketAddr)
    requires WireOk(s, boot) && KeepsIds(s, s') && s'.wire == s.wire
    ensures WireOk(s', boot)
  {}

  /** Facts about one worker outlive changes elsewhere. */
  lemma NodeOkKept(s: Net, s': Net, boot: SocketAddr, a: SocketAddr)
    requires a in s.nodes && NodeOk(s, boot, a) && KeepsIds(s, s') && s.registered <= s'.registered
    requires a in s'.nodes && s'.nodes[a] == s.nodes[a]
    ensures NodeOk(s', boot, a)
  {}

  /** A worker answers only to the bootstrap address, and only with reports. */
  lemma RepliesAreReports(s: Net, boot: SocketAddr, at: SocketAddr, orders: Orders)
    requires Enabled(s, Handle(at, orders)) && NodeOk(s, boot, at)
    ensures var n := s.nodes[at];
            var r := Replies(n.id, n.known, n.inbox[0].src, n.inbox[0].msg, orders);
            forall i :: 0 <= i < |r| ==> r[i].dest == boot && Report(s, at, r[i].msg)
  {}

  lemma HandleKeepsKnownOk(s: Net, boot: SocketAddr, at: SocketAddr, orders: Orders)
    requires Enabled(s, Handle(at, orders)) && NodeOk(s, boot, at)
    ensures KnownOk(Apply(s, Handle(at, orders)), boot, at)
  {}

  lemma HandleKeepsNodeOk(s: Net, boot: SocketAddr, at: SocketAddr, orders: Orders)
    requires Enabled(s, Handle(at, orders)) && NodeOk(s, boot, at)
    ensures NodeOk(Apply(s, Handle(at, orders)), boot, at)
  {
    var s', n := Apply(s, Handle(at, orders)), s.nodes[at];
    assert KeepsIds(s, s');
    RepliesAreReports(s, boot, at, orders);
    HandleKeepsKnownOk(s, boot, at, orders);
    var r := Replies(n.id, n.known, n.inbox[0].src, n.inbox[0].msg, orders);
    assert s'.nodes[at].outbox == n.outbox + r;
  }

  lemma CollectKeepsNodeOk(s: Net, boot: SocketAddr, at: SocketAddr)
    requires Enabled(s, Collect(at)) && NodeOk(s, boot, at)
    ensures NodeOk(Apply(s, Collect(at)), boot, at)
  {}

  lemma CollectKeepsWireOk(s: Net, boot: SocketAddr, at: SocketAddr)
    requires Enabled(s, Collect(at)) && WireOk(s, boot) && NodeOk(s, boot, at)
    ensures WireOk(Apply(s, Collect(at)), boot)
  {}

  lemma DeliveryKeepsNodeOk(s: Net, boot: SocketAddr)
    requires s.wire != [] && s.wire[0].dst == boot && boot in s.registered && s.wire[0].src in s.registered
    requires boot in s.nodes && NodeOk(s, boot, boot) && Report(s, s.wire[0].src, s.wire[0].msg)
    ensures NodeOk(RouteFirst(s), boot, boot)
  {}

  lemma SpawnedOk(s: Net, boot: SocketAddr, addr: SocketAddr, id: PeerId)
    requires addr !in s.nodes
    ensures NodeOk(Apply(s, Spawn(addr, id, Some(boot))), boot, addr)
  {
    var n := NewNode(addr, id, Some(boot));
    assert forall i :: 0 <= i < |n.inbox| ==> StartUp(boot, id, n.inbox[i]);
  }

  /** The worker a step acts on keeps its good state. */
  lemma ActorOk(s: Net, boot: SocketAddr, step: Step, a: SocketAddr)
    requires BootOk(s, boot) && Enabled(s, step) && BootStep(boot, step) && a in Apply(s, step).nodes
    requires a !in s.nodes || Apply(s, step).nodes[a] != s.nodes[a]
    ensures NodeOk(Apply(s, step), boot, a)
  {
    assert a in s.nodes ==> NodeOk(s, boot, a);
    match step
    case Spawn(addr, id, _) => SpawnedOk(s, boot, addr, id);
    case Register(_) =>
    case Handle(at, orders) => HandleKeepsNodeOk(s, boot, at, orders);
    case Collect(at) => CollectKeepsNodeOk(s, boot, at);
    case Route => DeliveryKeepsNodeOk(s, boot);
  }

  lemma StepKeepsWireOk(s: Net, boot: SocketAddr, step: Step)
    requires BootOk(s, boot) && Enabled(s, step) && BootStep(boot, step) && KeepsIds(s, Apply(s, step))
    ensures WireOk(Apply(s, step), boot)
  {
    if step.Collect? {
      CollectKeepsWireOk(s, boot, step.at);
    } else if !step.Route? {
      WireOkKept(s, Apply(s, step), boot);
    }
  }

  lemma StepKeepsIds(s: Net, step: Step)
    requires Enabled(s, step)
    ensures KeepsIds(s, Apply(s, step)) && s.registered <= Apply(s, step).registered
  {}

  lemma StepKeepsBootOk(s: Net, boot: SocketAddr, step: Step)
    requires BootOk(s, boot) && Enabled(s, step) && BootStep(boot, step)
    ensures BootOk(Apply(s, step), boot)
  {
    var s' := Apply(s, step);
    StepKeepsRouterOk(s, step);
    StepKeepsIds(s, step);
    StepKeepsWireOk(s, boot, step);
    forall a | a in s'.nodes ensures NodeOk(s', boot, a) {
      if a in s.nodes && s'.nodes[a] == s.nodes[a] {
        assert NodeOk(s, boot, a);
        NodeOkKept(s, s', boot, a);
      } else {
        ActorOk(s, boot, step, a);
      }
    }
  }

  lemma {:induction false} BootRunOk(boot: SocketAddr, steps: seq<Step>)
    requires BootRun(boot, steps)
    ensures BootOk(Final(EMPTY, steps), boot)
  {
    if steps == [] {
    } else {
      BootRunOk(boot, steps[..|steps| - 1]);
      StepKeepsBootOk(Final(EMPTY, steps[..|steps| - 1]), boot, steps[|steps| - 1]);
    }
  }

  /** In every state, whatever the order of registration, each worker but the bootstrap worker knows only
      itself, and the bootstrap worker's map holds true addresses of registered workers and its own. */
  lemma OthersKnowOnlyThemselves(boot: SocketAddr, steps: seq<Step>)
    requires BootRun(boot, steps)
    ensures var s := Final(EMPTY, steps);
            && (forall a :: a in s.nodes && a != boot ==> s.nodes[a].known == map[s.nodes[a].id := a])
            && (boot in s.nodes ==> s.nodes[boot].id in s.nodes[boot].known)
            && (boot in s.nodes ==> forall id :: id in s.nodes[boot].known ==>
                  var addr := s.nodes[boot].known[id];
                  Bound(s, id, addr) && (addr == boot || addr in s.registered))
  {
    BootRunOk(boot, steps);
    var s := Final(EMPTY, steps);
    assert forall a :: a in s.nodes ==> NodeOk(s, boot, a);
  }

  // ---- Two errands per worker: each waits, is on its way, was handled, or was dropped ----

  /** What a start-up request leads to: the Ping to the worker's report, the FindPeer to its found answer. */
  datatype Errand = Greeting | Lookup

  ghost function Request(e: Errand, id: PeerId): Message { if e.Greeting? then Ping(id) else FindPeer(id) }

  ghost function Answer(e: Errand, id: PeerId, a: SocketAddr): Message {
    if e.Greeting? then Pong(id) else PeerFound(id, a)
  }

  /** The places in which the errand of `a` can be: its request unhandled, or its answer queued. */
  ghost function Pending(s: Net, boot: SocketAddr, a: SocketAddr, e: Errand): nat
    requires a in s.nodes
  {
    var n := s.nodes[a];
    CountIn(n.inbox, Letter(boot, Request(e, n.id))) + CountIn(n.outbox, Outgoing(boot, Answer(e, n.id, a))) +
    CountIn(s.wire, Packet(a, boot, Answer(e, n.id, a))) + Arrived(s, boot, a, e)
  }

  ghost function Arrived(s: Net, boot: SocketAddr, a: SocketAddr, e: Errand): nat
    requires a in s.nodes
  {
    if boot in s.nodes then CountIn(s.nodes[boot].inbox, Letter(a, Answer(e, s.nodes[a].id, a))) else 0
  }

  /** The step is the bootstrap worker handling that answer. */
  ghost predicate HandlesReport(s: Net, boot: SocketAddr, a: SocketAddr, e: Errand, step: Step) {
    && step.Handle? && step.at == boot && a in s.nodes && boot in s.nodes
    && s.nodes[boot].inbox != [] && s.nodes[boot].inbox[0] == Letter(a, Answer(e, s.nodes[a].id, a))
  }

  /** The step routes that answer while the bootstrap address is not registered. */
  ghost predicate DropsReport(s: Net, boot: SocketAddr, a: SocketAddr, e: Errand, step: Step) {
    && step.Route? && a in s.nodes && s.wire != []
    && s.wire[0] == Packet(a, boot, Answer(e, s.nodes[a].id, a)) && boot !in s.registered
  }

  ghost function One(b: bool): nat { if b then 1 else 0 }

  /** How often the answer of `a` was handled, and how often it was dropped, during a run. */
  ghost function Handled(boot: SocketAddr, steps: seq<Step>, a: SocketAddr, e: Errand): nat
    requires IsRun(EMPTY, steps)
  {
    if steps == [] then 0
    else
      var front := steps[..|steps| - 1];
      Handled(boot, front, a, e) + One(HandlesReport(Final(EMPTY, front), boot, a, e, steps[|steps| - 1]))
  }

  ghost function Dropped(boot: SocketAddr, steps: seq<Step>, a: SocketAddr, e: Errand): nat
    requires IsRun(EMPTY, steps)
  {
    if steps == [] then 0
    else
      var front := steps[..|steps| - 1];
      Dropped(boot, front, a, e) + One(DropsReport(Final(EMPTY, front), boot, a, e, steps[|steps| - 1]))
  }

  /** A worker answers a start-up request with the answer of that errand. */
  lemma RequestAnswered(s: Net, boot: SocketAddr, a: SocketAddr, orders: Orders) returns (e: Errand)
    requires a in s.nodes && a != boot && NodeOk(s, boot, a) && Enabled(s, Handle(a, orders))
    ensures var n := s.nodes[a];
            && n.inbox[0] == Letter(boot, Request(e, n.id))
            && Replies(n.id, n.known, n.inbox[0].src, n.inbox[0].msg, orders) == [Outgoing(boot, Answer(e, n.id, a))]
  {
    var n := s.nodes[a];
    assert InboxOk(s, boot, a, n.inbox[0]);
    e := if n.inbox[0].msg.Ping? then Greeting else Lookup;
  }

  /** Its own handling takes a request of `e` to the answer of `e`. */
  lemma OwnHandling(s: Net, boot: SocketAddr, a: SocketAddr, orders: Orders, e: Errand)
    requires a in s.nodes && a != boot && NodeOk(s, boot, a) && Enabled(s, Handle(a, orders))
    ensures var n, m := s.nodes[a], Apply(s, Handle(a, orders)).nodes[a];
            var request, answer := Letter(boot, Request(e, n.id)), Outgoing(boot, Answer(e, n.id, a));
            && m.id == n.id
            && CountIn(m.inbox, request) + CountIn(m.outbox, answer) ==
               CountIn(n.inbox, request) + CountIn(n.outbox, answer)
  {
    var n := s.nodes[a];
    var f := RequestAnswered(s, boot, a, orders);
    var sent := [Outgoing(boot, Answer(f, n.id, a))];
    CountHead(n.inbox, Letter(boot, Request(e, n.id)));
    CountConcat(n.outbox, sent, Outgoing(boot, Answer(e, n.id, a)));
    assert CountIn(sent, Outgoing(boot, Answer(e, n.id, a))) == One(e == f);
  }

  lemma HandlePending(s: Net, boot: SocketAddr, at: SocketAddr, orders: Orders, a: SocketAddr, e: Errand)
    requires BootOk(s, boot) && Enabled(s, Handle(at, orders)) && a in s.nodes && a != boot
    ensures var s' := Apply(s, Handle(at, orders));
            && a in s'.nodes
            && Pending(s', boot, a, e) + One(HandlesReport(s, boot, a, e, Handle(at, orders))) == Pending(s, boot, a, e)
  {
    hide CountIn;
    if at == a {
      assert NodeOk(s, boot, a);
      OwnHandling(s, boot, a, orders, e);
    } else if at == boot {
      CountHead(s.nodes[boot].inbox, Letter(a, Answer(e, s.nodes[a].id, a)));
    }
  }

  lemma CollectPending(s: Net, boot: SocketAddr, at: SocketAddr, a: SocketAddr, e: Errand)
    requires Enabled(s, Collect(at)) && a in s.nodes
    ensures a in Apply(s, Collect(at)).nodes && Pending(Apply(s, Collect(at)), boot, a, e) == Pending(s, boot, a, e)
  {
    var n, answer := s.nodes[at], Answer(e, s.nodes[a].id, a);
    var p := Packet(at, n.outbox[0].dest, n.outbox[0].msg);
    assert CountIn([p], Packet(a, boot, answer)) == One(p == Packet(a, boot, answer));
    hide CountIn;
    CountConcat(s.wire, [p], Packet(a, boot, answer));
    CountHead(n.outbox, Outgoing(boot, answer));
  }

  lemma RoutePending(s: Net, boot: SocketAddr, a: SocketAddr, e: Errand)
    requires BootOk(s, boot) && s.wire != [] && a in s.nodes && a != boot
    ensures var s' := RouteFirst(s);
            a in s'.nodes && Pending(s', boot, a, e) + One(DropsReport(s, boot, a, e, Route)) == Pending(s, boot, a, e)
  {
    var p, id := s.wire[0], s.nodes[a].id;
    CountHead(s.wire, Packet(a, boot, Answer(e, id, a)));
    if boot in s.registered {
      CountConcat(s.nodes[boot].inbox, [Letter(p.src, p.msg)], Letter(a, Answer(e, id, a)));
    }
  }

  /** The step that starts `a` sets each errand going once. */
  lemma SpawnPending(s: Net, boot: SocketAddr, a: SocketAddr, id: PeerId, e: Errand)
    requires BootOk(s, boot) && a !in s.nodes && a != boot
    ensures Pending(Apply(s, Spawn(a, id, Some(boot))), boot, a, e) == 1
  {
    var s' := Apply(s, Spawn(a, id, Some(boot)));
    assert Packet(a, boot, Answer(e, id, a)) !in s.wire;
    if boot in s.nodes {
      assert NodeOk(s, boot, boot);
      assert Letter(a, Answer(e, id, a)) !in s.nodes[boot].inbox;
    }
  }

  /** Starting or registering another worker does not touch it. */
  lemma OtherPending(s: Net, boot: SocketAddr, step: Step, a: SocketAddr, e: Errand)
    requires Enabled(s, step) && BootStep(boot, step) && a in s.nodes && (step.Spawn? || step.Register?)
    ensures a in Apply(s, step).nodes && Pending(Apply(s, step), boot, a, e) == Pending(s, boot, a, e)
  {}

  lemma StepPending(s: Net, boot: SocketAddr, step: Step, a: SocketAddr, e: Errand)
    requires BootOk(s, boot) && Enabled(s, step) && BootStep(boot, step) && a in s.nodes && a != boot
    ensures var s' := Apply(s, step);
            && a in s'.nodes
            && Pending(s', boot, a, e) + One(HandlesReport(s, boot, a, e, step)) +
               One(DropsReport(s, boot, a, e, step)) == Pending(s, boot, a, e)
  {
    match step
    case Handle(at, orders) => HandlePending(s, boot, at, orders, a, e);
    case Collect(at) => CollectPending(s, boot, at, a, e);
    case Route => RoutePending(s, boot, a, e);
    case _ => OtherPending(s, boot, step, a, e);
  }

  /** Nothing happens to the errands of a worker that has not been started. */
  lemma {:induction false} NoReportYet(boot: SocketAddr, steps: seq<Step>, a: SocketAddr, e: Errand)
    requires BootRun(boot, steps) && a !in Final(EMPTY, steps).nodes
    ensures Handled(boot, steps, a, e) == Dropped(boot, steps, a, e) == 0
  {
    if steps == [] {
    } else {
      var front := steps[..|steps| - 1];
      StepKeepsIds(Final(EMPTY, front), steps[|steps| - 1]);
      NoReportYet(boot, front, a, e);
    }
  }

  /** In every state each errand of each worker is pending, or was handled, or was dropped: its report, and its
      found answer. */
  lemma {:induction false} ReportConserved(boot: SocketAddr, steps: seq<Step>, a: SocketAddr, e: Errand)
    requires BootRun(boot, steps) && a != boot && a in Final(EMPTY, steps).nodes
    ensures Pending(Final(EMPTY, steps), boot, a, e) + Handled(boot, steps, a, e) + Dropped(boot, steps, a, e) == 1
  {
    var front, step := steps[..|steps| - 1], steps[|steps| - 1];
    var s := Final(EMPTY, front);
    BootRunOk(boot, front);
    if a in s.nodes {
      ReportConserved(boot, front, a, e);
      StepPending(s, boot, step, a, e);
    } else {
      NoReportYet(boot, front, a, e);
      SpawnPending(s, boot, a, step.id, e);
    }
  }

  // ---- What the bootstrap worker knows ----

  /** A report that was handled is known, and with distinct ids only its handling makes it known. */
  lemma {:induction false} HandledIsKnown(boot: SocketAddr, steps: seq<Step>, a: SocketAddr)
    requires BootRun(boot, steps) && a != boot
    ensures var s := Final(EMPTY, steps);
            && (Handled(boot, steps, a, Greeting) > 0 ==> a in s.nodes && Knows(s, boot, s.nodes[a].id))
            && (DistinctNodeIds(s) && a in s.nodes && Knows(s, boot, s.nodes[a].id) ==>
                  Handled(boot, steps, a, Greeting) > 0)
  {
    if steps == [] {
    } else {
      var front, step := steps[..|steps| - 1], steps[|steps| - 1];
      var s := Final(EMPTY, front);
      HandledIsKnown(boot, front, a);
      BootRunOk(boot, front);
      StepKeepsIds(s, step);
      StepLearns(s, boot, step, a);
    }
  }

  /** What the bootstrap worker learns in one step: only a handled report adds to its map. */
  lemma StepLearns(s: Net, boot: SocketAddr, step: Step, a: SocketAddr)
    requires BootOk(s, boot) && Enabled(s, step) && BootStep(boot, step) && a != boot
    ensures var s' := Apply(s, step);
            && (a in s.nodes && Knows(s, boot, s.nodes[a].id) ==> Knows(s', boot, s.nodes[a].id))
            && (HandlesReport(s, boot, a, Greeting, step) ==> Knows(s', boot, s.nodes[a].id))
            && (DistinctNodeIds(s') && a in s'.nodes && Knows(s', boot, s'.nodes[a].id) ==>
                  DistinctNodeIds(s) && a in s.nodes &&
                  (Knows(s, boot, s.nodes[a].id) || HandlesReport(s, boot, a, Greeting, step)))
  {
    hide BootOk;
    StepKeepsIds(s, step);
    if step.Handle? && step.at == boot {
      BootHandles(s, boot, step.orders, a);
    } else if boot in s.nodes {
      assert Apply(s, step).nodes[boot].known == s.nodes[boot].known;
      if step.Spawn? { NewcomerUnknown(s, boot, step); }
    }
  }

  lemma BootHandles(s: Net, boot: SocketAddr, orders: Orders, a: SocketAddr)
    requires BootOk(s, boot) && Enabled(s, Handle(boot, orders)) && a != boot
    ensures var s', step := Apply(s, Handle(boot, orders)), Handle(boot, orders);
            && s'.nodes.Keys == s.nodes.Keys && (forall x :: x in s.nodes ==> s'.nodes[x].id == s.nodes[x].id)
            && (a in s.nodes && Knows(s, boot, s.nodes[a].id) ==> Knows(s', boot, s.nodes[a].id))
            && (HandlesReport(s, boot, a, Greeting, step) ==> Knows(s', boot, s.nodes[a].id))
            && (DistinctNodeIds(s) && a in s.nodes && Knows(s', boot, s.nodes[a].id) ==>
                  Knows(s, boot, s.nodes[a].id) || HandlesReport(s, boot, a, Greeting, step))
  {
    var l := s.nodes[boot].inbox[0];
    assert NodeOk(s, boot, boot) && InboxOk(s, boot, boot, l);
    if l.msg.Pong? { assert Report(s, l.src, l.msg); }
  }

  /** With distinct ids a worker that starts is unknown. */
  lemma NewcomerUnknown(s: Net, boot: SocketAddr, step: Step)
    requires BootOk(s, boot) && step.Spawn? && Enabled(s, step) && boot in s.nodes
    ensures DistinctNodeIds(Apply(s, step)) ==> !Knows(s, boot, step.id)
  {
    assert NodeOk(s, boot, boot) && KnownOk(s, boot, boot);
    if Knows(s, boot, step.id) {
      var x, s' := s.nodes[boot].known[step.id], Apply(s, step);
      assert x != step.addr && s'.nodes[x].id == s'.nodes[step.addr].id;
    }
  }

  /** At rest the bootstrap worker knows exactly those workers whose report was not dropped, that is, not
      routed while the bootstrap address was unregistered. */
  lemma KnownUnlessDropped(boot: SocketAddr, steps: seq<Step>, a: SocketAddr)
    requires BootRun(boot, steps) && Quiescent(Final(EMPTY, steps))
    requires var s := Final(EMPTY, steps); boot in s.nodes && a in s.nodes && a != boot
    ensures var s := Final(EMPTY, steps);
            && (Dropped(boot, steps, a, Greeting) == 0 ==> Knows(s, boot, s.nodes[a].id))
            && (DistinctNodeIds(s) ==> (Knows(s, boot, s.nodes[a].id) <==> Dropped(boot, steps, a, Greeting) == 0))
  {
    ReportConserved(boot, steps, a, Greeting);
    HandledIsKnown(boot, steps, a);
    assert Pending(Final(EMPTY, steps), boot, a, Greeting) == 0;
  }

  lemma {:induction false} RegisteredOnes(steps: seq<Step>)
    requires IsRun(EMPTY, steps)
    ensures Final(EMPTY, steps).registered == Elements(Registrations(steps))
  {
    if steps == [] {
    } else {
      RegisteredOnes(steps[..|steps| - 1]);
    }
  }

  /** With the bootstrap worker registered first, no answer is ever dropped. */
  lemma {:induction false} NothingDropped(boot: SocketAddr, steps: seq<Step>, a: SocketAddr, e: Errand)
    requires BootRun(boot, steps) && BootFirst(boot, steps)
    ensures Dropped(boot, steps, a, e) == 0
  {
    if steps == [] {
    } else {
      var front, step := steps[..|steps| - 1], steps[|steps| - 1];
      assert Registrations(front) <= Registrations(steps);
      NothingDropped(boot, front, a, e);
      BootRunOk(boot, front);
      RegisteredOnes(front);
      var s := Final(EMPTY, front);
      if s.wire != [] {
        assert s.wire[0].src in s.registered;
        assert boot in Registrations(front);
      }
    }
  }

  /** With the bootstrap worker registered first, in every state it knows a worker or the report is pending. */
  lemma KnownOrPending(boot: SocketAddr, steps: seq<Step>, a: SocketAddr)
    requires BootRun(boot, steps) && BootFirst(boot, steps) && a in Final(EMPTY, steps).nodes && a != boot
    ensures var s := Final(EMPTY, steps); Knows(s, boot, s.nodes[a].id) || Pending(s, boot, a, Greeting) == 1
  {
    NothingDropped(boot, steps, a, Greeting);
    ReportConserved(boot, steps, a, Greeting);
    HandledIsKnown(boot, steps, a);
  }

  /** With the bootstrap worker registered first: at rest it knows every worker, under its true address,
      and nobody else. */
  lemma SimulatorReaches(boot: SocketAddr, steps: seq<Step>)
    requires BootRun(boot, steps) && BootFirst(boot, steps)
    ensures var s := Final(EMPTY, steps);
            boot in s.nodes && Quiescent(s) ==>
              && (forall a :: a in s.nodes ==> Knows(s, boot, s.nodes[a].id))
              && (forall id :: id in s.nodes[boot].known ==> Bound(s, id, s.nodes[boot].known[id]))
              && (boot in s.registered ==> s.nodes[boot].known.Values <= s.registered)
  {
    OthersKnowOnlyThemselves(boot, steps);
    var s := Final(EMPTY, steps);
    if boot in s.nodes && Quiescent(s) {
      forall a | a in s.nodes ensures Knows(s, boot, s.nodes[a].id) {
        if a != boot {
          NothingDropped(boot, steps, a, Greeting);
          KnownUnlessDropped(boot, steps, a);
        }
      }
    }
  }

  // ---- A bootstrap worker that comes too late ----

  lemma {:induction false} PrefixKeepsIds(steps: seq<Step>, all: seq<Step>)
    requires steps <= all && IsRun(EMPTY, steps) && IsRun(EMPTY, all)
    ensures KeepsIds(Final(EMPTY, steps), Final(EMPTY, all))
    decreases |all|
  {
    if |steps| < |all| {
      PrefixKeepsIds(steps, all[..|all| - 1]);
      StepKeepsIds(Final(EMPTY, all[..|all| - 1]), all[|all| - 1]);
    } else {
      assert all == steps;
    }
  }

  /** What was dropped stays dropped. */
  lemma {:induction false} DroppedGrows(boot: SocketAddr, steps: seq<Step>, all: seq<Step>, a: SocketAddr)
    requires steps <= all && IsRun(EMPTY, steps) && IsRun(EMPTY, all)
    ensures Dropped(boot, steps, a, Greeting) <= Dropped(boot, all, a, Greeting)
    decreases |all|
  {
    if |steps| < |all| {
      DroppedGrows(boot, steps, all[..|all| - 1], a);
    } else {
      assert all == steps;
    }
  }

  lemma DroppedExtend(boot: SocketAddr, steps: seq<Step>, step: Step, a: SocketAddr)
    requires IsRun(EMPTY, steps) && Enabled(Final(EMPTY, steps), step)
    ensures IsRun(EMPTY, steps + [step]) && Final(EMPTY, steps + [step]) == Apply(Final(EMPTY, steps), step)
    ensures Dropped(boot, steps + [step], a, Greeting) ==
            Dropped(boot, steps, a, Greeting) + One(DropsReport(Final(EMPTY, steps), boot, a, Greeting, step))
  {
    assert (steps + [step])[..|steps + [step]| - 1] == steps;
  }

  /** A worker joins and reports, and its report is routed before there is a bootstrap worker. */
  lemma ReportLost(boot: SocketAddr, w: SocketAddr, id: PeerId) returns (steps: seq<Step>)
    requires boot != w
    ensures BootRun(boot, steps) && Dropped(boot, steps, w, Greeting) == 1
    ensures var s := Final(EMPTY, steps); s.nodes.Keys == {w} == s.registered && s.nodes[w].id == id
  {
    var orders := OrdersExist(BucketsOf(id, map[id := w]));
    var spawned := [Spawn(w, id, Some(boot))];
    DroppedExtend(boot, [], spawned[0], w);
    assert [] + spawned == spawned;
    var joined := spawned + [Register(w)];
    DroppedExtend(boot, spawned, Register(w), w);
    var handled := joined + [Handle(w, orders)];
    DroppedExtend(boot, joined, Handle(w, orders), w);
    assert Final(EMPTY, handled).nodes[w].outbox == [Outgoing(boot, Pong(id))];
    var collected := handled + [Collect(w)];
    DroppedExtend(boot, handled, Collect(w), w);
    assert Final(EMPTY, collected).wire == [Packet(w, boot, Pong(id))];
    steps := collected + [Route];
    DroppedExtend(boot, collected, Route, w);
  }

  /** Registering the bootstrap worker first matters: in this run both workers are started and registered,
      every queue is empty, and yet the bootstrap worker does not know the other one. */
  lemma LateBootstrapMissesReport(boot: SocketAddr, bootId: PeerId, w: SocketAddr, id: PeerId)
    returns (steps: seq<Step>)
    requires boot != w && bootId != id
    ensures BootRun(boot, steps) && Quiescent(Final(EMPTY, steps))
    ensures var s := Final(EMPTY, steps);
            && s.nodes.Keys == {boot, w} == s.registered && s.nodes[w].id == id && s.nodes[boot].id == bootId
            && !Knows(s, boot, id)
  {
    var lost := ReportLost(boot, w, id);
    var late := StartLate(boot, bootId, lost);
    steps := ComesToRest(EMPTY, late);
    WorkKeepsWorkers(late, steps);
    DroppedGrows(boot, lost, steps, w);
    PrefixKeepsIds(late, steps);
    KnownUnlessDropped(boot, steps, w);
  }

  lemma StartLate(boot: SocketAddr, bootId: PeerId, steps: seq<Step>) returns (late: seq<Step>)
    requires BootRun(boot, steps) && boot !in Final(EMPTY, steps).nodes
    ensures steps <= late && BootRun(boot, late)
    ensures var s, t := Final(EMPTY, steps), Final(EMPTY, late);
            && t.nodes == s.nodes[boot := NewNode(boot, bootId, Some(boot))]
            && t.registered == s.registered + {boot}
  {
    var started := steps + [Spawn(boot, bootId, Some(boot))];
    RunExtend(EMPTY, steps, Spawn(boot, bootId, Some(boot)));
    late := started + [Register(boot)];
    RunExtend(EMPTY, started, Register(boot));
  }

  lemma {:induction false} WorkKeepsWorkers(steps: seq<Step>, all: seq<Step>)
    requires steps <= all && IsRun(EMPTY, steps) && IsRun(EMPTY, all)
    requires forall i :: |steps| <= i < |all| ==> IsWork(all[i])
    ensures Final(EMPTY, all).nodes.Keys == Final(EMPTY, steps).nodes.Keys
    ensures Final(EMPTY, all).registered == Final(EMPTY, steps).registered
    decreases |all|
  {
    if |steps| < |all| {
      WorkKeepsWorkers(steps, all[..|all| - 1]);
      assert IsWork(all[|all| - 1]);
    } else {
      assert all == steps;
    }
  }
}
