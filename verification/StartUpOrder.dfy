/** What a started worker sends to the bootstrap address, and in which order (src/bin/sim.rs, src/worker.rs). */
module StartUpOrder {
  import opened Sequences
  import opened PeerTypes
  import opened PeerMaps
  import opened Workers
  import opened Network
  import opened Termination
  import opened Paths
  import opened SimulatorReach

  /** All a worker ever sends to the bootstrap address: its Pong, then the answer that it found itself. */
  ghost function Both(boot: SocketAddr, a: SocketAddr, id: PeerId): seq<Packet> {
    [Packet(a, boot, Pong(id)), Packet(a, boot, PeerFound(id, a))]
  }

  /** What a letter in its inbox will lead to. */
  ghost function AnswerTo(a: SocketAddr, id: PeerId, l: Letter): Packet {
    Packet(a, l.src, if l.msg.Ping? then Pong(id) else PeerFound(id, a))
  }

  ghost function Expected(a: SocketAddr, n: Node): (q: seq<Packet>)
    ensures |q| == |n.inbox|
  {
    seq(|n.inbox|, i requires 0 <= i < |n.inbox| => AnswerTo(a, n.id, n.inbox[i]))
  }

  ghost function InboxPartIfStarted(s: Net, boot: SocketAddr, a: SocketAddr): seq<Packet> {
    if boot in s.nodes then InboxPart(s, a, boot) else []
  }

  /** Everything on its way from `a` to the bootstrap worker, next to arrive first, and behind it what `a` will
      still send. */
  ghost function Course(s: Net, boot: SocketAddr, a: SocketAddr): seq<Packet>
    requires a in s.nodes
  {
    InboxPartIfStarted(s, boot, a) + Between(a, boot, s.wire) + OutboxPart(s, a, boot) + Expected(a, s.nodes[a])
  }

  /** What the step takes off the course: a letter handled by the bootstrap worker, or a message dropped. */
  ghost function Leaves(s: Net, boot: SocketAddr, a: SocketAddr, step: Step): seq<Packet> {
    if step.Handle? then (if step.at == boot then TakenBy(s, step, a, boot) else [])
    else if step.Route? && s.wire != [] && boot !in s.registered then Only(a, boot, s.wire[0])
    else []
  }

  lemma HandleCourse(s: Net, boot: SocketAddr, at: SocketAddr, orders: Orders, a: SocketAddr)
    requires BootOk(s, boot) && Enabled(s, Handle(at, orders)) && a in s.nodes && a != boot
    ensures var s' := Apply(s, Handle(at, orders));
            a in s'.nodes && Leaves(s, boot, a, Handle(at, orders)) + Course(s', boot, a) == Course(s, boot, a)
  {
    hide Course, BootOk;
    if at == boot {
      BootHandlingCourse(s, boot, orders, a);
    } else {
      WorkerHandlingCourse(s, boot, at, orders, a);
      assert [] + Course(s, boot, a) == Course(s, boot, a);
    }
  }

  lemma BootHandlingCourse(s: Net, boot: SocketAddr, orders: Orders, a: SocketAddr)
    requires Enabled(s, Handle(boot, orders)) && a in s.nodes && a != boot
    ensures var s', step := Apply(s, Handle(boot, orders)), Handle(boot, orders);
            a in s'.nodes && TakenBy(s, step, a, boot) + Course(s', boot, a) == Course(s, boot, a)
  {
    hide InboxPart, Between, Expected, Replies;
    var s', step := Apply(s, Handle(boot, orders)), Handle(boot, orders);
    HandleTakes(s, boot, orders, a, boot);
    assert s'.nodes[a] == s.nodes[a];
    hide OutboxPart;
    Front(TakenBy(s, step, a, boot), InboxPart(s', a, boot), Between(a, boot, s.wire), OutboxPart(s, a, boot),
          Expected(a, s.nodes[a]));
  }

  lemma Front<T>(v: seq<T>, w: seq<T>, x: seq<T>, y: seq<T>, z: seq<T>)
    ensures v + (w + x + y + z) == (v + w) + x + y + z
  {}

  lemma WorkerHandlingCourse(s: Net, boot: SocketAddr, at: SocketAddr, orders: Orders, a: SocketAddr)
    requires BootOk(s, boot) && Enabled(s, Handle(at, orders)) && a in s.nodes && a != boot && at != boot
    ensures var s' := Apply(s, Handle(at, orders)); a in s'.nodes && Course(s', boot, a) == Course(s, boot, a)
  {
    hide Between, Expected, BootOk, Replies;
    var s' := Apply(s, Handle(at, orders));
    assert InboxPartIfStarted(s', boot, a) == InboxPartIfStarted(s, boot, a);
    if at == a {
      hide InboxPart, OutboxPart;
      OwnHandlingCourse(s, boot, orders, a);
      SameEnd(InboxPartIfStarted(s, boot, a) + Between(a, boot, s.wire), OutboxPart(s, a, boot),
              Expected(a, s.nodes[a]), OutboxPart(s', a, boot), Expected(a, s'.nodes[a]));
    } else {
      assert s'.nodes[a] == s.nodes[a];
    }
  }

  lemma SameEnd<T>(x: seq<T>, y: seq<T>, z: seq<T>, y': seq<T>, z': seq<T>)
    requires y + z == y' + z'
    ensures x + y + z == x + y' + z'
  {
    assert x + y + z == x + (y + z) && x + y' + z' == x + (y' + z');
  }

  /** A worker's own handling only moves an expected answer into the outbox. */
  lemma OwnHandlingCourse(s: Net, boot: SocketAddr, orders: Orders, a: SocketAddr)
    requires BootOk(s, boot) && Enabled(s, Handle(a, orders)) && a in s.nodes && a != boot
    ensures var s' := Apply(s, Handle(a, orders));
            && a in s'.nodes
            && OutboxPart(s, a, boot) + Expected(a, s.nodes[a]) == OutboxPart(s', a, boot) + Expected(a, s'.nodes[a])
  {
    assert NodeOk(s, boot, a);
    hide BootOk, NodeOk, OutboxPart, Between;
    var n, s' := s.nodes[a], Apply(s, Handle(a, orders));
    HandleAppends(s, a, orders, a, boot);
    var e := RequestAnswered(s, boot, a, orders);
    OneAnswer(a, boot, Answer(e, n.id, a));
    ExpectedHead(a, n, s'.nodes[a]);
    var out, answer := OutboxPart(s, a, boot), [Packet(a, boot, Answer(e, n.id, a))];
    assert out + (answer + Expected(a, s'.nodes[a])) == (out + answer) + Expected(a, s'.nodes[a]);
  }

  lemma OneAnswer(a: SocketAddr, boot: SocketAddr, msg: Message)
    ensures Between(a, boot, OutPackets(a, [Outgoing(boot, msg)])) == [Packet(a, boot, msg)]
  {
    var q := OutPackets(a, [Outgoing(boot, msg)]);
    assert q == [Packet(a, boot, msg)] && q[..0] == [];
  }

  lemma ExpectedHead(a: SocketAddr, n: Node, m: Node)
    requires n.inbox != [] && m.id == n.id && m.inbox == n.inbox[1..]
    ensures Expected(a, n) == [AnswerTo(a, n.id, n.inbox[0])] + Expected(a, m)
  {}

  lemma CollectCourse(s: Net, boot: SocketAddr, at: SocketAddr, a: SocketAddr)
    requires Enabled(s, Collect(at)) && a in s.nodes
    ensures var s' := Apply(s, Collect(at)); a in s'.nodes && Course(s', boot, a) == Course(s, boot, a)
  {
    var s', p := Apply(s, Collect(at)), Packet(at, s.nodes[at].outbox[0].dest, s.nodes[at].outbox[0].msg);
    OutboxGivesUp(s, at, a, boot);
    assert s'.wire == s.wire + [p] && [p][..0] == [];
    BetweenConcat(a, boot, s.wire, [p]);
    assert Expected(a, s'.nodes[a]) == Expected(a, s.nodes[a]);
    hide InboxPart, OutboxPart, Between;
    Regroup(InboxPartIfStarted(s, boot, a), Between(a, boot, s.wire), Only(a, boot, p), OutboxPart(s', a, boot));
  }

  lemma RouteCourse(s: Net, boot: SocketAddr, a: SocketAddr)
    requires BootOk(s, boot) && s.wire != [] && a in s.nodes && a != boot
    ensures var s' := RouteFirst(s);
            a in s'.nodes && Leaves(s, boot, a, Route) + Course(s', boot, a) == Course(s, boot, a)
  {
    hide Course, BootOk;
    if boot in s.registered {
      DeliverCourse(s, boot, a);
      assert [] + Course(s, boot, a) == Course(s, boot, a);
    } else {
      DropCourse(s, boot, a);
    }
  }

  lemma DeliverCourse(s: Net, boot: SocketAddr, a: SocketAddr)
    requires BootOk(s, boot) && s.wire != [] && boot in s.registered && a in s.nodes && a != boot
    ensures a in RouteFirst(s).nodes && Course(RouteFirst(s), boot, a) == Course(s, boot, a)
  {
    BetweenHead(a, boot, s.wire);
    DeliveryExtends(s, a, boot);
    assert RouteFirst(s).nodes[a] == s.nodes[a];
    hide InboxPart, OutboxPart, Between, Expected, BootOk;
    Regroup(InboxPart(s, a, boot), Only(a, boot, s.wire[0]), Between(a, boot, s.wire[1..]), OutboxPart(s, a, boot));
  }

  lemma DropCourse(s: Net, boot: SocketAddr, a: SocketAddr)
    requires BootOk(s, boot) && s.wire != [] && boot !in s.registered && a in s.nodes && a != boot
    ensures a in RouteFirst(s).nodes
    ensures Only(a, boot, s.wire[0]) + Course(RouteFirst(s), boot, a) == Course(s, boot, a)
  {
    BetweenHead(a, boot, s.wire);
    NoneBefore(s, boot, a);
    assert RouteFirst(s).nodes == s.nodes;
    hide InboxPart, OutboxPart, Between, Expected, BootOk;
    var p, w, o, x := Only(a, boot, s.wire[0]), Between(a, boot, s.wire[1..]), OutboxPart(s, a, boot),
                      Expected(a, s.nodes[a]);
    assert p + ([] + w + o + x) == [] + (p + w) + o + x;
  }

  /** Before the bootstrap worker is registered, or `a` started, it has no letters from `a`. */
  lemma NoneBefore(s: Net, boot: SocketAddr, a: SocketAddr)
    requires BootOk(s, boot) && (boot !in s.registered || a !in s.nodes) && a != boot
    ensures InboxPartIfStarted(s, boot, a) == []
  {
    if boot in s.nodes {
      assert NodeOk(s, boot, boot);
      var q := InPackets(boot, s.nodes[boot].inbox);
      forall i | 0 <= i < |q| ensures q[i].src != a { assert InboxOk(s, boot, boot, s.nodes[boot].inbox[i]); }
      NoneBetween(a, boot, q);
    }
  }

  lemma {:induction false} NoneBetween(a: SocketAddr, b: SocketAddr, q: seq<Packet>)
    requires forall i :: 0 <= i < |q| ==> q[i].src != a
    ensures Between(a, b, q) == []
  {
    if q == [] {
    } else {
      NoneBetween(a, b, q[..|q| - 1]);
    }
  }

  lemma OtherCourse(s: Net, boot: SocketAddr, step: Step, a: SocketAddr)
    requires BootOk(s, boot) && Enabled(s, step) && BootStep(boot, step) && a in s.nodes && a != boot
    requires step.Spawn? || step.Register?
    ensures a in Apply(s, step).nodes && Course(Apply(s, step), boot, a) == Course(s, boot, a)
  {
    var s' := Apply(s, step);
    StepKeepsBootOk(s, boot, step);
    if step.Spawn? && step.addr == boot {
      assert boot !in s.registered;
      NoneBefore(s', boot, a);
    }
  }

  lemma StepCourse(s: Net, boot: SocketAddr, step: Step, a: SocketAddr)
    requires BootOk(s, boot) && Enabled(s, step) && BootStep(boot, step) && a in s.nodes && a != boot
    ensures var s' := Apply(s, step);
            a in s'.nodes && Leaves(s, boot, a, step) + Course(s', boot, a) == Course(s, boot, a)
  {
    match step
    case Handle(at, orders) => HandleCourse(s, boot, at, orders, a);
    case Collect(at) => CollectCourse(s, boot, at, a);
    case Route => RouteCourse(s, boot, a);
    case _ => OtherCourse(s, boot, step, a);
  }

  /** A worker that starts has both still to send. */
  lemma SpawnCourse(s: Net, boot: SocketAddr, a: SocketAddr, id: PeerId)
    requires BootOk(s, boot) && a !in s.nodes && a != boot
    ensures Course(Apply(s, Spawn(a, id, Some(boot))), boot, a) == Both(boot, a, id)
  {
    var s' := Apply(s, Spawn(a, id, Some(boot)));
    NoneBetween(a, boot, s.wire);
    NoneBefore(s, boot, a);
    assert InboxPartIfStarted(s', boot, a) == InboxPartIfStarted(s, boot, a);
    hide BootOk, InboxPart;
    assert OutboxPart(s', a, boot) == [];
    assert Expected(a, s'.nodes[a]) == Both(boot, a, id);
  }

  /** How many of the two have been handled or dropped. */
  ghost function Gone(boot: SocketAddr, steps: seq<Step>, a: SocketAddr): nat
    requires IsRun(EMPTY, steps)
  {
    Handled(boot, steps, a, Greeting) + Dropped(boot, steps, a, Greeting) +
    Handled(boot, steps, a, Lookup) + Dropped(boot, steps, a, Lookup)
  }

  ghost function GoneBy(s: Net, boot: SocketAddr, a: SocketAddr, step: Step): nat {
    One(HandlesReport(s, boot, a, Greeting, step)) + One(DropsReport(s, boot, a, Greeting, step)) +
    One(HandlesReport(s, boot, a, Lookup, step)) + One(DropsReport(s, boot, a, Lookup, step))
  }

  /** Whatever leaves the course is one of the two. */
  lemma LeavingCounts(s: Net, boot: SocketAddr, step: Step, a: SocketAddr)
    requires Enabled(s, step) && a in s.nodes
    requires forall p :: p in Leaves(s, boot, a, step) ==> p in Both(boot, a, s.nodes[a].id)
    ensures |Leaves(s, boot, a, step)| == GoneBy(s, boot, a, step)
  {
    var leaves := Leaves(s, boot, a, step);
    if leaves != [] { assert leaves[0] in Both(boot, a, s.nodes[a].id); }
  }

  lemma DropMore<T>(both: seq<T>, gone: nat, head: seq<T>, rest: seq<T>)
    requires gone <= |both| && head + rest == Drop(both, gone)
    ensures gone + |head| <= |both| && rest == Drop(both, gone + |head|)
    ensures forall x :: x in head ==> x in both
  {
    assert head + rest == both[gone..];
    assert rest == (head + rest)[|head|..];
    forall x | x in head ensures x in both {
      assert x in head + rest;
    }
  }

  /** In every state what is on its way or still to be sent is the rest of the two, in order: the found answer is
      behind the Pong, and neither is lost, repeated or overtaken but for those handled or dropped. */
  lemma {:induction false} ReportsInOrder(boot: SocketAddr, steps: seq<Step>, a: SocketAddr)
    requires BootRun(boot, steps) && a != boot && a in Final(EMPTY, steps).nodes
    ensures var s := Final(EMPTY, steps);
            Gone(boot, steps, a) <= 2 && Course(s, boot, a) == Drop(Both(boot, a, s.nodes[a].id), Gone(boot, steps, a))
  {
    hide Course, Both, Leaves, HandlesReport, DropsReport;
    var front, step := steps[..|steps| - 1], steps[|steps| - 1];
    var s := Final(EMPTY, front);
    BootRunOk(boot, front);
    StepKeepsIds(s, step);
    assert Gone(boot, steps, a) == Gone(boot, front, a) + GoneBy(s, boot, a, step);
    if a in s.nodes {
      ReportsInOrder(boot, front, a);
      StepCourse(s, boot, step, a);
      BothSize(boot, a, s.nodes[a].id);
      DropMore(Both(boot, a, s.nodes[a].id), Gone(boot, front, a), Leaves(s, boot, a, step),
               Course(Final(EMPTY, steps), boot, a));
      LeavingCounts(s, boot, step, a);
    } else {
      NoReportYet(boot, front, a, Greeting);
      NoReportYet(boot, front, a, Lookup);
      SpawnCourse(s, boot, a, step.id);
      NotGoneYet(s, boot, step, a);
    }
  }

  lemma BothSize(boot: SocketAddr, a: SocketAddr, id: PeerId)
    ensures |Both(boot, a, id)| == 2
  {}

  lemma NotGoneYet(s: Net, boot: SocketAddr, step: Step, a: SocketAddr)
    requires a !in s.nodes
    ensures GoneBy(s, boot, a, step) == 0
  {}
}
