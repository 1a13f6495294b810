/** A Ping that was handled makes the two peers know each other by the time the network is at rest. */
module Knowledge {
  import opened PeerTypes
  import opened PeerMaps
  import opened Workers
  import opened Network
  import opened Termination
  import opened AddressBinding

  /** `msg` is somewhere on the way from `a` to `b`, not yet collected or honestly routed. */
  ghost predicate InTransit(s: Net, a: SocketAddr, b: SocketAddr, msg: Message) {
    || (a in s.nodes && Outgoing(b, msg) in s.nodes[a].outbox)
    || (a in s.registered && Packet(a, b, msg) in s.wire)
    || (a in s.registered && b in s.nodes && Letter(a, msg) in s.nodes[b].inbox)
  }

  /** The next letter at `b` is `msg` from `a`. */
  ghost predicate AtHead(s: Net, a: SocketAddr, b: SocketAddr, msg: Message) {
    b in s.nodes && s.nodes[b].inbox != [] && s.nodes[b].inbox[0] == Letter(a, msg)
  }

  lemma HeadOrTail<T>(q: seq<T>, x: T)
    requires x in q
    ensures q != [] && (x == q[0] || x in q[1..])
  {}

  /** A message to a registered peer stays in transit until that peer handles it. */
  lemma TransitStep(s: Net, step: Step, a: SocketAddr, b: SocketAddr, msg: Message)
    requires RouterOk(s) && Enabled(s, step) && b in s.registered && InTransit(s, a, b, msg)
    ensures InTransit(Apply(s, step), a, b, msg)
            || (step.Handle? && step.at == b && AtHead(s, a, b, msg) && a in s.registered)
  {}

  /** The two halves of what B's handling of A's Ping sets in motion. */
  ghost predicate TowardsA(s: Net, a: SocketAddr, b: SocketAddr)
    requires a in s.nodes && b in s.nodes
  {
    Knows(s, a, s.nodes[b].id) || InTransit(s, b, a, Pong(s.nodes[b].id))
  }

  ghost predicate TowardsB(s: Net, a: SocketAddr, b: SocketAddr)
    requires a in s.nodes && b in s.nodes
  {
    || Knows(s, b, s.nodes[a].id)
    || (b in s.registered && InTransit(s, a, b, Pong(s.nodes[a].id)))
    || InTransit(s, b, a, Ping(s.nodes[b].id))
  }

  ghost predicate Acquainting(s: Net, a: SocketAddr, b: SocketAddr) {
    a in s.registered && a in s.nodes && b in s.nodes && TowardsA(s, a, b) && TowardsB(s, a, b)
  }

  /** Workers stay, keep their ids, and forget nothing. */
  lemma StepKeepsNodes(s: Net, step: Step, a: SocketAddr)
    requires Enabled(s, step) && a in s.nodes
    ensures a in Apply(s, step).nodes && Apply(s, step).nodes[a].id == s.nodes[a].id
    ensures s.nodes[a].known.Keys <= Apply(s, step).nodes[a].known.Keys
    ensures s.registered <= Apply(s, step).registered
  {}

  lemma StepKeepsTowardsA(s: Net, step: Step, a: SocketAddr, b: SocketAddr)
    requires RouterOk(s) && Enabled(s, step) && Acquainting(s, a, b)
    ensures a in Apply(s, step).nodes && b in Apply(s, step).nodes
    ensures TowardsA(Apply(s, step), a, b)
  {
    StepKeepsNodes(s, step, a);
    StepKeepsNodes(s, step, b);
    if !Knows(s, a, s.nodes[b].id) { TransitStep(s, step, b, a, Pong(s.nodes[b].id)); }
  }

  /** Handling a Ping puts the Pong, and for an unknown id the ping-back, in the outbox. */
  lemma PingIsAnswered(s: Net, at: SocketAddr, orders: Orders, src: SocketAddr, id: PeerId)
    requires Enabled(s, Handle(at, orders)) && AtHead(s, src, at, Ping(id))
    ensures var s', self := Apply(s, Handle(at, orders)), s.nodes[at].id;
            && InTransit(s', at, src, Pong(self))
            && (Knows(s', at, id) || InTransit(s', at, src, Ping(self)))
  {}

  lemma StepKeepsTowardsB(s: Net, step: Step, a: SocketAddr, b: SocketAddr)
    requires RouterOk(s) && Enabled(s, step) && Acquainting(s, a, b)
    ensures a in Apply(s, step).nodes && b in Apply(s, step).nodes
    ensures TowardsB(Apply(s, step), a, b)
  {
    StepKeepsNodes(s, step, a);
    StepKeepsNodes(s, step, b);
    var pong, ping := Pong(s.nodes[a].id), Ping(s.nodes[b].id);
    if Knows(s, b, s.nodes[a].id) {
    } else if b in s.registered && InTransit(s, a, b, pong) {
      TransitStep(s, step, a, b, pong);
    } else {
      TransitStep(s, step, b, a, ping);
      if step.Handle? && step.at == a && AtHead(s, b, a, ping) {
        PingIsAnswered(s, a, step.orders, b, s.nodes[b].id);
      }
    }
  }

  lemma StepKeepsAcquainting(s: Net, step: Step, a: SocketAddr, b: SocketAddr)
    requires RouterOk(s) && Enabled(s, step) && Acquainting(s, a, b)
    ensures Acquainting(Apply(s, step), a, b)
  {
    StepKeepsNodes(s, step, a);
    StepKeepsTowardsA(s, step, a, b);
    StepKeepsTowardsB(s, step, a, b);
  }

  /** Step `i` of the run is B handling a Ping from A, registered and named truthfully. */
  ghost predicate HandlesHonestPing(s: Net, steps: seq<Step>, i: nat, a: SocketAddr, b: SocketAddr)
    requires IsRun(s, steps) && i < |steps|
  {
    RunPrefix(s, steps, i);
    var before := Final(s, steps[..i]);
    && steps[i].Handle? && steps[i].at == b
    && a in before.registered && a in before.nodes
    && AtHead(before, a, b, Ping(before.nodes[a].id))
  }

  lemma {:induction false} HandledPingAcquaints(s: Net, steps: seq<Step>, i: nat, a: SocketAddr, b: SocketAddr)
    requires RouterOk(s) && IsRun(s, steps) && i < |steps| && HandlesHonestPing(s, steps, i, a, b)
    ensures Acquainting(Final(s, steps), a, b)
    decreases |steps|
  {
    var n := |steps| - 1;
    var front, step := steps[..n], steps[n];
    RunKeepsRouterOk(s, front);
    if i == n {
      var before := Final(s, front);
      PingIsAnswered(before, b, step.orders, a, before.nodes[a].id);
      StepKeepsNodes(before, step, a);
      StepKeepsNodes(before, step, b);
    } else {
      assert front[..i] == steps[..i];
      HandledPingAcquaints(s, front, i, a, b);
      StepKeepsAcquainting(Final(s, front), step, a, b);
    }
  }

  /** Mutual knowledge: once B has handled a truthful Ping from a registered A, then at any later rest
      A knows B's id and B knows A's, whatever else happened in between. */
  lemma MutualKnowledge(steps: seq<Step>, i: nat, a: SocketAddr, b: SocketAddr)
    requires IsRun(EMPTY, steps) && i < |steps| && HandlesHonestPing(EMPTY, steps, i, a, b)
    requires Quiescent(Final(EMPTY, steps))
    ensures var end := Final(EMPTY, steps);
            a in end.nodes && b in end.nodes && Knows(end, a, end.nodes[b].id) && Knows(end, b, end.nodes[a].id)
  {
    HandledPingAcquaints(EMPTY, steps, i, a, b);
  }

  /** If moreover every injected Pong was truthful and ids are distinct, they can also reach each other:
      each holds the other's id under the other's true address. */
  lemma MutualContact(steps: seq<Step>, i: nat, a: SocketAddr, b: SocketAddr)
    requires IsRun(EMPTY, steps) && i < |steps| && HandlesHonestPing(EMPTY, steps, i, a, b)
    requires Quiescent(Final(EMPTY, steps)) && HonestRun(false, steps) && DistinctNodeIds(Final(EMPTY, steps))
    ensures var end := Final(EMPTY, steps);
            && a in end.nodes && b in end.nodes
            && Knows(end, a, end.nodes[b].id) && end.nodes[a].known[end.nodes[b].id] == b
            && Knows(end, b, end.nodes[a].id) && end.nodes[b].known[end.nodes[a].id] == a
  {
    MutualKnowledge(steps, i, a, b);
    AddressesAreTrueIff(false, steps);
    var end := Final(EMPTY, steps);
    assert NodeSound(end, false, a, end.nodes[a]) && NodeSound(end, false, b, end.nodes[b]);
  }

  // ---- From a Ping to acquaintance ----

  /** A's truthful Ping waits in B's inbox, or has already set things in motion. */
  ghost predicate Awaiting(s: Net, a: SocketAddr, b: SocketAddr) {
    && a in s.registered && a in s.nodes && b in s.nodes
    && (Letter(a, Ping(s.nodes[a].id)) in s.nodes[b].inbox || Acquainting(s, a, b))
  }

  lemma StepKeepsAwaiting(s: Net, step: Step, a: SocketAddr, b: SocketAddr)
    requires RouterOk(s) && Enabled(s, step) && Awaiting(s, a, b)
    ensures Awaiting(Apply(s, step), a, b)
  {
    StepKeepsNodes(s, step, a);
    StepKeepsNodes(s, step, b);
    if Acquainting(s, a, b) {
      StepKeepsAcquainting(s, step, a, b);
    } else if step.Handle? && step.at == b {
      HeadOrTail(s.nodes[b].inbox, Letter(a, Ping(s.nodes[a].id)));
      if AtHead(s, a, b, Ping(s.nodes[a].id)) {
        PingIsAnswered(s, b, step.orders, a, s.nodes[a].id);
      }
    }
  }

  lemma {:induction false} RunKeepsAwaiting(s: Net, steps: seq<Step>, a: SocketAddr, b: SocketAddr)
    requires RouterOk(s) && IsRun(s, steps) && Awaiting(s, a, b)
    ensures Awaiting(Final(s, steps), a, b)
  {
    if steps == [] {
    } else {
      var front := steps[..|steps| - 1];
      RunKeepsAwaiting(s, front, a, b);
      RunKeepsRouterOk(s, front);
      StepKeepsAwaiting(Final(s, front), steps[|steps| - 1], a, b);
    }
  }

  /** One truthful Ping, delivered in any state with all workers registered, connects its two ends: the
      network comes to rest within a bounded number of steps, and when it does, they know each other. */
  lemma PingConnects(s: Net, a: SocketAddr, b: SocketAddr, work: seq<Step>)
    requires RouterOk(s) && s.registered == s.nodes.Keys && a in s.nodes && b in s.nodes
    requires IsRun(Apply(s, Inject(b, a, Ping(s.nodes[a].id))), work)
    requires forall i :: 0 <= i < |work| ==> IsWork(work[i])
    ensures |work| <= Potential(s) + 30
    ensures var end := Final(Apply(s, Inject(b, a, Ping(s.nodes[a].id))), work);
            (forall step :: IsWork(step) ==> !Enabled(end, step)) ==>
              && Quiescent(end) && a in end.nodes && b in end.nodes
              && Knows(end, a, end.nodes[b].id) && Knows(end, b, end.nodes[a].id)
  {
    var step := Inject(b, a, Ping(s.nodes[a].id));
    StepKeepsRouterOk(s, step);
    InjectRaises(s, b, a, Ping(s.nodes[a].id));
    NetworkTerminates(Apply(s, step), work);
    InjectedPingAwaits(s, a, b);
    RunKeepsAwaiting(Apply(s, step), work, a, b);
    AwaitingAtRest(Final(Apply(s, step), work), a, b);
  }

  lemma InjectedPingAwaits(s: Net, a: SocketAddr, b: SocketAddr)
    requires a in s.registered && a in s.nodes && b in s.nodes
    ensures Awaiting(Apply(s, Inject(b, a, Ping(s.nodes[a].id))), a, b)
  {
    var l := Letter(a, Ping(s.nodes[a].id));
    assert Apply(s, Inject(b, a, l.msg)).nodes[b].inbox[|s.nodes[b].inbox|] == l;
  }

  lemma AwaitingAtRest(s: Net, a: SocketAddr, b: SocketAddr)
    requires Awaiting(s, a, b)
    ensures Quiescent(s) ==> Knows(s, a, s.nodes[b].id) && Knows(s, b, s.nodes[a].id)
  {}
}
