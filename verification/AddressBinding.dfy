/** Addresses in maps and in answers are true: they belong to a worker with the id they are given for. */
module AddressBinding {
  import opened PeerTypes
  import opened PeerMaps
  import opened Workers
  import opened Network

  /** The worker at `addr` has this id. */
  ghost predicate Bound(s: Net, id: PeerId, addr: SocketAddr) {
    addr in s.nodes && s.nodes[addr].id == id
  }

  /** What a message from `src` claims about addresses is true. Responses teach nothing, so they are judged
      only if `responses` asks for it. */
  ghost predicate Truthful(s: Net, responses: bool, src: SocketAddr, msg: Message) {
    match msg
    case Pong(id) => Bound(s, id, src)
    case PeerFound(id, addr) => responses ==> Bound(s, id, addr)
    case PeerNotFound(_, neighbors) =>
      responses ==> forall i :: 0 <= i < |neighbors| ==> Bound(s, neighbors[i].peerId, neighbors[i].address)
    case _ => true
  }

  ghost predicate NodeSound(s: Net, responses: bool, a: SocketAddr, n: Node) {
    && (forall id :: id in n.known ==> Bound(s, id, n.known[id]))
    && (forall i :: 0 <= i < |n.inbox| ==> Truthful(s, responses, n.inbox[i].src, n.inbox[i].msg))
    && (forall i :: 0 <= i < |n.outbox| ==> Truthful(s, responses, a, n.outbox[i].msg))
  }

  /** Every map is true, and so is every message underway. */
  ghost predicate Sound(s: Net, responses: bool) {
    && (forall a :: a in s.nodes ==> NodeSound(s, responses, a, s.nodes[a]))
    && (forall i :: 0 <= i < |s.wire| ==> Truthful(s, responses, s.wire[i].src, s.wire[i].msg))
  }

  /** Bindings survive: workers stay and keep their ids. */
  ghost predicate KeepsIds(s: Net, s': Net) {
    forall a :: a in s.nodes ==> a in s'.nodes && s'.nodes[a].id == s.nodes[a].id
  }

  lemma NodeSoundKept(s: Net, s': Net, responses: bool, a: SocketAddr, n: Node)
    requires KeepsIds(s, s') && NodeSound(s, responses, a, n)
    ensures NodeSound(s', responses, a, n)
  {}

  /** Every answer a sound node gives is truthful. */
  lemma RepliesTruthful(s: Net, responses: bool, a: SocketAddr, src: SocketAddr, msg: Message, orders: Orders)
    requires a in s.nodes && NodeSound(s, responses, a, s.nodes[a])
    requires IsOrder(orders, BucketsOf(s.nodes[a].id, s.nodes[a].known))
    ensures var n := s.nodes[a];
            var r := Replies(n.id, n.known, src, msg, orders);
            forall i :: 0 <= i < |r| ==> Truthful(s, responses, a, r[i].msg)
  {
    var n := s.nodes[a];
    if msg.FindPeer? && msg.id !in n.known {
      var rank := DistanceRank(n.id, msg.id);
      var found := SearchResult(orders, rank, BUCKET_SIZE);
      forall i | 0 <= i < |found| ensures Bound(s, found[i].peerId, found[i].address) {
        SearchSound(n.id, n.known, orders, rank, BUCKET_SIZE, found[i]);
      }
    }
  }

  lemma HandleKeepsSound(s: Net, responses: bool, at: SocketAddr, orders: Orders)
    requires Sound(s, responses) && Enabled(s, Handle(at, orders))
    ensures Sound(Apply(s, Handle(at, orders)), responses)
  {
    var s' := Apply(s, Handle(at, orders));
    var n := s.nodes[at];
    assert NodeSound(s, responses, at, n);
    RepliesTruthful(s, responses, at, n.inbox[0].src, n.inbox[0].msg, orders);
    assert Truthful(s, responses, n.inbox[0].src, n.inbox[0].msg);
    assert KeepsIds(s, s');
    assert NodeSound(s, responses, at, s'.nodes[at]);
    forall a | a in s'.nodes ensures NodeSound(s', responses, a, s'.nodes[a]) {
      NodeSoundKept(s, s', responses, a, s'.nodes[a]);
    }
  }

  /** An injected message keeps the network sound exactly when it is truthful; Pings and FindPeers always are. */
  lemma InjectKeepsSoundIff(s: Net, responses: bool, at: SocketAddr, src: SocketAddr, msg: Message)
    requires Sound(s, responses) && at in s.nodes
    ensures Sound(Apply(s, Inject(at, src, msg)), responses) <==> Truthful(s, responses, src, msg)
    ensures msg.Ping? || msg.FindPeer? ==> Truthful(s, responses, src, msg)
  {
    var s', n := Apply(s, Inject(at, src, msg)), s.nodes[at];
    assert KeepsIds(s, s') && KeepsIds(s', s);
    if Truthful(s, responses, src, msg) {
      assert NodeSound(s, responses, at, s'.nodes[at]);
      forall a | a in s'.nodes ensures NodeSound(s', responses, a, s'.nodes[a]) {
        NodeSoundKept(s, s', responses, a, s'.nodes[a]);
      }
    }
    if Sound(s', responses) {
      assert NodeSound(s', responses, at, s'.nodes[at]);
      assert s'.nodes[at].inbox[|n.inbox|] == Letter(src, msg);
    }
  }

  /** Without that restriction the map itself goes wrong: a forged Pong is believed as soon as it is handled. */
  lemma ForgedPongIsBelieved(s: Net, responses: bool, at: SocketAddr, src: SocketAddr, id: PeerId, orders: Orders)
    requires at in s.nodes && s.nodes[at].inbox == [] && !Bound(s, id, src)
    requires IsOrder(orders, BucketsOf(s.nodes[at].id, s.nodes[at].known))
    ensures Enabled(Apply(s, Inject(at, src, Pong(id))), Handle(at, orders))
    ensures var s' := Apply(Apply(s, Inject(at, src, Pong(id))), Handle(at, orders));
            id in s'.nodes[at].known && s'.nodes[at].known[id] == src && !Bound(s', id, src) && !Sound(s', responses)
  {}

  lemma StepKeepsSound(s: Net, responses: bool, step: Step)
    requires Sound(s, responses) && Enabled(s, step) && !step.Inject?
    ensures Sound(Apply(s, step), responses)
  {
    var s' := Apply(s, step);
    match step
    case Handle(at, orders) => HandleKeepsSound(s, responses, at, orders);
    case Spawn(addr, id, bootstrap) => SpawnKeepsSound(s, responses, addr, id, bootstrap);
    case Register(_) =>
      forall a | a in s'.nodes ensures NodeSound(s', responses, a, s'.nodes[a]) {
        NodeSoundKept(s, s', responses, a, s'.nodes[a]);
      }
    case Collect(_) => RouterKeepsSound(s, responses, step);
    case Route => RouterKeepsSound(s, responses, step);
  }

  lemma SpawnKeepsSound(s: Net, responses: bool, addr: SocketAddr, id: PeerId, bootstrap: Option<SocketAddr>)
    requires Sound(s, responses) && addr !in s.nodes
    ensures Sound(Apply(s, Spawn(addr, id, bootstrap)), responses)
  {
    var s' := Apply(s, Spawn(addr, id, bootstrap));
    assert KeepsIds(s, s');
    forall a | a in s'.nodes ensures NodeSound(s', responses, a, s'.nodes[a]) {
      if a in s.nodes { NodeSoundKept(s, s', responses, a, s'.nodes[a]); }
    }
  }

  lemma RouterKeepsSound(s: Net, responses: bool, step: Step)
    requires Sound(s, responses) && Enabled(s, step) && (step.Collect? || step.Route?)
    ensures Sound(Apply(s, step), responses)
  {
    var s' := Apply(s, step);
    assert KeepsIds(s, s');
    forall a | a in s'.nodes ensures NodeSound(s', responses, a, s'.nodes[a]) {
      RoutedNodeSound(s, responses, step, a);
      NodeSoundKept(s, s', responses, a, s'.nodes[a]);
    }
  }

  lemma RoutedNodeSound(s: Net, responses: bool, step: Step, a: SocketAddr)
    requires Sound(s, responses) && Enabled(s, step) && (step.Collect? || step.Route?) && a in s.nodes
    ensures a in Apply(s, step).nodes && NodeSound(s, responses, a, Apply(s, step).nodes[a])
  {
    assert NodeSound(s, responses, a, s.nodes[a]);
  }

  /** Every message injected in the run is truthful at that moment. */
  ghost predicate HonestRun(responses: bool, steps: seq<Step>)
    requires IsRun(EMPTY, steps)
  {
    steps == [] ||
    var front, last := steps[..|steps| - 1], steps[|steps| - 1];
    && HonestRun(responses, front)
    && (last.Inject? ==> Truthful(Final(EMPTY, front), responses, last.src, last.msg))
  }

  ghost predicate SoundThroughout(responses: bool, steps: seq<Step>)
    requires IsRun(EMPTY, steps)
  {
    Sound(Final(EMPTY, steps), responses) &&
    (steps == [] || SoundThroughout(responses, steps[..|steps| - 1]))
  }

  /** Addresses in maps and messages underway are true in every state of a run exactly when every injected
      message is truthful; if responses are not judged, exactly when every injected Pong is. */
  lemma {:induction false} AddressesAreTrueIff(responses: bool, steps: seq<Step>)
    requires IsRun(EMPTY, steps)
    ensures SoundThroughout(responses, steps) <==> HonestRun(responses, steps)
  {
    if steps == [] {
    } else {
      var front, last := steps[..|steps| - 1], steps[|steps| - 1];
      AddressesAreTrueIff(responses, front);
      if SoundThroughout(responses, front) {
        var s := Final(EMPTY, front);
        if last.Inject? {
          InjectKeepsSoundIff(s, responses, last.at, last.src, last.msg);
        } else {
          StepKeepsSound(s, responses, last);
        }
      }
    }
  }

  /** Pings and FindPeers can be injected freely, whatever they claim. */
  lemma {:induction false} RequestsAreHonest(responses: bool, steps: seq<Step>)
    requires IsRun(EMPTY, steps)
    requires forall i :: 0 <= i < |steps| && steps[i].Inject? ==> steps[i].msg.Ping? || steps[i].msg.FindPeer?
    ensures HonestRun(responses, steps)
  {
    if steps == [] {
    } else {
      RequestsAreHonest(responses, steps[..|steps| - 1]);
    }
  }

  // ---- The maps alone ----

  ghost predicate MapsTrue(s: Net) {
    forall a :: a in s.nodes ==> forall id :: id in s.nodes[a].known ==> Bound(s, id, s.nodes[a].known[id])
  }

  /** If the step handles a Pong, then that Pong is true. */
  ghost predicate HandlesTruth(s: Net, step: Step)
    requires Enabled(s, step)
  {
    step.Handle? ==>
      var l := s.nodes[step.at].inbox[0];
      l.msg.Pong? ==> Bound(s, l.msg.id, l.src)
  }

  lemma StepKeepsMapsTrueIff(s: Net, step: Step)
    requires MapsTrue(s) && Enabled(s, step)
    ensures MapsTrue(Apply(s, step)) <==> HandlesTruth(s, step)
  {
    var s' := Apply(s, step);
    assert KeepsIds(s, s');
    if step.Handle? {
      var n, l := s.nodes[step.at], s.nodes[step.at].inbox[0];
      assert s'.nodes[step.at].known == if l.msg.Pong? then n.known[l.msg.id := l.src] else n.known;
      assert KeepsIds(s', s);
      if MapsTrue(s') && l.msg.Pong? {
        assert l.msg.id in s'.nodes[step.at].known && s'.nodes[step.at].known[l.msg.id] == l.src;
      }
    }
  }

  ghost predicate MapsTrueThroughout(steps: seq<Step>)
    requires IsRun(EMPTY, steps)
  {
    MapsTrue(Final(EMPTY, steps)) && (steps == [] || MapsTrueThroughout(steps[..|steps| - 1]))
  }

  ghost predicate OnlyTruthHandled(steps: seq<Step>)
    requires IsRun(EMPTY, steps)
  {
    steps == [] ||
    var front, last := steps[..|steps| - 1], steps[|steps| - 1];
    OnlyTruthHandled(front) && HandlesTruth(Final(EMPTY, front), last)
  }

  /** The maps are true in every state of a run exactly when every Pong is true at the moment it is handled. */
  lemma {:induction false} MapsAreTrueIff(steps: seq<Step>)
    requires IsRun(EMPTY, steps)
    ensures MapsTrueThroughout(steps) <==> OnlyTruthHandled(steps)
  {
    if steps == [] {
    } else {
      var front, last := steps[..|steps| - 1], steps[|steps| - 1];
      MapsAreTrueIff(front);
      if MapsTrueThroughout(front) { StepKeepsMapsTrueIff(Final(EMPTY, front), last); }
    }
  }
}
