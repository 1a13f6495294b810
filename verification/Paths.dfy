/** The router keeps the order of messages between two workers, and loses none to a registered one (src/bin/sim.rs). */
module Paths {
  import opened PeerTypes
  import opened PeerMaps
  import opened Workers
  import opened Network
  import opened Termination

  /** The packets from `a` to `b`, in order. */
  ghost function Between(a: SocketAddr, b: SocketAddr, q: seq<Packet>): seq<Packet> {
    if q == [] then []
    else
      var last := q[|q| - 1];
      Between(a, b, q[..|q| - 1]) + if last.src == a && last.dst == b then [last] else []
  }

  lemma {:induction false} BetweenConcat(a: SocketAddr, b: SocketAddr, q: seq<Packet>, r: seq<Packet>)
    ensures Between(a, b, q + r) == Between(a, b, q) + Between(a, b, r)
    decreases |r|
  {
    if r == [] {
      assert q + r == q;
    } else {
      assert (q + r)[..|q + r| - 1] == q + r[..|r| - 1];
      BetweenConcat(a, b, q, r[..|r| - 1]);
    }
  }

  lemma BetweenHead(a: SocketAddr, b: SocketAddr, q: seq<Packet>)
    requires q != []
    ensures Between(a, b, q) == (if q[0].src == a && q[0].dst == b then [q[0]] else []) + Between(a, b, q[1..])
  {
    assert q == [q[0]] + q[1..] && [q[0]][..0] == [];
    BetweenConcat(a, b, [q[0]], q[1..]);
  }

  ghost function InboxPart(s: Net, a: SocketAddr, b: SocketAddr): seq<Packet>
    requires b in s.nodes
  {
    Between(a, b, InPackets(b, s.nodes[b].inbox))
  }

  ghost function OutboxPart(s: Net, a: SocketAddr, b: SocketAddr): seq<Packet>
    requires a in s.nodes
  {
    Between(a, b, OutPackets(a, s.nodes[a].outbox))
  }

  /** Everything underway from `a` to `b`, next to be handled first. */
  ghost function Path(s: Net, a: SocketAddr, b: SocketAddr): seq<Packet>
    requires a in s.nodes && b in s.nodes
  {
    InboxPart(s, a, b) + Between(a, b, s.wire) + OutboxPart(s, a, b)
  }

  lemma CollectKeepsPath(s: Net, at: SocketAddr, a: SocketAddr, b: SocketAddr)
    requires Enabled(s, Collect(at)) && a in s.nodes && b in s.nodes
    ensures Path(Apply(s, Collect(at)), a, b) == Path(s, a, b)
  {
    var s', p := Apply(s, Collect(at)), Packet(at, s.nodes[at].outbox[0].dest, s.nodes[at].outbox[0].msg);
    OutboxGivesUp(s, at, a, b);
    assert s'.wire == s.wire + [p] && [p][..0] == [];
    BetweenConcat(a, b, s.wire, [p]);
    Regroup(InboxPart(s, a, b), Between(a, b, s.wire), Only(a, b, p), OutboxPart(s', a, b));
  }

  /** Collecting takes the head off the outbox. */
  lemma OutboxGivesUp(s: Net, at: SocketAddr, a: SocketAddr, b: SocketAddr)
    requires Enabled(s, Collect(at)) && a in s.nodes
    ensures var s', o := Apply(s, Collect(at)), s.nodes[at].outbox[0];
            && a in s'.nodes
            && OutboxPart(s, a, b) == Only(a, b, Packet(at, o.dest, o.msg)) + OutboxPart(s', a, b)
            && (b in s.nodes ==> b in s'.nodes && InboxPart(s', a, b) == InboxPart(s, a, b))
  {
    if at == a {
      var out := OutPackets(a, s.nodes[a].outbox);
      assert out[1..] == OutPackets(a, s.nodes[a].outbox[1..]);
      BetweenHead(a, b, out);
    }
  }

  /** `p` as part of the path from `a` to `b`. */
  ghost function Only(a: SocketAddr, b: SocketAddr, p: Packet): seq<Packet> {
    if p.src == a && p.dst == b then [p] else []
  }

  lemma DeliveryExtends(s: Net, a: SocketAddr, b: SocketAddr)
    requires RouterOk(s) && s.wire != [] && a in s.nodes && b in s.registered
    ensures var s' := RouteFirst(s);
            && s'.nodes.Keys == s.nodes.Keys && s'.nodes[a].outbox == s.nodes[a].outbox
            && InboxPart(s', a, b) == InboxPart(s, a, b) + Only(a, b, s.wire[0])
  {
    var p := s.wire[0];
    if p.dst == b {
      var q := InPackets(b, s.nodes[b].inbox);
      assert InPackets(b, RouteFirst(s).nodes[b].inbox) == q + [p] && [p][..0] == [];
      BetweenConcat(a, b, q, [p]);
    }
  }

  lemma RouteKeepsPath(s: Net, a: SocketAddr, b: SocketAddr)
    requires RouterOk(s) && s.wire != [] && a in s.nodes && b in s.registered
    ensures a in RouteFirst(s).nodes && b in RouteFirst(s).nodes && Path(RouteFirst(s), a, b) == Path(s, a, b)
  {
    DeliveryExtends(s, a, b);
    BetweenHead(a, b, s.wire);
    Regroup(InboxPart(s, a, b), Only(a, b, s.wire[0]), Between(a, b, s.wire[1..]), OutboxPart(s, a, b));
  }

  lemma Regroup<T>(w: seq<T>, x: seq<T>, y: seq<T>, z: seq<T>)
    ensures (w + x) + y + z == w + (x + y) + z
    ensures w + (x + y) + z == w + x + (y + z)
  {}

  /** A worker takes the first letter off its inbox. */
  lemma HandleTakes(s: Net, at: SocketAddr, orders: Orders, a: SocketAddr, b: SocketAddr)
    requires Enabled(s, Handle(at, orders)) && a in s.nodes && b in s.nodes
    ensures var l := s.nodes[at].inbox[0];
            Only(a, b, Packet(l.src, at, l.msg)) + InboxPart(Apply(s, Handle(at, orders)), a, b) == InboxPart(s, a, b)
  {
    if at == b {
      var n := s.nodes[b];
      var q := InPackets(b, n.inbox);
      assert q[0] == Packet(n.inbox[0].src, b, n.inbox[0].msg) && q[1..] == InPackets(b, n.inbox[1..]);
      BetweenHead(a, b, q);
    }
  }

  /** And appends its replies to its outbox. */
  lemma HandleAppends(s: Net, at: SocketAddr, orders: Orders, a: SocketAddr, b: SocketAddr)
    requires Enabled(s, Handle(at, orders)) && a in s.nodes
    ensures var n := s.nodes[at];
            var replies := OutPackets(at, Replies(n.id, n.known, n.inbox[0].src, n.inbox[0].msg, orders));
            OutboxPart(Apply(s, Handle(at, orders)), a, b) ==
            OutboxPart(s, a, b) + (if at == a then Between(a, b, replies) else [])
  {
    hide Replies, Between;
    if at == a {
      var n := s.nodes[a];
      var r := Replies(n.id, n.known, n.inbox[0].src, n.inbox[0].msg, orders);
      assert OutPackets(a, n.outbox + r) == OutPackets(a, n.outbox) + OutPackets(a, r);
      BetweenConcat(a, b, OutPackets(a, n.outbox), OutPackets(a, r));
    }
  }

  /** Handling takes the first letter off one path and appends the replies to others. */
  lemma HandleMovesPath(s: Net, at: SocketAddr, orders: Orders, a: SocketAddr, b: SocketAddr)
    requires Enabled(s, Handle(at, orders)) && a in s.nodes && b in s.nodes
    ensures var n := s.nodes[at];
            var l := n.inbox[0];
            var replies := OutPackets(at, Replies(n.id, n.known, l.src, l.msg, orders));
            Only(a, b, Packet(l.src, at, l.msg)) + Path(Apply(s, Handle(at, orders)), a, b) ==
            Path(s, a, b) + (if at == a then Between(a, b, replies) else [])
  {
    HandleTakes(s, at, orders, a, b);
    HandleAppends(s, at, orders, a, b);
    var n, s' := s.nodes[at], Apply(s, Handle(at, orders));
    var l := n.inbox[0];
    var replies := OutPackets(at, Replies(n.id, n.known, l.src, l.msg, orders));
    Ends(Only(a, b, Packet(l.src, at, l.msg)), InboxPart(s', a, b), Between(a, b, s.wire), OutboxPart(s, a, b),
         if at == a then Between(a, b, replies) else []);
  }

  lemma Ends<T>(v: seq<T>, w: seq<T>, x: seq<T>, y: seq<T>, z: seq<T>)
    ensures v + (w + x + (y + z)) == (v + w) + x + y + z
  {}

  ghost predicate RouterOnly(before: seq<Step>, all: seq<Step>) {
    before <= all && forall i :: |before| <= i < |all| ==> all[i].Collect? || all[i].Route?
  }

  /** While only the router works, nothing on the way to a registered worker is lost, repeated or overtaken. */
  lemma {:induction false} RouterKeepsPath(before: seq<Step>, all: seq<Step>, a: SocketAddr, b: SocketAddr)
    requires IsRun(EMPTY, before) && IsRun(EMPTY, all) && RouterOnly(before, all)
    requires a in Final(EMPTY, before).nodes && b in Final(EMPTY, before).registered
    ensures var s, t := Final(EMPTY, before), Final(EMPTY, all);
            && t.registered == s.registered && t.nodes.Keys == s.nodes.Keys && RouterOk(s)
            && Path(t, a, b) == Path(s, a, b)
    decreases |all|
  {
    RunKeepsRouterOk(EMPTY, before);
    if |before| < |all| {
      var front, last := all[..|all| - 1], all[|all| - 1];
      RouterKeepsPath(before, front, a, b);
      RunKeepsRouterOk(EMPTY, front);
      if last.Collect? {
        CollectKeepsPath(Final(EMPTY, front), last.at, a, b);
      } else {
        RouteKeepsPath(Final(EMPTY, front), a, b);
      }
    } else {
      assert all == before;
    }
  }

  // ---- Workers and router together ----

  ghost predicate WorkOnly(before: seq<Step>, all: seq<Step>) {
    before <= all && forall i :: |before| <= i < |all| ==> IsWork(all[i])
  }

  /** What one step takes off the path at `b`, appends to it at `a`, and collects from `a`. */
  ghost function TakenBy(s: Net, step: Step, a: SocketAddr, b: SocketAddr): seq<Packet> {
    if step.Handle? && step.at in s.nodes && s.nodes[step.at].inbox != []
    then var l := s.nodes[step.at].inbox[0]; Only(a, b, Packet(l.src, step.at, l.msg))
    else []
  }

  ghost function GivenBy(s: Net, step: Step, a: SocketAddr, b: SocketAddr): seq<Packet> {
    if step.Handle? && step.at == a && a in s.nodes && s.nodes[a].inbox != []
    then
      var n := s.nodes[a];
      var l := n.inbox[0];
      Between(a, b, OutPackets(a, Replies(n.id, n.known, l.src, l.msg, step.orders)))
    else []
  }

  ghost function CollectedBy(s: Net, step: Step, a: SocketAddr, b: SocketAddr): seq<Packet> {
    if step.Collect? && step.at in s.nodes && s.nodes[step.at].outbox != []
    then var o := s.nodes[step.at].outbox[0]; Only(a, b, Packet(step.at, o.dest, o.msg))
    else []
  }

  /** The same over a stretch of a run: what `b` has handled from `a`, and what `a` has replied to `b`. */
  ghost function Taken(before: seq<Step>, all: seq<Step>, a: SocketAddr, b: SocketAddr): seq<Packet>
    requires IsRun(EMPTY, all)
  {
    if |all| <= |before| then []
    else
      var front := all[..|all| - 1];
      Taken(before, front, a, b) + TakenBy(Final(EMPTY, front), all[|all| - 1], a, b)
  }

  ghost function Given(before: seq<Step>, all: seq<Step>, a: SocketAddr, b: SocketAddr): seq<Packet>
    requires IsRun(EMPTY, all)
  {
    if |all| <= |before| then []
    else
      var front := all[..|all| - 1];
      Given(before, front, a, b) + GivenBy(Final(EMPTY, front), all[|all| - 1], a, b)
  }

  ghost function Collected(before: seq<Step>, all: seq<Step>, a: SocketAddr, b: SocketAddr): seq<Packet>
    requires IsRun(EMPTY, all)
  {
    if |all| <= |before| then []
    else
      var front := all[..|all| - 1];
      Collected(before, front, a, b) + CollectedBy(Final(EMPTY, front), all[|all| - 1], a, b)
  }

  /** One step of work on one path. */
  lemma StepPath(s: Net, step: Step, a: SocketAddr, b: SocketAddr)
    requires RouterOk(s) && Enabled(s, step) && IsWork(step) && a in s.nodes && b in s.registered
    ensures var s' := Apply(s, step);
            && s'.nodes.Keys == s.nodes.Keys && s'.registered == s.registered
            && TakenBy(s, step, a, b) + Path(s', a, b) == Path(s, a, b) + GivenBy(s, step, a, b)
  {
    match step
    case Handle(at, orders) => HandleMovesPath(s, at, orders, a, b);
    case Collect(at) => CollectKeepsPath(s, at, a, b);
    case Route => RouteKeepsPath(s, a, b);
  }

  /** And on the outbox at its start. */
  lemma StepOutbox(s: Net, step: Step, a: SocketAddr, b: SocketAddr)
    requires RouterOk(s) && Enabled(s, step) && IsWork(step) && a in s.nodes && b in s.registered
    ensures var s' := Apply(s, step);
            && a in s'.nodes
            && CollectedBy(s, step, a, b) + OutboxPart(s', a, b) == OutboxPart(s, a, b) + GivenBy(s, step, a, b)
  {
    match step
    case Handle(at, orders) => HandleAppends(s, at, orders, a, b);
    case Collect(at) => OutboxGivesUp(s, at, a, b);
    case Route => DeliveryExtends(s, a, b);
  }

  lemma Chain<T>(taken: seq<T>, more: seq<T>, start: seq<T>, given: seq<T>, mid: seq<T>, end: seq<T>, added: seq<T>)
    requires taken + mid == start + given && more + end == mid + added
    ensures (taken + more) + end == start + (given + added)
  {
    assert (taken + more) + end == taken + (more + end);
    assert taken + (mid + added) == (taken + mid) + added;
    assert (start + given) + added == start + (given + added);
  }

  /** Over any stretch of work, what `b` handled and what is still underway are what was underway and what
      `a` replied, in that order; and likewise for the outbox of `a`. */
  lemma {:induction false} PathConserved(before: seq<Step>, all: seq<Step>, a: SocketAddr, b: SocketAddr)
    requires IsRun(EMPTY, before) && IsRun(EMPTY, all) && WorkOnly(before, all)
    requires a in Final(EMPTY, before).nodes && b in Final(EMPTY, before).registered
    ensures var s, t := Final(EMPTY, before), Final(EMPTY, all);
            && RouterOk(s) && t.registered == s.registered && t.nodes.Keys == s.nodes.Keys
            && Taken(before, all, a, b) + Path(t, a, b) == Path(s, a, b) + Given(before, all, a, b)
            && Collected(before, all, a, b) + OutboxPart(t, a, b) == OutboxPart(s, a, b) + Given(before, all, a, b)
    decreases |all|
  {
    RunKeepsRouterOk(EMPTY, before);
    var s := Final(EMPTY, before);
    if |all| == |before| {
      assert all == before;
    } else {
      var front, last := all[..|all| - 1], all[|all| - 1];
      PathConserved(before, front, a, b);
      RunKeepsRouterOk(EMPTY, front);
      var mid, end := Final(EMPTY, front), Final(EMPTY, all);
      StepPath(mid, last, a, b);
      StepOutbox(mid, last, a, b);
      Chain(Taken(before, front, a, b), TakenBy(mid, last, a, b), Path(s, a, b), Given(before, front, a, b),
            Path(mid, a, b), Path(end, a, b), GivenBy(mid, last, a, b));
      Chain(Collected(before, front, a, b), CollectedBy(mid, last, a, b), OutboxPart(s, a, b),
            Given(before, front, a, b), OutboxPart(mid, a, b), OutboxPart(end, a, b), GivenBy(mid, last, a, b));
    }
  }

  /** At some moment of the stretch the outbox of `a` was empty. */
  ghost predicate EmptiedDuring(before: seq<Step>, all: seq<Step>, a: SocketAddr) {
    exists mid :: EmptiedAt(before, mid, all, a)
  }

  ghost predicate EmptiedAt(before: seq<Step>, mid: seq<Step>, all: seq<Step>, a: SocketAddr) {
    && before <= mid <= all && IsRun(EMPTY, mid)
    && a in Final(EMPTY, mid).nodes && Final(EMPTY, mid).nodes[a].outbox == []
  }

  lemma {:induction false} CollectedGrows(before: seq<Step>, mid: seq<Step>, all: seq<Step>,
                                          a: SocketAddr, b: SocketAddr)
    requires mid <= all && IsRun(EMPTY, mid) && IsRun(EMPTY, all)
    ensures |Collected(before, mid, a, b)| <= |Collected(before, all, a, b)|
    decreases |all|
  {
    if |all| == |mid| {
      assert all == mid;
    } else {
      CollectedGrows(before, mid, all[..|all| - 1], a, b);
    }
  }

  lemma PrefixOfSum<T>(x: seq<T>, y: seq<T>, u: seq<T>, v: seq<T>)
    requires x + y == u + v && |y| <= |v|
    ensures u <= x
  {
    assert (x + y)[..|u|] == u;
  }

  /** Once the outbox was emptied, it holds no more than was replied during the stretch. */
  lemma OutboxIsNew(before: seq<Step>, mid: seq<Step>, all: seq<Step>, a: SocketAddr, b: SocketAddr)
    requires IsRun(EMPTY, before) && IsRun(EMPTY, all) && WorkOnly(before, all) && EmptiedAt(before, mid, all, a)
    requires a in Final(EMPTY, before).nodes && b in Final(EMPTY, before).registered
    ensures a in Final(EMPTY, all).nodes && |OutboxPart(Final(EMPTY, all), a, b)| <= |Given(before, all, a, b)|
  {
    hide Collected, Given, Taken, Path;
    assert WorkOnly(before, mid);
    PathConserved(before, mid, a, b);
    PathConserved(before, all, a, b);
    CollectedGrows(before, mid, all, a, b);
    assert OutboxPart(Final(EMPTY, mid), a, b) == [];
    hide OutboxPart;
    Outrun(Collected(before, mid, a, b), OutboxPart(Final(EMPTY, before), a, b), Given(before, mid, a, b));
    Sizes(Collected(before, all, a, b), OutboxPart(Final(EMPTY, all), a, b),
          OutboxPart(Final(EMPTY, before), a, b), Given(before, all, a, b));
  }

  lemma Outrun<T>(x: seq<T>, u: seq<T>, v: seq<T>)
    requires x + [] == u + v
    ensures |u| <= |x|
  {
    assert |x + []| == |u + v|;
  }

  lemma Sizes<T>(x: seq<T>, y: seq<T>, u: seq<T>, v: seq<T>)
    requires x + y == u + v && |u| <= |x|
    ensures |y| <= |v|
  {
    assert |x + y| == |u + v|;
  }

  /** If the outbox of `a` was emptied and the router's hands are empty in the end, everything that was underway
      from `a` to `b` has arrived: it was handled or is in the inbox, in order. */
  lemma Arrival(before: seq<Step>, all: seq<Step>, a: SocketAddr, b: SocketAddr)
    requires IsRun(EMPTY, before) && IsRun(EMPTY, all) && WorkOnly(before, all)
    requires a in Final(EMPTY, before).nodes && b in Final(EMPTY, before).registered
    requires EmptiedDuring(before, all, a) && Final(EMPTY, all).wire == []
    ensures b in Final(EMPTY, before).nodes && b in Final(EMPTY, all).nodes
    ensures Path(Final(EMPTY, before), a, b) <= Taken(before, all, a, b) + InboxPart(Final(EMPTY, all), a, b)
  {
    hide Collected, Given, Taken, EmptiedAt, OutboxPart, InboxPart;
    var mid :| EmptiedAt(before, mid, all, a);
    OutboxIsNew(before, mid, all, a, b);
    PathConserved(before, all, a, b);
    PathAtRest(Final(EMPTY, all), a, b, Taken(before, all, a, b));
    PrefixOfSum(Taken(before, all, a, b) + InboxPart(Final(EMPTY, all), a, b), OutboxPart(Final(EMPTY, all), a, b),
                Path(Final(EMPTY, before), a, b), Given(before, all, a, b));
  }

  /** With nothing in the router's hands a path is an inbox and an outbox. */
  lemma PathAtRest(s: Net, a: SocketAddr, b: SocketAddr, taken: seq<Packet>)
    requires a in s.nodes && b in s.nodes && s.wire == []
    ensures taken + Path(s, a, b) == (taken + InboxPart(s, a, b)) + OutboxPart(s, a, b)
  {}

  ghost predicate HasArrived(before: seq<Step>, all: seq<Step>, a: SocketAddr, b: SocketAddr)
    requires IsRun(EMPTY, before) && IsRun(EMPTY, all)
  {
    var s, t := Final(EMPTY, before), Final(EMPTY, all);
    && a in s.nodes && b in s.nodes && b in t.nodes
    && Path(s, a, b) <= Taken(before, all, a, b) + InboxPart(t, a, b)
  }

  ghost predicate AllEmptied(before: seq<Step>, all: seq<Step>, workers: set<SocketAddr>) {
    forall a :: a in workers ==> EmptiedDuring(before, all, a)
  }

  lemma EmptiedNow(before: seq<Step>, all: seq<Step>, a: SocketAddr)
    requires before <= all && IsRun(EMPTY, all)
    requires a in Final(EMPTY, all).nodes && Final(EMPTY, all).nodes[a].outbox == []
    ensures EmptiedDuring(before, all, a)
  {
    assert EmptiedAt(before, all, all, a);
  }

  lemma AllEmptiedLater(before: seq<Step>, all: seq<Step>, more: seq<Step>, workers: set<SocketAddr>)
    requires AllEmptied(before, all, workers) && all <= more
    ensures AllEmptied(before, more, workers)
  {
    forall a | a in workers ensures EmptiedDuring(before, more, a) {
      assert EmptiedDuring(before, all, a);
      var mid :| EmptiedAt(before, mid, all, a);
      assert EmptiedAt(before, mid, more, a);
    }
  }

  /** After a round everything that was underway between registered workers has arrived. */
  lemma AllArrive(before: seq<Step>, all: seq<Step>)
    requires IsRun(EMPTY, before) && IsRun(EMPTY, all) && WorkOnly(before, all) && Final(EMPTY, all).wire == []
    requires AllEmptied(before, all, Final(EMPTY, before).registered)
    ensures forall a, b :: a in Final(EMPTY, before).registered && b in Final(EMPTY, before).registered ==>
              HasArrived(before, all, a, b)
  {
    var s := Final(EMPTY, before);
    RunKeepsRouterOk(EMPTY, before);
    forall a, b | a in s.registered && b in s.registered ensures HasArrived(before, all, a, b) {
      hide EmptiedDuring;
      assert EmptiedDuring(before, all, a);
      Arrival(before, all, a, b);
    }
  }
}
