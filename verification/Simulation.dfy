/** The simulator from start to finish: workers are started one by one, then the loop runs (src/bin/sim.rs). */
module Simulation {
  import opened Sequences
  import opened PeerTypes
  import opened Network
  import opened Termination
  import opened AddressBinding
  import opened SimulatorReach
  import opened JoinQueue
  import opened Simulator

  datatype Start = Start(addr: SocketAddr, id: PeerId, delay: nat)

  ghost function QueueOf(starts: seq<Start>): seq<Joiner> {
    seq(|starts|, i requires 0 <= i < |starts| => Joiner(starts[i].addr, starts[i].delay))
  }

  ghost predicate DistinctAddresses(starts: seq<Start>) {
    forall i, j :: 0 <= i < j < |starts| ==> starts[i].addr != starts[j].addr
  }

  /** The network has exactly these workers. */
  ghost predicate Staffed(net: Net, starts: seq<Start>) {
    && (forall i :: 0 <= i < |starts| ==> starts[i].addr in net.nodes && net.nodes[starts[i].addr].id == starts[i].id)
    && forall a :: a in net.nodes ==> exists i :: 0 <= i < |starts| && starts[i].addr == a
  }

  /** Going on keeps the run one of the simulator's kind, and the workers. */
  lemma GoingOn(boot: SocketAddr, before: seq<Step>, all: seq<Step>, starts: seq<Start>)
    requires BootRun(boot, before) && IsRun(EMPTY, all) && WentOn(before, all) && Staffed(Final(EMPTY, before), starts)
    requires Final(EMPTY, all).nodes.Keys == Final(EMPTY, before).nodes.Keys
    ensures BootRun(boot, all) && Staffed(Final(EMPTY, all), starts)
  {
    forall i | 0 <= i < |all| ensures BootStep(boot, all[i]) {
      if i < |before| { assert all[i] == before[i]; }
    }
    PrefixKeepsIds(before, all);
  }

  /** If the bootstrap worker is the first to join, it is the first to be registered. */
  lemma FirstJoinerFirst(boot: SocketAddr, queue: seq<Joiner>, clock: seq<nat>, steps: seq<Step>)
    requires var sorted := SortDescending(queue);
             Registrations(steps) == Addresses(JoinedOf(sorted, Remaining(sorted, clock)))
    requires FirstToJoin(queue, boot)
    ensures BootFirst(boot, steps)
  {
    FirstToJoinIff(queue, boot);
  }

  /** What a simulation comes to: the workers that are due are registered, only the bootstrap worker learns,
      and if it joins first, then it knows each worker whose report is not pending, and at rest it knows every
      worker at its true address and nobody else. */
  ghost predicate Outcome(boot: SocketAddr, starts: seq<Start>, clock: seq<nat>, end: Net) {
    var sorted := SortDescending(QueueOf(starts));
    && Staffed(end, starts)
    && multiset(end.registered) == multiset(Addresses(JoinedOf(sorted, Remaining(sorted, clock))))
    && (forall a :: a in end.nodes && a != boot ==> end.nodes[a].known == map[end.nodes[a].id := a])
    && (FirstToJoin(QueueOf(starts), boot) ==> forall a :: a in end.nodes && a != boot ==>
          Knows(end, boot, end.nodes[a].id) || Pending(end, boot, a, Greeting) == 1)
    && (FirstToJoin(QueueOf(starts), boot) && Quiescent(end) ==>
          && boot in end.nodes
          && (forall a :: a in end.nodes ==> end.nodes[a].id in end.nodes[boot].known)
          && forall id :: id in end.nodes[boot].known ==> Bound(end, id, end.nodes[boot].known[id]))
  }

  lemma RunOutcome(boot: SocketAddr, starts: seq<Start>, clock: seq<nat>, before: seq<Step>, steps: seq<Step>,
                   waiting: seq<Joiner>, log: Log)
    requires BootRun(boot, before) && IsRun(EMPTY, steps) && WentOn(before, steps)
    requires Staffed(Final(EMPTY, before), starts)
    requires Final(EMPTY, steps).nodes.Keys == Final(EMPTY, before).nodes.Keys
    requires Ledger(steps, Final(EMPTY, steps), waiting, log)
    requires Stands(SortDescending(QueueOf(starts)), Log([], []), clock, waiting, log)
    ensures BootRun(boot, steps) && Outcome(boot, starts, clock, Final(EMPTY, steps))
  {
    var queue := QueueOf(starts);
    var joined := JoinedOf(SortDescending(queue), Remaining(SortDescending(queue), clock));
    assert log.joined == [] + joined == joined;
    GoingOn(boot, before, steps, starts);
    OthersKnowOnlyThemselves(boot, steps);
    if FirstToJoin(queue, boot) {
      FirstJoinerFirst(boot, queue, clock, steps);
      SimulatorReaches(boot, steps);
      var i: nat :| FirstOut(queue, i) && queue[i].addr == boot;
      assert starts[i].addr in Final(EMPTY, steps).nodes;
      forall a | a in Final(EMPTY, steps).nodes && a != boot
        ensures var s := Final(EMPTY, steps); Knows(s, boot, s.nodes[a].id) || Pending(s, boot, a, Greeting) == 1
      {
        KnownOrPending(boot, steps, a);
      }
    }
  }

  // ---- Coming to rest ----

  /** Started, registered, and at work: a run without injections has no other steps, and few of the last. */
  lemma {:induction false} StepsAddUp(boot: SocketAddr, steps: seq<Step>)
    requires BootRun(boot, steps)
    ensures |steps| == |Final(EMPTY, steps).nodes| + |Registrations(steps)| + CountWork(steps)
    ensures Budget(steps) == 20 * |Final(EMPTY, steps).nodes|
  {
    if steps == [] {
    } else {
      var front, last := steps[..|steps| - 1], steps[|steps| - 1];
      StepsAddUp(boot, front);
      NodesGrow(Final(EMPTY, front), last);
    }
  }

  lemma NodesGrow(s: Net, step: Step)
    requires Enabled(s, step)
    ensures |Apply(s, step).nodes| == |s.nodes| + if step.Spawn? then 1 else 0
  {
    var s' := Apply(s, step);
    assert |s.nodes.Keys| == |s.nodes| && |s'.nodes.Keys| == |s'.nodes|;
    if step.Spawn? {
      assert s'.nodes.Keys == s.nodes.Keys + {step.addr};
    } else {
      assert s'.nodes.Keys == s.nodes.Keys;
    }
  }

  lemma LedgerSizes(steps: seq<Step>, net: Net, waiting: seq<Joiner>, log: Log)
    requires Ledger(steps, net, waiting, log)
    ensures |net.nodes| == |waiting| + |log.joined| && |Registrations(steps)| == |log.joined|
    ensures waiting == [] ==> net.registered == net.nodes.Keys
  {
    var w, j := multiset(Addresses(waiting)), multiset(Addresses(log.joined));
    assert |w + j| == |w| + |j| && |w| == |waiting| && |j| == |log.joined|;
    assert |multiset(net.nodes.Keys)| == |net.nodes.Keys| == |net.nodes|;
    if waiting == [] {
      assert multiset(net.registered) == multiset(net.nodes.Keys);
      assert forall a :: a in net.registered <==> a in multiset(net.registered);
      assert forall a :: a in net.nodes.Keys <==> a in multiset(net.nodes.Keys);
    }
  }

  /** Every run of the simulator is short: at most 22 steps for each worker. */
  lemma StepsBounded(boot: SocketAddr, steps: seq<Step>, waiting: seq<Joiner>, log: Log)
    requires BootRun(boot, steps) && Ledger(steps, Final(EMPTY, steps), waiting, log)
    ensures |steps| <= 22 * |Final(EMPTY, steps).nodes|
  {
    StepsAddUp(boot, steps);
    WorkFromEmpty(steps);
    LedgerSizes(steps, Final(EMPTY, steps), waiting, log);
  }

  /** More than 23 readings for each worker are later than every delay, every batch of the schedule names every
      worker, and there are more batches than the loop can use. */
  ghost predicate Plenty(starts: seq<Start>, clock: seq<nat>, schedule: Schedule) {
    var n := |starts|;
    && CountLate(QueueOf(starts), clock) > 23 * n
    && |schedule| > 22 * n + TurnsCost(|clock|, n)
    && forall i, j :: 0 <= i < |schedule| && 0 <= j < n ==> starts[j].addr in schedule[i]
  }

  /** For every choice of workers there are such readings and schedules. */
  lemma PlentyExists(starts: seq<Start>) returns (clock: seq<nat>, schedule: Schedule)
    ensures Plenty(starts, clock, schedule)
  {
    var n, late := |starts|, LateReading(starts);
    clock := seq(23 * n + 1, _ => late);
    CountLateAll(QueueOf(starts), late, clock);
    var everybody := seq(n, i requires 0 <= i < n => starts[i].addr);
    schedule := seq(22 * n + TurnsCost(|clock|, n) + 1, _ => everybody);
    forall i, j | 0 <= i < |schedule| && 0 <= j < n ensures starts[j].addr in schedule[i] {
      assert everybody[j] in everybody;
    }
  }

  ghost function LateReading(starts: seq<Start>): (late: nat)
    ensures forall i :: 0 <= i < |starts| ==> starts[i].delay < late
  {
    if starts == [] then 0
    else
      var late, x := LateReading(starts[..|starts| - 1]), starts[|starts| - 1];
      if x.delay < late then late else x.delay + 1
  }

  lemma {:induction false} CountLateAll(q: seq<Joiner>, late: nat, clock: seq<nat>)
    requires forall i :: 0 <= i < |q| ==> q[i].delay < late
    requires forall t :: 0 <= t < |clock| ==> clock[t] == late
    ensures CountLate(q, clock) == |clock|
  {
    if clock == [] {
    } else {
      CountLateAll(q, late, clock[..|clock| - 1]);
    }
  }

  lemma {:induction false} LateSorted(q: seq<Joiner>, clock: seq<nat>)
    ensures CountLate(SortDescending(q), clock) == CountLate(q, clock)
  {
    if clock == [] {
    } else {
      LateSorted(q, clock[..|clock| - 1]);
      SameMembers(q);
      var sorted, now := SortDescending(q), clock[|clock| - 1];
      if forall i :: 0 <= i < |q| ==> q[i].delay < now {
        forall i | 0 <= i < |sorted| ensures sorted[i].delay < now { assert sorted[i] in q; }
      }
      if forall i :: 0 <= i < |sorted| ==> sorted[i].delay < now {
        forall i | 0 <= i < |q| ensures q[i].delay < now { assert q[i] in sorted; }
      }
    }
  }

  lemma SameMembers(q: seq<Joiner>)
    ensures forall x :: x in q <==> x in SortDescending(q)
  {
    SortSorts(q, 0);
    forall x ensures x in q <==> x in SortDescending(q) {
      assert x in q <==> x in multiset(q);
      assert x in SortDescending(q) <==> x in multiset(SortDescending(q));
    }
  }

  lemma EnoughTurns(starts: seq<Start>, clock: seq<nat>, schedule: Schedule)
    requires Plenty(starts, clock, schedule)
    ensures TurnsComplete(SortDescending(QueueOf(starts)), clock) > 22 * |starts|
  {
    EveryoneJoins(SortDescending(QueueOf(starts)), clock);
    LateSorted(QueueOf(starts), clock);
    SortSize(QueueOf(starts));
  }

  /** With plenty of readings and batches, everybody is registered in the end and nothing is left to do. */
  lemma ComesToQuiet(boot: SocketAddr, starts: seq<Start>, clock: seq<nat>, schedule: Schedule, left: Schedule,
                     before: seq<Step>, steps: seq<Step>, waiting: seq<Joiner>, log: Log)
    requires IsRun(EMPTY, steps) && BootRun(boot, steps) && before <= steps
    requires Ledger(steps, Final(EMPTY, steps), waiting, log)
    requires |Final(EMPTY, steps).nodes| == |starts| && Plenty(starts, clock, schedule)
    requires Spent(schedule, left, 0, |steps|, TurnsCost(|clock|, |starts|))
    requires left != [] ==>
               Settled(SortDescending(QueueOf(starts)), clock, |before|, |steps|, waiting, Final(EMPTY, steps))
    ensures Quiescent(Final(EMPTY, steps)) && Final(EMPTY, steps).registered == Final(EMPTY, steps).nodes.Keys
  {
    hide Ledger, BootRun, Registrations, IsRun, Final, QueueOf;
    StepsBounded(boot, steps, waiting, log);
    assert left != [];
    EnoughTurns(starts, clock, schedule);
    LedgerSizes(steps, Final(EMPTY, steps), waiting, log);
  }

  // ---- Starting and running ----

  /** A simulator with these workers started and queued, and what is left of the schedule. */
  ghost predicate Prepared(sim: WorkerSim, boot: SocketAddr, starts: seq<Start>, schedule: Schedule)
    reads sim
  {
    && sim.Valid() && sim.addQueue == QueueOf(starts) && sim.log == Log([], [])
    && sim.bootstrap == Some(boot) && BootRun(boot, sim.steps) && Staffed(sim.net, starts)
    && Spent(schedule, sim.schedule, 0, |sim.steps|, 0)
  }

  lemma StartNext(boot: SocketAddr, steps: seq<Step>, starts: seq<Start>, i: nat)
    requires DistinctAddresses(starts) && i < |starts|
    requires BootRun(boot, steps) && Staffed(Final(EMPTY, steps), starts[..i])
    ensures var x, net := starts[i], Final(EMPTY, steps);
            && x.addr !in net.nodes
            && QueueOf(starts[..i + 1]) == QueueOf(starts[..i]) + [Joiner(x.addr, x.delay)]
            && Staffed(net.(nodes := net.nodes[x.addr := NewNode(x.addr, x.id, Some(boot))]), starts[..i + 1])
            && BootRun(boot, steps + [Spawn(x.addr, x.id, Some(boot))])
  {
    hide Staffed;
    var x, net := starts[i], Final(EMPTY, steps);
    AddressFree(net, starts, i);
    RunExtend(EMPTY, steps, Spawn(x.addr, x.id, Some(boot)));
    StaffedNext(net, net.(nodes := net.nodes[x.addr := NewNode(x.addr, x.id, Some(boot))]), starts[..i], x);
    assert starts[..i + 1] == starts[..i] + [x];
  }

  lemma AddressFree(net: Net, starts: seq<Start>, i: nat)
    requires DistinctAddresses(starts) && i < |starts| && Staffed(net, starts[..i])
    ensures starts[i].addr !in net.nodes
  {}

  lemma StaffedNext(net: Net, net': Net, starts: seq<Start>, x: Start)
    requires Staffed(net, starts) && x.addr !in net.nodes
    requires x.addr in net'.nodes && net'.nodes[x.addr].id == x.id
    requires net'.nodes == net.nodes[x.addr := net'.nodes[x.addr]]
    ensures Staffed(net', starts + [x])
  {
    var more := starts + [x];
    forall a | a in net'.nodes ensures exists i :: 0 <= i < |more| && more[i].addr == a {
      if a == x.addr {
        assert more[|starts|].addr == a;
      } else {
        var i :| 0 <= i < |starts| && starts[i].addr == a;
        assert more[i].addr == a;
      }
    }
  }

  /** Starts one more worker; its thread and the others run before the next is started. */
  method StartOne(sim: WorkerSim, ghost boot: SocketAddr, starts: seq<Start>, i: nat, ghost schedule: Schedule)
    requires DistinctAddresses(starts) && i < |starts| && Prepared(sim, boot, starts[..i], schedule)
    modifies sim
    ensures Prepared(sim, boot, starts[..i + 1], schedule)
  {
    hide Ledger, Staffed, BootRun, IsRun, Final, Trail, Spent, HaveRead;
    StartNext(boot, sim.steps, starts, i);
    ghost var n, s, left := |sim.steps|, sim.steps, sim.schedule;
    sim.AddNewWorker(starts[i].addr, starts[i].id, starts[i].delay);
    s := sim.steps;
    sim.Pause();
    TrailExtends(s, left, sim.steps, sim.schedule, 1);
    StartSpent(schedule, left, sim.schedule, n, |s|, |sim.steps|);
    PausedOn(boot, s, sim.steps, starts[..i + 1]);
  }

  lemma StartSpent(s: Schedule, t: Schedule, u: Schedule, n0: nat, n1: nat, n2: nat)
    requires Spent(s, t, 0, n0, 0) && n1 == n0 + 1 && Spent(t, u, n1, n2, 1)
    ensures Spent(s, u, 0, n2, 0)
  {
    SpentMore(s, t, u, 0, n1, n2, -1, 1);
  }

  lemma PausedOn(boot: SocketAddr, before: seq<Step>, all: seq<Step>, starts: seq<Start>)
    requires BootRun(boot, before) && IsRun(EMPTY, all) && Worked(false, before, all)
    requires Staffed(Final(EMPTY, before), starts)
    requires Final(EMPTY, all).nodes.Keys == Final(EMPTY, before).nodes.Keys
    ensures BootRun(boot, all) && Staffed(Final(EMPTY, all), starts)
  {
    GoingOn(boot, before, all, starts);
  }

  method StartAll(boot: SocketAddr, starts: seq<Start>, schedule: Schedule) returns (sim: WorkerSim)
    requires DistinctAddresses(starts)
    ensures fresh(sim) && Prepared(sim, boot, starts, schedule)
  {
    hide Ledger;
    sim := new WorkerSim(schedule);
    sim.SetBootstrap(boot);
    assert starts[..0] == [];
    assert Prepared(sim, boot, starts[..0], schedule);
    for i := 0 to |starts|
      invariant fresh(sim) && Prepared(sim, boot, starts[..i], schedule)
    {
      hide *;
      StartOne(sim, boot, starts, i, schedule);
    }
    assert starts[..|starts|] == starts;
  }

  lemma Headcount(net: Net, starts: seq<Start>)
    requires DistinctAddresses(starts) && Staffed(net, starts)
    ensures |net.nodes| == |starts|
  {
    var addresses := seq(|starts|, i requires 0 <= i < |starts| => starts[i].addr);
    DistinctSize(addresses);
    forall a ensures a in net.nodes.Keys <==> a in Elements(addresses) {
      if a in net.nodes {
        var i :| 0 <= i < |starts| && starts[i].addr == a;
        assert addresses[i] in addresses;
      }
    }
    assert net.nodes.Keys == Elements(addresses) && |net.nodes.Keys| == |net.nodes|;
  }

  /** A plentiful schedule names everybody there is. */
  lemma PlentyNames(starts: seq<Start>, clock: seq<nat>, schedule: Schedule, left: Schedule, steps: nat, net: Net)
    requires Plenty(starts, clock, schedule) && Staffed(net, starts) && Spent(schedule, left, 0, steps, 0)
    ensures NamesAll(left, net.nodes.Keys)
  {
    forall i, a | 0 <= i < |schedule| && a in net.nodes.Keys ensures a in schedule[i] {
      var j :| 0 <= j < |starts| && starts[j].addr == a;
      assert starts[j].addr in schedule[i];
    }
    NamesAllLeft(schedule, left, 0, steps, 0, net.nodes.Keys);
  }

  /** Starts the workers and runs the loop, for all workers, delays, clock readings and schedules; with plenty of
      readings and batches it comes to rest with everybody registered. */
  method Simulate(boot: SocketAddr, starts: seq<Start>, clock: seq<nat>, schedule: Schedule)
    returns (end: Net, ghost steps: seq<Step>)
    requires DistinctAddresses(starts)
    ensures BootRun(boot, steps) && end == Final(EMPTY, steps) && Outcome(boot, starts, clock, end)
    ensures Plenty(starts, clock, schedule) ==> Quiescent(end) && end.registered == end.nodes.Keys
  {
    hide Ledger, Stands, Outcome, Plenty, Staffed, BootRun, IsRun, Final, Spent, Settled, NamesAll, TurnsCost, WentOn,
         Quiescent, DistinctAddresses;
    var sim := StartAll(boot, starts, schedule);
    ghost var before, left := sim.steps, sim.schedule;
    Headcount(sim.net, starts);
    if Plenty(starts, clock, schedule) { PlentyNames(starts, clock, schedule, left, |before|, sim.net); }
    sim.Run(clock);
    end, steps := sim.net, sim.steps;
    RunOutcome(boot, starts, clock, before, steps, sim.addQueue, sim.log);
    if Plenty(starts, clock, schedule) {
      SpentMore(schedule, left, sim.schedule, 0, |before|, |steps|, 0, TurnsCost(|clock|, |starts|));
      assert |end.nodes.Keys| == |end.nodes|;
      WentOnExtends(before, steps);
      ComesToQuiet(boot, starts, clock, schedule, sim.schedule, before, steps, sim.addQueue, sim.log);
    }
  }

  lemma WentOnExtends(before: seq<Step>, all: seq<Step>)
    requires WentOn(before, all)
    ensures before <= all
  {}
}
