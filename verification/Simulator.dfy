/** The simulator's main loop: delayed joins and the router's rounds (src/bin/sim.rs). */
module Simulator {
  import opened Sequences
  import opened PeerTypes
  import opened PeerMaps
  import opened Network
  import opened Termination
  import opened Paths
  import opened JoinQueue
  import opened SimulatorReach

  /** Every started worker waits or has been registered, and no address is there twice. */
  ghost predicate Accounted(net: Net, waiting: seq<Joiner>, joined: seq<Joiner>) {
    && multiset(Addresses(joined)) == multiset(net.registered)
    && multiset(Addresses(waiting)) + multiset(Addresses(joined)) == multiset(net.nodes.Keys)
  }

  lemma SpawnAccounted(net: Net, net': Net, waiting: seq<Joiner>, joined: seq<Joiner>, x: Joiner)
    requires Accounted(net, waiting, joined) && x.addr !in net.nodes
    requires net'.nodes.Keys == net.nodes.Keys + {x.addr} && net'.registered == net.registered
    ensures Accounted(net', waiting + [x], joined)
  {
    AddressesAppend(waiting, x);
    assert multiset(net'.nodes.Keys) == multiset(net.nodes.Keys) + multiset{x.addr};
  }

  lemma JoinAccounted(net: Net, net': Net, waiting: seq<Joiner>, joined: seq<Joiner>)
    requires Accounted(net, waiting, joined) && waiting != []
    requires var x := waiting[|waiting| - 1];
             net'.nodes.Keys == net.nodes.Keys && net'.registered == net.registered + {x.addr}
    ensures var x := waiting[|waiting| - 1];
            x.addr in net.nodes && x.addr !in net.registered
            && Accounted(net', waiting[..|waiting| - 1], joined + [x])
  {
    var front, x := waiting[..|waiting| - 1], waiting[|waiting| - 1];
    AddressesAppend(joined, x);
    assert Addresses(waiting) == Addresses(front) + [x.addr];
    assert multiset(net.nodes.Keys)[x.addr] >= 1 + multiset(net.registered)[x.addr];
    assert multiset(net'.registered) == multiset(net.registered) + multiset{x.addr};
  }

  // ---- The loop ----

  /** Where the queue and the log of joins stand after some clock readings. */
  ghost predicate Stands(sorted: seq<Joiner>, log: Log, clock: seq<nat>, q: seq<Joiner>, log': Log) {
    var n := Remaining(sorted, clock);
    && q == sorted[..n]
    && log'.joined == log.joined + JoinedOf(sorted, n)
    && log'.times == log.times + JoinReadings(sorted, clock)
  }

  /** Who was registered, and at which clock reading. */
  datatype Log = Log(joined: seq<Joiner>, times: seq<nat>)

  /** What one reading does to the queue and to the log. */
  ghost predicate JoinsNext(now: nat, q: seq<Joiner>, log: Log, q': seq<Joiner>, log': Log) {
    if q != [] && q[|q| - 1].delay < now
    then q' == q[..|q| - 1] && log' == Log(log.joined + [q[|q| - 1]], log.times + [now])
    else q' == q && log' == log
  }

  lemma StandsNext(sorted: seq<Joiner>, log0: Log, past: seq<nat>, now: nat,
                   q: seq<Joiner>, log: Log, q': seq<Joiner>, log': Log)
    requires Stands(sorted, log0, past, q, log) && JoinsNext(now, q, log, q', log')
    ensures Stands(sorted, log0, past + [now], q', log')
  {
    var n := Remaining(sorted, past);
    RemainingNext(sorted, past, now);
    if n > 0 && sorted[n - 1].delay < now {
      assert q'  == sorted[..n - 1];
      assert JoinedOf(sorted, n - 1) == JoinedOf(sorted, n) + [sorted[n - 1]];
      assert log0.joined + JoinedOf(sorted, n) + [sorted[n - 1]] == log0.joined + JoinedOf(sorted, n - 1);
      assert log0.times + JoinReadings(sorted, past) + [now] == log0.times + (JoinReadings(sorted, past) + [now]);
    }
  }

  lemma StandsAtFirst(sorted: seq<Joiner>, log: Log)
    ensures Stands(sorted, log, [], sorted, log)
  {
    assert sorted[..|sorted|] == sorted && JoinedOf(sorted, |sorted|) == [];
  }

  lemma RemainingNext(q: seq<Joiner>, past: seq<nat>, now: nat)
    ensures var n := Remaining(q, past);
            if n > 0 && q[n - 1].delay < now
            then Remaining(q, past + [now]) == n - 1 && JoinReadings(q, past + [now]) == JoinReadings(q, past) + [now]
            else Remaining(q, past + [now]) == n && JoinReadings(q, past + [now]) == JoinReadings(q, past)
  {
    assert (past + [now])[..|past|] == past;
  }

  /** What the books say: who waits and who was registered, when, and in which order. */
  ghost predicate Ledger(steps: seq<Step>, net: Net, waiting: seq<Joiner>, log: Log) {
    && Accounted(net, waiting, log.joined)
    && Registrations(steps) == Addresses(log.joined)
    && |log.times| == |log.joined|
    && forall i :: 0 <= i < |log.joined| ==> log.joined[i].delay < log.times[i]
  }

  lemma LedgerSpawn(steps: seq<Step>, net: Net, net': Net, waiting: seq<Joiner>, log: Log, x: Joiner, step: Step)
    requires Ledger(steps, net, waiting, log) && x.addr !in net.nodes && step.Spawn?
    requires net'.nodes.Keys == net.nodes.Keys + {x.addr} && net'.registered == net.registered
    ensures Ledger(steps + [step], net', waiting + [x], log)
  {
    SpawnAccounted(net, net', waiting, log.joined, x);
    assert (steps + [step])[..|steps|] == steps;
  }

  lemma LedgerJoin(steps: seq<Step>, net: Net, net': Net, waiting: seq<Joiner>, log: Log, now: nat)
    requires Ledger(steps, net, waiting, log) && waiting != [] && waiting[|waiting| - 1].delay < now
    requires net'.nodes.Keys == net.nodes.Keys
    requires net'.registered == net.registered + {waiting[|waiting| - 1].addr}
    ensures var x := waiting[|waiting| - 1];
            && x.addr in net.nodes && x.addr !in net.registered
            && Ledger(steps + [Register(x.addr)], net', waiting[..|waiting| - 1],
                      Log(log.joined + [x], log.times + [now]))
  {
    var x := waiting[|waiting| - 1];
    JoinAccounted(net, net', waiting, log.joined);
    AddressesAppend(log.joined, x);
    assert (steps + [Register(x.addr)])[..|steps|] == steps;
  }

  lemma {:induction false} WorkRegistersNobody(before: seq<Step>, all: seq<Step>)
    requires Worked(false, before, all)
    ensures Registrations(all) == Registrations(before)
    decreases |all|
  {
    if |before| < |all| { WorkRegistersNobody(before, all[..|all| - 1]); } else { assert all == before; }
  }

  lemma LedgerWork(before: seq<Step>, all: seq<Step>, net: Net, net': Net, waiting: seq<Joiner>, log: Log)
    requires Ledger(before, net, waiting, log) && Worked(false, before, all)
    requires net'.nodes.Keys == net.nodes.Keys && net'.registered == net.registered
    ensures Ledger(all, net', waiting, log)
  {
    WorkRegistersNobody(before, all);
  }

  lemma LedgerSort(steps: seq<Step>, net: Net, waiting: seq<Joiner>, log: Log)
    requires Ledger(steps, net, waiting, log)
    ensures Ledger(steps, net, SortDescending(waiting), log)
  {
    SortAddresses(waiting);
  }

  /** The run goes on with steps of workers and router, of the router only if the workers are idle. */
  ghost predicate Worked(idle: bool, before: seq<Step>, all: seq<Step>) {
    before <= all && forall i :: |before| <= i < |all| ==> IsWork(all[i]) && (idle ==> !all[i].Handle?)
  }

  /** The run goes on with work and registrations. */
  ghost predicate WentOn(before: seq<Step>, all: seq<Step>) {
    before <= all && forall i :: |before| <= i < |all| ==> IsWork(all[i]) || all[i].Register?
  }

  // ---- Schedules of the worker threads ----

  type Schedule = seq<seq<SocketAddr>>

  ghost function NextBatch(schedule: Schedule): seq<SocketAddr> { if schedule == [] then [] else schedule[0] }

  ghost predicate NamesEach(batch: seq<SocketAddr>, workers: set<SocketAddr>) {
    forall a :: a in workers ==> a in batch
  }

  /** Every batch names every worker. */
  ghost predicate NamesAll(schedule: Schedule, workers: set<SocketAddr>) {
    forall i, a :: 0 <= i < |schedule| && a in workers ==> a in schedule[i]
  }

  /** What is left of a schedule: each batch used was followed by a step, but for `extra` of them. */
  ghost predicate Spent(schedule: Schedule, left: Schedule, steps0: nat, steps1: nat, extra: int) {
    && |left| <= |schedule| && left == schedule[|schedule| - |left|..]
    && |schedule| + steps0 <= |left| + steps1 + extra
  }

  lemma SpentMore(s: Schedule, t: Schedule, u: Schedule, n0: nat, n1: nat, n2: nat, x: int, y: int)
    requires Spent(s, t, n0, n1, x) && Spent(t, u, n1, n2, y)
    ensures Spent(s, u, n0, n2, x + y)
  {}

  lemma NamesAllLeft(s: Schedule, t: Schedule, n0: nat, n1: nat, x: int, workers: set<SocketAddr>)
    requires Spent(s, t, n0, n1, x) && NamesAll(s, workers)
    ensures NamesAll(t, workers)
  {
    forall i, a | 0 <= i < |t| && a in workers ensures a in t[i] {
      assert t[i] == s[|s| - |t| + i];
    }
  }

  /** Since then the run went on with work, of the router only if the workers were idle, and the schedule was
      used up no faster than that. */
  ghost predicate Trail(steps0: seq<Step>, schedule0: Schedule, steps: seq<Step>, schedule: Schedule, extra: int) {
    Worked(schedule0 == [], steps0, steps) && Spent(schedule0, schedule, |steps0|, |steps|, extra)
  }

  lemma TrailStart(steps: seq<Step>, schedule: Schedule)
    ensures Trail(steps, schedule, steps, schedule, 0)
  {}

  lemma TrailStep(steps0: seq<Step>, schedule0: Schedule, steps: seq<Step>, schedule: Schedule, extra: int, step: Step)
    requires Trail(steps0, schedule0, steps, schedule, extra) && (step.Collect? || step.Route?)
    ensures Trail(steps0, schedule0, steps + [step], schedule, extra - 1)
  {}

  lemma TrailExtends(steps0: seq<Step>, schedule0: Schedule, steps: seq<Step>, schedule: Schedule, extra: int)
    requires Trail(steps0, schedule0, steps, schedule, extra)
    ensures steps0 <= steps && Worked(false, steps0, steps) && WorkOnly(steps0, steps)
    ensures Worked(schedule0 == [], steps0, steps) && Spent(schedule0, schedule, |steps0|, |steps|, extra)
  {}

  lemma TrailBatch(steps: seq<Step>, steps': seq<Step>, schedule: Schedule)
    requires Worked(false, steps, steps') && schedule != []
    ensures Trail(steps, schedule, steps', schedule[1..], 1)
  {}

  lemma TrailMore(s: seq<Step>, sc: Schedule, s': seq<Step>, sc': Schedule, s'': seq<Step>, sc'': Schedule,
                  x: int, y: int)
    requires Trail(s, sc, s', sc', x) && Trail(s', sc', s'', sc'', y)
    ensures Trail(s, sc, s'', sc'', x + y)
  {
    SpentMore(sc, sc', sc'', |s|, |s'|, |s''|, x, y);
    assert sc == [] ==> sc' == [];
  }

  /** Every worker has handled a letter each time it was named, as long as it had one. */
  ghost predicate HaveRead(before: Net, after: Net, names: seq<SocketAddr>) {
    forall a :: a in before.nodes && a in after.nodes ==>
      after.nodes[a].inbox == Drop(before.nodes[a].inbox, CountIn(names, a))
  }

  lemma HaveReadMore(s: Net, t: Net, u: Net, names: seq<SocketAddr>, more: seq<SocketAddr>)
    requires HaveRead(s, t, names) && HaveRead(t, u, more) && t.nodes.Keys == s.nodes.Keys
    ensures HaveRead(s, u, names + more)
  {
    forall a | a in s.nodes && a in u.nodes
      ensures u.nodes[a].inbox == Drop(s.nodes[a].inbox, CountIn(names + more, a))
    {
      CountConcat(names, more, a);
      assert u.nodes[a].inbox == Drop(t.nodes[a].inbox, CountIn(more, a));
    }
  }

  /** If everybody was named and nobody had anything to read, and every outbox was found empty, nothing is left. */
  lemma NothingDone(net: Net, names: seq<SocketAddr>, steps: seq<Step>)
    requires HaveRead(net, net, names) && NamesEach(names, net.nodes.Keys)
    requires IsRun(EMPTY, steps) && net == Final(EMPTY, steps) && net.wire == []
    requires AllEmptied(steps, steps, net.registered)
    ensures Drained(net)
  {
    forall a | a in net.nodes ensures net.nodes[a].inbox == [] && (a in net.registered ==> net.nodes[a].outbox == []) {
      assert CountIn(names, a) >= 1;
      if a in net.registered {
        assert EmptiedDuring(steps, steps, a);
        var mid :| EmptiedAt(steps, mid, steps, a);
        assert mid == steps;
      }
    }
  }

  lemma HaveReadNothing(net: Net)
    ensures HaveRead(net, net, [])
  {}

  lemma NoneEmptied(steps: seq<Step>)
    ensures AllEmptied(steps, steps, {})
  {}

  lemma EmptiedMore(before: seq<Step>, all: seq<Step>, more: seq<Step>, workers: set<SocketAddr>, a: SocketAddr)
    requires AllEmptied(before, all, workers) && before <= all <= more && IsRun(EMPTY, more)
    requires a in Final(EMPTY, more).nodes && Final(EMPTY, more).nodes[a].outbox == []
    ensures AllEmptied(before, more, workers + {a})
  {
    AllEmptiedLater(before, all, more, workers);
    EmptiedNow(before, more, a);
  }

  /** A joiner is registered at most, and then there is work. */
  lemma TurnWentOn(before: seq<Step>, joined: seq<Step>, all: seq<Step>)
    requires joined == before || exists a :: joined == before + [Register(a)]
    requires Worked(false, joined, all)
    ensures WentOn(before, all)
  {}

  lemma DrainedIdle(before: seq<Step>, all: seq<Step>)
    requires IsRun(EMPTY, before) && IsRun(EMPTY, all) && Drained(Final(EMPTY, before)) && Worked(false, before, all)
    ensures all == before
  {
    DrainedStays(before, all);
  }

  lemma CollectedOne(s: seq<Step>, sc: Schedule, s': seq<Step>, sc': Schedule, s'': seq<Step>, sc'': Schedule,
                     done: set<SocketAddr>, a: SocketAddr, extra: int)
    requires Trail(s, sc, s', sc', extra) && Trail(s', sc', s'', sc'', 0) && AllEmptied(s, s', done)
    requires IsRun(EMPTY, s'') && a in Final(EMPTY, s'').nodes && Final(EMPTY, s'').nodes[a].outbox == []
    ensures Trail(s, sc, s'', sc'', extra) && AllEmptied(s, s'', done + {a})
  {
    hide AllEmptied, Trail;
    TrailExtends(s, sc, s', sc', extra);
    TrailExtends(s', sc', s'', sc'', 0);
    EmptiedMore(s, s', s'', done, a);
    TrailMore(s, sc, s', sc', s'', sc'', extra, 0);
  }

  lemma ActedAfter(s: seq<Step>, sc: Schedule, s': seq<Step>, sc': Schedule, s'': seq<Step>, sc'': Schedule,
                   done: set<SocketAddr>, extra: int)
    requires Trail(s, sc, s', sc', extra) && Trail(s', sc', s'', sc'', 1) && AllEmptied(s, s', done)
    ensures Trail(s, sc, s'', sc'', extra + 1) && AllEmptied(s, s'', done)
  {
    hide AllEmptied, Trail;
    TrailExtends(s', sc', s'', sc'', 1);
    AllEmptiedLater(s, s', s'', done);
    TrailMore(s, sc, s', sc', s'', sc'', extra, 1);
  }

  /** What so many turns take from the schedule, beyond one batch per step. */
  ghost function TurnsCost(turns: nat, workers: nat): nat { turns * (workers + 2) }

  lemma NothingSpent(schedule: Schedule, steps: nat)
    ensures forall workers: nat :: Spent(schedule, schedule, steps, steps, TurnsCost(0, workers))
  {}

  lemma TurnSpent(s: Schedule, t: Schedule, n0: nat, joined: nat, n1: nat, net: Net)
    requires Spent(s, t, joined, n1, |net.registered| + 2) && n0 <= joined && net.registered <= net.nodes.Keys
    ensures Spent(s, t, n0, n1, |net.nodes| + 2)
  {
    SubsetSize(net.registered, net.nodes.Keys);
    assert |net.nodes.Keys| == |net.nodes|;
  }

  lemma RunSpent(s: Schedule, t: Schedule, u: Schedule, n0: nat, n1: nat, n2: nat, turns: nat, workers: nat)
    requires Spent(s, t, n0, n1, TurnsCost(turns, workers)) && Spent(t, u, n1, n2, workers + 2)
    ensures Spent(s, u, n0, n2, TurnsCost(turns + 1, workers))
  {
    SpentMore(s, t, u, n0, n1, n2, TurnsCost(turns, workers), workers + 2);
    assert TurnsCost(turns + 1, workers) == TurnsCost(turns, workers) + (workers + 2);
  }

  /** While some of the schedule is left, the next batch names everybody. */
  lemma BatchNames(s: Schedule, t: Schedule, u: Schedule, n0: nat, n1: nat, n2: nat, x: int, y: int,
                   workers: set<SocketAddr>)
    requires Spent(s, t, n0, n1, x) && Spent(t, u, n1, n2, y) && NamesAll(s, workers) && u != []
    ensures t != [] && NamesEach(NextBatch(t), workers)
  {
    NamesAllLeft(s, t, n0, n1, x, workers);
  }

  /** Everybody has joined and nothing is left to do, or every turn since has done something. */
  ghost predicate Settled(sorted: seq<Joiner>, clock: seq<nat>, steps0: nat, steps1: nat, q: seq<Joiner>, net: Net) {
    (q == [] && Drained(net)) || TurnsComplete(sorted, clock) + steps0 <= steps1
  }

  lemma SettledAtFirst(sorted: seq<Joiner>, steps: nat, net: Net)
    ensures Settled(sorted, [], steps, steps, sorted, net)
  {}

  lemma SettledNext(sorted: seq<Joiner>, past: seq<nat>, now: nat, steps0: nat, log0: Log, s: seq<Step>, q: seq<Joiner>,
                    log: Log, s': seq<Step>, q': seq<Joiner>, log': Log)
    requires IsRun(EMPTY, s) && IsRun(EMPTY, s') && s <= s'
    requires Stands(sorted, log0, past, q, log) && Stands(sorted, log0, past + [now], q', log')
    requires Settled(sorted, past, steps0, |s|, q, Final(EMPTY, s))
    requires Drained(Final(EMPTY, s')) || |s'| > |s|
    requires q == [] && Drained(Final(EMPTY, s)) ==> s' == s
    ensures Settled(sorted, past + [now], steps0, |s'|, q', Final(EMPTY, s'))
  {
    RemainingNext(sorted, past, now);
    assert (past + [now])[..|past|] == past;
  }

  /** A Ping, then a FindPeer for the worker's own id, as if from the bootstrap address. */
  ghost function StartUpMail(id: PeerId, bootstrap: Option<SocketAddr>): seq<Letter> {
    match bootstrap
    case None => []
    case Some(boot) => [Letter(boot, Ping(id)), Letter(boot, FindPeer(id))]
  }

  class WorkerSim {
    /** Workers, registered addresses and messages in the router's hands. */
    var net: Net
    var bootstrap: Option<SocketAddr>
    var addQueue: seq<Joiner>

    /** How the worker threads will be scheduled: before each further step of the router, the workers named
        next handle a letter each, in that order. Once it is used up the workers are idle. */
    var schedule: Schedule

    /** The steps taken so far, and who was registered when. */
    ghost var steps: seq<Step>
    ghost var log: Log

    /** The state is what the steps lead to. */
    ghost predicate Running()
      reads this
    {
      IsRun(EMPTY, steps) && net == Final(EMPTY, steps) && RouterOk(net)
    }

    ghost predicate Valid()
      reads this
    {
      Running() && Ledger(steps, net, addQueue, log)
    }

    constructor (schedule: Schedule)
      ensures Valid() && net == EMPTY && addQueue == [] && bootstrap == None && this.schedule == schedule
      ensures steps == [] && log == Log([], [])
    {
      net := EMPTY;
      bootstrap := None;
      addQueue := [];
      this.schedule := schedule;
      steps, log := [], Log([], []);
    }

    method SetBootstrap(addr: SocketAddr)
      requires Valid()
      modifies this`bootstrap
      ensures Valid() && bootstrap == Some(addr)
    {
      bootstrap := Some(addr);
    }

    method AddNewWorker(addr: SocketAddr, id: PeerId, delay: nat)
      requires Valid() && addr !in net.nodes
      modifies this`net, this`addQueue, this`steps
      ensures Valid() && addQueue == old(addQueue) + [Joiner(addr, delay)]
      ensures steps == old(steps) + [Spawn(addr, id, bootstrap)]
      ensures net == old(net).(nodes := old(net).nodes[addr := net.nodes[addr]])
      ensures net.nodes[addr] == Node(id, map[id := addr], StartUpMail(id, bootstrap), [])
    {
      hide Ledger;
      ghost var before, step := net, Spawn(addr, id, bootstrap);
      StepKeepsRouterOk(net, step);
      RunExtend(EMPTY, steps, step);
      net := net.(nodes := net.nodes[addr := NewNode(addr, id, bootstrap)]);
      LedgerSpawn(steps, before, net, addQueue, log, Joiner(addr, delay), step);
      steps := steps + [step];
      addQueue := addQueue + [Joiner(addr, delay)];
    }

    /** Pops the next joiner; registers it if its delay has passed, else puts it back. */
    method JoinDue(now: nat)
      requires Valid()
      modifies this`net, this`addQueue, this`steps, this`log
      ensures Valid() && JoinsNext(now, old(addQueue), old(log), addQueue, log)
      ensures log == old(log) ==> net == old(net) && steps == old(steps)
      ensures log != old(log) ==> old(addQueue) != [] && var a := old(addQueue)[|old(addQueue)| - 1].addr;
                net == old(net).(registered := old(net).registered + {a}) && steps == old(steps) + [Register(a)]
    {
      hide Ledger;
      if addQueue != [] {
        var next := addQueue[|addQueue| - 1];
        ghost var before, waiting := net, addQueue;
        addQueue := addQueue[..|addQueue| - 1];
        if next.delay < now {
          ghost var step := Register(next.addr);
          net := net.(registered := net.registered + {next.addr});
          LedgerJoin(steps, before, net, waiting, log, now);
          StepKeepsRouterOk(before, step);
          RunExtend(EMPTY, steps, step);
          steps := steps + [step];
          log := Log(log.joined + [next], log.times + [now]);
        } else {
          addQueue := addQueue + [next];
          assert addQueue == waiting;
        }
      }
    }

    /** Since then only work was done; it changes neither the workers nor who is registered. */
    ghost predicate WorkedSince(net0: Net, steps0: seq<Step>, schedule0: Schedule, extra: int)
      reads this
    {
      && Running() && Trail(steps0, schedule0, steps, schedule, extra)
      && net.registered == net0.registered && net.nodes.Keys == net0.nodes.Keys
    }

    /** One worker handles the letter at the head of its inbox, if it has one. */
    method WorkerHandles(at: SocketAddr)
      requires Running()
      modifies this`net, this`steps
      ensures Running() && Worked(false, old(steps), steps)
      ensures net == old(net).(nodes := net.nodes) && net.nodes.Keys == old(net.nodes.Keys)
      ensures HaveRead(old(net), net, [at])
      ensures |steps| == |old(steps)| + if at in old(net.nodes) && old(net.nodes[at].inbox) != [] then 1 else 0
      ensures |steps| > |old(steps)| ==> steps[|old(steps)|].Handle? && steps[|old(steps)|].at == at
    {
      if at in net.nodes && net.nodes[at].inbox != [] {
        var n := net.nodes[at];
        var orders := ListBuckets(BucketsOf(n.id, n.known));
        ghost var step := Handle(at, orders);
        StepKeepsRouterOk(net, step);
        RunExtend(EMPTY, steps, step);
        net := net.(nodes := net.nodes[at := HandleNode(n, orders)]);
        steps := steps + [step];
      }
    }

    /** The worker threads run for a while: each worker named handles a letter. */
    method WorkersAct()
      requires Running()
      modifies this`net, this`steps, this`schedule
      ensures WorkedSince(old(net), old(steps), old(schedule), 1) && net.wire == old(net.wire)
      ensures HaveRead(old(net), net, NextBatch(old(schedule)))
      ensures schedule == if old(schedule) == [] then [] else old(schedule)[1..]
      ensures old(schedule) == [] ==> net == old(net) && steps == old(steps)
    {
      hide HaveRead, IsRun, Final;
      HaveReadNothing(net);
      if schedule != [] {
        hide Trail;
        var batch := schedule[0];
        schedule := schedule[1..];
        assert batch[..0] == [];
        for i := 0 to |batch|
          invariant Running() && Worked(false, old(steps), steps) && schedule == old(schedule)[1..]
          invariant net == old(net).(nodes := net.nodes) && net.nodes.Keys == old(net.nodes.Keys)
          invariant HaveRead(old(net), net, batch[..i])
        {
          ghost var before := net;
          WorkerHandles(batch[i]);
          HaveReadMore(old(net), before, net, batch[..i], [batch[i]]);
          assert batch[..i + 1] == batch[..i] + [batch[i]];
        }
        assert batch[..|batch|] == batch;
        TrailBatch(old(steps), steps, old(schedule));
      }
    }

    /** One step of the router, and then the worker threads run for a while. */
    method RouterStep(step: Step, ghost net0: Net, ghost steps0: seq<Step>, ghost schedule0: Schedule)
      requires WorkedSince(net0, steps0, schedule0, 0) && Enabled(net, step) && (step.Collect? || step.Route?)
      modifies this`net, this`steps, this`schedule
      ensures WorkedSince(net0, steps0, schedule0, 0)
      ensures net.wire == (if step.Collect? then CollectFrom(old(net), step.at) else RouteFirst(old(net))).wire
      ensures schedule == if old(schedule) == [] then [] else old(schedule)[1..]
      ensures old(schedule) == [] ==>
                net == if step.Collect? then CollectFrom(old(net), step.at) else RouteFirst(old(net))
    {
      hide HaveRead, IsRun, Final, Trail;
      StepKeepsRouterOk(net, step);
      RunExtend(EMPTY, steps, step);
      TrailStep(steps0, schedule0, steps, schedule, 0, step);
      net := if step.Collect? then CollectFrom(net, step.at) else RouteFirst(net);
      steps := steps + [step];
      ghost var s, left := steps, schedule;
      WorkersAct();
      TrailMore(steps0, schedule0, s, left, steps, schedule, -1, 1);
    }

    /** Takes the whole outbox of one worker. */
    method CollectAll(a: SocketAddr)
      requires Running() && a in net.registered
      modifies this`net, this`steps, this`schedule
      ensures WorkedSince(old(net), old(steps), old(schedule), 0) && net.nodes[a].outbox == []
      ensures old(schedule) == [] ==>
                schedule == [] && forall b :: b in net.nodes && b != a ==> net.nodes[b] == old(net.nodes[b])
    {
      hide IsRun, Final, Trail;
      TrailStart(steps, schedule);
      while net.nodes[a].outbox != []
        invariant WorkedSince(old(net), old(steps), old(schedule), 0)
        invariant old(schedule) == [] ==>
                    schedule == [] && forall b :: b in net.nodes && b != a ==> net.nodes[b] == old(net.nodes[b])
        decreases |schedule|, |net.nodes[a].outbox|
      {
        RouterStep(Collect(a), old(net), old(steps), old(schedule));
      }
    }

    /** Delivers or drops everything in the router's hands. */
    method DeliverAll()
      requires Running()
      modifies this`net, this`steps, this`schedule
      ensures WorkedSince(old(net), old(steps), old(schedule), 0) && net.wire == []
      ensures old(schedule) == [] ==>
                schedule == [] && forall a :: a in net.nodes ==> net.nodes[a].outbox == old(net.nodes[a].outbox)
    {
      hide IsRun, Final, Trail;
      TrailStart(steps, schedule);
      while net.wire != []
        invariant WorkedSince(old(net), old(steps), old(schedule), 0)
        invariant old(schedule) == [] ==>
                    schedule == [] && forall a :: a in net.nodes ==> net.nodes[a].outbox == old(net.nodes[a].outbox)
        decreases |net.wire|
      {
        RouterStep(Route, old(net), old(steps), old(schedule));
      }
    }

    /** The router has nothing in hand and no registered worker has mail waiting to be collected. */
    ghost predicate Swept()
      requires Running()
      reads this
    {
      net.wire == [] && forall a :: a in net.registered ==> net.nodes[a].outbox == []
    }

    /** Collects from every registered worker. */
    method CollectRound()
      requires Running()
      modifies this`net, this`steps, this`schedule
      ensures WorkedSince(old(net), old(steps), old(schedule), |net.registered|)
      ensures AllEmptied(old(steps), steps, net.registered)
      ensures old(schedule) == [] ==> schedule == [] && forall a :: a in net.registered ==> net.nodes[a].outbox == []
    {
      hide HaveRead, AllEmptied, Trail, IsRun, Final;
      var rest := net.registered;
      NoneEmptied(steps);
      TrailStart(steps, schedule);
      assert net.registered - rest == {};
      while rest != {}
        invariant WorkedSince(old(net), old(steps), old(schedule), |net.registered| - |rest|) && rest <= net.registered
        invariant AllEmptied(old(steps), steps, net.registered - rest)
        invariant old(schedule) == [] ==>
                    schedule == [] && forall a :: a in net.registered - rest ==> net.nodes[a].outbox == []
        decreases rest
      {
        var a :| a in rest;
        CollectOne(a, old(steps), old(schedule), net.registered - rest, |net.registered| - |rest|);
        assert net.registered - rest + {a} == net.registered - (rest - {a});
        rest := rest - {a};
      }
      assert net.registered - rest == net.registered;
    }

    /** One worker's turn in that round. */
    method CollectOne(a: SocketAddr, ghost steps0: seq<Step>, ghost schedule0: Schedule, ghost done: set<SocketAddr>,
                      ghost extra: int)
      requires Running() && a in net.registered && done <= net.registered
      requires Trail(steps0, schedule0, steps, schedule, extra) && AllEmptied(steps0, steps, done)
      requires schedule0 == [] ==> schedule == [] && forall b :: b in done ==> net.nodes[b].outbox == []
      modifies this`net, this`steps, this`schedule
      ensures Running() && net.registered == old(net.registered) && net.nodes.Keys == old(net.nodes.Keys)
      ensures Trail(steps0, schedule0, steps, schedule, extra + 1) && AllEmptied(steps0, steps, done + {a})
      ensures schedule0 == [] ==> schedule == [] && forall b :: b in done + {a} ==> net.nodes[b].outbox == []
    {
      hide HaveRead, AllEmptied, Trail, IsRun, Final, NextBatch;
      ghost var s1, left1 := steps, schedule;
      CollectAll(a);
      ghost var s2, left2 := steps, schedule;
      CollectedOne(steps0, schedule0, s1, left1, s2, left2, done, a, extra);
      WorkersAct();
      ActedAfter(steps0, schedule0, s2, left2, steps, schedule, done + {a}, extra);
    }

    /** One round of the router: collect from every registered worker, then deliver or drop everything. By its
        end all that was on its way between two registered workers when it began has been handled or is in the
        inbox, in order; with the workers idle, exactly that is in the inbox. */
    method RouteRound()
      requires Running()
      modifies this`net, this`steps, this`schedule
      ensures WorkedSince(old(net), old(steps), old(schedule), |net.registered|) && net.wire == []
      ensures AllEmptied(old(steps), steps, net.registered)
      ensures forall a, b :: a in net.registered && b in net.registered ==> HasArrived(old(steps), steps, a, b)
      ensures old(schedule) == [] ==>
                && schedule == [] && Swept()
                && forall a, b :: a in net.registered && b in net.registered ==>
                     InboxPart(net, a, b) == Path(old(net), a, b)
    {
      hide AllEmptied, HasArrived, Trail, IsRun, Final;
      CollectRound();
      ghost var s, left := steps, schedule;
      DeliverAll();
      TrailMore(old(steps), old(schedule), s, left, steps, schedule, |net.registered|, 0);
      TrailExtends(s, left, steps, schedule, 0);
      TrailExtends(old(steps), old(schedule), steps, schedule, |net.registered|);
      AllEmptiedLater(old(steps), s, steps, net.registered);
      AllArrive(old(steps), steps);
      if old(schedule) == [] { Arrive(old(steps)); }
    }

    lemma Arrive(before: seq<Step>)
      requires Running() && Swept() && IsRun(EMPTY, before) && Worked(true, before, steps)
      ensures var s := Final(EMPTY, before);
              && s.registered == net.registered && s.registered <= s.nodes.Keys
              && forall a, b :: a in net.registered && b in net.registered ==> InboxPart(net, a, b) == Path(s, a, b)
    {
      var s := Final(EMPTY, before);
      WorkKeepsWorkers(before, steps);
      RunKeepsRouterOk(EMPTY, before);
      assert RouterOnly(before, steps);
      forall a, b | a in net.registered && b in net.registered ensures InboxPart(net, a, b) == Path(s, a, b) {
        RouterKeepsPath(before, steps, a, b);
        assert OutPackets(a, net.nodes[a].outbox) == [];
      }
    }

    method SortQueue()
      requires Valid()
      modifies this`addQueue
      ensures Valid() && addQueue == SortDescending(old(addQueue))
    {
      LedgerSort(steps, net, addQueue, log);
      addQueue := SortDescending(addQueue);
    }

    /** Workers and router work, and nobody joins meanwhile. If every worker is named first, then something is
        done or there was nothing to do. */
    method Work()
      requires Valid()
      modifies this`net, this`steps, this`schedule
      ensures Valid() && WorkedSince(old(net), old(steps), old(schedule), |net.registered| + 1) && net.wire == []
      ensures old(schedule) == [] ==> schedule == [] && Swept()
      ensures NamesEach(NextBatch(old(schedule)), net.nodes.Keys) ==>
                Drained(net) || |steps| > |old(steps)|
    {
      hide Ledger, HaveRead, AllEmptied, HasArrived, Trail, IsRun, Final, Drained, NamesEach;
      WorkersAct();
      ghost var n, s, left := net, steps, schedule;
      RouteRound();
      TrailMore(old(steps), old(schedule), s, left, steps, schedule, 1, |net.registered|);
      TrailExtends(old(steps), old(schedule), s, left, 1);
      TrailExtends(s, left, steps, schedule, |net.registered|);
      TrailExtends(old(steps), old(schedule), steps, schedule, |net.registered| + 1);
      LedgerWork(old(steps), steps, old(net), net, addQueue, log);
      if |steps| == |old(steps)| && NamesEach(NextBatch(old(schedule)), net.nodes.Keys) {
        assert steps == s == old(steps);
        NothingDone(net, NextBatch(old(schedule)), steps);
      }
    }

    /** The router sleeps, the workers do not. */
    method Pause()
      requires Valid()
      modifies this`net, this`steps, this`schedule
      ensures Valid() && WorkedSince(old(net), old(steps), old(schedule), 1) && net.wire == old(net.wire)
      ensures HaveRead(old(net), net, NextBatch(old(schedule)))
      ensures old(schedule) == [] ==> schedule == [] && net == old(net)
    {
      hide Ledger, HaveRead, Trail, IsRun, Final;
      WorkersAct();
      TrailExtends(old(steps), old(schedule), steps, schedule, 1);
      LedgerWork(old(steps), steps, old(net), net, addQueue, log);
    }

    /** What a turn does once it has looked at the queue. */
    method WorkAndPause()
      requires Valid()
      modifies this`net, this`steps, this`schedule
      ensures Valid() && WorkedSince(old(net), old(steps), old(schedule), |net.registered| + 2) && net.wire == []
      ensures old(schedule) == [] ==> schedule == [] && Swept()
      ensures NamesEach(NextBatch(old(schedule)), net.nodes.Keys) ==>
                Drained(net) || |steps| > |old(steps)|
      ensures Drained(old(net)) ==> steps == old(steps)
    {
      hide Ledger, HaveRead, Trail, IsRun, Final, Drained, Worked, WorkOnly, Spent, NamesEach;
      Work();
      ghost var s, left := steps, schedule;
      Pause();
      TrailMore(old(steps), old(schedule), s, left, steps, schedule, |net.registered| + 1, 1);
      TrailExtends(old(steps), old(schedule), s, left, |net.registered| + 1);
      TrailExtends(s, left, steps, schedule, 1);
      if Drained(Final(EMPTY, s)) { DrainedIdle(s, steps); }
      if Drained(old(net)) { DrainedIdle(old(steps), s); }
    }

    /** One turn of the main loop. */
    method Turn(now: nat, ghost sorted: seq<Joiner>, ghost log0: Log, ghost past: seq<nat>)
      requires Valid() && Stands(sorted, log0, past, addQueue, log)
      modifies this`net, this`addQueue, this`steps, this`log, this`schedule
      ensures Valid() && Stands(sorted, log0, past + [now], addQueue, log)
      ensures WentOn(old(steps), steps) && net.nodes.Keys == old(net.nodes.Keys) && net.wire == []
      ensures Spent(old(schedule), schedule, |old(steps)|, |steps|, |net.nodes| + 2)
      ensures old(schedule) == [] ==> schedule == [] && Swept()
      ensures NamesEach(NextBatch(old(schedule)), net.nodes.Keys) ==>
                Drained(net) || |steps| > |old(steps)|
      ensures old(addQueue) == [] && Drained(old(net)) ==> steps == old(steps)
    {
      hide Ledger, Stands, Spent, Trail, IsRun, Final, Drained, WentOn, Worked, WorkOnly, NamesEach;
      ghost var q, l := addQueue, log;
      JoinDue(now);
      StandsNext(sorted, log0, past, now, q, l, addQueue, log);
      ghost var s := steps;
      WorkAndPause();
      TrailExtends(s, old(schedule), steps, schedule, |net.registered| + 2);
      TurnWentOn(old(steps), s, steps);
      TurnSpent(old(schedule), schedule, |old(steps)|, |s|, |steps|, net);
    }

    /** The main loop, one turn per clock reading. */
    method Run(clock: seq<nat>)
      requires Valid()
      modifies this`net, this`addQueue, this`steps, this`log, this`schedule
      ensures Valid() && Stands(SortDescending(old(addQueue)), old(log), clock, addQueue, log)
      ensures WentOn(old(steps), steps) && net.nodes.Keys == old(net.nodes.Keys)
      ensures clock != [] ==> net.wire == [] && (old(schedule) == [] ==> Swept())
      ensures Spent(old(schedule), schedule, |old(steps)|, |steps|, TurnsCost(|clock|, |net.nodes|))
      ensures NamesAll(old(schedule), net.nodes.Keys) && schedule != [] ==>
                Settled(SortDescending(old(addQueue)), clock, |old(steps)|, |steps|, addQueue, net)
    {
      hide Ledger, Stands, Spent, Settled, IsRun, Final, Drained, TurnsCost, NamesEach;
      SortQueue();
      ghost var sorted := addQueue;
      StandsAtFirst(sorted, log);
      SettledAtFirst(sorted, |steps|, net);
      NothingSpent(schedule, |steps|);
      assert clock[..0] == [];
      for turn := 0 to |clock|
        invariant Valid() && Stands(sorted, old(log), clock[..turn], addQueue, log)
        invariant WentOn(old(steps), steps) && net.nodes.Keys == old(net.nodes.Keys)
        invariant old(schedule) == [] ==> schedule == []
        invariant turn > 0 ==> net.wire == [] && (old(schedule) == [] ==> Swept())
        invariant Spent(old(schedule), schedule, |old(steps)|, |steps|, TurnsCost(turn, |net.nodes|))
        invariant NamesAll(old(schedule), net.nodes.Keys) && schedule != [] ==>
                    Settled(sorted, clock[..turn], |old(steps)|, |steps|, addQueue, net)
      {
        ghost var q, l, s, left := addQueue, log, steps, schedule;
        Turn(clock[turn], sorted, old(log), clock[..turn]);
        assert clock[..turn] + [clock[turn]] == clock[..turn + 1];
        RunSpent(old(schedule), left, schedule, |old(steps)|, |s|, |steps|, turn, |net.nodes|);
        if NamesAll(old(schedule), net.nodes.Keys) && schedule != [] {
          BatchNames(old(schedule), left, schedule, |old(steps)|, |s|, |steps|, TurnsCost(turn, |net.nodes|),
                     |net.nodes| + 2, net.nodes.Keys);
          SettledNext(sorted, clock[..turn], clock[turn], |old(steps)|, old(log), s, q, l, steps, addQueue, log);
        }
      }
      assert clock[..|clock|] == clock;
    }
  }
}
