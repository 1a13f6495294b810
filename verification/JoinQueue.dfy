/** The queue of workers waiting to be registered (src/bin/sim.rs). */
module JoinQueue {
  import opened PeerTypes

  /** A worker waiting to be registered, with its delay. */
  datatype Joiner = Joiner(addr: SocketAddr, delay: nat)

  // ---- The stable sort by descending delay ----

  ghost predicate Descending(q: seq<Joiner>) {
    forall i, j :: 0 <= i < j < |q| ==> q[i].delay >= q[j].delay
  }

  /** Behind everyone with at least the same delay. */
  function InsertDescending(q: seq<Joiner>, x: Joiner): seq<Joiner> {
    if q == [] || q[|q| - 1].delay >= x.delay then q + [x]
    else InsertDescending(q[..|q| - 1], x) + [q[|q| - 1]]
  }

  function SortDescending(q: seq<Joiner>): seq<Joiner> {
    if q == [] then [] else InsertDescending(SortDescending(q[..|q| - 1]), q[|q| - 1])
  }

  /** Those with a given delay, in queue order. */
  ghost function WithDelay(q: seq<Joiner>, d: nat): seq<Joiner> {
    if q == [] then []
    else WithDelay(q[..|q| - 1], d) + (if q[|q| - 1].delay == d then [q[|q| - 1]] else [])
  }

  lemma WithDelayLast(q: seq<Joiner>, x: Joiner, d: nat)
    ensures WithDelay(q + [x], d) == WithDelay(q, d) + (if x.delay == d then [x] else [])
  {}

  lemma {:induction false} InsertContents(q: seq<Joiner>, x: Joiner)
    ensures multiset(InsertDescending(q, x)) == multiset(q) + multiset{x}
  {
    if q == [] || q[|q| - 1].delay >= x.delay {
    } else {
      InsertContents(q[..|q| - 1], x);
      assert q == q[..|q| - 1] + [q[|q| - 1]];
    }
  }

  /** A lower bound on a queue's delays survives an insertion that respects it. */
  lemma {:induction false} InsertBound(q: seq<Joiner>, x: Joiner, d: nat)
    requires x.delay >= d && forall i :: 0 <= i < |q| ==> q[i].delay >= d
    ensures forall i :: 0 <= i < |InsertDescending(q, x)| ==> InsertDescending(q, x)[i].delay >= d
  {
    if q == [] || q[|q| - 1].delay >= x.delay {
    } else {
      InsertBound(q[..|q| - 1], x, d);
    }
  }

  lemma {:induction false} InsertKeepsDescending(q: seq<Joiner>, x: Joiner)
    requires Descending(q)
    ensures Descending(InsertDescending(q, x))
  {
    if q == [] || q[|q| - 1].delay >= x.delay {
    } else {
      InsertKeepsDescending(q[..|q| - 1], x);
      InsertBound(q[..|q| - 1], x, q[|q| - 1].delay);
    }
  }

  lemma {:induction false} InsertStable(q: seq<Joiner>, x: Joiner, d: nat)
    requires Descending(q)
    ensures WithDelay(InsertDescending(q, x), d) == WithDelay(q, d) + (if x.delay == d then [x] else [])
  {
    if q == [] || q[|q| - 1].delay >= x.delay {
      WithDelayLast(q, x, d);
    } else {
      var front, z := q[..|q| - 1], q[|q| - 1];
      InsertStable(front, x, d);
      WithDelayLast(InsertDescending(front, x), z, d);
    }
  }

  /** The sort orders by descending delay, keeps everyone, and keeps ties in order. */
  lemma {:induction false} SortSorts(q: seq<Joiner>, d: nat)
    ensures Descending(SortDescending(q))
    ensures multiset(SortDescending(q)) == multiset(q)
    ensures WithDelay(SortDescending(q), d) == WithDelay(q, d)
  {
    if q == [] {
    } else {
      var front, x := q[..|q| - 1], q[|q| - 1];
      SortSorts(front, d);
      InsertContents(SortDescending(front), x);
      InsertKeepsDescending(SortDescending(front), x);
      InsertStable(SortDescending(front), x, d);
      assert q == front + [x];
    }
  }

  // ---- Who is still waiting after a series of clock readings ----

  /** How many of a sorted queue remain: each reading admits at most the last one, if it is overdue. */
  function Remaining(q: seq<Joiner>, clock: seq<nat>): (n: nat)
    ensures n <= |q|
  {
    if clock == [] then |q|
    else
      var n := Remaining(q, clock[..|clock| - 1]);
      if n > 0 && q[n - 1].delay < clock[|clock| - 1] then n - 1 else n
  }

  function Reversed(q: seq<Joiner>): (r: seq<Joiner>)
    ensures |r| == |q|
    ensures forall i :: 0 <= i < |q| ==> r[i] == q[|q| - 1 - i]
  {
    if q == [] then [] else [q[|q| - 1]] + Reversed(q[..|q| - 1])
  }

  /** Those who have joined, earliest first. */
  ghost function JoinedOf(q: seq<Joiner>, n: nat): seq<Joiner>
    requires n <= |q|
  {
    Reversed(q[n..])
  }

  lemma {:induction false} ReversedContents(q: seq<Joiner>)
    ensures multiset(Reversed(q)) == multiset(q)
  {
    if q == [] {
    } else {
      ReversedContents(q[..|q| - 1]);
      assert q == q[..|q| - 1] + [q[|q| - 1]];
    }
  }

  lemma JoinedAscending(sorted: seq<Joiner>, n: nat)
    requires n <= |sorted| && Descending(sorted)
    ensures var joined := JoinedOf(sorted, n);
            && (forall i, j :: 0 <= i < j < |joined| ==> joined[i].delay <= joined[j].delay)
            && (forall i, j :: 0 <= i < |joined| && 0 <= j < n ==> joined[i].delay <= sorted[j].delay)
  {}

  lemma JoinedConserves(sorted: seq<Joiner>, n: nat)
    requires n <= |sorted|
    ensures multiset(sorted[..n]) + multiset(JoinedOf(sorted, n)) == multiset(sorted)
  {
    ReversedContents(sorted[n..]);
    assert sorted == sorted[..n] + sorted[n..];
  }

  /** Joining is in order of delay, nobody overtakes a shorter delay, and nobody is lost or joins twice. */
  lemma JoinsInOrder(q: seq<Joiner>, n: nat)
    requires n <= |SortDescending(q)|
    ensures var sorted := SortDescending(q);
            var joined := JoinedOf(sorted, n);
            && (forall i, j :: 0 <= i < j < |joined| ==> joined[i].delay <= joined[j].delay)
            && (forall i, j :: 0 <= i < |joined| && 0 <= j < n ==> joined[i].delay <= sorted[j].delay)
            && multiset(sorted[..n]) + multiset(joined) == multiset(q)
  {
    SortSorts(q, 0);
    JoinedAscending(SortDescending(q), n);
    JoinedConserves(SortDescending(q), n);
  }

  /** Readings later than everyone's delay. */
  ghost function CountLate(q: seq<Joiner>, clock: seq<nat>): nat {
    if clock == [] then 0
    else CountLate(q, clock[..|clock| - 1]) +
         (if forall i :: 0 <= i < |q| ==> q[i].delay < clock[|clock| - 1] then 1 else 0)
  }

  /** How many readings found everybody joined, or joining with that reading. */
  ghost function TurnsComplete(q: seq<Joiner>, clock: seq<nat>): nat {
    if clock == [] then 0
    else TurnsComplete(q, clock[..|clock| - 1]) + if Remaining(q, clock) == 0 then 1 else 0
  }

  /** Every late reading admits somebody or finds everybody joined, so as many late readings as there are
      joiners empty the queue. */
  lemma {:induction false} EveryoneJoins(q: seq<Joiner>, clock: seq<nat>)
    ensures Remaining(q, clock) + CountLate(q, clock) <= |q| + TurnsComplete(q, clock)
    ensures Remaining(q, clock) > 0 ==> TurnsComplete(q, clock) == 0
  {
    if clock == [] {
    } else {
      EveryoneJoins(q, clock[..|clock| - 1]);
    }
  }

  /** The turns at which somebody was admitted, and the readings that did it. */
  ghost function JoinTurns(q: seq<Joiner>, clock: seq<nat>): seq<nat> {
    if clock == [] then []
    else
      var past := clock[..|clock| - 1];
      JoinTurns(q, past) + if Remaining(q, clock) < Remaining(q, past) then [|past|] else []
  }

  ghost function JoinReadings(q: seq<Joiner>, clock: seq<nat>): seq<nat> {
    if clock == [] then []
    else
      var past, now := clock[..|clock| - 1], clock[|clock| - 1];
      JoinReadings(q, past) + if Remaining(q, clock) < Remaining(q, past) then [now] else []
  }

  /** The first turn at which the `i`-th joiner can be admitted. */
  ghost function Earliest(turns: seq<nat>, i: nat): nat
    requires i <= |turns|
  {
    if i == 0 then 0 else turns[i - 1] + 1
  }

  /** At none of these turns is a joiner with this delay due. */
  ghost predicate NotDue(clock: seq<nat>, from: nat, to: nat, delay: nat) {
    forall t :: from <= t < to && t < |clock| ==> clock[t] <= delay
  }

  /** The turns are increasing, and the `i`-th joiner is admitted at the first turn after the one before it at
      which its delay has passed. */
  ghost predicate AdmittedWhenDue(joined: seq<Joiner>, clock: seq<nat>, turns: seq<nat>) {
    && |turns| == |joined|
    && forall i: nat {:trigger joined[i]} :: i < |joined| ==>
         && Earliest(turns, i) <= turns[i] < |clock|
         && joined[i].delay < clock[turns[i]] && NotDue(clock, Earliest(turns, i), turns[i], joined[i].delay)
  }

  /** The first joiners of a queue were admitted at these turns, each as early as possible, and of the `n` who
      wait the next one was not due since. */
  ghost predicate Punctual(q: seq<Joiner>, clock: seq<nat>, n: nat, turns: seq<nat>)
    requires n <= |q|
  {
    && AdmittedWhenDue(JoinedOf(q, n), clock, turns)
    && Earliest(turns, |turns|) <= |clock|
    && (n > 0 ==> NotDue(clock, Earliest(turns, |turns|), |clock|, q[n - 1].delay))
  }

  lemma PunctualJoin(q: seq<Joiner>, past: seq<nat>, now: nat, n: nat, turns: seq<nat>)
    requires 0 < n <= |q| && Punctual(q, past, n, turns) && q[n - 1].delay < now
    ensures Punctual(q, past + [now], n - 1, turns + [|past|])
  {
    hide AdmittedWhenDue;
    AdmittedLater(JoinedOf(q, n), past, past + [now], turns);
    AdmittedNext(JoinedOf(q, n), past + [now], turns, q[n - 1], |past|);
    JoinedNext(q, n);
  }

  lemma PunctualWait(q: seq<Joiner>, past: seq<nat>, now: nat, n: nat, turns: seq<nat>)
    requires n <= |q| && Punctual(q, past, n, turns) && (n > 0 ==> q[n - 1].delay >= now)
    ensures Punctual(q, past + [now], n, turns)
  {
    hide AdmittedWhenDue;
    AdmittedLater(JoinedOf(q, n), past, past + [now], turns);
  }

  lemma JoinedNext(q: seq<Joiner>, n: nat)
    requires 0 < n <= |q|
    ensures JoinedOf(q, n - 1) == JoinedOf(q, n) + [q[n - 1]]
  {}

  /** Every joiner is admitted at exactly the first turn it can be, and whoever is next was not due since. */
  lemma {:induction false} JoinsWhenDue(q: seq<Joiner>, clock: seq<nat>)
    ensures Punctual(q, clock, Remaining(q, clock), JoinTurns(q, clock))
  {
    if clock == [] {
      assert JoinedOf(q, |q|) == [];
    } else {
      hide Punctual;
      var past, now := clock[..|clock| - 1], clock[|clock| - 1];
      JoinsWhenDue(q, past);
      assert clock == past + [now];
      var n := Remaining(q, past);
      if n > 0 && q[n - 1].delay < now {
        PunctualJoin(q, past, now, n, JoinTurns(q, past));
      } else {
        PunctualWait(q, past, now, n, JoinTurns(q, past));
      }
    }
  }

  lemma AdmittedLater(joined: seq<Joiner>, past: seq<nat>, clock: seq<nat>, turns: seq<nat>)
    requires AdmittedWhenDue(joined, past, turns) && past <= clock
    ensures AdmittedWhenDue(joined, clock, turns)
  {
    forall i: nat | i < |joined|
      ensures Earliest(turns, i) <= turns[i] < |clock|
      ensures joined[i].delay < clock[turns[i]] && NotDue(clock, Earliest(turns, i), turns[i], joined[i].delay)
    {
      assert joined[i].delay < past[turns[i]];
    }
  }

  lemma AdmittedNext(joined: seq<Joiner>, clock: seq<nat>, turns: seq<nat>, x: Joiner, t: nat)
    requires AdmittedWhenDue(joined, clock, turns) && Earliest(turns, |turns|) <= t < |clock|
    requires x.delay < clock[t] && NotDue(clock, Earliest(turns, |turns|), t, x.delay)
    ensures AdmittedWhenDue(joined + [x], clock, turns + [t])
  {
    forall i: nat | i < |joined| + 1
      ensures Earliest(turns + [t], i) <= (turns + [t])[i] < |clock|
      ensures (joined + [x])[i].delay < clock[(turns + [t])[i]]
      ensures NotDue(clock, Earliest(turns + [t], i), (turns + [t])[i], (joined + [x])[i].delay)
    {
      if i < |joined| { assert (joined + [x])[i] == joined[i]; }
    }
  }

  /** The readings logged are those of the turns. */
  lemma {:induction false} ReadingsOfTurns(q: seq<Joiner>, clock: seq<nat>)
    ensures var turns, readings := JoinTurns(q, clock), JoinReadings(q, clock);
            && |readings| == |turns|
            && forall i :: 0 <= i < |turns| ==> turns[i] < |clock| && readings[i] == clock[turns[i]]
  {
    if clock == [] {
    } else {
      ReadingsOfTurns(q, clock[..|clock| - 1]);
    }
  }

  /** A way to admit the first of the queue, one per turn, in order, nobody too early. */
  ghost predicate Admission(q: seq<Joiner>, clock: seq<nat>, turns: seq<nat>) {
    && |turns| <= |q|
    && (forall i, j :: 0 <= i < j < |turns| ==> turns[i] < turns[j])
    && forall i :: 0 <= i < |turns| ==> turns[i] < |clock| && q[|q| - 1 - i].delay < clock[turns[i]]
  }

  lemma AdmissionNeedsReadings(q: seq<Joiner>, clock: seq<nat>, turns: seq<nat>)
    requires Admission(q, clock, turns)
    ensures turns == [] || clock != []
  {
    if turns != [] { assert turns[0] < |clock|; }
  }

  /** No way of admitting them does better than the loop. */
  lemma {:induction false} LoopIsBest(q: seq<Joiner>, clock: seq<nat>, turns: seq<nat>)
    requires Admission(q, clock, turns)
    ensures |turns| + Remaining(q, clock) <= |q|
  {
    if clock == [] {
      AdmissionNeedsReadings(q, clock, turns);
    } else {
      var past, m := clock[..|clock| - 1], |turns|;
      if m > 0 && turns[m - 1] == |past| {
        assert Admission(q, past, turns[..m - 1]);
        LoopIsBest(q, past, turns[..m - 1]);
      } else {
        assert m > 0 ==> forall i :: 0 <= i < m ==> turns[i] <= turns[m - 1];
        LoopIsBest(q, past, turns);
      }
    }
  }

  /** At least `m` have joined exactly when the readings allow it at all; with `m` the length of the queue: when
      exactly the queue is empty. */
  lemma JoinCountIff(q: seq<Joiner>, clock: seq<nat>, m: nat)
    ensures m + Remaining(q, clock) <= |q| <==> exists turns :: Admission(q, clock, turns) && |turns| == m
  {
    hide Admission;
    if m + Remaining(q, clock) <= |q| {
      LoopAdmits(q, clock);
      AdmissionFewer(q, clock, JoinTurns(q, clock), m);
    }
    if turns :| Admission(q, clock, turns) && |turns| == m { LoopIsBest(q, clock, turns); }
  }

  /** What the loop does is such a way. */
  lemma LoopAdmits(q: seq<Joiner>, clock: seq<nat>)
    ensures Admission(q, clock, JoinTurns(q, clock)) && |JoinTurns(q, clock)| == |q| - Remaining(q, clock)
  {
    var turns, joined := JoinTurns(q, clock), JoinedOf(q, Remaining(q, clock));
    JoinsWhenDue(q, clock);
    TurnsIncrease(joined, clock, turns);
    forall i | 0 <= i < |turns| ensures turns[i] < |clock| && q[|q| - 1 - i].delay < clock[turns[i]] {
      assert joined[i] == q[|q| - 1 - i];
    }
  }

  lemma AdmissionFewer(q: seq<Joiner>, clock: seq<nat>, turns: seq<nat>, m: nat)
    requires Admission(q, clock, turns) && m <= |turns|
    ensures Admission(q, clock, turns[..m])
  {}

  lemma {:induction false} TurnsIncrease(joined: seq<Joiner>, clock: seq<nat>, turns: seq<nat>)
    requires AdmittedWhenDue(joined, clock, turns)
    ensures forall i, j :: 0 <= i < j < |turns| ==> turns[i] < turns[j]
  {
    if turns == [] {
    } else {
      var n := |turns| - 1;
      assert AdmittedWhenDue(joined[..n], clock, turns[..n]) by { AdmittedFewer(joined, clock, turns, n); }
      TurnsIncrease(joined[..n], clock, turns[..n]);
      assert Earliest(turns, n) <= turns[n] by { assert joined[n] == joined[n]; }
    }
  }

  lemma AdmittedFewer(joined: seq<Joiner>, clock: seq<nat>, turns: seq<nat>, n: nat)
    requires AdmittedWhenDue(joined, clock, turns) && n <= |joined|
    ensures AdmittedWhenDue(joined[..n], clock, turns[..n])
  {
    forall i: nat | i < n
      ensures Earliest(turns[..n], i) <= turns[..n][i] < |clock|
      ensures joined[..n][i].delay < clock[turns[..n][i]]
      ensures NotDue(clock, Earliest(turns[..n], i), turns[..n][i], joined[..n][i].delay)
    {
      assert joined[..n][i] == joined[i];
    }
  }

  // ---- Who joins first ----

  /** Nobody else has a shorter delay, and nobody behind in the queue has the same. */
  ghost predicate FirstOut(q: seq<Joiner>, i: nat) {
    i < |q| && forall j :: 0 <= j < |q| ==> q[i].delay <= q[j].delay && (j > i ==> q[i].delay < q[j].delay)
  }

  ghost predicate FirstToJoin(q: seq<Joiner>, addr: SocketAddr) {
    exists i: nat :: FirstOut(q, i) && q[i].addr == addr
  }

  lemma SortSize(q: seq<Joiner>)
    ensures |SortDescending(q)| == |q|
  {
    SortSorts(q, 0);
    assert |multiset(SortDescending(q))| == |SortDescending(q)| && |multiset(q)| == |q|;
  }

  lemma {:induction false} InsertSize(q: seq<Joiner>, x: Joiner)
    ensures |InsertDescending(q, x)| == |q| + 1
    ensures InsertDescending(q, x)[|q|] == if q == [] || q[|q| - 1].delay >= x.delay then x else q[|q| - 1]
  {
    if q == [] || q[|q| - 1].delay >= x.delay {
    } else {
      InsertSize(q[..|q| - 1], x);
    }
  }

  /** The last of a sorted queue was in the queue. */
  lemma SortedLastIsMember(q: seq<Joiner>)
    requires q != []
    ensures |SortDescending(q)| == |q| && SortDescending(q)[|q| - 1] in q
  {
    SortSize(q);
    SortSorts(q, 0);
    assert SortDescending(q)[|q| - 1] in multiset(q);
  }

  lemma {:induction false} FirstOutSortedLast(q: seq<Joiner>, i: nat)
    requires FirstOut(q, i)
    ensures |SortDescending(q)| == |q| && SortDescending(q)[|q| - 1] == q[i]
  {
    hide InsertDescending;
    var front, x := q[..|q| - 1], q[|q| - 1];
    SortSize(front);
    InsertSize(SortDescending(front), x);
    if i < |front| {
      FirstOutSortedLast(front, i);
    } else if front != [] {
      SortedLastIsMember(front);
    }
  }

  lemma {:induction false} FirstOutExists(q: seq<Joiner>) returns (i: nat)
    requires q != []
    ensures FirstOut(q, i)
  {
    var n := |q| - 1;
    if n == 0 {
      i := 0;
    } else {
      i := FirstOutExists(q[..n]);
      if q[n].delay <= q[i].delay { i := n; }
    }
  }

  /** The sorted queue gives out exactly this joiner first. */
  lemma FirstToJoinIff(q: seq<Joiner>, addr: SocketAddr)
    requires q != []
    ensures |SortDescending(q)| == |q| && (SortDescending(q)[|q| - 1].addr == addr <==> FirstToJoin(q, addr))
  {
    var i := FirstOutExists(q);
    FirstOutSortedLast(q, i);
    if j: nat :| FirstOut(q, j) && q[j].addr == addr { FirstOutSortedLast(q, j); }
  }

  // ---- Addresses ----

  function Addresses(q: seq<Joiner>): (a: seq<SocketAddr>)
    ensures |a| == |q|
    ensures forall i :: 0 <= i < |q| ==> a[i] == q[i].addr
  {
    if q == [] then [] else Addresses(q[..|q| - 1]) + [q[|q| - 1].addr]
  }

  lemma AddressesAppend(q: seq<Joiner>, x: Joiner)
    ensures Addresses(q + [x]) == Addresses(q) + [x.addr]
  {
    assert (q + [x])[..|q|] == q;
  }

  lemma {:induction false} InsertAddresses(q: seq<Joiner>, x: Joiner)
    ensures multiset(Addresses(InsertDescending(q, x))) == multiset(Addresses(q)) + multiset{x.addr}
  {
    if q == [] || q[|q| - 1].delay >= x.delay {
      AddressesAppend(q, x);
    } else {
      InsertAddresses(q[..|q| - 1], x);
      AddressesAppend(InsertDescending(q[..|q| - 1], x), q[|q| - 1]);
    }
  }

  lemma {:induction false} SortAddresses(q: seq<Joiner>)
    ensures multiset(Addresses(SortDescending(q))) == multiset(Addresses(q))
  {
    if q == [] {
    } else {
      SortAddresses(q[..|q| - 1]);
      InsertAddresses(SortDescending(q[..|q| - 1]), q[|q| - 1]);
    }
  }
}
