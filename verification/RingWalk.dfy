/** The outward walk of `FlatPeerMap::find_closest_peers` around the ring of 256 buckets (src/types.rs). */
module RingWalk {
  import opened Hash
  import opened PeerTypes
  import opened Sequences
  import opened FlatTable

  /** Buckets on half the ring. */
  const HALF: nat := 128

  /** The buckets at distance `w` ahead of and behind bucket `s` on the ring. */
  function Ahead(s: nat, w: nat): (r: nat)
    requires s < MAX_POWER && w < MAX_POWER
    ensures r < MAX_POWER
  {
    if s + w < MAX_POWER then s + w else s + w - MAX_POWER
  }

  function Behind(s: nat, w: nat): (r: nat)
    requires s < MAX_POWER && w < MAX_POWER
    ensures r < MAX_POWER
  {
    if w <= s then s - w else s + MAX_POWER - w
  }

  /** `usize::wrapping_sub` on a 64-bit machine. */
  function WrappingSub(a: nat, b: nat): nat { (a - b) % 0x1_0000_0000_0000_0000 }

  /** The source's index expressions step around the ring; the 64-bit wrap is invisible modulo 256. */
  lemma RingSteps(s: nat, w: nat)
    requires s < MAX_POWER && w < MAX_POWER
    ensures Ahead(s, w) == (s + w) % MAX_POWER
    ensures Behind(s, w) == WrappingSub(s, w) % MAX_POWER
  {
    if w > s {
      assert WrappingSub(s, w) == s - w + 0x1_0000_0000_0000_0000;
      assert s - w + 0x1_0000_0000_0000_0000 == 0x00ff_ffff_ffff_ffff * 256 + (s + 256 - w);
    } else {
      assert WrappingSub(s, w) == s - w;
    }
  }

  /** Steps between two buckets along the shorter arc of the ring. */
  function RingDistance(a: nat, b: nat): nat
    requires a < MAX_POWER && b < MAX_POWER
  {
    var d := if a >= b then a - b else b - a;
    if d <= MAX_POWER - d then d else MAX_POWER - d
  }

  /** Everything the loop lists for widths 0..w, with no early exit. */
  function Walk(t: Table, s: nat, w: nat): seq<Contact>
    requires |t| == MAX_POWER && s < MAX_POWER && w < MAX_POWER
  {
    if w == 0 then t[s] else Walk(t, s, w - 1) + t[Ahead(s, w)] + t[Behind(s, w)]
  }

  /** The complete walk: the loop's last width is 255. */
  function FullWalk(t: Table, s: nat): seq<Contact>
    requires |t| == MAX_POWER && s < MAX_POWER
  {
    Walk(t, s, |t| - 1)
  }

  function Closest(t: Table, s: nat, count: nat): seq<Contact>
    requires |t| == MAX_POWER && s < MAX_POWER
  {
    Take(FullWalk(t, s), count)
  }

  /** Shorter walks are prefixes of longer ones, so leaving the loop early loses nothing. */
  lemma {:induction false} WalkPrefix(t: Table, s: nat, v: nat, w: nat)
    requires |t| == MAX_POWER && s < MAX_POWER && v <= w < MAX_POWER
    ensures Walk(t, s, v) <= Walk(t, s, w)
    decreases w
  {
    if v == w {
    } else {
      WalkPrefix(t, s, v, w - 1);
    }
  }

  /** A walk stopped with enough entries, or run to the end, truncates to the answer. */
  lemma EarlyExit(t: Table, s: nat, w: nat, count: nat)
    requires |t| == MAX_POWER && s < MAX_POWER && w < MAX_POWER
    requires count <= |Walk(t, s, w)| || w == MAX_POWER - 1
    ensures Take(Walk(t, s, w), count) == Closest(t, s, count)
  {
    WalkPrefix(t, s, w, MAX_POWER - 1);
  }

  lemma ClosestMonotone(t: Table, s: nat, m: nat, n: nat)
    requires |t| == MAX_POWER && s < MAX_POWER && m <= n
    ensures Closest(t, s, m) <= Closest(t, s, n)
  {}

  // ---- Counting: which contacts the walk lists, and how often ----

  /** The table re-indexed by offset from `s`, so that the walk is symmetric around offset 0. */
  function Rotate(t: Table, s: nat): (u: Table)
    requires |t| == MAX_POWER && s < MAX_POWER
    ensures |u| == MAX_POWER
  {
    t[s..] + t[..s]
  }

  lemma CountThree(x: seq<Contact>, y: seq<Contact>, z: seq<Contact>, c: Contact)
    ensures multiset(x + y + z)[c] == multiset(x)[c] + multiset(y)[c] + multiset(z)[c]
  {}

  /** Occurrences of `c` in a run of buckets. */
  ghost function Tally(b: Table, c: Contact): nat {
    if b == [] then 0 else Tally(b[..|b| - 1], c) + multiset(b[|b| - 1])[c]
  }

  lemma {:induction false} TallyConcat(a: Table, b: Table, c: Contact)
    ensures Tally(a + b, c) == Tally(a, c) + Tally(b, c)
    decreases |b|
  {
    if b == [] {
      assert a + b == a;
    } else {
      assert (a + b)[..|a + b| - 1] == a + b[..|b| - 1];
      TallyConcat(a, b[..|b| - 1], c);
    }
  }

  /** A run grows by one bucket on the right, or on the left. */
  lemma TallyRight(u: Table, lo: nat, hi: nat, c: Contact)
    requires lo < hi <= |u|
    ensures Tally(u[lo..hi], c) == Tally(u[lo..hi - 1], c) + multiset(u[hi - 1])[c]
  {
    assert u[lo..hi][..hi - lo - 1] == u[lo..hi - 1];
  }

  lemma TallyLeft(u: Table, lo: nat, hi: nat, c: Contact)
    requires lo < hi <= |u|
    ensures Tally(u[lo..hi], c) == multiset(u[lo])[c] + Tally(u[lo + 1..hi], c)
  {
    assert u[lo..hi] == [u[lo]] + u[lo + 1..hi];
    TallyConcat([u[lo]], u[lo + 1..hi], c);
    assert Tally([u[lo]], c) == Tally([u[lo]][..0], c) + multiset(u[lo])[c];
  }

  lemma {:induction false} TallyFlatten(b: Table, c: Contact)
    ensures Tally(b, c) == multiset(Flatten(b))[c]
  {
    if b == [] {
    } else {
      TallyFlatten(b[..|b| - 1], c);
    }
  }

  lemma TallyRotate(t: Table, s: nat, c: Contact)
    requires |t| == MAX_POWER && s < MAX_POWER
    ensures Tally(Rotate(t, s), c) == multiset(Flatten(t))[c]
  {
    TallyFlatten(t, c);
    TallyConcat(t[s..], t[..s], c);
    TallyConcat(t[..s], t[s..], c);
    assert t == t[..s] + t[s..];
  }

  /** Offset `w` of `u`, counted either way around, is where the walk of width `w` goes. */
  ghost predicate OffsetOk(u: Table, t: Table, s: nat, w: nat)
    requires |u| == |t| == MAX_POWER && s < MAX_POWER && w < MAX_POWER
  {
    u[w] == t[Ahead(s, w)] && (w > 0 ==> u[MAX_POWER - w] == t[Behind(s, w)])
  }

  ghost predicate Rotated(u: Table, t: Table, s: nat)
    requires |t| == MAX_POWER && s < MAX_POWER
  {
    |u| == MAX_POWER && forall w: nat :: w < MAX_POWER ==> OffsetOk(u, t, s, w)
  }

  lemma RotateAt(t: Table, s: nat)
    requires |t| == MAX_POWER && s < MAX_POWER
    ensures Rotated(Rotate(t, s), t, s)
  {}

  /** Up to width 127 the two arms never meet: they cover offsets 0..w and 256-w..256. */
  lemma {:induction false} FirstHalf(t: Table, s: nat, u: Table, w: nat, c: Contact)
    requires |t| == MAX_POWER && s < MAX_POWER && Rotated(u, t, s) && w < HALF
    ensures multiset(Walk(t, s, w))[c] == Tally(u[0..w + 1], c) + Tally(u[|u| - w..|u|], c)
  {
    assert OffsetOk(u, t, s, w);
    TallyRight(u, 0, w + 1, c);
    if w > 0 {
      FirstHalf(t, s, u, w - 1, c);
      CountThree(Walk(t, s, w - 1), u[w], u[|u| - w], c);
      TallyLeft(u, |u| - w, |u|, c);
    } else {
      assert u[|u| - w..|u|] == [] && u[0..w] == [];
    }
  }

  /** The walk through the 256th bucket: widths up to 127, then the bucket opposite the target. */
  function FirstVisits(t: Table, s: nat): seq<Contact>
    requires |t| == MAX_POWER && s < MAX_POWER
  {
    Walk(t, s, HALF - 1) + t[Ahead(s, HALF)]
  }

  lemma FirstVisitsTally(t: Table, s: nat, u: Table, c: Contact)
    requires |t| == MAX_POWER && s < MAX_POWER && Rotated(u, t, s)
    ensures multiset(FirstVisits(t, s))[c] == Tally(u, c)
  {
    FirstHalf(t, s, u, HALF - 1, c);
    assert OffsetOk(u, t, s, HALF);
    TallyRight(u, 0, HALF + 1, c);
    assert u == u[0..HALF + 1] + u[HALF + 1..|u|];
    TallyConcat(u[0..HALF + 1], u[HALF + 1..|u|], c);
  }

  /** The first 256 buckets visited hold every stored contact exactly once. */
  lemma FirstVisitsContents(t: Table, s: nat)
    requires |t| == MAX_POWER && s < MAX_POWER
    ensures multiset(FirstVisits(t, s)) == multiset(Flatten(t))
    ensures |FirstVisits(t, s)| == |Flatten(t)|
  {
    RotateAt(t, s);
    forall c ensures multiset(FirstVisits(t, s))[c] == multiset(Flatten(t))[c] {
      FirstVisitsTally(t, s, Rotate(t, s), c);
      TallyRotate(t, s, c);
    }
    SizesAdd(FirstVisits(t, s), [], Flatten(t));
  }

  /** What widths 128..w list after the first visits. */
  function Revisits(t: Table, s: nat, w: nat): seq<Contact>
    requires |t| == MAX_POWER && s < MAX_POWER && HALF <= w < MAX_POWER
  {
    if w == HALF then t[Behind(s, HALF)] else Revisits(t, s, w - 1) + t[Ahead(s, w)] + t[Behind(s, w)]
  }

  lemma {:induction false} WalkSplits(t: Table, s: nat, w: nat)
    requires |t| == MAX_POWER && s < MAX_POWER && HALF <= w < MAX_POWER
    ensures Walk(t, s, w) == FirstVisits(t, s) + Revisits(t, s, w)
  {
    if w > HALF {
      WalkSplits(t, s, w - 1);
    } else {
      assert Walk(t, s, HALF) == Walk(t, s, HALF - 1) + t[Ahead(s, HALF)] + t[Behind(s, HALF)];
    }
  }

  /** From width 128 on the arms cross, and revisit offsets 256-w..w+1. */
  lemma {:induction false} SecondHalf(t: Table, s: nat, u: Table, w: nat, lo: nat, hi: nat, c: Contact)
    requires |t| == MAX_POWER && s < MAX_POWER && Rotated(u, t, s) && HALF <= w < MAX_POWER
    requires lo == |u| - w && hi == w + 1
    ensures multiset(Revisits(t, s, w))[c] == Tally(u[lo..hi], c)
    decreases w
  {
    assert OffsetOk(u, t, s, w);
    TallyLeft(u, lo, hi, c);
    if w > HALF {
      SecondHalf(t, s, u, w - 1, lo + 1, hi - 1, c);
      RevisitsStep(t, s, w, u[w], u[lo], c);
      TallyRight(u, lo + 1, hi, c);
    } else {
      assert u[lo + 1..hi] == [];
    }
  }

  lemma RevisitsStep(t: Table, s: nat, w: nat, ahead: seq<Contact>, behind: seq<Contact>, c: Contact)
    requires |t| == MAX_POWER && s < MAX_POWER && HALF < w < MAX_POWER
    requires ahead == t[Ahead(s, w)] && behind == t[Behind(s, w)]
    ensures multiset(Revisits(t, s, w))[c] ==
            multiset(Revisits(t, s, w - 1))[c] + multiset(ahead)[c] + multiset(behind)[c]
  {}

  lemma RevisitsTally(t: Table, s: nat, u: Table, last: nat, c: Contact)
    requires |t| == MAX_POWER && s < MAX_POWER && Rotated(u, t, s) && last == |u| - 1
    ensures multiset(Revisits(t, s, last))[c] + multiset(t[s])[c] == Tally(u, c)
  {
    assert OffsetOk(u, t, s, 0);
    SecondHalf(t, s, u, last, 1, |u|, c);
    TallyLeft(u, 0, |u|, c);
    assert u[0..|u|] == u;
  }

  lemma RevisitsContents(t: Table, s: nat)
    requires |t| == MAX_POWER && s < MAX_POWER
    ensures multiset(Revisits(t, s, |t| - 1)) + multiset(t[s]) == multiset(Flatten(t))
  {
    RotateAt(t, s);
    var again := Revisits(t, s, |t| - 1);
    forall c ensures (multiset(again) + multiset(t[s]))[c] == multiset(Flatten(t))[c] {
      RevisitsTally(t, s, Rotate(t, s), |t| - 1, c);
      TallyRotate(t, s, c);
    }
  }

  /** The full walk is every stored contact once, then every contact outside the target bucket once more. */
  lemma FullWalkShape(t: Table, s: nat)
    requires |t| == MAX_POWER && s < MAX_POWER
    ensures FullWalk(t, s) == FirstVisits(t, s) + Revisits(t, s, |t| - 1)
    ensures multiset(Revisits(t, s, |t| - 1)) + multiset(t[s]) == multiset(Flatten(t))
    ensures |FullWalk(t, s)| == 2 * |Flatten(t)| - |t[s]|
  {
    WalkSplits(t, s, |t| - 1);
    FirstVisitsContents(t, s);
    RevisitsContents(t, s);
    SizesAdd(Revisits(t, s, |t| - 1), t[s], Flatten(t));
  }

  lemma SizesAdd(a: seq<Contact>, b: seq<Contact>, c: seq<Contact>)
    requires multiset(a) + multiset(b) == multiset(c)
    ensures |a| + |b| == |c|
  {
    assert |multiset(a) + multiset(b)| == |a| + |b|;
    assert |multiset(c)| == |c|;
  }

  // ---- The main results about the answer ----

  /** The ids named, repeats counted once. */
  ghost function IdsOf<K, A>(b: seq<Entry<K, A>>): set<K> { Elements(Ids(b)) }

  lemma IdNamed<K, A>(b: seq<Entry<K, A>>, i: nat)
    requires i < |b|
    ensures b[i].peerId in IdsOf(b)
  {
    assert Ids(b)[i] in Ids(b);
  }

  /** Sequences with the same contacts agree on having distinct ids. */
  lemma DistinctIdsPermute<K, A>(a: seq<Entry<K, A>>, b: seq<Entry<K, A>>)
    requires multiset(a) == multiset(b) && DistinctIds(a)
    ensures DistinctIds(b)
  {
    forall i, j | 0 <= i < j < |b| ensures b[i].peerId != b[j].peerId {
      assert b[i] in multiset(b) && b[j] in multiset(b);
      assert b[i] in a && b[j] in a;
      var p :| 0 <= p < |a| && a[p] == b[i];
      var q :| 0 <= q < |a| && a[q] == b[j];
      if p == q { TwiceInMultiset(b, i, j); OnceInMultiset(a, p); }
    }
  }

  lemma TwiceInMultiset<K, A>(b: seq<Entry<K, A>>, i: nat, j: nat)
    requires i < j < |b| && b[i] == b[j]
    ensures multiset(b)[b[i]] >= 2
  {
    assert b == b[..i] + [b[i]] + b[i + 1..j] + [b[j]] + b[j + 1..];
  }

  lemma OnceInMultiset<K, A>(a: seq<Entry<K, A>>, p: nat)
    requires p < |a| && DistinctIds(a)
    ensures multiset(a)[a[p]] == 1
  {
    var l, r := a[..p], a[p + 1..];
    assert a == l + [a[p]] + r;
    assert a[p] !in l && a[p] !in r;
  }

  /** The first visits have distinct ids, and every entry of the walk is among them. */
  lemma FirstVisitsCoverWalk(self: PeerId, k: nat, t: Table, s: nat)
    requires TableOk(self, k, t) && s < MAX_POWER
    ensures DistinctIds(FirstVisits(t, s))
    ensures forall c :: c in FullWalk(t, s) ==> c in FirstVisits(t, s)
  {
    FullWalkShape(t, s);
    FirstVisitsContents(t, s);
    StoredIdsDistinct(self, k, t, MAX_POWER);
    assert t[..MAX_POWER] == t;
    var first, again := FirstVisits(t, s), Revisits(t, s, |t| - 1);
    DistinctIdsPermute(Flatten(t), first);
    forall c | c in again ensures c in first {
      assert c in multiset(again) + multiset(t[s]);
      assert c in multiset(first);
    }
  }

  /** A prefix of `first + again` names as many ids as fit in `first`. */
  lemma PrefixIds<K, A>(first: seq<Entry<K, A>>, again: seq<Entry<K, A>>, count: nat)
    requires DistinctIds(first)
    requires forall c :: c in again ==> c in first
    ensures |IdsOf(Take(first + again, count))| == if count <= |first| then count else |first|
  {
    var answer := Take(first + again, count);
    if count <= |first| {
      assert answer == first[..count];
      DistinctSize(Ids(answer));
    } else {
      DistinctSize(Ids(first));
      forall i | 0 <= i < |first| ensures first[i].peerId in IdsOf(answer) {
        assert answer[i] == first[i];
        IdNamed(answer, i);
      }
      forall i | 0 <= i < |answer| ensures answer[i].peerId in IdsOf(first) {
        assert answer[i] in first;
        var j :| 0 <= j < |first| && first[j] == answer[i];
        IdNamed(first, j);
      }
      assert IdsOf(answer) == IdsOf(first);
    }
  }

  /** With N contacts stored and T of them in the target bucket: the first N entries of the walk
      list each stored contact exactly once, the answer has min(count, N) distinct ids, and its
      length is min(count, 2N - T). */
  lemma ClosestComplete(self: PeerId, k: nat, t: Table, s: nat, count: nat)
    requires TableOk(self, k, t) && s < MAX_POWER
    ensures var n, answer := |Flatten(t)|, Closest(t, s, count);
            && n <= |FullWalk(t, s)|
            && multiset(FullWalk(t, s)[..n]) == multiset(Flatten(t))
            && DistinctIds(FullWalk(t, s)[..n])
            && |IdsOf(answer)| == (if count <= n then count else n)
            && |answer| == (if count <= 2 * n - |t[s]| then count else 2 * n - |t[s]|)
  {
    FullWalkShape(t, s);
    FirstVisitsContents(t, s);
    FirstVisitsCoverWalk(self, k, t, s);
    assert FullWalk(t, s)[..|Flatten(t)|] == FirstVisits(t, s);
    PrefixIds(FirstVisits(t, s), Revisits(t, s, |t| - 1), count);
  }

  // ---- Nearness ----

  ghost predicate DistancesSorted(self: PeerId, s: nat, b: seq<Contact>)
    requires s < MAX_POWER
  {
    forall i, j :: 0 <= i < j < |b| ==>
      RingDistance(DistanceRank(self, b[i].peerId), s) <= RingDistance(DistanceRank(self, b[j].peerId), s)
  }

  ghost predicate AllWithin(self: PeerId, s: nat, lo: nat, hi: nat, b: seq<Contact>)
    requires s < MAX_POWER
  {
    forall i :: 0 <= i < |b| ==> lo <= RingDistance(DistanceRank(self, b[i].peerId), s) <= hi
  }

  lemma SortedAppend(self: PeerId, s: nat, w: nat, a: seq<Contact>, b: seq<Contact>)
    requires s < MAX_POWER
    requires DistancesSorted(self, s, a) && AllWithin(self, s, 0, w, a) && AllWithin(self, s, w, w, b)
    ensures DistancesSorted(self, s, a + b) && AllWithin(self, s, 0, w, a + b)
  {}

  lemma BucketWithin(self: PeerId, k: nat, t: Table, s: nat, r: nat)
    requires TableOk(self, k, t) && s < MAX_POWER && r < MAX_POWER
    ensures var d := RingDistance(r, s); AllWithin(self, s, d, d, t[r])
  {
    assert BucketOk(self, k, r, t[r]);
  }

  lemma ArmDistance(s: nat, w: nat)
    requires s < MAX_POWER && w <= HALF
    ensures RingDistance(Ahead(s, w), s) == w && RingDistance(Behind(s, w), s) == w
  {}

  lemma {:induction false} WalkSorted(self: PeerId, k: nat, t: Table, s: nat, w: nat)
    requires TableOk(self, k, t) && s < MAX_POWER && w < HALF
    ensures DistancesSorted(self, s, Walk(t, s, w)) && AllWithin(self, s, 0, w, Walk(t, s, w))
  {
    if w == 0 {
      BucketWithin(self, k, t, s, s);
    } else {
      WalkSorted(self, k, t, s, w - 1);
      ArmDistance(s, w);
      BucketWithin(self, k, t, s, Ahead(s, w));
      BucketWithin(self, k, t, s, Behind(s, w));
      SortedAppend(self, s, w, Walk(t, s, w - 1), t[Ahead(s, w)]);
      SortedAppend(self, s, w, Walk(t, s, w - 1) + t[Ahead(s, w)], t[Behind(s, w)]);
    }
  }

  lemma FirstVisitsSorted(self: PeerId, k: nat, t: Table, s: nat)
    requires TableOk(self, k, t) && s < MAX_POWER
    ensures DistancesSorted(self, s, FirstVisits(t, s))
  {
    WalkSorted(self, k, t, s, HALF - 1);
    ArmDistance(s, HALF);
    BucketWithin(self, k, t, s, Ahead(s, HALF));
    SortedAppend(self, s, HALF, Walk(t, s, HALF - 1), t[Ahead(s, HALF)]);
  }

  lemma SortedPrefixNearest(self: PeerId, s: nat, first: seq<Contact>, again: seq<Contact>, count: nat,
                            missing: Contact, got: Contact)
    requires s < MAX_POWER && DistancesSorted(self, s, first)
    requires missing in first && missing !in Take(first + again, count)
    requires got in Take(first + again, count)
    ensures RingDistance(DistanceRank(self, got.peerId), s) <= RingDistance(DistanceRank(self, missing.peerId), s)
  {}

  /** A stored contact can be missing only if no answered contact sits farther around the ring. */
  lemma ClosestNearest(self: PeerId, k: nat, t: Table, s: nat, count: nat, missing: Contact, got: Contact)
    requires TableOk(self, k, t) && s < MAX_POWER
    requires missing in Flatten(t) && missing !in Closest(t, s, count)
    requires got in Closest(t, s, count)
    ensures RingDistance(DistanceRank(self, got.peerId), s) <= RingDistance(DistanceRank(self, missing.peerId), s)
  {
    var first := FirstVisits(t, s);
    FullWalkShape(t, s);
    FirstVisitsContents(t, s);
    FirstVisitsSorted(self, k, t, s);
    assert missing in multiset(Flatten(t)) && missing in multiset(first);
    assert missing in first;
    SortedPrefixNearest(self, s, first, Revisits(t, s, |t| - 1), count, missing, got);
  }

  // ---- The order of the answer ----

  /** The bucket at its ring distance is the one ahead or the one behind. */
  lemma OnAnArm(s: nat, r: nat)
    requires s < MAX_POWER && r < MAX_POWER
    ensures var w := RingDistance(r, s); w <= HALF && (r == Ahead(s, w) || r == Behind(s, w))
  {}

  /** A walk of width `w` has passed every bucket within that distance. */
  lemma WalkIncludes(t: Table, s: nat, r: nat, w: nat, c: Contact)
    requires |t| == MAX_POWER && s < MAX_POWER && r < MAX_POWER && RingDistance(r, s) <= w < MAX_POWER
    requires c in t[r]
    ensures c in Walk(t, s, w)
  {
    var v := RingDistance(r, s);
    OnAnArm(s, r);
    assert c in Walk(t, s, v);
    WalkPrefix(t, s, v, w);
  }

  /** And none beyond. */
  lemma WalkExcludes(self: PeerId, k: nat, t: Table, s: nat, q: nat, w: nat, d: Contact)
    requires TableOk(self, k, t) && s < MAX_POWER && q < MAX_POWER && w < HALF && w < RingDistance(q, s)
    requires d in t[q]
    ensures d !in Walk(t, s, w)
  {
    WalkSorted(self, k, t, s, w);
    assert BucketOk(self, k, q, t[q]);
  }

  /** A contact is only in the bucket of its rank. */
  lemma OnlyInItsBucket(self: PeerId, k: nat, t: Table, p: nat, q: nat, d: Contact)
    requires TableOk(self, k, t) && p < MAX_POWER && q < MAX_POWER && p != q && d in t[q]
    ensures d !in t[p]
  {
    assert BucketOk(self, k, p, t[p]) && BucketOk(self, k, q, t[q]);
  }

  lemma NearerFirst(self: PeerId, k: nat, t: Table, s: nat, r: nat, c: Contact, q: nat, d: Contact)
    requires TableOk(self, k, t) && s < MAX_POWER && r < MAX_POWER && q < MAX_POWER && c in t[r] && d in t[q]
    requires RingDistance(r, s) < RingDistance(q, s)
    ensures Precedes(FullWalk(t, s), c, d)
  {
    var w := RingDistance(q, s) - 1;
    WalkIncludes(t, s, r, w, c);
    WalkExcludes(self, k, t, s, q, w, d);
    WalkPrefix(t, s, w, |t| - 1);
    PrefixDecides(Walk(t, s, w), FullWalk(t, s), c, d);
  }

  lemma AheadFirst(self: PeerId, k: nat, t: Table, s: nat, w: nat, c: Contact, d: Contact)
    requires TableOk(self, k, t) && s < MAX_POWER && 1 <= w < HALF
    requires c in t[Ahead(s, w)] && d in t[Behind(s, w)]
    ensures Precedes(FullWalk(t, s), c, d)
  {
    var x := Walk(t, s, w - 1) + t[Ahead(s, w)];
    ArmDistance(s, w);
    WalkExcludes(self, k, t, s, Behind(s, w), w - 1, d);
    OnlyInItsBucket(self, k, t, Ahead(s, w), Behind(s, w), d);
    assert x <= Walk(t, s, w);
    WalkPrefix(t, s, w, |t| - 1);
    PrefixDecides(x, FullWalk(t, s), c, d);
  }

  /** One bucket keeps the order of its slots, any other does not have the contact. */
  lemma BucketPrecedes(self: PeerId, k: nat, t: Table, p: nat, q: nat, i: nat, j: nat)
    requires TableOk(self, k, t) && p < MAX_POWER && q < MAX_POWER && i < j < |t[q]|
    ensures Precedes(t[p], t[q][i], t[q][j])
  {
    assert BucketOk(self, k, q, t[q]);
    if p == q {
      assert forall m :: 0 <= m < |t[q]| && t[q][m] == t[q][j] ==> m == j;
      assert t[q][..j][i] == t[q][i];
    } else {
      OnlyInItsBucket(self, k, t, p, q, t[q][j]);
    }
  }

  lemma {:induction false} SlotOrder(self: PeerId, k: nat, t: Table, s: nat, w: nat, q: nat, i: nat, j: nat)
    requires TableOk(self, k, t) && s < MAX_POWER && w < MAX_POWER && q < MAX_POWER && i < j < |t[q]|
    ensures Precedes(Walk(t, s, w), t[q][i], t[q][j])
    decreases w
  {
    hide Precedes;
    if w == 0 {
      BucketPrecedes(self, k, t, s, q, i, j);
    } else {
      var c, d := t[q][i], t[q][j];
      SlotOrder(self, k, t, s, w - 1, q, i, j);
      BucketPrecedes(self, k, t, Ahead(s, w), q, i, j);
      BucketPrecedes(self, k, t, Behind(s, w), q, i, j);
      PrecedesConcat(Walk(t, s, w - 1), t[Ahead(s, w)], c, d);
      PrecedesConcat(Walk(t, s, w - 1) + t[Ahead(s, w)], t[Behind(s, w)], c, d);
    }
  }

  /** Slot `i` of bucket `r` comes before slot `j` of bucket `q` in a search from bucket `s`: it is nearer around
      the ring; or as near, ahead where the other is behind; or in front of the other in the same bucket. */
  ghost predicate ComesFirst(s: nat, r: nat, i: nat, q: nat, j: nat)
    requires s < MAX_POWER && r < MAX_POWER && q < MAX_POWER
  {
    var w := RingDistance(r, s);
    || w < RingDistance(q, s)
    || (r == q && i < j)
    || (1 <= w < 128 && r == (s + w) % MAX_POWER && q == (s - w) % MAX_POWER)
  }

  /** The order of every answer: an answered contact has all those before it that come first. */
  lemma AnswerOrder(self: PeerId, k: nat, t: Table, s: nat, count: nat, r: nat, i: nat, q: nat, j: nat)
    requires TableOk(self, k, t) && s < MAX_POWER && r < MAX_POWER && q < MAX_POWER && i < |t[r]| && j < |t[q]|
    requires ComesFirst(s, r, i, q, j)
    ensures Precedes(Closest(t, s, count), t[r][i], t[q][j])
  {
    hide Precedes;
    var c, d := t[r][i], t[q][j];
    if RingDistance(r, s) < RingDistance(q, s) {
      NearerFirst(self, k, t, s, r, c, q, d);
    } else if r == q && i < j {
      SlotOrder(self, k, t, s, |t| - 1, q, i, j);
    } else {
      var w := RingDistance(r, s);
      assert r == Ahead(s, w) && q == Behind(s, w);
      AheadFirst(self, k, t, s, w, c, d);
    }
    PrecedesTake(FullWalk(t, s), count, c, d);
  }
}
