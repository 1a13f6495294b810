/** What a `FlatPeerMap` holds after any history of insertions, in closed form (src/types.rs). */
module FlatHistory {
  import opened Hash
  import opened PeerTypes
  import opened FlatTable

  /** The table after inserting `h` in order. */
  ghost function Replay(self: PeerId, k: nat, h: seq<Contact>): (t: Table)
    requires k >= 1
    ensures TableOk(self, k, t)
  {
    if h == [] then EmptyTable()
    else
      var t := Replay(self, k, h[..|h| - 1]);
      InsertKeepsTableOk(self, k, t, h[|h| - 1]);
      Insert(self, k, t, h[|h| - 1])
  }

  lemma ReplayStep(self: PeerId, k: nat, h: seq<Contact>, c: Contact)
    requires k >= 1
    ensures Replay(self, k, h + [c]) == Insert(self, k, Replay(self, k, h), c)
  {
    assert (h + [c])[..|h + [c]| - 1] == h;
  }

  /** One bucket after inserting `h` in order. */
  ghost function BucketReplay<K, A>(k: nat, h: seq<Entry<K, A>>): (b: seq<Entry<K, A>>)
    requires k >= 1
    ensures |b| <= k && DistinctIds(b)
  {
    if h == [] then [] else BucketInsert(BucketReplay(k, h[..|h| - 1]), k, h[|h| - 1])
  }

  /** The part of the history that goes to bucket `r`. */
  ghost function SentTo(self: PeerId, r: nat, h: seq<Contact>): seq<Contact> {
    if h == [] then []
    else if DistanceRank(self, h[|h| - 1].peerId) == r then SentTo(self, r, h[..|h| - 1]) + [h[|h| - 1]]
    else SentTo(self, r, h[..|h| - 1])
  }

  lemma {:induction false} ReplayByBucket(self: PeerId, k: nat, h: seq<Contact>, r: nat)
    requires k >= 1 && r < MAX_POWER
    ensures Replay(self, k, h)[r] == BucketReplay(k, SentTo(self, r, h))
  {
    if h == [] {
    } else {
      var g, c := h[..|h| - 1], h[|h| - 1];
      ReplayByBucket(self, k, g, r);
      if DistanceRank(self, c.peerId) == r {
        var s := SentTo(self, r, h);
        assert s[..|s| - 1] == SentTo(self, r, g) && s[|s| - 1] == c;
      }
    }
  }

  /** The distinct ids of a history, in order of first arrival. */
  ghost function Arrivals<K, A>(h: seq<Entry<K, A>>): (d: seq<K>)
    ensures forall i, j :: 0 <= i < j < |d| ==> d[i] != d[j]
    ensures forall i :: 0 <= i < |h| ==> h[i].peerId in d
  {
    if h == [] then []
    else
      var d, id := Arrivals(h[..|h| - 1]), h[|h| - 1].peerId;
      if id in d then d else d + [id]
  }

  /** The position of the last insertion of `id`, or -1. */
  ghost function LastIndex<K, A>(h: seq<Entry<K, A>>, id: K): (j: int)
    ensures -1 <= j < |h|
    ensures j >= 0 ==> h[j].peerId == id
    ensures forall i :: j < i < |h| ==> h[i].peerId != id
  {
    if h == [] then -1 else if h[|h| - 1].peerId == id then |h| - 1 else LastIndex(h[..|h| - 1], id)
  }

  /** The position of the last insertion of an id other than the pinned ones, or -1. */
  ghost function LatestOutside<K, A>(h: seq<Entry<K, A>>, pinned: seq<K>): (j: int)
    ensures -1 <= j < |h|
    ensures j >= 0 ==> h[j].peerId !in pinned
    ensures forall i :: j < i < |h| ==> h[i].peerId in pinned
  {
    if h == [] then -1 else if h[|h| - 1].peerId !in pinned then |h| - 1 else LatestOutside(h[..|h| - 1], pinned)
  }

  /** Arrivals are exactly the ids that were inserted. */
  lemma {:induction false} ArrivalsMeaning<K, A>(h: seq<Entry<K, A>>, id: K)
    ensures id in Arrivals(h) <==> LastIndex(h, id) >= 0
  {
    if h == [] {
    } else {
      ArrivalsMeaning(h[..|h| - 1], id);
    }
  }

  // In what follows `d` is the list of arrivals.

  /** How many slots are in use. */
  ghost function Held<K>(k: nat, d: seq<K>): (n: nat)
    ensures n <= |d|
  {
    if |d| < k then |d| else k
  }

  /** The ids that a bucket of `k` slots keeps for good: all but the first of the `k` earliest. */
  ghost function Pinned<K>(k: nat, d: seq<K>): seq<K> {
    if Held(k, d) == 0 then [] else d[1..Held(k, d)]
  }

  /** The slot holds the last insertion of `id`. */
  ghost predicate HoldsLast<K, A>(h: seq<Entry<K, A>>, id: K, slot: Entry<K, A>) {
    var j := LastIndex(h, id);
    j >= 0 && slot == h[j]
  }

  /** The slot holds the last insertion of an id that is not pinned. */
  ghost predicate HoldsLatestOutside<K, A>(h: seq<Entry<K, A>>, pinned: seq<K>, slot: Entry<K, A>) {
    var j := LatestOutside(h, pinned);
    j >= 0 && slot == h[j]
  }

  /** The closed form: the latest unpinned id in slot 0, behind it the pinned ids in arrival order,
      and everywhere the address last inserted for the id. */
  ghost predicate Form<K, A>(k: nat, d: seq<K>, h: seq<Entry<K, A>>, b: seq<Entry<K, A>>) {
    && |b| == Held(k, d)
    && (|b| >= 1 ==> HoldsLatestOutside(h, Pinned(k, d), b[0]))
    && forall i :: 1 <= i < |b| ==> HoldsLast(h, d[i], b[i])
  }

  ghost predicate IsClosedForm<K, A>(k: nat, h: seq<Entry<K, A>>, b: seq<Entry<K, A>>) {
    Form(k, Arrivals(h), h, b)
  }

  /** `h` is `g` followed by `c`. */
  ghost predicate Extends<K, A>(h: seq<Entry<K, A>>, g: seq<Entry<K, A>>, c: Entry<K, A>) {
    |h| == |g| + 1 && h[..|g|] == g && h[|g|] == c
  }

  lemma HoldsLastExtend<K, A>(h: seq<Entry<K, A>>, g: seq<Entry<K, A>>, c: Entry<K, A>, id: K, slot: Entry<K, A>)
    requires Extends(h, g, c) && HoldsLast(g, id, slot)
    ensures HoldsLast(h, id, if c.peerId == id then c else slot)
  {}

  lemma HoldsLatestExtend<K, A>(h: seq<Entry<K, A>>, g: seq<Entry<K, A>>,
                                c: Entry<K, A>, pinned: seq<K>, slot: Entry<K, A>)
    requires Extends(h, g, c) && HoldsLatestOutside(g, pinned, slot)
    ensures HoldsLatestOutside(h, pinned, if c.peerId in pinned then slot else c)
  {}

  /** Pinning an id that never arrived changes nothing. */
  lemma {:induction false} OutsideCongruent<K, A>(g: seq<Entry<K, A>>, p: seq<K>, id: K)
    requires forall i :: 0 <= i < |g| ==> g[i].peerId != id
    ensures LatestOutside(g, p + [id]) == LatestOutside(g, p)
  {}

  /** What the closed form says about ids alone. */
  lemma FormIds<K, A>(k: nat, d: seq<K>, g: seq<Entry<K, A>>, b: seq<Entry<K, A>>)
    requires k >= 1 && Form(k, d, g, b)
    ensures |b| >= 1 ==> b[0].peerId !in Pinned(k, d)
    ensures |b| >= 1 ==> exists i :: 0 <= i < |g| && g[i] == b[0]
    ensures forall i :: 1 <= i < |b| ==> b[i].peerId == d[i] == Pinned(k, d)[i - 1]
    ensures |Pinned(k, d)| == if |b| == 0 then 0 else |b| - 1
  {}

  /** A pinned id arrives again: only its own slot changes. */
  lemma StepPinned<K, A>(k: nat, d: seq<K>, h: seq<Entry<K, A>>, g: seq<Entry<K, A>>,
                         c: Entry<K, A>, b: seq<Entry<K, A>>)
    requires k >= 1 && Extends(h, g, c) && Form(k, d, g, b) && DistinctIds(b)
    requires c.peerId in Pinned(k, d)
    ensures Form(k, d, h, BucketInsert(b, k, c))
  {
    FormIds(k, d, g, b);
    var j :| 1 <= j < |b| && Pinned(k, d)[j - 1] == c.peerId;
    assert IndexOf(b, c.peerId) == j;
    HoldsLatestExtend(h, g, c, Pinned(k, d), b[0]);
    forall i | 1 <= i < |b| ensures HoldsLast(h, d[i], b[j := c][i]) {
      HoldsLastExtend(h, g, c, d[i], b[i]);
    }
  }

  /** An unpinned id arrives while no slot is free for it: it takes slot 0. */
  lemma StepSlotZero<K, A>(k: nat, d: seq<K>, d': seq<K>,
                     h: seq<Entry<K, A>>, g: seq<Entry<K, A>>, c: Entry<K, A>, b: seq<Entry<K, A>>)
    requires k >= 1 && Extends(h, g, c) && Form(k, d, g, b) && |b| >= 1
    requires d <= d' && Pinned(k, d') == Pinned(k, d) && Held(k, d') == Held(k, d)
    requires c.peerId !in Pinned(k, d) && BucketInsert(b, k, c) == b[0 := c]
    ensures Form(k, d', h, BucketInsert(b, k, c))
  {}

  /** With the bucket full, or the id among the arrivals, an unpinned id does hit slot 0. */
  lemma HitsSlotZero<K, A>(k: nat, d: seq<K>, g: seq<Entry<K, A>>, c: Entry<K, A>, b: seq<Entry<K, A>>)
    requires k >= 1 && |d| >= 1 && Form(k, d, g, b)
    requires forall i :: 0 <= i < |g| ==> g[i].peerId in d
    requires c.peerId !in Pinned(k, d) && (c.peerId in d || |b| == k)
    ensures |b| >= 1 && BucketInsert(b, k, c) == b[0 := c]
  {
    FormIds(k, d, g, b);
    forall i | 1 <= i < |b| ensures b[i].peerId != c.peerId { assert b[i].peerId in Pinned(k, d); }
    if |b| < k {
      assert d == [d[0]] + Pinned(k, d);
      assert b[0].peerId == d[0] == c.peerId;
    }
  }

  /** The pinned slots when a new id is appended. */
  lemma AppendKeepsPinned<K, A>(k: nat, d: seq<K>, h: seq<Entry<K, A>>, g: seq<Entry<K, A>>,
                                c: Entry<K, A>, b: seq<Entry<K, A>>, i: nat)
    requires k >= 1 && |d| >= 1 && Extends(h, g, c) && Form(k, d, g, b)
    requires c.peerId !in d && |b| < k && 1 <= i <= |b|
    ensures |b| == |d| && HoldsLast(h, (d + [c.peerId])[i], (b + [c])[i])
  {
    if i < |b| { HoldsLastExtend(h, g, c, d[i], b[i]); }
  }

  /** A new id arrives while a slot is free: it is pinned there. */
  lemma StepAppend<K, A>(k: nat, d: seq<K>, h: seq<Entry<K, A>>, g: seq<Entry<K, A>>,
                         c: Entry<K, A>, b: seq<Entry<K, A>>)
    requires k >= 1 && |d| >= 1 && Extends(h, g, c) && Form(k, d, g, b)
    requires forall i :: 0 <= i < |g| ==> g[i].peerId in d
    requires c.peerId !in d && |b| < k
    ensures Form(k, d + [c.peerId], h, BucketInsert(b, k, c))
  {
    FormIds(k, d, g, b);
    assert BucketInsert(b, k, c) == b + [c] by { assert IndexOf(b, c.peerId) == |b|; }
    assert Pinned(k, d + [c.peerId]) == Pinned(k, d) + [c.peerId];
    OutsideCongruent(g, Pinned(k, d), c.peerId);
    HoldsLatestExtend(h, g, c, Pinned(k, d + [c.peerId]), b[0]);
    forall i | 1 <= i <= |b| ensures HoldsLast(h, (d + [c.peerId])[i], (b + [c])[i]) {
      AppendKeepsPinned(k, d, h, g, c, b, i);
    }
  }

  /** One more insertion, whichever branch it takes. */
  lemma StepForm<K, A>(k: nat, d: seq<K>, h: seq<Entry<K, A>>, g: seq<Entry<K, A>>, c: Entry<K, A>, b: seq<Entry<K, A>>)
    requires k >= 1 && |d| >= 1 && Extends(h, g, c) && Form(k, d, g, b) && DistinctIds(b)
    requires forall i :: 0 <= i < |g| ==> g[i].peerId in d
    ensures Form(k, if c.peerId in d then d else d + [c.peerId], h, BucketInsert(b, k, c))
  {
    var d' := if c.peerId in d then d else d + [c.peerId];
    if c.peerId in Pinned(k, d) {
      StepPinned(k, d, h, g, c, b);
    } else if c.peerId in d || |b| == k {
      HitsSlotZero(k, d, g, c, b);
      assert Pinned(k, d') == Pinned(k, d);
      StepSlotZero(k, d, d', h, g, c, b);
    } else {
      StepAppend(k, d, h, g, c, b);
    }
  }

  /** The history closed form of one bucket, for every history and bucket size. */
  lemma {:induction false} BucketClosedForm<K, A>(k: nat, h: seq<Entry<K, A>>)
    requires k >= 1
    ensures IsClosedForm(k, h, BucketReplay(k, h))
  {
    if h == [] {
    } else {
      var g, c := h[..|h| - 1], h[|h| - 1];
      BucketClosedForm(k, g);
      if g == [] {
        assert BucketReplay(k, h) == [c];
        assert Arrivals(h) == [c.peerId];
      } else {
        assert g[0].peerId in Arrivals(g);
        StepForm(k, Arrivals(g), h, g, c, BucketReplay(k, g));
      }
    }
  }

  /** Every bucket of the table, after every history of insertions. */
  lemma HistoryClosedForm(self: PeerId, k: nat, h: seq<Contact>, r: nat)
    requires k >= 1 && r < MAX_POWER
    ensures IsClosedForm(k, SentTo(self, r, h), Replay(self, k, h)[r])
  {
    ReplayByBucket(self, k, h, r);
    BucketClosedForm(k, SentTo(self, r, h));
  }
}
