/** `PeerMap`: one hash map per rank, and its search (src/types.rs). */
module PeerMaps {
  import opened Hash
  import opened PeerTypes
  import opened Sequences

  type Known = map<PeerId, SocketAddr>
  type Buckets = seq<Known>

  /** Neighbours per answer, as set in `PeerMap::default`. */
  const BUCKET_SIZE: nat := 16

  /** The part of a plain map that lives at rank `r`. */
  function AtRank(self: PeerId, known: Known, r: nat): Known {
    map id | id in known && DistanceRank(self, id) == r :: known[id]
  }

  /** The buckets that represent a plain map. */
  function BucketsOf(self: PeerId, known: Known): (b: Buckets)
    ensures |b| == MAX_POWER
    ensures forall r :: 0 <= r < MAX_POWER ==> b[r] == AtRank(self, known, r)
  {
    seq(MAX_POWER, r requires 0 <= r < MAX_POWER => AtRank(self, known, r))
  }

  function InsertAt(buckets: Buckets, self: PeerId, address: SocketAddr, id: PeerId): Buckets
    requires |buckets| == MAX_POWER
  {
    var r := DistanceRank(self, id);
    buckets[r := buckets[r][id := address]]
  }

  /** Inserting into the buckets is inserting into the map they represent. */
  lemma InsertRepresents(self: PeerId, known: Known, address: SocketAddr, id: PeerId)
    ensures InsertAt(BucketsOf(self, known), self, address, id) == BucketsOf(self, known[id := address])
  {
    var a, b := InsertAt(BucketsOf(self, known), self, address, id), BucketsOf(self, known[id := address]);
    forall r: nat | r < MAX_POWER ensures a[r] == b[r] {
      AtRankInsert(self, known, address, id, r);
    }
  }

  lemma AtRankInsert(self: PeerId, known: Known, address: SocketAddr, id: PeerId, r: nat)
    ensures AtRank(self, known[id := address], r) ==
            if DistanceRank(self, id) == r then AtRank(self, known, r)[id := address] else AtRank(self, known, r)
  {}

  /** Total number of peers over all buckets. */
  function TotalSize<K, A>(buckets: seq<map<K, A>>): nat {
    if buckets == [] then 0 else TotalSize(buckets[..|buckets| - 1]) + |buckets[|buckets| - 1]|
  }

  ghost function LowRanked<K, A>(rank: K -> nat, known: map<K, A>, n: nat): set<K> {
    set id | id in known && rank(id) < n
  }

  /** Buckets that split a map by rank hold each of its keys of low rank once. */
  lemma {:induction false} TotalSizeBelow<K, A>(rank: K -> nat, known: map<K, A>, buckets: seq<map<K, A>>)
    requires forall r :: 0 <= r < |buckets| ==> buckets[r].Keys == (set id | id in known && rank(id) == r)
    ensures TotalSize(buckets) == |LowRanked(rank, known, |buckets|)|
  {
    var n := |buckets|;
    if n > 0 {
      TotalSizeBelow(rank, known, buckets[..n - 1]);
      assert buckets[n - 1].Keys == set id | id in known && rank(id) == n - 1;
      LowRankedStep(rank, known, n - 1);
    } else {
      assert LowRanked(rank, known, 0) == {};
    }
  }

  lemma LowRankedStep<K, A>(rank: K -> nat, known: map<K, A>, n: nat)
    ensures |LowRanked(rank, known, n + 1)| ==
            |LowRanked(rank, known, n)| + |set id | id in known && rank(id) == n|
  {
    var low, here := LowRanked(rank, known, n), set id | id in known && rank(id) == n;
    assert LowRanked(rank, known, n + 1) == low + here;
    assert low !! here;
  }

  /** `count` is the number of peers known. */
  lemma TotalSizeIsKnown(self: PeerId, known: Known)
    ensures TotalSize(BucketsOf(self, known)) == |known|
  {
    var rank := (id: PeerId) => DistanceRank(self, id);
    TotalSizeBelow(rank, known, BucketsOf(self, known));
    assert LowRanked(rank, known, MAX_POWER) == known.Keys;
  }

  // ---- Iteration orders: a hash map lists its entries once each, in an order of its own ----

  /** One listing per bucket. */
  type Orders = o: seq<seq<Contact>> | |o| == MAX_POWER witness seq(256, _ => [])

  ghost predicate IsEnumeration(s: seq<Contact>, m: Known) {
    && (forall c :: c in s ==> c.peerId in m && m[c.peerId] == c.address)
    && (forall id :: id in m ==> Entry(id, m[id]) in s)
    && |s| == |m|
  }

  ghost predicate IsOrder(orders: seq<seq<Contact>>, buckets: Buckets) {
    |orders| == |buckets| && forall r :: 0 <= r < |orders| ==> IsEnumeration(orders[r], buckets[r])
  }

  method Enumerate(m: Known) returns (s: seq<Contact>)
    ensures IsEnumeration(s, m)
  {
    s := [];
    var rest := m;
    while |rest| > 0
      invariant rest.Keys <= m.Keys && forall id :: id in rest ==> rest[id] == m[id]
      invariant forall c :: c in s ==> c.peerId in m && m[c.peerId] == c.address
      invariant forall id :: id in m ==> id in rest || Entry(id, m[id]) in s
      invariant |s| + |rest| == |m|
      decreases |rest|
    {
      var id :| id in rest;
      s := s + [Entry(id, rest[id])];
      var less := rest - {id};
      assert less.Keys == rest.Keys - {id};
      rest := less;
    }
  }

  /** Some iteration order for every bucket. */
  method ListBuckets(buckets: Buckets) returns (orders: seq<seq<Contact>>)
    ensures IsOrder(orders, buckets)
  {
    orders := [];
    for r := 0 to |buckets|
      invariant |orders| == r && forall q :: 0 <= q < r ==> IsEnumeration(orders[q], buckets[q])
    {
      var order := Enumerate(buckets[r]);
      orders := orders + [order];
    }
  }

  lemma {:induction false} EnumerationExists(m: Known) returns (s: seq<Contact>)
    ensures IsEnumeration(s, m)
    decreases |m|
  {
    if m.Keys == {} {
      s := [];
    } else {
      var id :| id in m.Keys;
      var rest := m - {id};
      assert rest.Keys == m.Keys - {id};
      var tail := EnumerationExists(rest);
      s := tail + [Entry(id, m[id])];
      forall x | x in m ensures Entry(x, m[x]) in s {
        if x != id { assert x in rest; }
      }
    }
  }

  lemma {:induction false} OrdersExist(buckets: Buckets) returns (orders: seq<seq<Contact>>)
    ensures IsOrder(orders, buckets)
    decreases |buckets|
  {
    if buckets == [] {
      orders := [];
    } else {
      var front := OrdersExist(buckets[..|buckets| - 1]);
      var last := EnumerationExists(buckets[|buckets| - 1]);
      orders := front + [last];
    }
  }

  // ---- The search ----

  /** Everything the search loop lists for widths 0..w from bucket `s`, with no early exit. */
  function SearchFull(orders: Orders, s: nat, w: nat): seq<Contact>
    requires s < MAX_POWER && w < MAX_POWER
  {
    if w == 0 then orders[s]
    else SearchFull(orders, s, w - 1) + SearchWidth(orders, s, w)
  }

  /** One width: bucket 0 once the width exceeds the rank, and the bucket ahead while there is one. */
  function SearchWidth(orders: Orders, s: nat, w: nat): seq<Contact>
    requires s < MAX_POWER
  {
    (if w > s then orders[0] else []) + (if s + w < MAX_POWER then orders[s + w] else [])
  }

  function SearchResult(orders: Orders, s: nat, k: nat): seq<Contact>
    requires s < MAX_POWER
  {
    Take(SearchFull(orders, s, |orders| - 1), k)
  }

  lemma {:induction false} SearchPrefix(orders: Orders, s: nat, v: nat, w: nat)
    requires s < MAX_POWER && v <= w < MAX_POWER
    ensures SearchFull(orders, s, v) <= SearchFull(orders, s, w)
    decreases w
  {
    if v == w {
    } else {
      SearchPrefix(orders, s, v, w - 1);
    }
  }

  lemma SearchEarlyExit(orders: Orders, s: nat, w: nat, k: nat)
    requires s < MAX_POWER && w < MAX_POWER
    requires k <= |SearchFull(orders, s, w)| || w == MAX_POWER - 1
    ensures Take(SearchFull(orders, s, w), k) == SearchResult(orders, s, k)
  {
    SearchPrefix(orders, s, w, MAX_POWER - 1);
  }

  /** Which buckets the loop has covered after width `w`. */
  predicate Covered(s: nat, w: nat, r: nat) {
    s <= r <= s + w || (r == 0 && w > s)
  }

  lemma {:induction false} SearchMember(orders: Orders, s: nat, w: nat, c: Contact)
    requires s < MAX_POWER && w < MAX_POWER
    ensures c in SearchFull(orders, s, w) <==>
            exists r :: 0 <= r < MAX_POWER && Covered(s, w, r) && c in orders[r]
  {
    if w == 0 {
      assert Covered(s, 0, s);
    } else {
      SearchMember(orders, s, w - 1, c);
      var full, width := SearchFull(orders, s, w - 1), SearchWidth(orders, s, w);
      if c in full {
        var r :| 0 <= r < MAX_POWER && Covered(s, w - 1, r) && c in orders[r];
        assert Covered(s, w, r);
      }
      if c in width {
        if w > s && c in orders[0] { assert Covered(s, w, 0); } else { assert Covered(s, w, s + w); }
      }
      if r :| 0 <= r < MAX_POWER && Covered(s, w, r) && c in orders[r] {
        if Covered(s, w - 1, r) { assert c in full; } else { assert c in width; }
      }
    }
  }

  /** For a map in its buckets: an entry is listed exactly if it is known at a rank that is covered. */
  lemma SearchListsKnown(self: PeerId, known: Known, orders: Orders, s: nat, w: nat, c: Contact)
    requires IsOrder(orders, BucketsOf(self, known)) && s < MAX_POWER && w < MAX_POWER
    ensures c in SearchFull(orders, s, w) <==>
            c.peerId in known && known[c.peerId] == c.address && Covered(s, w, DistanceRank(self, c.peerId))
  {
    SearchMember(orders, s, w, c);
    var buckets, q := BucketsOf(self, known), DistanceRank(self, c.peerId);
    if c in SearchFull(orders, s, w) {
      var r :| 0 <= r < MAX_POWER && Covered(s, w, r) && c in orders[r];
      assert IsEnumeration(orders[r], buckets[r]);
      assert c.peerId in AtRank(self, known, r);
    }
    if c.peerId in known && known[c.peerId] == c.address && Covered(s, w, q) {
      assert IsEnumeration(orders[q], buckets[q]);
      assert c.peerId in AtRank(self, known, q);
      assert c == Entry(c.peerId, known[c.peerId]);
    }
  }

  /** The answer only names known peers, and never one whose rank lies strictly between 0 and the target's. */
  lemma SearchSound(self: PeerId, known: Known, orders: Orders, s: nat, k: nat, c: Contact)
    requires IsOrder(orders, BucketsOf(self, known)) && s < MAX_POWER
    requires c in SearchResult(orders, s, k)
    ensures c.peerId in known && known[c.peerId] == c.address
    ensures DistanceRank(self, c.peerId) >= s || DistanceRank(self, c.peerId) == 0
  {
    assert c in SearchFull(orders, s, MAX_POWER - 1);
    SearchListsKnown(self, known, orders, s, MAX_POWER - 1, c);
  }

  /** An answer shorter than the bucket size names a known peer exactly when its rank is at least the
      target's, or is 0 with a target below 255. */
  lemma ShortSearchCompleteIff(self: PeerId, known: Known, orders: Orders, s: nat, k: nat, id: PeerId)
    requires IsOrder(orders, BucketsOf(self, known)) && s < MAX_POWER && id in known
    requires |SearchResult(orders, s, k)| < k
    ensures Entry(id, known[id]) in SearchResult(orders, s, k) <==>
            var r := DistanceRank(self, id); r >= s || (r == 0 && s <= MAX_POWER - 2)
  {
    assert SearchResult(orders, s, k) == SearchFull(orders, s, MAX_POWER - 1);
    SearchListsKnown(self, known, orders, s, MAX_POWER - 1, Entry(id, known[id]));
  }

  // ---- Repeats: bucket 0 is listed anew at every width beyond the target's rank ----

  /** How often bucket `r` has been listed after width `w`. */
  function Times(s: nat, w: nat, r: nat): nat {
    (if s <= r <= s + w then 1 else 0) + (if r == 0 && w > s then w - s else 0)
  }

  /** An entry of an enumeration occurs in it once. */
  lemma EnumeratedOnce(e: seq<Contact>, m: Known, c: Contact)
    requires IsEnumeration(e, m)
    ensures CountIn(e, c) == if c.peerId in m && m[c.peerId] == c.address then 1 else 0
  {
    if c in e {
      var i :| 0 <= i < |e| && e[i] == c;
      var rest := e[..i] + e[i + 1..];
      assert e == e[..i] + [c] + e[i + 1..];
      if c in rest {
        forall id | id in m ensures id in Elements(Ids(rest)) {
          var x := Entry(id, m[id]);
          assert x in rest;
          var j :| 0 <= j < |rest| && rest[j] == x;
          assert Ids(rest)[j] in Ids(rest);
        }
        SizeAtMost(Ids(rest));
        assert m.Keys <= Elements(Ids(rest));
        SubsetSize(m.Keys, Elements(Ids(rest)));
        assert false;
      }
    }
  }

  /** The listing of bucket `r` has each known peer of that rank once. */
  lemma BucketCounts(self: PeerId, known: Known, orders: Orders, r: nat, c: Contact)
    requires IsOrder(orders, BucketsOf(self, known)) && r < MAX_POWER
    ensures CountIn(orders[r], c) ==
            if c.peerId in known && known[c.peerId] == c.address && DistanceRank(self, c.peerId) == r then 1 else 0
  {
    assert IsEnumeration(orders[r], BucketsOf(self, known)[r]);
    EnumeratedOnce(orders[r], AtRank(self, known, r), c);
  }

  /** `c` occurs once in the listing of bucket `q` and in no other. */
  ghost predicate OnlyIn(orders: Orders, c: Contact, q: nat) {
    forall r :: 0 <= r < MAX_POWER ==> CountIn(orders[r], c) == if r == q then 1 else 0
  }

  lemma WidthCounts(orders: Orders, s: nat, w: nat, c: Contact, q: nat)
    requires s < MAX_POWER && 1 <= w < MAX_POWER && q < MAX_POWER && OnlyIn(orders, c, q)
    ensures CountIn(SearchWidth(orders, s, w), c) == Times(s, w, q) - Times(s, w - 1, q)
  {
    CountConcat(if w > s then orders[0] else [], if s + w < MAX_POWER then orders[s + w] else [], c);
  }

  /** The search lists it once per listing of its bucket. */
  lemma {:induction false} FullCounts(orders: Orders, s: nat, w: nat, c: Contact, q: nat)
    requires s < MAX_POWER && w < MAX_POWER && q < MAX_POWER && OnlyIn(orders, c, q)
    ensures CountIn(SearchFull(orders, s, w), c) == Times(s, w, q)
  {
    if w == 0 {
    } else {
      FullCounts(orders, s, w - 1, c, q);
      WidthCounts(orders, s, w, c, q);
      CountConcat(SearchFull(orders, s, w - 1), SearchWidth(orders, s, w), c);
    }
  }

  /** How often the complete search lists each known peer, and nobody else. */
  lemma SearchRepeats(self: PeerId, known: Known, orders: Orders, s: nat, w: nat, c: Contact)
    requires IsOrder(orders, BucketsOf(self, known)) && s < MAX_POWER && w < MAX_POWER
    ensures CountIn(SearchFull(orders, s, w), c) ==
            if c.peerId in known && known[c.peerId] == c.address then Times(s, w, DistanceRank(self, c.peerId)) else 0
  {
    if c.peerId in known && known[c.peerId] == c.address {
      var q := DistanceRank(self, c.peerId);
      forall r | 0 <= r < MAX_POWER ensures CountIn(orders[r], c) == if r == q then 1 else 0 {
        BucketCounts(self, known, orders, r, c);
      }
      FullCounts(orders, s, w, c, q);
    } else {
      SearchListsKnown(self, known, orders, s, w, c);
    }
  }

  /** Contacts in the buckets `s` to `t`. */
  function SizeBetween(orders: Orders, s: nat, t: nat): nat
    requires s <= t < MAX_POWER
  {
    |orders[t]| + if s == t then 0 else SizeBetween(orders, s, t - 1)
  }

  /** The exact length of the complete search: the buckets from the target up, and bucket 0 as often as it
      is listed anew. */
  lemma {:induction false} SearchLength(orders: Orders, s: nat, w: nat)
    requires s < MAX_POWER && w < MAX_POWER
    ensures |SearchFull(orders, s, w)| ==
            SizeBetween(orders, s, if s + w < MAX_POWER then s + w else MAX_POWER - 1) +
            (if w > s then w - s else 0) * |orders[0]|
  {
    if w == 0 {
    } else {
      SearchLength(orders, s, w - 1);
      assert |SearchFull(orders, s, w)| == |SearchFull(orders, s, w - 1)| + |SearchWidth(orders, s, w)|;
      if w > s { OneMore(w - 1 - s, |orders[0]|); }
    }
  }

  lemma OneMore(n: nat, k: nat)
    ensures (n + 1) * k == n * k + k
  {}

  /** The last width before bucket 0 is listed for the second time. */
  function LastFreshWidth(s: nat): nat {
    if s == 0 then 0 else if s + 1 < MAX_POWER then s + 1 else MAX_POWER - 1
  }

  ghost predicate Repeats(e: seq<Contact>) { exists c :: CountIn(e, c) >= 2 }

  /** An answer is free of repeats exactly when bucket 0 is empty, or the target's rank is so high that it
      is listed at most once, or enough peers are found before it is listed again. */
  lemma AnswerRepeatsIff(self: PeerId, known: Known, orders: Orders, s: nat, k: nat)
    requires IsOrder(orders, BucketsOf(self, known)) && s < MAX_POWER
    ensures !Repeats(SearchResult(orders, s, k)) <==>
            || orders[0] == [] || LastFreshWidth(s) == MAX_POWER - 1
            || k <= |SearchFull(orders, s, LastFreshWidth(s))|
  {
    var v := LastFreshWidth(s);
    SearchPrefix(orders, s, v, MAX_POWER - 1);
    if orders[0] != [] && v < MAX_POWER - 1 && k > |SearchFull(orders, s, v)| {
      ListedTwice(self, known, orders, s, k);
    } else {
      forall c ensures CountIn(SearchResult(orders, s, k), c) <= 1 {
        ListedOnce(self, known, orders, s, k, if orders[0] == [] then MAX_POWER - 1 else v, c);
      }
    }
  }

  lemma ListedOnce(self: PeerId, known: Known, orders: Orders, s: nat, k: nat, w: nat, c: Contact)
    requires IsOrder(orders, BucketsOf(self, known)) && s < MAX_POWER && w < MAX_POWER
    requires k <= |SearchFull(orders, s, w)| || w == MAX_POWER - 1
    requires orders[0] == [] || w == LastFreshWidth(s)
    ensures CountIn(SearchResult(orders, s, k), c) <= 1
  {
    SearchPrefix(orders, s, w, MAX_POWER - 1);
    PrefixCounts(SearchResult(orders, s, k), SearchFull(orders, s, w), c);
    SearchRepeats(self, known, orders, s, w, c);
    if orders[0] == [] {
      assert IsEnumeration(orders[0], BucketsOf(self, known)[0]);
      assert c.peerId !in AtRank(self, known, 0);
    }
  }

  lemma ListedTwice(self: PeerId, known: Known, orders: Orders, s: nat, k: nat)
    requires IsOrder(orders, BucketsOf(self, known)) && s < MAX_POWER && orders[0] != []
    requires LastFreshWidth(s) < MAX_POWER - 1 && k > |SearchFull(orders, s, LastFreshWidth(s))|
    ensures Repeats(SearchResult(orders, s, k))
  {
    var v, x := LastFreshWidth(s), orders[0][0];
    var before := SearchFull(orders, s, v);
    ListedNext(orders, s, v, k);
    PrefixCounts(before + [x], SearchResult(orders, s, k), x);
    assert CountIn(orders[0], x) >= 1;
    BucketCounts(self, known, orders, 0, x);
    SearchRepeats(self, known, orders, s, v, x);
  }

  /** An answer that goes past width `v` goes on with bucket 0. */
  lemma ListedNext(orders: Orders, s: nat, v: nat, k: nat)
    requires s < MAX_POWER && s <= v < MAX_POWER - 1 && orders[0] != [] && k > |SearchFull(orders, s, v)|
    ensures SearchFull(orders, s, v) + [orders[0][0]] <= SearchResult(orders, s, k)
  {
    var before := SearchFull(orders, s, v);
    var next := before + SearchWidth(orders, s, v + 1);
    assert SearchFull(orders, s, v + 1) == next;
    SearchPrefix(orders, s, v + 1, MAX_POWER - 1);
    assert before + [orders[0][0]] <= next;
  }

  // ---- The order of the search, and what an answer means for the map ----

  /** How many entries are listed before width `v`. */
  ghost function ListedBefore(orders: Orders, s: nat, v: nat): nat
    requires s < MAX_POWER && v < MAX_POWER
  {
    if v == 0 then 0
    else
      SizeBetween(orders, s, if s + v <= MAX_POWER then s + v - 1 else MAX_POWER - 1) +
      (if v - 1 > s then v - 1 - s else 0) * |orders[0]|
  }

  /** The part of a listing that starts at `p` is `part`. */
  ghost predicate StandsAt(e: seq<Contact>, p: nat, part: seq<Contact>) {
    p + |part| <= |e| && e[p..p + |part|] == part
  }

  /** Where the complete search lists each bucket: at width `v` bucket 0 if the width exceeds the target's rank,
      and behind it the bucket `v` above the target's while there is one, each in its iteration order. */
  lemma SearchOrder(orders: Orders, s: nat, v: nat)
    requires s < MAX_POWER && v < MAX_POWER
    ensures var e, p, zero := SearchFull(orders, s, |orders| - 1), ListedBefore(orders, s, v), |orders[0]|;
            && (v > s ==> StandsAt(e, p, orders[0]))
            && (s + v < MAX_POWER ==> StandsAt(e, p + (if v > s then zero else 0), orders[s + v]))
  {
    hide SizeBetween;
    var e := SearchFull(orders, s, |orders| - 1);
    SearchPrefix(orders, s, v, |orders| - 1);
    ListedBeforeIsLength(orders, s, v);
    if v == 0 {
      assert e[..|orders[s]|] == orders[s];
    } else {
      hide ListedBefore, StandsAt;
      var zero, ahead := if v > s then orders[0] else [], if s + v < MAX_POWER then orders[s + v] else [];
      assert SearchFull(orders, s, v) == SearchFull(orders, s, v - 1) + (zero + ahead);
      MiddleParts(e, SearchFull(orders, s, v - 1), zero, ahead);
    }
  }

  lemma ListedBeforeIsLength(orders: Orders, s: nat, v: nat)
    requires s < MAX_POWER && v < MAX_POWER
    ensures ListedBefore(orders, s, v) == if v == 0 then 0 else |SearchFull(orders, s, v - 1)|
  {
    if v > 0 { SearchLength(orders, s, v - 1); }
  }

  lemma MiddleParts(e: seq<Contact>, front: seq<Contact>, x: seq<Contact>, y: seq<Contact>)
    requires front + (x + y) <= e
    ensures StandsAt(e, |front|, x) && StandsAt(e, |front| + |x|, y)
  {
    var all := front + (x + y);
    assert e[|front|..|front| + |x|] == all[|front|..|front| + |x|] == x;
    assert e[|front| + |x|..|all|] == all[|front| + |x|..] == y;
  }

  /** Known peers of rank `s` to `t`. */
  ghost function RankedBetween(self: PeerId, known: Known, s: nat, t: nat): set<PeerId> {
    set id | id in known && s <= DistanceRank(self, id) <= t
  }

  lemma {:induction false} SizeBetweenIsKnown(self: PeerId, known: Known, orders: Orders, s: nat, t: nat)
    requires IsOrder(orders, BucketsOf(self, known)) && s <= t < MAX_POWER
    ensures SizeBetween(orders, s, t) == |RankedBetween(self, known, s, t)|
    decreases t
  {
    hide RankedBetween, AtRank, IsOrder;
    BucketSize(self, known, orders, t);
    RankedStep(self, known, s, t);
    if s == t {
    } else {
      SizeBetweenIsKnown(self, known, orders, s, t - 1);
    }
  }

  lemma BucketSize(self: PeerId, known: Known, orders: Orders, r: nat)
    requires IsOrder(orders, BucketsOf(self, known)) && r < MAX_POWER
    ensures |orders[r]| == |AtRank(self, known, r)|
  {
    assert IsEnumeration(orders[r], BucketsOf(self, known)[r]);
  }

  lemma RankedStep(self: PeerId, known: Known, s: nat, t: nat)
    requires s <= t
    ensures |RankedBetween(self, known, s, t)| ==
            |AtRank(self, known, t)| + if s == t then 0 else |RankedBetween(self, known, s, t - 1)|
  {
    var here := AtRank(self, known, t).Keys;
    assert |here| == |AtRank(self, known, t)|;
    if s == t {
      assert RankedBetween(self, known, s, t) == here;
    } else {
      var below := RankedBetween(self, known, s, t - 1);
      assert RankedBetween(self, known, s, t) == below + here && below !! here;
    }
  }

  /** Where a rank comes in the order of a search for rank `s`: ranks from the target's up, and rank 0 just before
      the rank that lies as far above the target's as 0 would have to lie below it, plus one. */
  function SearchTurn(s: nat, r: nat): nat { if r >= s then 2 * (r - s) + 1 else 2 * (s + 1) }

  /** In an answer every peer has those before it whose rank has an earlier turn. */
  lemma SearchOrdered(self: PeerId, known: Known, orders: Orders, s: nat, k: nat, x: PeerId, y: PeerId)
    requires IsOrder(orders, BucketsOf(self, known)) && s < MAX_POWER && x in known && y in known
    requires var r := DistanceRank(self, x); r >= s || r == 0
    requires SearchTurn(s, DistanceRank(self, x)) < SearchTurn(s, DistanceRank(self, y))
    ensures Precedes(SearchResult(orders, s, k), Entry(x, known[x]), Entry(y, known[y]))
  {
    hide IsOrder, Precedes;
    var r, c, d := DistanceRank(self, x), Entry(x, known[x]), Entry(y, known[y]);
    var e := SearchFull(orders, s, |orders| - 1);
    if r >= s {
      var v := r - s;
      SearchListsKnown(self, known, orders, s, v, c);
      SearchListsKnown(self, known, orders, s, v, d);
      SearchPrefix(orders, s, v, |orders| - 1);
      PrefixDecides(SearchFull(orders, s, v), e, c, d);
    } else {
      ZeroListed(self, known, orders, s, c, d);
    }
    PrecedesTake(e, k, c, d);
  }

  /** Rank 0 is listed at the first width that exceeds the target's rank, in front of the bucket ahead. */
  lemma ZeroListed(self: PeerId, known: Known, orders: Orders, s: nat, c: Contact, d: Contact)
    requires IsOrder(orders, BucketsOf(self, known)) && 0 < s < MAX_POWER
    requires c.peerId in known && known[c.peerId] == c.address && DistanceRank(self, c.peerId) == 0
    requires d.peerId in known && DistanceRank(self, d.peerId) > 2 * s
    ensures Precedes(SearchFull(orders, s, |orders| - 1), c, d)
  {
    hide IsOrder, Precedes, SearchFull;
    var front, e := SearchFull(orders, s, s), SearchFull(orders, s, |orders| - 1);
    SearchListsKnown(self, known, orders, s, s, d);
    BucketLists(self, known, orders, 0, c);
    BucketLists(self, known, orders, 0, d);
    ZeroNext(orders, s);
    PrefixDecides(front + orders[0], e, c, d);
  }

  lemma BucketLists(self: PeerId, known: Known, orders: Orders, r: nat, c: Contact)
    requires IsOrder(orders, BucketsOf(self, known)) && r < MAX_POWER
    ensures c in orders[r] <==>
            c.peerId in known && known[c.peerId] == c.address && DistanceRank(self, c.peerId) == r
  {
    BucketCounts(self, known, orders, r, c);
    assert c in orders[r] <==> CountIn(orders[r], c) > 0;
  }

  lemma ZeroNext(orders: Orders, s: nat)
    requires 0 < s < MAX_POWER - 1
    ensures SearchFull(orders, s, s) + orders[0] <= SearchFull(orders, s, |orders| - 1)
  {
    assert SearchFull(orders, s, s + 1) == SearchFull(orders, s, s) + SearchWidth(orders, s, s + 1);
    SearchPrefix(orders, s, s + 1, |orders| - 1);
    assert SearchFull(orders, s, s) + orders[0] <= SearchFull(orders, s, s + 1);
  }

  /** What a list of neighbours tells a peer that asked for an id of rank `target`: known peers only, at most 16,
      each as often as it is listed; and if fewer, then every known peer of at least that rank, and those of rank
      0 unless the target's rank is 255; always in the order of their ranks' turns. */
  ghost predicate IsNeighbourList(self: PeerId, known: Known, target: nat, list: seq<Contact>) {
    && (forall c :: c in list ==> c.peerId in known && known[c.peerId] == c.address)
    && (forall c :: c in list ==> DistanceRank(self, c.peerId) >= target || DistanceRank(self, c.peerId) == 0)
    && (var all := |RankedBetween(self, known, target, 255)| + (255 - target) * |RankedBetween(self, known, 0, 0)|;
        |list| == if all < 16 then all else 16)
    && (|list| < 16 ==> forall id :: id in known ==>
          var r := DistanceRank(self, id);
          Entry(id, known[id]) in list <==> r >= target || (r == 0 && target <= 254))
    && InTurn(self, known, target, list)
  }

  ghost predicate InTurn(self: PeerId, known: Known, target: nat, list: seq<Contact>) {
    forall x, y :: x in known && y in known ==>
      var r, q := DistanceRank(self, x), DistanceRank(self, y);
      (r >= target || r == 0) && SearchTurn(target, r) < SearchTurn(target, q) ==>
        Precedes(list, Entry(x, known[x]), Entry(y, known[y]))
  }

  lemma AnswerInTurn(self: PeerId, known: Known, orders: Orders, target: nat, k: nat)
    requires IsOrder(orders, BucketsOf(self, known)) && target < MAX_POWER
    ensures InTurn(self, known, target, SearchResult(orders, target, k))
  {
    hide Precedes, IsOrder, SearchFull, SearchResult;
    var list := SearchResult(orders, target, k);
    forall x, y | x in known && y in known
      && SearchTurn(target, DistanceRank(self, x)) < SearchTurn(target, DistanceRank(self, y))
      && (DistanceRank(self, x) >= target || DistanceRank(self, x) == 0)
      ensures Precedes(list, Entry(x, known[x]), Entry(y, known[y]))
    {
      SearchOrdered(self, known, orders, target, k, x, y);
    }
  }

  lemma AnswerLength(self: PeerId, known: Known, orders: Orders, target: nat, k: nat)
    requires IsOrder(orders, BucketsOf(self, known)) && target < MAX_POWER
    ensures var all := |RankedBetween(self, known, target, 255)| + (255 - target) * |RankedBetween(self, known, 0, 0)|;
            |SearchResult(orders, target, k)| == if all < k then all else k
  {
    hide SearchFull, SizeBetween, RankedBetween, IsOrder;
    FullLength(orders, target);
    SizeBetweenIsKnown(self, known, orders, target, |orders| - 1);
    SizeBetweenIsKnown(self, known, orders, 0, 0);
    BucketZeroSize(orders);
  }

  lemma FullLength(orders: Orders, s: nat)
    requires s < MAX_POWER
    ensures |SearchFull(orders, s, |orders| - 1)| == SizeBetween(orders, s, |orders| - 1) + (255 - s) * |orders[0]|
  {
    hide SearchFull, SizeBetween;
    SearchLength(orders, s, |orders| - 1);
  }

  lemma BucketZeroSize(orders: Orders)
    ensures SizeBetween(orders, 0, 0) == |orders[0]|
  {}

  /** The search answers with such a list, whatever the iteration orders. */
  lemma SearchIsNeighbourList(self: PeerId, known: Known, orders: Orders, target: nat)
    requires IsOrder(orders, BucketsOf(self, known)) && target < MAX_POWER
    ensures IsNeighbourList(self, known, target, SearchResult(orders, target, BUCKET_SIZE))
  {
    hide SearchFull, Precedes;
    var list := SearchResult(orders, target, BUCKET_SIZE);
    AnswerInTurn(self, known, orders, target, BUCKET_SIZE);
    forall c | c in list
      ensures c.peerId in known && known[c.peerId] == c.address
      ensures DistanceRank(self, c.peerId) >= target || DistanceRank(self, c.peerId) == 0
    {
      SearchSound(self, known, orders, target, BUCKET_SIZE, c);
    }
    AnswerLength(self, known, orders, target, BUCKET_SIZE);
    if |list| < BUCKET_SIZE {
      forall id | id in known
        ensures var r := DistanceRank(self, id);
                Entry(id, known[id]) in list <==> r >= target || (r == 0 && target <= 254)
      {
        ShortSearchCompleteIff(self, known, orders, target, BUCKET_SIZE, id);
      }
    }
  }

  function SaturatingSub(a: nat, b: nat): nat { if a >= b then a - b else 0 }

  /** The loop of the search: widths 1, 2, ... until enough peers are listed. */
  method SearchOutward(orders: Orders, s: nat, k: nat) returns (results: seq<Contact>)
    requires s < MAX_POWER
    ensures results == SearchResult(orders, s, k)
  {
    var width := 1;
    results := orders[s];
    while |results| < k && width < MAX_POWER
      invariant 1 <= width <= MAX_POWER
      invariant results == SearchFull(orders, s, width - 1)
      decreases MAX_POWER - width
    {
      var behind := SaturatingSub(s, width);
      var ahead := s + width;
      if width > s {
        results := results + orders[behind];
      }
      if ahead < MAX_POWER {
        results := results + orders[ahead];
      }
      width := width + 1;
    }
    SearchEarlyExit(orders, s, width - 1, k);
    results := Take(results, k);
  }

  class PeerMap {
    var buckets: Buckets
    const bucketSize: nat

    predicate Valid()
      reads this
    {
      |buckets| == MAX_POWER
    }

    /** The map is the one its owner `self` knows. */
    ghost predicate Represents(self: PeerId, known: Known)
      reads this
    {
      Valid() && buckets == BucketsOf(self, known)
    }

    constructor Default()
      ensures Valid() && bucketSize == BUCKET_SIZE
      ensures forall self :: Represents(self, map[])
    {
      buckets := seq(MAX_POWER, _ => map[]);
      bucketSize := BUCKET_SIZE;
      new;
      forall self ensures buckets == BucketsOf(self, map[]) {
        assert forall r :: 0 <= r < MAX_POWER ==> AtRank(self, map[], r) == map[];
      }
    }

    method Insert(self: PeerId, address: SocketAddr, id: PeerId)
      requires Valid()
      modifies this
      ensures Valid() && buckets == InsertAt(old(buckets), self, address, id)
      ensures forall known :: old(Represents(self, known)) ==> Represents(self, known[id := address])
    {
      var r := ComputeDistanceRank(self, id);
      ghost var before := buckets;
      buckets := buckets[r := buckets[r][id := address]];
      forall known | before == BucketsOf(self, known) ensures buckets == BucketsOf(self, known[id := address]) {
        InsertRepresents(self, known, address, id);
      }
    }

    function Contains(self: PeerId, id: PeerId): (c: Option<Contact>)
      requires Valid()
      reads this
      ensures forall known :: Represents(self, known) ==>
                c == if id in known then Some(Entry(id, known[id])) else None
    {
      var bucket := buckets[DistanceRank(self, id)];
      if id in bucket then Some(Entry(id, bucket[id])) else None
    }

    method IterationOrders() returns (orders: Orders)
      requires Valid()
      ensures IsOrder(orders, buckets)
    {
      orders := ListBuckets(buckets);
    }

    /** The search, given the order in which each bucket iterates. */
    method FindClosestPeers(self: PeerId, id: PeerId, orders: Orders) returns (results: seq<Contact>)
      requires Valid() && IsOrder(orders, buckets)
      ensures results == SearchResult(orders, DistanceRank(self, id), bucketSize)
    {
      var s := ComputeDistanceRank(self, id);
      results := SearchOutward(orders, s, bucketSize);
    }

    method Lookup(self: PeerId, id: PeerId, orders: Orders) returns (res: Result<Contact, seq<Contact>>)
      requires Valid() && IsOrder(orders, buckets)
      ensures forall known :: Represents(self, known) ==>
                res == if id in known then Ok(Entry(id, known[id]))
                       else Err(SearchResult(orders, DistanceRank(self, id), bucketSize))
    {
      var found := Contains(self, id);
      if found.Some? {
        res := Ok(found.value);
      } else {
        var closest := FindClosestPeers(self, id, orders);
        res := Err(closest);
      }
    }

    function Count(): (n: nat)
      requires Valid()
      reads this
      ensures forall self, known :: Represents(self, known) ==> n == |known|
    {
      assert forall self, known :: Represents(self, known) ==> TotalSize(buckets) == |known| by {
        forall self, known | Represents(self, known) ensures TotalSize(buckets) == |known| {
          TotalSizeIsKnown(self, known);
        }
      }
      TotalSize(buckets)
    }
  }
}
