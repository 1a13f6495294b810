/** `FlatPeerMap` against `PeerMap`, fed the same insertions (src/types.rs). */
module Refinement {
  import opened Hash
  import opened PeerTypes
  import opened Sequences
  import opened FlatTable
  import opened FlatHistory
  import opened PeerMaps

  /** The plain map after a history: the last insertion of each id wins. */
  ghost function LastWriter<K, A>(h: seq<Entry<K, A>>): map<K, A> {
    if h == [] then map[] else LastWriter(h[..|h| - 1])[h[|h| - 1].peerId := h[|h| - 1].address]
  }

  /** A `PeerMap` after a history. */
  ghost function MapReplay(self: PeerId, h: seq<Contact>): (b: Buckets)
    ensures |b| == MAX_POWER
  {
    if h == [] then BucketsOf(self, map[])
    else InsertAt(MapReplay(self, h[..|h| - 1]), self, h[|h| - 1].address, h[|h| - 1].peerId)
  }

  lemma {:induction false} MapReplayRepresents(self: PeerId, h: seq<Contact>)
    ensures MapReplay(self, h) == BucketsOf(self, LastWriter(h))
  {
    if h == [] {
    } else {
      MapReplayRepresents(self, h[..|h| - 1]);
      InsertRepresents(self, LastWriter(h[..|h| - 1]), h[|h| - 1].address, h[|h| - 1].peerId);
    }
  }

  /** What `FlatPeerMap::contains` and `PeerMap::contains` report after a history. */
  ghost function FlatReport(self: PeerId, k: nat, h: seq<Contact>, id: PeerId): Option<Contact>
    requires k >= 1
  {
    Find(Replay(self, k, h)[DistanceRank(self, id)], id)
  }

  ghost function MapReport(self: PeerId, h: seq<Contact>, id: PeerId): Option<Contact> {
    var bucket := MapReplay(self, h)[DistanceRank(self, id)];
    if id in bucket then Some(Entry(id, bucket[id])) else None
  }

  lemma {:induction false} LastWriterIsLast<K, A>(h: seq<Entry<K, A>>, id: K)
    ensures id in LastWriter(h) <==> LastIndex(h, id) >= 0
    ensures id in LastWriter(h) ==> LastWriter(h)[id] == h[LastIndex(h, id)].address
  {
    if h == [] {
    } else {
      LastWriterIsLast(h[..|h| - 1], id);
    }
  }

  /** A bucket's own history decides what the whole history last said about its ids. */
  lemma {:induction false} LastWriterByBucket(self: PeerId, h: seq<Contact>, id: PeerId)
    ensures var s := SentTo(self, DistanceRank(self, id), h);
            && (id in LastWriter(s) <==> id in LastWriter(h))
            && (id in LastWriter(h) ==> LastWriter(s)[id] == LastWriter(h)[id])
  {
    if h == [] {
    } else {
      var g, c, r := h[..|h| - 1], h[|h| - 1], DistanceRank(self, id);
      LastWriterByBucket(self, g, id);
      if DistanceRank(self, c.peerId) == r {
        assert (SentTo(self, r, g) + [c])[..|SentTo(self, r, g)|] == SentTo(self, r, g);
      }
    }
  }

  lemma {:induction false} MapReportIsLastWriter(self: PeerId, h: seq<Contact>, id: PeerId)
    ensures MapReport(self, h, id) ==
            if id in LastWriter(h) then Some(Entry(id, LastWriter(h)[id])) else None
  {
    MapReplayRepresents(self, h);
  }

  /** Every contact of a bucket in closed form is the last insertion of its id. */
  lemma FormHoldsLast<K, A>(k: nat, d: seq<K>, h: seq<Entry<K, A>>, b: seq<Entry<K, A>>, i: nat)
    requires k >= 1 && Form(k, d, h, b) && i < |b|
    ensures HoldsLast(h, b[i].peerId, b[i])
  {
    if i == 0 {
      var j := LatestOutside(h, Pinned(k, d));
      assert LastIndex(h, b[0].peerId) == j;
    } else {
      assert HoldsLast(h, d[i], b[i]);
    }
  }

  /** Whatever the flat table reports is exactly what the map reports, for every history. */
  lemma FlatRefinesMap(self: PeerId, k: nat, h: seq<Contact>, id: PeerId)
    requires k >= 1
    ensures FlatReport(self, k, h, id).Some? ==> FlatReport(self, k, h, id) == MapReport(self, h, id)
  {
    var r := DistanceRank(self, id);
    var b, s := Replay(self, k, h)[r], SentTo(self, r, h);
    HistoryClosedForm(self, k, h, r);
    MapReportIsLastWriter(self, h, id);
    LastWriterByBucket(self, h, id);
    LastWriterIsLast(s, id);
    var i := IndexOf(b, id);
    if i < |b| {
      FormHoldsLast(k, Arrivals(s), s, b, i);
    }
  }

  /** While a bucket has received at most `k` ids it still holds them all. */
  lemma RoomyBucketHoldsAll<K, A>(k: nat, h: seq<Entry<K, A>>, b: seq<Entry<K, A>>, id: K)
    requires k >= 1 && IsClosedForm(k, h, b) && |Arrivals(h)| <= k && id in Arrivals(h)
    ensures Find(b, id).Some?
  {
    var d := Arrivals(h);
    FormIds(k, d, h, b);
    var i :| 0 <= i < |d| && d[i] == id;
    if i == 0 {
      assert b[0].peerId in d;
      assert d == [d[0]] + Pinned(k, d);
      assert b[0].peerId == id;
    } else {
      assert b[i].peerId == id;
    }
  }

  /** A bucket that received more ids than it has slots has lost one. */
  lemma CrowdedBucketLoses<K, A>(k: nat, h: seq<Entry<K, A>>, b: seq<Entry<K, A>>) returns (lost: K)
    requires |b| <= k < |Arrivals(h)|
    ensures lost in Arrivals(h) && Find(b, lost).None?
  {
    var d := Arrivals(h);
    DistinctSize(d);
    SizeAtMost(Ids(b));
    if Elements(d) <= Elements(Ids(b)) {
      SubsetSize(Elements(d), Elements(Ids(b)));
      assert false;
    }
    lost :| lost in Elements(d) && lost !in Elements(Ids(b));
    forall i | 0 <= i < |b| ensures b[i].peerId != lost { assert Ids(b)[i] in Ids(b); }
  }

  /** Every id sent to a bucket has the bucket's rank. */
  lemma {:induction false} SentToRank(self: PeerId, r: nat, h: seq<Contact>)
    ensures forall i :: 0 <= i < |SentTo(self, r, h)| ==> DistanceRank(self, SentTo(self, r, h)[i].peerId) == r
  {
    if h == [] {
    } else {
      SentToRank(self, r, h[..|h| - 1]);
    }
  }

  /** The two tables agree on every id exactly when no bucket has received more ids than it has slots. */
  lemma TablesAgreeIff(self: PeerId, k: nat, h: seq<Contact>)
    requires k >= 1
    ensures (forall id :: FlatReport(self, k, h, id) == MapReport(self, h, id)) <==>
            (forall r: nat :: r < MAX_POWER ==> |Arrivals(SentTo(self, r, h))| <= k)
  {
    if forall r: nat :: r < MAX_POWER ==> |Arrivals(SentTo(self, r, h))| <= k {
      forall id ensures FlatReport(self, k, h, id) == MapReport(self, h, id) {
        RoomyAgree(self, k, h, id);
      }
    }
    if r: nat :| r < MAX_POWER && |Arrivals(SentTo(self, r, h))| > k {
      var lost := CrowdedDisagree(self, k, h, r);
    }
  }

  lemma RoomyAgree(self: PeerId, k: nat, h: seq<Contact>, id: PeerId)
    requires k >= 1 && |Arrivals(SentTo(self, DistanceRank(self, id), h))| <= k
    ensures FlatReport(self, k, h, id) == MapReport(self, h, id)
  {
    var r := DistanceRank(self, id);
    var s := SentTo(self, r, h);
    FlatRefinesMap(self, k, h, id);
    MapReportIsLastWriter(self, h, id);
    LastWriterByBucket(self, h, id);
    LastWriterIsLast(s, id);
    ArrivalsMeaning(s, id);
    HistoryClosedForm(self, k, h, r);
    if id in Arrivals(s) { RoomyBucketHoldsAll(k, s, Replay(self, k, h)[r], id); }
  }

  lemma CrowdedDisagree(self: PeerId, k: nat, h: seq<Contact>, r: nat) returns (lost: PeerId)
    requires k >= 1 && r < MAX_POWER && |Arrivals(SentTo(self, r, h))| > k
    ensures FlatReport(self, k, h, lost) != MapReport(self, h, lost)
  {
    var s, b := SentTo(self, r, h), Replay(self, k, h)[r];
    assert BucketOk(self, k, r, b);
    lost := CrowdedBucketLoses(k, s, b);
    ArrivalsMeaning(s, lost);
    SentToRank(self, r, h);
    assert DistanceRank(self, lost) == r;
    LastWriterIsLast(s, lost);
    LastWriterByBucket(self, h, lost);
    MapReportIsLastWriter(self, h, lost);
  }
}
