/** The bucketed table as a value, the specification of `FlatPeerMap` (src/types.rs). */
module FlatTable {
  import opened Hash
  import opened PeerTypes
  import opened Sequences

  /** Per rank, the contacts of the bucket in slot order. */
  type Table = seq<seq<Contact>>

  ghost predicate DistinctIds<K, A>(b: seq<Entry<K, A>>) {
    forall i, j :: 0 <= i < j < |b| ==> b[i].peerId != b[j].peerId
  }

  ghost predicate BucketOk(self: PeerId, k: nat, r: nat, b: seq<Contact>) {
    && |b| <= k
    && DistinctIds(b)
    && forall i :: 0 <= i < |b| ==> DistanceRank(self, b[i].peerId) == r
  }

  ghost predicate TableOk(self: PeerId, k: nat, t: Table) {
    && |t| == MAX_POWER
    && forall r: nat {:trigger BucketOk(self, k, r, t[r])} :: r < MAX_POWER ==> BucketOk(self, k, r, t[r])
  }

  ghost function EmptyTable(): Table { seq(MAX_POWER, _ => []) }

  /** The slot of `id`, or the length of the bucket. */
  function IndexOf<K(==), A>(b: seq<Entry<K, A>>, id: K): (i: nat)
    ensures i <= |b|
    ensures i < |b| ==> b[i].peerId == id
    ensures forall j :: 0 <= j < i ==> b[j].peerId != id
  {
    if b == [] then 0
    else
      var i := IndexOf(b[..|b| - 1], id);
      if i < |b| - 1 || b[|b| - 1].peerId == id then i else |b|
  }

  /** Update in place, else take the first free slot, else evict slot 0. */
  function BucketInsert<K(==), A>(b: seq<Entry<K, A>>, k: nat, c: Entry<K, A>): (b': seq<Entry<K, A>>)
    requires k >= 1
  {
    var i := IndexOf(b, c.peerId);
    if i < |b| then b[i := c] else if |b| < k then b + [c] else b[0 := c]
  }

  function Insert(self: PeerId, k: nat, t: Table, c: Contact): Table
    requires |t| == MAX_POWER && k >= 1
  {
    var r := DistanceRank(self, c.peerId);
    t[r := BucketInsert(t[r], k, c)]
  }

  function Find<K(==), A>(b: seq<Entry<K, A>>, id: K): (c: Option<Entry<K, A>>)
    ensures c.Some? ==> c.value in b && c.value.peerId == id
    ensures c.None? <==> forall i :: 0 <= i < |b| ==> b[i].peerId != id
  {
    var i := IndexOf(b, id);
    if i < |b| then Some(b[i]) else None
  }

  lemma InsertKeepsTableOk(self: PeerId, k: nat, t: Table, c: Contact)
    requires TableOk(self, k, t) && k >= 1
    ensures TableOk(self, k, Insert(self, k, t, c))
  {
    var r := DistanceRank(self, c.peerId);
    assert BucketOk(self, k, r, t[r]);
    assert BucketOk(self, k, r, BucketInsert(t[r], k, c));
  }

  /** Ids are pairwise distinct over the whole table, not only inside each bucket. */
  lemma {:induction false} StoredIdsDistinct(self: PeerId, k: nat, t: Table, n: nat)
    requires TableOk(self, k, t) && n <= MAX_POWER
    ensures DistinctIds(Flatten(t[..n]))
    ensures forall c :: c in Flatten(t[..n]) ==> DistanceRank(self, c.peerId) < n
  {
    if n == 0 {
    } else {
      StoredIdsDistinct(self, k, t, n - 1);
      assert t[..n][..n - 1] == t[..n - 1];
      assert BucketOk(self, k, n - 1, t[n - 1]);
      var a := Flatten(t[..n - 1]);
      var f := a + t[n - 1];
      assert Flatten(t[..n]) == f;
      forall i, j | 0 <= i < j < |f| ensures f[i].peerId != f[j].peerId {
        if i < |a| <= j { assert a[i] in a; }
      }
    }
  }

  // ---- The scan that `insert` performs on raw slots ----

  /** The first slot that is empty or holds `id`, or the length of the bucket. */
  function ScanStop<K(==), A>(b: seq<Option<Entry<K, A>>>, id: K): (i: nat)
    ensures i <= |b|
    ensures i < |b| ==> b[i].None? || b[i].value.peerId == id
    ensures forall j :: 0 <= j < i ==> b[j].Some? && b[j].value.peerId != id
  {
    if b == [] then 0
    else
      var i := ScanStop(b[..|b| - 1], id);
      if i < |b| - 1 || b[|b| - 1].None? || b[|b| - 1].value.peerId == id then i else |b|
  }

  lemma ScanStopsAt<K, A>(b: seq<Option<Entry<K, A>>>, c: Entry<K, A>, i: nat)
    requires 1 <= |b| && i <= |b|
    requires forall j :: 0 <= j < i ==> b[j].Some? && b[j].value.peerId != c.peerId
    requires i < |b| ==> b[i].None? || b[i].value.peerId == c.peerId
    ensures ScanInsert(b, c) == b[(if i < |b| then i else 0) := Some(c)]
  {}

  /** One insertion on raw slots, holes or not. */
  function ScanInsert<K(==), A>(b: seq<Option<Entry<K, A>>>, c: Entry<K, A>): seq<Option<Entry<K, A>>>
    requires |b| >= 1
  {
    var i := ScanStop(b, c.peerId);
    if i < |b| then b[i := Some(c)] else b[0 := Some(c)]
  }

  ghost predicate DistinctSlots<K, A>(b: seq<Option<Entry<K, A>>>) {
    forall i, j :: 0 <= i < j < |b| && b[i].Some? && b[j].Some? ==> b[i].value.peerId != b[j].value.peerId
  }

  /** Stopping at the first empty slot duplicates an id exactly when that id sits behind the hole. */
  lemma ScanKeepsDistinctIff<K, A>(b: seq<Option<Entry<K, A>>>, c: Entry<K, A>)
    requires |b| >= 1 && DistinctSlots(b)
    ensures DistinctSlots(ScanInsert(b, c)) <==>
            var i := ScanStop(b, c.peerId);
            forall j :: i < j < |b| && b[j].Some? ==> b[j].value.peerId != c.peerId
  {
    var i := ScanStop(b, c.peerId);
    var b' := ScanInsert(b, c);
    if j :| i < j < |b| && b[j].Some? && b[j].value.peerId == c.peerId {
      assert b'[i] == Some(c) && b'[j] == b[j];
    }
  }

  /** On packed slots the scan stops at the contact's slot, or at the first free one. */
  lemma ScanStopOnPacked<K, A>(b: seq<Option<Entry<K, A>>>, id: K)
    requires Packed(b)
    ensures ScanStop(b, id) == IndexOf(Filled(b), id)
  {
    FilledPacked(b);
    var f, i, n := Filled(b), ScanStop(b, id), IndexOf(Filled(b), id);
    if n < |f| {
      assert b[n] == Some(f[n]);
    }
    if i < |b| && b[i].Some? {
      assert b[i] == Some(f[i]);
    }
  }

  /** On packed slots the scan is the packed insertion; packing and distinctness are kept. */
  lemma ScanOnPacked<K, A>(b: seq<Option<Entry<K, A>>>, c: Entry<K, A>)
    requires |b| >= 1 && Packed(b)
    ensures Packed(ScanInsert(b, c))
    ensures Filled(ScanInsert(b, c)) == BucketInsert(Filled(b), |b|, c)
    ensures DistinctIds(Filled(b)) ==> DistinctIds(Filled(ScanInsert(b, c)))
  {
    ScanWrites(b, c);
    if DistinctIds(Filled(b)) { BucketInsertDistinct(Filled(b), |b|, c); }
  }

  lemma ScanWrites<K, A>(b: seq<Option<Entry<K, A>>>, c: Entry<K, A>)
    requires |b| >= 1 && Packed(b)
    ensures Packed(ScanInsert(b, c))
    ensures Filled(ScanInsert(b, c)) == BucketInsert(Filled(b), |b|, c)
  {
    var i := ScanStop(b, c.peerId);
    ScanStopOnPacked(b, c.peerId);
    if i < |b| {
      PackedWrite(b, i, c);
      if |Filled(b)| == |b| { assert i < |Filled(b)|; }
    } else {
      PackedWrite(b, 0, c);
    }
  }

  lemma BucketInsertDistinct<K, A>(b: seq<Entry<K, A>>, k: nat, c: Entry<K, A>)
    requires k >= 1 && DistinctIds(b)
    ensures DistinctIds(BucketInsert(b, k, c))
  {}
}
