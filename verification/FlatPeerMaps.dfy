/** `FlatPeerMap`: 256 buckets of `bucketSize` slots laid out in one array (src/types.rs). */
module FlatPeerMaps {
  import opened Hash
  import opened PeerTypes
  import opened Sequences
  import opened FlatTable
  import opened FlatHistory
  import opened RingWalk

  /** The slots of one bucket. */
  type Row = seq<Option<Contact>>

  /** Right number of slots, filled slots in front, and the contents a well-formed bucket. */
  ghost predicate RowOk(self: PeerId, k: nat, r: nat, row: Row) {
    |row| == k && Packed(row) && BucketOk(self, k, r, Filled(row))
  }

  ghost predicate RowsOk(self: PeerId, k: nat, rows: seq<Row>) {
    && |rows| == MAX_POWER
    && forall r: nat {:trigger RowOk(self, k, r, rows[r])} :: r < MAX_POWER ==> RowOk(self, k, r, rows[r])
  }

  /** The table held in the rows. */
  function TableOf(rows: seq<Row>): (t: Table)
    ensures |t| == |rows|
    ensures forall r :: 0 <= r < |rows| ==> t[r] == Filled(rows[r])
  {
    seq(|rows|, r requires 0 <= r < |rows| => Filled(rows[r]))
  }

  function InsertRows(self: PeerId, rows: seq<Row>, c: Contact): seq<Row>
    requires |rows| == MAX_POWER && forall r :: 0 <= r < MAX_POWER ==> |rows[r]| >= 1
  {
    var r := DistanceRank(self, c.peerId);
    rows[r := ScanInsert(rows[r], c)]
  }

  lemma RowsTableOk(self: PeerId, k: nat, rows: seq<Row>)
    requires RowsOk(self, k, rows)
    ensures TableOk(self, k, TableOf(rows))
  {
    forall r | 0 <= r < MAX_POWER ensures BucketOk(self, k, r, TableOf(rows)[r]) {
      assert RowOk(self, k, r, rows[r]);
    }
  }

  /** The scan keeps the row invariant, and on the contents it is the table insertion. */
  lemma InsertRowsOk(self: PeerId, k: nat, rows: seq<Row>, c: Contact)
    requires RowsOk(self, k, rows) && k >= 1
    ensures forall r :: 0 <= r < MAX_POWER ==> |rows[r]| >= 1
    ensures RowsOk(self, k, InsertRows(self, rows, c))
    ensures TableOf(InsertRows(self, rows, c)) == Insert(self, k, TableOf(rows), c)
  {
    forall r | 0 <= r < MAX_POWER ensures |rows[r]| >= 1 {
      assert RowOk(self, k, r, rows[r]);
    }
    RowsTableOk(self, k, rows);
    var r := DistanceRank(self, c.peerId);
    var rows' := InsertRows(self, rows, c);
    assert RowOk(self, k, r, rows[r]);
    ScanOnPacked(rows[r], c);
    assert TableOf(rows') == Insert(self, k, TableOf(rows), c);
    InsertKeepsTableOk(self, k, TableOf(rows), c);
    forall q | 0 <= q < MAX_POWER ensures RowOk(self, k, q, rows'[q]) {
      assert RowOk(self, k, q, rows[q]);
      assert BucketOk(self, k, q, TableOf(rows')[q]);
    }
  }

  // ---- Layout: row r occupies slots r*k .. r*k + k of the array ----

  ghost predicate Uniform(k: nat, rows: seq<Row>) {
    forall r :: 0 <= r < |rows| ==> |rows[r]| == k
  }

  lemma {:induction false} LayoutLength(k: nat, rows: seq<Row>)
    requires Uniform(k, rows)
    ensures |Flatten(rows)| == |rows| * k
  {
    if rows == [] {
    } else {
      LayoutLength(k, rows[..|rows| - 1]);
      assert |rows| * k == (|rows| - 1) * k + k;
    }
  }

  /** Slot `i` of row `r` is array slot r*k + i. */
  lemma LayoutSlot(k: nat, rows: seq<Row>, r: nat, i: nat)
    requires Uniform(k, rows) && r < |rows| && i < k
    ensures 0 <= r * k && r * k + i < |Flatten(rows)|
    ensures Flatten(rows)[r * k + i] == rows[r][i]
  {
    LayoutRow(k, rows, r);
    assert Flatten(rows)[r * k + i] == Flatten(rows)[r * k..r * k + k][i];
  }

  /** Writing that array slot writes that slot of that row only. */
  lemma LayoutWrite(k: nat, rows: seq<Row>, r: nat, i: nat, v: Option<Contact>)
    requires Uniform(k, rows) && r < |rows| && i < k
    ensures 0 <= r * k && r * k + i < |Flatten(rows)|
    ensures Flatten(rows)[r * k + i := v] == Flatten(rows[r := rows[r][i := v]])
  {
    LayoutRow(k, rows, r);
    LayoutLength(k, rows[..r]);
    SplitAtRow(rows, r, rows[r]);
    SplitAtRow(rows, r, rows[r][i := v]);
    MiddleWrite(rows[..r], rows[r], rows[r + 1..], i, v);
  }

  lemma SplitAtRow(rows: seq<Row>, r: nat, m: Row)
    requires r < |rows|
    ensures rows[r := m] == rows[..r] + [m] + rows[r + 1..]
    ensures m == rows[r] ==> rows[r := m] == rows
  {}

  lemma MiddleWrite<T>(a: seq<seq<T>>, m: seq<T>, b: seq<seq<T>>, i: nat, v: T)
    requires i < |m|
    ensures |Flatten(a)| + i < |Flatten(a + [m] + b)|
    ensures Flatten(a + [m] + b)[|Flatten(a)| + i := v] == Flatten(a + [m[i := v]] + b)
  {
    FlattenMiddle(a, m, b);
    FlattenMiddle(a, m[i := v], b);
    var x, y := Flatten(a), Flatten(b);
    assert (x + m + y)[|x| + i := v] == x + m[i := v] + y;
  }

  lemma FlattenMiddle<T>(a: seq<seq<T>>, m: seq<T>, b: seq<seq<T>>)
    ensures Flatten(a + [m] + b) == Flatten(a) + m + Flatten(b)
  {
    FlattenConcat(a + [m], b);
    assert (a + [m])[..|a|] == a;
  }

  /** A row is the array slice the source takes. */
  lemma LayoutRow(k: nat, rows: seq<Row>, r: nat)
    requires Uniform(k, rows) && r < |rows|
    ensures 0 <= r * k && r * k + k <= |Flatten(rows)|
    ensures Flatten(rows)[r * k..r * k + k] == rows[r]
  {
    LayoutLength(k, rows[..r]);
    SplitAtRow(rows, r, rows[r]);
    FlattenMiddle(rows[..r], rows[r], rows[r + 1..]);
  }

  /** Reading the whole array left to right lists the buckets in order. */
  lemma {:induction false} FilledIsContents(rows: seq<Row>)
    ensures Filled(Flatten(rows)) == Flatten(TableOf(rows))
  {
    if rows == [] {
    } else {
      var a, z := rows[..|rows| - 1], rows[|rows| - 1];
      FilledIsContents(a);
      FilledConcat(Flatten(a), z);
      assert TableOf(rows)[..|rows| - 1] == TableOf(a);
    }
  }

  /** The table invariant read off the flat array: its length, every contact in the bucket of its rank
      with no hole before it, and no id twice. */
  lemma FlatInvariant(self: PeerId, k: nat, rows: seq<Row>)
    requires RowsOk(self, k, rows)
    ensures |Flatten(rows)| == MAX_POWER * k
    ensures forall p: nat :: p < |Flatten(rows)| && Flatten(rows)[p].Some? ==>
              && k >= 1 && DistanceRank(self, Flatten(rows)[p].value.peerId) == p / k
              && (p % k > 0 ==> Flatten(rows)[p - 1].Some?)
    ensures DistinctSlots(Flatten(rows))
  {
    RowsUniform(self, k, rows);
    LayoutLength(k, rows);
    if k >= 1 {
      forall p: nat | p < |Flatten(rows)| && Flatten(rows)[p].Some?
        ensures DistanceRank(self, Flatten(rows)[p].value.peerId) == p / k
        ensures p % k > 0 ==> Flatten(rows)[p - 1].Some?
      {
        SlotRank(self, k, rows, p);
      }
      forall p: nat, q: nat | p < q < |Flatten(rows)| && Flatten(rows)[p].Some? && Flatten(rows)[q].Some?
        ensures Flatten(rows)[p].value.peerId != Flatten(rows)[q].value.peerId
      {
        SlotsDistinct(self, k, rows, p, q);
      }
    }
  }

  lemma SlotsDistinct(self: PeerId, k: nat, rows: seq<Row>, p: nat, q: nat)
    requires RowsOk(self, k, rows) && k >= 1 && |Flatten(rows)| == MAX_POWER * k
    requires p < q < |Flatten(rows)| && Flatten(rows)[p].Some? && Flatten(rows)[q].Some?
    ensures Flatten(rows)[p].value.peerId != Flatten(rows)[q].value.peerId
  {
    SlotRank(self, k, rows, p);
    SlotRank(self, k, rows, q);
    if p / k == q / k {
      var r := q / k;
      assert RowOk(self, k, r, rows[r]);
      FilledPacked(rows[r]);
      DivisionOrder(p, q, k);
      var f := Filled(rows[r]);
      assert f[p % k].peerId != f[q % k].peerId;
    }
  }

  lemma RowsUniform(self: PeerId, k: nat, rows: seq<Row>)
    requires RowsOk(self, k, rows)
    ensures Uniform(k, rows)
  {
    forall r | 0 <= r < |rows| ensures |rows[r]| == k { assert RowOk(self, k, r, rows[r]); }
  }

  lemma DivisionOrder(p: nat, q: nat, k: nat)
    requires k >= 1 && p < q && p / k == q / k
    ensures p % k < q % k
  {}

  lemma Division(p: nat, k: nat, n: nat)
    requires k >= 1 && p < n * k
    ensures p == p / k * k + p % k && p % k < k && p / k < n
  {}

  lemma SlotRank(self: PeerId, k: nat, rows: seq<Row>, p: nat)
    requires RowsOk(self, k, rows) && k >= 1 && p < MAX_POWER * k && |Flatten(rows)| == MAX_POWER * k
    ensures p / k < MAX_POWER && p % k < |rows[p / k]| && Flatten(rows)[p] == rows[p / k][p % k]
    ensures Flatten(rows)[p].Some? ==> DistanceRank(self, Flatten(rows)[p].value.peerId) == p / k
    ensures Flatten(rows)[p].Some? && p % k > 0 ==> Flatten(rows)[p - 1].Some?
  {
    var r, i := p / k, p % k;
    Division(p, k, MAX_POWER);
    RowsUniform(self, k, rows);
    LayoutSlot(k, rows, r, i);
    if rows[r][i].Some? {
      RowSlot(self, k, r, rows[r], i);
      if i > 0 { LayoutSlot(k, rows, r, i - 1); }
    }
  }

  lemma RowSlot(self: PeerId, k: nat, r: nat, row: Row, i: nat)
    requires RowOk(self, k, r, row) && i < k && row[i].Some?
    ensures DistanceRank(self, row[i].value.peerId) == r
    ensures i > 0 ==> row[i - 1].Some?
  {
    FilledPacked(row);
  }

  class FlatPeerMap {
    const bucketSize: nat
    const peerId: PeerId
    const contacts: array<Option<Contact>>
    var count: nat
    var nextEviction: nat

    /** The array cut into buckets, and everything inserted so far. */
    ghost var rows: seq<Row>
    ghost var history: seq<Contact>

    /** The array is laid out as the rows say, and everything in it is counted. */
    ghost predicate LaidOut()
      reads this, contacts
    {
      && RowsOk(peerId, bucketSize, rows)
      && contacts[..] == Flatten(rows)
      && contacts.Length == MAX_POWER * bucketSize
      && count == |Filled(contacts[..])|
      && nextEviction == 0
    }

    ghost predicate Valid()
      reads this, contacts
    {
      LaidOut() && Model() == (if bucketSize >= 1 then Replay(peerId, bucketSize, history) else EmptyTable())
    }

    /** The contacts stored, bucket by bucket. */
    ghost function Model(): (t: Table)
      reads this
    {
      TableOf(rows)
    }

    constructor (peerId: PeerId, bucketSize: nat)
      ensures Valid() && fresh(contacts)
      ensures this.peerId == peerId && this.bucketSize == bucketSize
      ensures Model() == EmptyTable() && count == 0 && history == []
    {
      this.peerId := peerId;
      this.bucketSize := bucketSize;
      contacts := new Option<Contact>[MAX_POWER * bucketSize](_ => None);
      count := 0;
      nextEviction := 0;
      rows, history := EmptyRows(bucketSize), [];
      new;
      EmptyRowsOk(peerId, bucketSize);
      assert contacts[..] == Flatten(rows);
    }

    /** The index in its bucket of the contact to give up; asserts that the bucket is full. */
    method ItemToEvict(bucket: Row) returns (i: nat)
      requires LaidOut()
      requires |bucket| == bucketSize && forall j :: 0 <= j < |bucket| ==> bucket[j].Some?
      ensures i == 0
    {
      i := nextEviction;
    }

    method Insert(newPeer: Contact)
      requires Valid() && bucketSize >= 1
      modifies this`count, this`rows, this`history, contacts
      ensures Valid() && history == old(history) + [newPeer]
      ensures |old(Model())| == MAX_POWER
      ensures Model() == FlatTable.Insert(peerId, bucketSize, old(Model()), newPeer)
      ensures count == |Flatten(Model())|
    {
      hide Replay, Filled;
      var r := ComputeDistanceRank(peerId, newPeer.peerId);
      ghost var row := rows[r];
      assert RowOk(peerId, bucketSize, r, row);
      InsertRowsOk(peerId, bucketSize, rows, newPeer);
      var i := 0;
      while i < bucketSize
        invariant 0 <= i <= bucketSize
        invariant rows == old(rows) && history == old(history)
        invariant contacts[..] == old(contacts[..]) && count == old(count)
        invariant forall j :: 0 <= j < i ==> row[j].Some? && row[j].value.peerId != newPeer.peerId
      {
        var entry := ReadSlot(r, i);
        if entry.Some? && entry.value.peerId == newPeer.peerId {
          ScanStopsAt(row, newPeer, i);
          Store(r, i, newPeer);
          return;
        } else if entry.None? {
          ScanStopsAt(row, newPeer, i);
          Store(r, i, newPeer);
          return;
        }
        i := i + 1;
      }
      ScanStopsAt(row, newPeer, bucketSize);
      var bucket := BucketSlots(r);
      var victim := ItemToEvict(bucket);
      Store(r, victim, newPeer);
    }

    /** Stores a contact where the scan stopped. */
    method Store(r: nat, i: nat, c: Contact)
      requires Valid() && r == DistanceRank(peerId, c.peerId) && |rows[r]| == bucketSize && i < bucketSize
      requires forall q :: 0 <= q < MAX_POWER ==> |rows[q]| >= 1
      requires rows[r][i := Some(c)] == ScanInsert(rows[r], c)
      modifies this`count, this`rows, this`history, contacts
      ensures Valid() && history == old(history) + [c] && |old(Model())| == MAX_POWER
      ensures Model() == FlatTable.Insert(peerId, bucketSize, old(Model()), c)
      ensures count == |Flatten(Model())|
    {
      InsertRowsOk(peerId, bucketSize, rows, c);
      ReplayStep(peerId, bucketSize, history, c);
      Write(r, i, c);
      history := history + [c];
    }

    /** Writes slot `i` of bucket `r`, counting the contact if the slot was free. */
    method Write(r: nat, i: nat, c: Contact)
      requires LaidOut() && r == DistanceRank(peerId, c.peerId) && |rows[r]| == bucketSize && i < bucketSize
      requires forall q :: 0 <= q < MAX_POWER ==> |rows[q]| >= 1
      requires rows[r][i := Some(c)] == ScanInsert(rows[r], c)
      requires RowsOk(peerId, bucketSize, InsertRows(peerId, rows, c))
      modifies this`count, this`rows, contacts
      ensures rows == InsertRows(peerId, old(rows), c)
      ensures LaidOut() && count == |Flatten(Model())|
    {
      RowsUniform(peerId, bucketSize, rows);
      LayoutWrite(bucketSize, rows, r, i, Some(c));
      var at := r * bucketSize + i;
      ghost var slots := contacts[..];
      FilledWrite(slots, at, c);
      if contacts[at].None? {
        count := count + 1;
      }
      contacts[at] := Some(c);
      assert contacts[..] == slots[at := Some(c)];
      rows := InsertRows(peerId, rows, c);
      FilledIsContents(rows);
    }

    /** The table in closed form: what each bucket holds follows from what was inserted. */
    lemma HoldsClosedForm(r: nat)
      requires Valid() && bucketSize >= 1 && r < MAX_POWER
      ensures |Model()| == MAX_POWER && IsClosedForm(bucketSize, SentTo(peerId, r, history), Model()[r])
    {
      HistoryClosedForm(peerId, bucketSize, history, r);
    }

    /** The contact stored for this id; there is at most one. */
    function Contains(id: PeerId): (c: Option<Contact>)
      requires Valid()
      reads this, contacts
      ensures c == Find(Model()[DistanceRank(peerId, id)], id)
      ensures c.Some? ==> c.value.peerId == id && c.value in Flatten(Model())
      ensures forall other :: other in Flatten(Model()) && other.peerId == id ==> c == Some(other)
    {
      var r := DistanceRank(peerId, id);
      RowsUniform(peerId, bucketSize, rows);
      LayoutRow(bucketSize, rows, r);
      RowsTableOk(peerId, bucketSize, rows);
      FindIsUnique(peerId, bucketSize, Model(), id);
      Find(Filled(contacts[..][r * bucketSize..r * bucketSize + bucketSize]), id)
    }

    /** One bucket's slice, empty slots filtered out. */
    method FilledBucket(r: nat) returns (b: seq<Contact>)
      requires LaidOut() && r < MAX_POWER
      ensures |Model()| == MAX_POWER && b == Model()[r]
    {
      var bucket := BucketSlots(r);
      b := Filled(bucket);
    }

    /** One bucket's slice of the array. */
    method BucketSlots(r: nat) returns (bucket: Row)
      requires LaidOut() && r < MAX_POWER
      ensures bucket == rows[r]
    {
      RowsUniform(peerId, bucketSize, rows);
      LayoutRow(bucketSize, rows, r);
      bucket := contacts[r * bucketSize..r * bucketSize + bucketSize];
    }

    method ReadSlot(r: nat, i: nat) returns (entry: Option<Contact>)
      requires LaidOut() && r < MAX_POWER && i < bucketSize
      ensures i < |rows[r]| && entry == rows[r][i]
    {
      RowsUniform(peerId, bucketSize, rows);
      LayoutSlot(bucketSize, rows, r, i);
      entry := contacts[r * bucketSize + i];
    }

    /** One turn of the search loop: the bucket ahead, then the bucket behind. */
    method WalkOneWidth(target: nat, width: nat, soFar: seq<Contact>) returns (results: seq<Contact>)
      requires LaidOut() && target < MAX_POWER && 1 <= width < MAX_POWER && |Model()| == MAX_POWER
      requires soFar == Walk(Model(), target, width - 1)
      ensures results == Walk(Model(), target, width)
    {
      RingSteps(target, width);
      var ahead := FilledBucket((target + width) % MAX_POWER);
      results := soFar + ahead;
      var behind := FilledBucket(WrappingSub(target, width) % MAX_POWER);
      results := results + behind;
    }

    method FindClosestPeers(needle: PeerId, wanted: nat) returns (results: seq<Contact>)
      requires Valid() && wanted <= contacts.Length
      ensures |Model()| == MAX_POWER
      ensures results == Closest(Model(), DistanceRank(peerId, needle), wanted)
    {
      var target := ComputeDistanceRank(peerId, needle);
      results := WalkOutward(target, wanted);
    }

    /** The search loop: widths 1, 2, ... until enough contacts are listed. */
    method WalkOutward(target: nat, wanted: nat) returns (results: seq<Contact>)
      requires LaidOut() && target < MAX_POWER
      ensures |Model()| == MAX_POWER && results == Closest(Model(), target, wanted)
    {
      results := FilledBucket(target);
      var width := 1;
      ghost var t := Model();
      while |results| < wanted && width < MAX_POWER
        invariant 1 <= width <= MAX_POWER
        invariant results == Walk(t, target, width - 1)
        decreases MAX_POWER - width
      {
        results := WalkOneWidth(target, width, results);
        width := width + 1;
      }
      EarlyExit(t, target, width - 1, wanted);
      results := Take(results, wanted);
    }

    /** The stored contact, or the closest ones; the count assertion of the search cannot fail here. */
    method Lookup(id: PeerId) returns (res: Result<Contact, seq<Contact>>)
      requires Valid()
      ensures |Model()| == MAX_POWER
      ensures res.Ok? <==> exists c :: c in Flatten(Model()) && c.peerId == id
      ensures res.Ok? ==> res.value.peerId == id && res.value in Flatten(Model())
      ensures res.Err? ==> res.error == Closest(Model(), DistanceRank(peerId, id), bucketSize)
    {
      var found := Contains(id);
      if found.Some? {
        res := Ok(found.value);
      } else {
        assert bucketSize <= MAX_POWER * bucketSize;
        var closest := FindClosestPeers(id, bucketSize);
        res := Err(closest);
      }
    }
  }

  ghost function EmptyRows(k: nat): seq<Row> {
    seq(MAX_POWER, _ => seq(k, _ => None))
  }

  lemma EmptyRowsOk(self: PeerId, k: nat)
    ensures RowsOk(self, k, EmptyRows(k))
    ensures |Flatten(EmptyRows(k))| == MAX_POWER * k
    ensures forall p :: 0 <= p < MAX_POWER * k ==> Flatten(EmptyRows(k))[p] == None
    ensures TableOf(EmptyRows(k)) == EmptyTable()
    ensures Filled(Flatten(EmptyRows(k))) == []
  {
    var rows := EmptyRows(k);
    AllNone(seq(k, _ => None));
    LayoutLength(k, rows);
    FlattenNone(rows);
    AllNone(Flatten(rows));
    assert TableOf(rows) == seq(MAX_POWER, _ => []);
  }

  lemma {:induction false} AllNone(s: Row)
    requires forall i :: 0 <= i < |s| ==> s[i].None?
    ensures Filled(s) == []
  {
    if s == [] {
    } else {
      AllNone(s[..|s| - 1]);
    }
  }

  lemma {:induction false} FlattenNone(rows: seq<Row>)
    requires forall r :: 0 <= r < |rows| ==> forall i :: 0 <= i < |rows[r]| ==> rows[r][i].None?
    ensures forall p :: 0 <= p < |Flatten(rows)| ==> Flatten(rows)[p].None?
  {
    if rows == [] {
    } else {
      FlattenNone(rows[..|rows| - 1]);
    }
  }

  lemma FindIsUnique(self: PeerId, k: nat, t: Table, id: PeerId)
    requires TableOk(self, k, t)
    ensures var c := Find(t[DistanceRank(self, id)], id);
            && (c.Some? ==> c.value in Flatten(t))
            && forall other :: other in Flatten(t) && other.peerId == id ==> c == Some(other)
  {
    var r := DistanceRank(self, id);
    var c := Find(t[r], id);
    if c.Some? { FlattenMember(t, c.value); }
    forall other | other in Flatten(t) && other.peerId == id ensures c == Some(other) {
      FlattenMember(t, other);
      var q :| 0 <= q < |t| && other in t[q];
      assert BucketOk(self, k, q, t[q]);
    }
  }
}
