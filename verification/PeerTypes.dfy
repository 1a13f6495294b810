/** Peer ids, contacts and the messages peers exchange (src/types.rs). */
module PeerTypes {
  import opened Hash

  datatype PeerId = PeerId(hash: Hash)

  datatype SocketAddr = SocketAddr(host: seq<nat>, port: nat)

  /** Contact information: a key and the address to reach it at. */
  datatype Entry<K, A> = Entry(peerId: K, address: A)

  type Contact = Entry<PeerId, SocketAddr>

  datatype Option<+T> = None | Some(value: T)

  datatype Result<+T, +E> = Ok(value: T) | Err(error: E)

  datatype Message =
    | Ping(id: PeerId)
    | Pong(id: PeerId)
    | FindPeer(id: PeerId)
    | PeerFound(id: PeerId, addr: SocketAddr)
    | PeerNotFound(id: PeerId, neighbors: seq<Contact>)

  /** The bucket of `b` in the table of `a`. */
  function DistanceRank(a: PeerId, b: PeerId): (r: nat)
    ensures r < MAX_POWER
  {
    Rank(Xor(a.hash, b.hash))
  }

  method ComputeDistanceRank(a: PeerId, b: PeerId) returns (r: nat)
    ensures r == DistanceRank(a, b)
  {
    var distance := BitXor(a.hash, b.hash);
    r := LeadingZeros(distance);
  }

  /** The two ids differ in bit `n`. */
  predicate DifferAt(a: PeerId, b: PeerId, n: nat)
    requires n < MAX_POWER
  {
    Bit(a.hash, n) != Bit(b.hash, n)
  }

  /** The bucket of two different ids: one less (floored at 0) than the first bit `p` in which they differ inside
      the last byte in which they differ. */
  lemma DistanceRankInBits(a: PeerId, b: PeerId) returns (p: nat)
    requires a != b
    ensures p < MAX_POWER && DifferAt(a, b, p) && DistanceRank(a, b) == SaturatingPred(p)
    ensures forall k: nat :: k < p && k / 8 == p / 8 ==> !DifferAt(a, b, k)
    ensures forall k: nat :: k < MAX_POWER && k / 8 > p / 8 ==> !DifferAt(a, b, k)
  {
    DistanceRankLaws(a, b, a);
    MaximalRank(Xor(a.hash, b.hash));
    XorBits(a.hash, b.hash);
    p := RankInBits(Xor(a.hash, b.hash));
  }

  /** Ids that differ in one bit only. */
  lemma SingleBitRank(a: PeerId, b: PeerId, n: nat)
    requires n < MAX_POWER && forall k: nat :: k < MAX_POWER ==> (DifferAt(a, b, k) <==> k == n)
    ensures DistanceRank(a, b) == SaturatingPred(n)
  {
    assert DifferAt(a, b, n);
    var p := DistanceRankInBits(a, b);
  }

  /** Rank is a symmetric, translation-invariant measure whose maximum singles out equality. */
  lemma DistanceRankLaws(a: PeerId, b: PeerId, c: PeerId)
    ensures DistanceRank(a, b) == DistanceRank(b, a)
    ensures DistanceRank(PeerId(Xor(a.hash, c.hash)), PeerId(Xor(b.hash, c.hash))) == DistanceRank(a, b)
    ensures DistanceRank(a, b) == MAX_POWER - 1 <==> a == b
  {
    var x, y, z := a.hash, b.hash, c.hash;
    assert Xor(x, y) == Xor(y, x);
    assert Xor(Xor(x, z), Xor(y, z)) == Xor(x, y);
    MaximalRank(Xor(x, y));
    if forall i :: 0 <= i < HASH_SIZE ==> Xor(x, y)[i] == 0 {
      forall i | 0 <= i < HASH_SIZE ensures x[i] == y[i] {
        assert Xor(x, y)[i] == x[i] ^ y[i];
        XorZero(x[i], y[i]);
      }
      assert x == y;
    }
    if a == b {
      forall i | 0 <= i < HASH_SIZE ensures Xor(x, y)[i] == 0 { XorZero(x[i], y[i]); }
    }
  }

  lemma XorZero(x: bv8, y: bv8)
    ensures x ^ y == 0 <==> x == y
  {}
}
