/** The XOR distance as a number, and what `distance_rank` has to do with its logarithm (src/types.rs). */
module Distance {
  import opened Hash
  import opened PeerTypes

  ghost function Pow2(n: nat): (p: nat)
    ensures p >= 1
  {
    if n == 0 then 1 else 2 * Pow2(n - 1)
  }

  lemma {:induction false} PowAdd(m: nat, n: nat)
    ensures Pow2(m + n) == Pow2(m) * Pow2(n)
  {
    if m == 0 {
    } else {
      PowAdd(m - 1, n);
    }
  }

  lemma {:induction false} PowMonotone(m: nat, n: nat)
    requires m <= n
    ensures Pow2(m) <= Pow2(n)
  {
    if m == n {
    } else {
      PowMonotone(m, n - 1);
    }
  }

  /** The big-endian number in the first `n` bytes. */
  ghost function Number(h: Hash, n: nat): nat
    requires n <= HASH_SIZE
  {
    if n == 0 then 0 else 256 * Number(h, n - 1) + h[n - 1] as nat
  }

  ghost function Value(h: Hash): nat { Number(h, |h|) }

  ghost function DistanceBetween(a: PeerId, b: PeerId): nat { Value(Xor(a.hash, b.hash)) }

  /** `k` is the floor of the base-2 logarithm of `v`. */
  ghost predicate IsFloorLog(v: nat, k: nat) { Pow2(k) <= v < Pow2(k + 1) }

  lemma FloorLogUnique(v: nat, k: nat, m: nat)
    requires IsFloorLog(v, k) && IsFloorLog(v, m)
    ensures k == m
  {
    if k < m { PowMonotone(k + 1, m); }
    if m < k { PowMonotone(m + 1, k); }
  }

  lemma {:induction false} NumberZero(h: Hash, n: nat)
    requires n <= HASH_SIZE && forall k :: 0 <= k < n ==> h[k] == 0
    ensures Number(h, n) == 0
  {
    if n == 0 {
    } else {
      NumberZero(h, n - 1);
    }
  }

  /** `v` lies from `x` up to `x + 1` times the scale. */
  ghost predicate Within(x: nat, scale: nat, v: nat) { x * scale <= v < (x + 1) * scale }

  lemma WithinStep(x: nat, scale: nat, v: nat, b: nat)
    requires Within(x, scale, v) && b < 256
    ensures Within(x, 256 * scale, 256 * v + b)
  {
    assert x * (256 * scale) == 256 * (x * scale);
    assert (x + 1) * (256 * scale) == 256 * ((x + 1) * scale);
  }

  lemma PowByte(n: nat)
    ensures Pow2(8 + n) == 256 * Pow2(n)
  {
    PowAdd(4, 4 + n);
    PowAdd(4, n);
    assert Pow2(4) == 16;
  }

  /** Behind the first nonzero byte the number is that byte and a fraction. */
  lemma {:induction false} NumberBounds(h: Hash, i: nat, n: nat)
    requires i < n <= |h| && forall k :: 0 <= k < i ==> h[k] == 0
    ensures Within(h[i] as nat, Pow2(8 * (n - 1 - i)), Number(h, n))
  {
    if n == i + 1 {
      NumberZero(h, i);
    } else {
      NumberBounds(h, i, n - 1);
      PowByte(8 * (n - 2 - i));
      WithinStep(h[i] as nat, Pow2(8 * (n - 2 - i)), Number(h, n - 1), h[n - 1] as nat);
      assert 8 + 8 * (n - 2 - i) == 8 * (n - 1 - i);
    }
  }

  lemma ByteBounds(b: bv8)
    requires b != 0
    ensures var z := ByteLeadingZeros(b); Pow2(7 - z) <= b as nat && b as nat + 1 <= Pow2(8 - z)
  {
    var z := ByteLeadingZeros(b);
    assert Pow2(0) == 1 && Pow2(1) == 2 && Pow2(2) == 4 && Pow2(3) == 8 && Pow2(4) == 16;
    assert Pow2(5) == 32 && Pow2(6) == 64 && Pow2(7) == 128 && Pow2(8) == 256;
  }

  /** Bit `q` is the first that is set. */
  ghost predicate IsFirstBit(h: Hash, q: nat) {
    q < MAX_POWER && Bit(h, q) && forall k: nat :: k < q ==> !Bit(h, k)
  }

  lemma FirstBitByte(h: Hash, q: nat)
    requires IsFirstBit(h, q)
    ensures h[q / 8] != 0 && ByteLeadingZeros(h[q / 8]) == q % 8
    ensures forall k: nat :: k < q / 8 ==> h[k] == 0
  {
    forall k: nat | k <= q / 8 && h[k] != 0 ensures 8 * k + ByteLeadingZeros(h[k]) >= q {
      var m := 8 * k + ByteLeadingZeros(h[k]);
      assert m / 8 == k && m % 8 == ByteLeadingZeros(h[k]);
      assert Bit(h, m);
    }
  }

  /** The first set bit is the logarithm. */
  lemma FirstBitIsFloorLog(h: Hash, q: nat)
    requires IsFirstBit(h, q)
    ensures IsFloorLog(Value(h), MAX_POWER - 1 - q)
  {
    var i := q / 8;
    FirstBitByte(h, q);
    NumberBounds(h, i, |h|);
    ByteBounds(h[i]);
    ScaledLog(h[i] as nat, 7 - q % 8, 8 * (|h| - 1 - i), Value(h));
    assert 7 - q % 8 + 8 * (|h| - 1 - i) == MAX_POWER - 1 - q;
  }

  /** A nonzero hash has a first set bit, and without other nonzero bytes that is where its rank comes from. */
  lemma FirstBitExists(h: Hash) returns (q: nat)
    requires exists i :: 0 <= i < HASH_SIZE && h[i] != 0
    ensures IsFirstBit(h, q)
    ensures AtMostOneNonzero(h) ==> Rank(h) == SaturatingPred(q)
  {
    var p := RankInBits(h);
    q := ZeroBitsFrom(h, 0);
    RankMeetsDocumentIff(h);
  }

  lemma ScaledLog(x: nat, k: nat, m: nat, v: nat)
    requires Pow2(k) <= x && x + 1 <= Pow2(k + 1) && Within(x, Pow2(m), v)
    ensures IsFloorLog(v, k + m)
  {
    PowAdd(k, m);
    PowAdd(k + 1, m);
    ScaleOrder(Pow2(k), x, Pow2(m));
    ScaleOrder(x + 1, Pow2(k + 1), Pow2(m));
  }

  lemma ScaleOrder(a: nat, b: nat, k: nat)
    requires a <= b
    ensures a * k <= b * k
  {}

  /** The documentation promises the floor of the logarithm of the distance. With `q` the first set bit of
      the distance and `p` the first set bit of the last byte that has one, the logarithm is 255 - q and
      the rank p - 1, so the promise is kept exactly when p + q is 256. */
  lemma RankIsFloorLogIff(a: PeerId, b: PeerId) returns (p: nat, q: nat)
    requires a != b
    ensures var d := Xor(a.hash, b.hash);
            && p < MAX_POWER && Bit(d, p) && DistanceRank(a, b) == SaturatingPred(p)
            && (forall k: nat :: k < p && k / 8 == p / 8 ==> !Bit(d, k))
            && (forall k: nat :: k < MAX_POWER && k / 8 > p / 8 ==> !Bit(d, k))
            && IsFirstBit(d, q)
    ensures IsFloorLog(DistanceBetween(a, b), DistanceRank(a, b)) <==> p + q == MAX_POWER
  {
    var d := Xor(a.hash, b.hash);
    DistanceRankLaws(a, b, a);
    MaximalRank(d);
    p := RankInBits(d);
    q := FirstBitExists(d);
    RankAgainstFirstBit(d, p, q);
  }

  lemma RankAgainstFirstBit(d: Hash, p: nat, q: nat)
    requires IsFirstBit(d, q) && p < MAX_POWER && Bit(d, p) && Rank(d) == SaturatingPred(p)
    ensures IsFloorLog(Value(d), Rank(d)) <==> p + q == MAX_POWER
  {
    FirstBitIsFloorLog(d, q);
    if IsFloorLog(Value(d), Rank(d)) { FloorLogUnique(Value(d), Rank(d), MAX_POWER - 1 - q); }
  }

  /** A hash that is zero but for its first two bytes. */
  ghost function TwoBytes(x: bv8, y: bv8): Hash { [x, y] + seq(30, _ => 0 as bv8) }

  lemma TwoBytesRank(x: bv8, y: bv8)
    requires x != 0
    ensures Rank(TwoBytes(x, y)) == if y != 0 then 7 + ByteLeadingZeros(y) else SaturatingPred(ByteLeadingZeros(x))
    ensures IsFirstBit(TwoBytes(x, y), ByteLeadingZeros(x))
  {
    var h := TwoBytes(x, y);
    LastNonzeroIsLast(h, |h|);
    assert h[0] == x && h[1] == y;
    assert LastNonzero(h, |h|) == if y != 0 then 1 else 0;
  }

  /** The promise fails at the greatest distances: 0x80 0 0 ... has its first bit set, and rank 0. */
  lemma FarDistanceRanksZero()
    ensures var h := TwoBytes(0x80, 0); Bit(h, 0) && Rank(h) == 0 && !IsFloorLog(Value(h), Rank(h))
  {
    TwoBytesRank(0x80, 0);
    RankAgainstFirstBit(TwoBytes(0x80, 0), ByteLeadingZeros(0x80), ByteLeadingZeros(0x80));
  }

  /** A later first set bit means a smaller number. */
  lemma LaterBitSmaller(h: Hash, u: nat, g: Hash, v: nat)
    requires IsFirstBit(h, u) && IsFirstBit(g, v) && v < u
    ensures Value(h) < Value(g)
  {
    FirstBitIsFloorLog(h, u);
    FirstBitIsFloorLog(g, v);
    PowMonotone(MAX_POWER - u, MAX_POWER - 1 - v);
  }

  /** Nor is a nearer peer always ranked higher: 0x01 0 0 ... is nearer than 0x80 0x01 0 ... */
  lemma NearerRankedLower()
    ensures Value(TwoBytes(0x01, 0)) < Value(TwoBytes(0x80, 0x01))
    ensures Rank(TwoBytes(0x01, 0)) == 6 && Rank(TwoBytes(0x80, 0x01)) == 14
  {
    TwoBytesRank(0x01, 0);
    TwoBytesRank(0x80, 0x01);
    LaterBitSmaller(TwoBytes(0x01, 0), ByteLeadingZeros(0x01), TwoBytes(0x80, 0x01), ByteLeadingZeros(0x80));
  }

  /** A nonzero hash has a first set bit, and its documented rank is read off there. */
  lemma DocumentedAtFirstBit(h: Hash, q: nat)
    requires IsFirstBit(h, q)
    ensures DocumentedRank(h) == SaturatingPred(q)
  {}

  /** From a distance with at most one nonzero byte, nearer is never ranked lower. */
  lemma NearerRankedHigher(h: Hash, g: Hash)
    requires AtMostOneNonzero(g) && Value(h) <= Value(g)
    ensures Rank(h) >= Rank(g)
  {
    MaximalRank(h);
    if i :| 0 <= i < HASH_SIZE && h[i] != 0 {
      var u := FirstBitExists(h);
      FirstBitIsFloorLog(h, u);
      if forall j :: 0 <= j < |g| ==> g[j] == 0 { NumberZero(g, |g|); }
      var v := FirstBitExists(g);
      if u < v { LaterBitSmaller(g, v, h, u); }
      DocumentedAtFirstBit(h, u);
      RankMeetsDocumentIff(h);
    }
  }

  /** Zeroing bytes makes a number no greater. */
  lemma {:induction false} NumberMonotone(h: Hash, g: Hash, n: nat)
    requires n <= |g| && forall k :: 0 <= k < |g| ==> h[k] == g[k] || h[k] == 0
    ensures Number(h, n) <= Number(g, n)
  {
    if n == 0 {
    } else {
      NumberMonotone(h, g, n - 1);
    }
  }

  /** Only byte `i` is kept. */
  ghost function KeepByte(g: Hash, i: nat): Hash
    requires i < |g|
  {
    seq(HASH_SIZE, k => 0)[i := g[i]]
  }

  /** With several nonzero bytes, keeping only the first gives a nearer distance of lower rank. */
  lemma KeepFirstByte(g: Hash) returns (h: Hash)
    requires !AtMostOneNonzero(g)
    ensures Value(h) <= Value(g) && Rank(h) < Rank(g)
  {
    var i, j :| 0 <= i < j < HASH_SIZE && g[i] != 0 && g[j] != 0;
    var first := FirstNonzero(g, i);
    h := KeepByte(g, first);
    NumberMonotone(h, g, |g|);
    FirstSetBit(g, first);
    FirstSetBit(h, first);
    RankMeetsDocumentIff(g);
    RankMeetsDocumentIff(h);
  }

  /** Exactly the distances with at most one nonzero byte are ranked no higher than every nearer one. */
  lemma NearerRankedHigherIff(g: Hash)
    ensures (forall h: Hash :: Value(h) <= Value(g) ==> Rank(h) >= Rank(g)) <==> AtMostOneNonzero(g)
  {
    if AtMostOneNonzero(g) {
      forall h: Hash | Value(h) <= Value(g) ensures Rank(h) >= Rank(g) { NearerRankedHigher(h, g); }
    } else {
      var h := KeepFirstByte(g);
    }
  }
}
