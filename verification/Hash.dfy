/** 256-bit hashes, their XOR and the "leading zeros" rank (src/hash.rs). */
module Hash {

  /** Bytes in a hash, and bits in a hash (`max_power`). */
  const HASH_SIZE: nat := 32
  const MAX_POWER: nat := 256

  type Hash = h: seq<bv8> | |h| == HASH_SIZE witness seq(32, _ => 0)

  /** The byte with only bit `k` set, bit 0 being the most significant. */
  function Mask(k: nat): (m: bv8)
    requires k < 8
    ensures m & (m - 1) == 0
  {
    if k == 0 then 0x80 else if k == 1 then 0x40 else if k == 2 then 0x20 else if k == 3 then 0x10
    else if k == 4 then 0x08 else if k == 5 then 0x04 else if k == 6 then 0x02 else 0x01
  }

  /** Bit `k` of a byte. */
  predicate BitSet(b: bv8, k: nat)
    requires k < 8
  {
    b & Mask(k) != 0
  }

  /** `u8::leading_zeros`. */
  function ByteLeadingZeros(b: bv8): (n: nat)
    ensures n <= 8
    ensures n == 8 <==> b == 0
    ensures n < 8 ==> BitSet(b, n)
    ensures forall k: nat :: k < n ==> !BitSet(b, k)
  {
    if b >= 0x80 then 0 else if b >= 0x40 then 1 else if b >= 0x20 then 2 else if b >= 0x10 then 3
    else if b >= 0x08 then 4 else if b >= 0x04 then 5 else if b >= 0x02 then 6 else if b >= 0x01 then 7 else 8
  }

  /** Byte-wise exclusive or. */
  function Xor(a: Hash, b: Hash): Hash {
    seq(HASH_SIZE, i requires 0 <= i < HASH_SIZE => a[i] ^ b[i])
  }

  lemma ByteXorBits(x: bv8, y: bv8, k: nat)
    requires k < 8
    ensures BitSet(x ^ y, k) <==> BitSet(x, k) != BitSet(y, k)
  {
    hide Mask;
    MaskXor(x, y, Mask(k));
  }

  /** Of a single bit. */
  lemma MaskXor(x: bv8, y: bv8, m: bv8)
    requires m & (m - 1) == 0
    ensures (x ^ y) & m != 0 <==> (x & m != 0) != (y & m != 0)
  {}

  /** A bit is set in the exclusive or exactly when it is set in one of the two. */
  lemma XorBits(a: Hash, b: Hash)
    ensures forall n: nat :: n < MAX_POWER ==> (Bit(Xor(a, b), n) <==> Bit(a, n) != Bit(b, n))
  {
    forall n: nat | n < MAX_POWER ensures Bit(Xor(a, b), n) <==> Bit(a, n) != Bit(b, n) {
      ByteXorBits(a[n / 8], b[n / 8], n % 8);
    }
  }

  method BitXor(a: Hash, b: Hash) returns (c: Hash)
    ensures c == Xor(a, b)
    ensures forall n: nat :: n < MAX_POWER ==> (Bit(c, n) <==> Bit(a, n) != Bit(b, n))
  {
    XorBits(a, b);
    var out := new bv8[HASH_SIZE](_ => 0);
    for i := 0 to HASH_SIZE
      invariant forall j :: 0 <= j < i ==> out[j] == a[j] ^ b[j]
    {
      out[i] := a[i] ^ b[i];
    }
    c := out[..];
  }

  /** The largest index below `n` of a nonzero byte, or -1. */
  function LastNonzero(h: Hash, n: nat): (j: int)
    requires n <= HASH_SIZE
    ensures -1 <= j < n
    ensures j >= 0 ==> h[j] != 0
  {
    if n == 0 then -1 else if h[n - 1] != 0 then n - 1 else LastNonzero(h, n - 1)
  }

  lemma {:induction false} LastNonzeroIsLast(h: Hash, n: nat)
    requires n <= HASH_SIZE
    ensures forall i :: LastNonzero(h, n) < i < n ==> h[i] == 0
  {
    if n == 0 {
    } else {
      LastNonzeroIsLast(h, n - 1);
    }
  }

  /** What the loop of `leading_zeros` has in `res` after `n` bytes. */
  function RawZeros(h: Hash, n: nat): (z: nat)
    requires n <= HASH_SIZE
  {
    var j := LastNonzero(h, n);
    if j < 0 then MAX_POWER else 8 * j + ByteLeadingZeros(h[j])
  }

  function SaturatingPred(n: nat): nat { if n == 0 then 0 else n - 1 }

  /** The value of `leading_zeros`: governed by the LAST nonzero byte. */
  function Rank(h: Hash): (r: nat)
    ensures r < MAX_POWER
  {
    SaturatingPred(RawZeros(h, |h|))
  }

  /** The maximal rank is the all-zero hash's alone. */
  lemma MaximalRank(h: Hash)
    ensures Rank(h) == MAX_POWER - 1 <==> forall i :: 0 <= i < HASH_SIZE ==> h[i] == 0
  {
    LastNonzeroIsLast(h, |h|);
  }

  method LeadingZeros(h: Hash) returns (r: nat)
    ensures r == Rank(h)
  {
    var res := MAX_POWER;
    for i := 0 to HASH_SIZE
      invariant res == RawZeros(h, i)
    {
      if h[i] != 0 {
        res := 8 * i + ByteLeadingZeros(h[i]);
      }
    }
    r := SaturatingPred(res);
  }

  // ---- The documented value: zeros in front of the 256-bit number, minus one ----

  /** Bit `n` of the big-endian 256-bit number. */
  predicate Bit(h: Hash, n: nat)
    requires n < MAX_POWER
  {
    BitSet(h[n / 8], n % 8)
  }

  /** The number of zero bits from position `n` up to the first set bit. */
  function ZeroBitsFrom(h: Hash, n: nat): (m: nat)
    requires n <= MAX_POWER
    ensures n <= m <= MAX_POWER
    ensures m < MAX_POWER ==> Bit(h, m)
    ensures forall k: nat :: n <= k < m ==> !Bit(h, k)
    decreases MAX_POWER - n
  {
    if n == MAX_POWER || Bit(h, n) then n else ZeroBitsFrom(h, n + 1)
  }

  function DocumentedRank(h: Hash): nat
  {
    SaturatingPred(ZeroBitsFrom(h, 0))
  }

  ghost predicate AtMostOneNonzero(h: Hash)
  {
    forall i, j :: 0 <= i < j < HASH_SIZE ==> h[i] == 0 || h[j] == 0
  }

  /** A set bit lies in a nonzero byte, and no set bit comes before it when that byte is the first nonzero one. */
  lemma FirstSetBit(h: Hash, i: nat)
    requires i < HASH_SIZE && h[i] != 0
    requires forall k :: 0 <= k < i ==> h[k] == 0
    ensures ZeroBitsFrom(h, 0) == 8 * i + ByteLeadingZeros(h[i])
  {
    var m := 8 * i + ByteLeadingZeros(h[i]);
    assert m / 8 == i && m % 8 == ByteLeadingZeros(h[i]);
    assert Bit(h, m);
    forall n: nat | n < m ensures !Bit(h, n) {
      if n / 8 == i {
        assert n % 8 < ByteLeadingZeros(h[i]);
      } else {
        assert n / 8 < i;
        assert ByteLeadingZeros(h[n / 8]) == 8;
      }
    }
    var z := ZeroBitsFrom(h, 0);
    if z < m { assert Bit(h, z); }
  }

  /** Where the code meets its documentation: exactly on hashes with at most one nonzero byte. */
  lemma RankMeetsDocumentIff(h: Hash)
    ensures DocumentedRank(h) <= Rank(h)
    ensures DocumentedRank(h) == Rank(h) <==> AtMostOneNonzero(h)
  {
    LastNonzeroIsLast(h, |h|);
    var j := LastNonzero(h, |h|);
    if j >= 0 {
      var i := FirstNonzero(h, j);
      FirstSetBit(h, i);
      if i < j { assert h[i] != 0 && h[j] != 0; }
    }
  }

  /** Bit by bit: for a nonzero hash the rank comes from the first set bit `p` of the last byte that has one. */
  lemma RankInBits(h: Hash) returns (p: nat)
    requires exists i :: 0 <= i < HASH_SIZE && h[i] != 0
    ensures p < MAX_POWER && Bit(h, p) && Rank(h) == SaturatingPred(p)
    ensures forall k: nat :: k < p && k / 8 == p / 8 ==> !Bit(h, k)
    ensures forall k: nat :: k < MAX_POWER && k / 8 > p / 8 ==> !Bit(h, k)
  {
    LastNonzeroIsLast(h, |h|);
    var j := LastNonzero(h, |h|);
    p := 8 * j + ByteLeadingZeros(h[j]);
    assert p / 8 == j && p % 8 == ByteLeadingZeros(h[j]);
    forall k: nat | k < p && k / 8 == p / 8 ensures !Bit(h, k) {
      assert k % 8 < ByteLeadingZeros(h[j]);
    }
    forall k: nat | k < MAX_POWER && k / 8 > p / 8 ensures !Bit(h, k) {
      assert ByteLeadingZeros(h[k / 8]) == 8;
    }
  }

  lemma FirstNonzero(h: Hash, j: nat) returns (i: nat)
    requires j < HASH_SIZE && h[j] != 0
    ensures i <= j && h[i] != 0
    ensures forall k :: 0 <= k < i ==> h[k] == 0
  {
    i := 0;
    while h[i] == 0
      invariant i <= j
      invariant forall k :: 0 <= k < i ==> h[k] == 0
      decreases j - i
    {
      i := i + 1;
    }
  }

  /** A concrete hash on which the loop overshoots: bytes 0x80, 0x01, 0, 0, ... have no leading zero. */
  lemma RankOvershoots()
    ensures var h: Hash := [0x80, 0x01] + seq(30, _ => 0 as bv8);
            DocumentedRank(h) == 0 && Rank(h) == 14
  {
    var h: Hash := [0x80, 0x01] + seq(30, _ => 0 as bv8);
    assert Bit(h, 0);
    assert h[1] == 1;
    LastNonzeroIsLast(h, |h|);
    assert LastNonzero(h, |h|) == 1;
  }
}
