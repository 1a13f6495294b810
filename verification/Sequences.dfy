/** Filtering, flattening and truncating sequences. */
module Sequences {
  import opened PeerTypes

  /** `Vec::truncate` / `Iterator::take`. */
  function Take<T>(s: seq<T>, n: nat): seq<T> {
    if n <= |s| then s[..n] else s
  }

  /** Without its first `n` elements, or as many as there are. */
  function Drop<T>(s: seq<T>, n: nat): seq<T> {
    if n <= |s| then s[n..] else []
  }

  /** `iter().filter_map(|x| *x)` over a slice of options. */
  function Filled<T>(s: seq<Option<T>>): (f: seq<T>)
    ensures |f| <= |s|
  {
    if s == [] then []
    else if s[|s| - 1].Some? then Filled(s[..|s| - 1]) + [s[|s| - 1].value]
    else Filled(s[..|s| - 1])
  }

  function Flatten<T>(ss: seq<seq<T>>): seq<T> {
    if ss == [] then [] else Flatten(ss[..|ss| - 1]) + ss[|ss| - 1]
  }

  lemma {:induction false} FilledConcat<T>(a: seq<Option<T>>, b: seq<Option<T>>)
    ensures Filled(a + b) == Filled(a) + Filled(b)
    decreases |b|
  {
    if b == [] {
      assert a + b == a;
    } else {
      assert (a + b)[..|a + b| - 1] == a + b[..|b| - 1];
      FilledConcat(a, b[..|b| - 1]);
    }
  }

  lemma {:induction false} FlattenConcat<T>(a: seq<seq<T>>, b: seq<seq<T>>)
    ensures Flatten(a + b) == Flatten(a) + Flatten(b)
    decreases |b|
  {
    if b == [] {
      assert a + b == a;
    } else {
      var r, last := b[..|b| - 1], b[|b| - 1];
      assert (a + b)[..|a + b| - 1] == a + r && (a + b)[|a + b| - 1] == last;
      FlattenConcat(a, r);
      assert Flatten(a) + Flatten(r) + last == Flatten(a) + (Flatten(r) + last);
    }
  }

  /** Overwriting one slot adds one filled slot exactly when the slot was empty. */
  lemma FilledWrite<T>(s: seq<Option<T>>, i: nat, v: T)
    requires i < |s|
    ensures |Filled(s[i := Some(v)])| == |Filled(s)| + (if s[i].Some? then 0 else 1)
  {
    var a, b := s[..i], s[i + 1..];
    assert s == (a + [s[i]]) + b && s[i := Some(v)] == (a + [Some(v)]) + b;
    FilledConcat(a + [s[i]], b);
    FilledConcat(a + [Some(v)], b);
    FilledConcat(a, [s[i]]);
    FilledConcat(a, [Some(v)]);
  }

  /** Filled slots come before empty ones. */
  ghost predicate Packed<T>(s: seq<Option<T>>) {
    forall i, j :: 0 <= i < j < |s| && s[j].Some? ==> s[i].Some?
  }

  lemma {:induction false} FilledPacked<T>(s: seq<Option<T>>)
    requires Packed(s)
    ensures forall i :: 0 <= i < |Filled(s)| ==> s[i] == Some(Filled(s)[i])
    ensures forall i :: |Filled(s)| <= i < |s| ==> s[i].None?
  {
    if s == [] {
    } else {
      FilledPacked(s[..|s| - 1]);
      if s[|s| - 1].Some? {
        assert forall i :: 0 <= i < |s| - 1 ==> s[i].Some?;
      }
    }
  }

  lemma {:induction false} FlattenMember<T>(ss: seq<seq<T>>, v: T)
    ensures v in Flatten(ss) <==> exists r :: 0 <= r < |ss| && v in ss[r]
  {
    if ss == [] {
    } else {
      FlattenMember(ss[..|ss| - 1], v);
      assert forall r :: 0 <= r < |ss| - 1 ==> ss[..|ss| - 1][r] == ss[r];
    }
  }

  /** Writing into a packed slice, no further than its first empty slot. */
  lemma PackedWrite<T>(s: seq<Option<T>>, i: nat, v: T)
    requires Packed(s) && i < |s| && i <= |Filled(s)|
    ensures Packed(s[i := Some(v)])
    ensures Filled(s[i := Some(v)]) == if i < |Filled(s)| then Filled(s)[i := v] else Filled(s) + [v]
  {
    FilledPacked(s);
    var s' := s[i := Some(v)];
    assert Packed(s');
    FilledPacked(s');
    FilledWrite(s, i, v);
    assert forall j :: 0 <= j < |Filled(s')| ==> s'[j] == Some(Filled(s')[j]);
  }

  // ---- Occurrences ----

  ghost function CountIn<T>(e: seq<T>, x: T): nat { multiset(e)[x] }

  lemma CountConcat<T>(a: seq<T>, b: seq<T>, x: T)
    ensures CountIn(a + b, x) == CountIn(a, x) + CountIn(b, x)
  {}

  lemma CountHead<T>(q: seq<T>, x: T)
    requires q != []
    ensures CountIn(q, x) == (if q[0] == x then 1 else 0) + CountIn(q[1..], x)
  {
    assert q == [q[0]] + q[1..];
  }

  lemma PrefixCounts<T>(a: seq<T>, b: seq<T>, x: T)
    requires a <= b
    ensures CountIn(a, x) <= CountIn(b, x)
  {
    assert b == a + b[|a|..];
  }

  // ---- Order of occurrence ----

  /** Every occurrence of `d` has one of `c` before it. */
  ghost predicate Precedes<T>(e: seq<T>, c: T, d: T) {
    forall k :: 0 <= k < |e| && e[k] == d ==> c in e[..k]
  }

  lemma PrecedesConcat<T>(x: seq<T>, y: seq<T>, c: T, d: T)
    requires Precedes(x, c, d) && (c in x || Precedes(y, c, d))
    ensures Precedes(x + y, c, d)
  {
    var e := x + y;
    forall k | 0 <= k < |e| && e[k] == d ensures c in e[..k] {
      if k < |x| {
        assert e[..k] == x[..k];
      } else {
        assert e[..k] == x + y[..k - |x|];
      }
    }
  }

  lemma PrecedesTake<T>(e: seq<T>, n: nat, c: T, d: T)
    requires Precedes(e, c, d)
    ensures Precedes(Take(e, n), c, d)
  {
    forall k | 0 <= k < |Take(e, n)| && Take(e, n)[k] == d ensures c in Take(e, n)[..k] {
      assert Take(e, n)[..k] == e[..k];
    }
  }

  /** Having `c` and not yet `d` in a prefix decides it. */
  lemma PrefixDecides<T>(x: seq<T>, e: seq<T>, c: T, d: T)
    requires x <= e && c in x && d !in x
    ensures Precedes(e, c, d)
  {
    assert e == x + e[|x|..];
    PrecedesConcat(x, e[|x|..], c, d);
  }

  // ---- Sizes of the sets of elements ----

  ghost function Ids<K, A>(b: seq<Entry<K, A>>): seq<K> { seq(|b|, i requires 0 <= i < |b| => b[i].peerId) }

  lemma SubsetSize<K>(a: set<K>, b: set<K>)
    requires a <= b
    ensures |a| <= |b|
  {
    assert b == a + (b - a);
  }

  ghost function Elements<K>(d: seq<K>): set<K> { set x | x in d }

  lemma {:induction false} DistinctSize<K>(d: seq<K>)
    requires forall i, j :: 0 <= i < j < |d| ==> d[i] != d[j]
    ensures |Elements(d)| == |d|
  {
    if d == [] {
    } else {
      var e := d[..|d| - 1];
      DistinctSize(e);
      assert Elements(d) == Elements(e) + {d[|d| - 1]};
    }
  }

  lemma {:induction false} SizeAtMost<K>(d: seq<K>)
    ensures |Elements(d)| <= |d|
  {
    if d == [] {
    } else {
      var e := d[..|d| - 1];
      SizeAtMost(e);
      assert Elements(d) == Elements(e) + {d[|d| - 1]};
    }
  }
}
