/** Counting dictionaries: a Python dict updated by `d[k] = d.get(k, 0) + 1`,
 *  kept as its list of (key, count) items in insertion order. */
module Tally {
  type Counter<K> = seq<(K, nat)>

  /** No key occurs twice (true of every dict's item list). */
  predicate KeysDistinct<K(==)>(c: Counter<K>) {
    c == [] || (!HasKey(c[1..], c[0].0) && KeysDistinct(c[1..]))
  }

  /** `d.get(k, 0)` */
  function Get<K(==)>(c: Counter<K>, k: K): nat {
    if c == [] then 0 else if c[0].0 == k then c[0].1 else Get(c[1..], k)
  }

  /** `k in d` */
  predicate HasKey<K(==)>(c: Counter<K>, k: K) {
    c != [] && (c[0].0 == k || HasKey(c[1..], k))
  }

  /** `d[k] = d.get(k, 0) + 1`: an existing key keeps its position, a new key goes last. */
  function Bump<K(==)>(c: Counter<K>, k: K): Counter<K> {
    if c == [] then [(k, 1)]
    else if c[0].0 == k then [(k, c[0].1 + 1)] + c[1..]
    else [c[0]] + Bump(c[1..], k)
  }

  /** `sum(d.values())` */
  function Total<K>(c: Counter<K>): nat {
    if c == [] then 0 else c[0].1 + Total(c[1..])
  }

  /** `xs.count(k)` */
  function Occurrences<K(==)>(xs: seq<K>, k: K): nat {
    if xs == [] then 0 else (if xs[0] == k then 1 else 0) + Occurrences(xs[1..], k)
  }

  /** The sum over the keys `ks` of how often each occurs in `xs`. */
  function SumOccurrences<K(==)>(xs: seq<K>, ks: seq<K>): nat {
    if ks == [] then 0 else Occurrences(xs, ks[0]) + SumOccurrences(xs, ks[1..])
  }

  lemma {:induction false} BumpTotal<K>(c: Counter<K>, k: K)
    ensures Total(Bump(c, k)) == Total(c) + 1
  {
    if c != [] && c[0].0 != k {
      BumpTotal(c[1..], k);
      assert Bump(c, k)[1..] == Bump(c[1..], k);
    }
  }

  lemma {:induction false} BumpGet<K>(c: Counter<K>, k: K, j: K)
    ensures Get(Bump(c, k), j) == Get(c, j) + (if j == k then 1 else 0)
  {
    if c != [] && c[0].0 != k {
      BumpGet(c[1..], k, j);
      assert Bump(c, k)[1..] == Bump(c[1..], k);
    }
  }

  lemma {:induction false} BumpKeys<K>(c: Counter<K>, k: K, j: K)
    ensures HasKey(Bump(c, k), j) <==> HasKey(c, j) || j == k
  {
    if c != [] && c[0].0 != k {
      BumpKeys(c[1..], k, j);
      assert Bump(c, k)[1..] == Bump(c[1..], k);
    }
  }

  lemma {:induction false} BumpDistinct<K>(c: Counter<K>, k: K)
    requires KeysDistinct(c)
    ensures KeysDistinct(Bump(c, k))
  {
    if c != [] {
      var b := Bump(c, k);
      if c[0].0 == k {
        assert b[1..] == c[1..];
      } else {
        BumpDistinct(c[1..], k);
        BumpKeys(c[1..], k, c[0].0);
        assert b[1..] == Bump(c[1..], k);
      }
    }
  }

  lemma {:induction false} OccurrencesAppend<K>(xs: seq<K>, x: K, k: K)
    ensures Occurrences(xs + [x], k) == Occurrences(xs, k) + (if x == k then 1 else 0)
  {
    if xs != [] {
      assert (xs + [x])[1..] == xs[1..] + [x];
      OccurrencesAppend(xs[1..], x, k);
    }
  }

  /** The frequencies of a list's distinct values add up to its length. */
  lemma {:induction false} FrequenciesSumToLength<K>(xs: seq<K>, ks: seq<K>)
    requires forall i, j :: 0 <= i < j < |ks| ==> ks[i] != ks[j]
    requires forall x :: x in xs ==> x in ks
    ensures SumOccurrences(xs, ks) == |xs|
  {
    if xs != [] {
      var rest := xs[1..];
      assert xs == [xs[0]] + rest;
      FrequenciesSumToLength(rest, ks);
      SplitHead(xs[0], rest, ks);
    } else {
      ZeroOccurrences(ks);
    }
  }

  lemma {:induction false} ZeroOccurrences<K>(ks: seq<K>)
    ensures SumOccurrences([], ks) == 0
  {
    if ks != [] {
      ZeroOccurrences(ks[1..]);
    }
  }

  lemma {:induction false} SplitHead<K>(x: K, rest: seq<K>, ks: seq<K>)
    requires forall i, j :: 0 <= i < j < |ks| ==> ks[i] != ks[j]
    ensures SumOccurrences([x] + rest, ks) == SumOccurrences(rest, ks) + (if x in ks then 1 else 0)
  {
    if ks != [] {
      assert ([x] + rest)[1..] == rest;
      SplitHead(x, rest, ks[1..]);
      assert x == ks[0] ==> x !in ks[1..];
    }
  }
}
