/** Option and Result, used for the Python exceptions the model keeps as values. */
module Outcomes {

  datatype Option<+T> = None | Some(value: T)

  datatype Result<+T, +E> = Success(value: T) | Failure(error: E)
}

/**
 * A Python dict: the keys in insertion order and the mapping they index.
 * Updating an existing key keeps its place; a new key goes to the end.
 */
module Dicts {
  import opened Outcomes

  ghost predicate Distinct<K>(s: seq<K>) {
    forall i, j | 0 <= i < j < |s| :: s[i] != s[j]
  }

  datatype Dict<K(==), V> = Dict(keys: seq<K>, entries: map<K, V>) {

    ghost predicate Valid() {
      && Distinct(keys)
      && (forall k | k in entries :: k in keys)
      && (forall i | 0 <= i < |keys| :: keys[i] in entries)
    }

    /** `d.values()`, in key order. */
    function Values(): (vs: seq<V>)
      requires Valid()
      ensures |vs| == |keys|
      ensures forall i | 0 <= i < |keys| :: vs[i] == entries[keys[i]]
    {
      seq(|keys|, i requires 0 <= i < |keys| => entries[keys[i]])
    }

    /** `d.get(k)`. */
    function Get(k: K): Option<V> {
      if k in entries then Some(entries[k]) else None
    }
  }

  function EmptyDict<K(==), V>(): (d: Dict<K, V>)
    ensures d.Valid() && d.keys == []
  {
    Dict([], map[])
  }

  /** `d[k] = v` (and `d.update({k: v})`). */
  function Put<K(==), V>(d: Dict<K, V>, k: K, v: V): (r: Dict<K, V>)
    requires d.Valid()
    ensures r.Valid()
    ensures r.entries == d.entries[k := v]
    ensures r.keys == if k in d.entries then d.keys else d.keys + [k]
  {
    if k in d.entries then Dict(d.keys, d.entries[k := v]) else Dict(d.keys + [k], d.entries[k := v])
  }

  /** `d.values()` after updating an existing key: the same sequence with that key's entry replaced. */
  lemma PutExistingValues<K, V>(d: Dict<K, V>, j: nat, v: V)
    requires d.Valid() && j < |d.keys|
    ensures Put(d, d.keys[j], v).Values() == d.Values()[j := v]
  {
    assert forall i | 0 <= i < |d.keys| && i != j :: d.keys[i] != d.keys[j];
  }

  /** `d.values()` after adding a new key: the old values followed by the new one. */
  lemma PutNewValues<K, V>(d: Dict<K, V>, k: K, v: V)
    requires d.Valid() && k !in d.entries
    ensures Put(d, k, v).Values() == d.Values() + [v]
  {
  }

  /** The dict a loop `d[keys[i]] = values[i]` builds, starting from the empty dict. */
  function Zip<K(==), V>(keys: seq<K>, values: seq<V>): (d: Dict<K, V>)
    requires |keys| <= |values|
    ensures d.Valid()
    decreases |keys|
  {
    if keys == [] then EmptyDict()
    else
      var n := |keys| - 1;
      Put(Zip(keys[..n], values), keys[n], values[n])
  }

  /** With distinct keys, the dict's keys are those keys in order. */
  lemma {:induction false} ZipOfDistinct<K, V>(keys: seq<K>, values: seq<V>)
    requires |keys| <= |values| && Distinct(keys)
    ensures Zip(keys, values).keys == keys
    decreases |keys|
  {
    if keys != [] {
      var n := |keys| - 1;
      ZipOfDistinct(keys[..n], values);
      assert keys[n] !in keys[..n];
      assert keys[..n] + [keys[n]] == keys;
    }
  }

  /** With distinct keys, key `i` maps to value `i`. */
  lemma {:induction false} ZipEntry<K, V>(keys: seq<K>, values: seq<V>, i: nat)
    requires |keys| <= |values| && Distinct(keys) && i < |keys|
    ensures Zip(keys, values).Get(keys[i]) == Some(values[i])
    decreases |keys|
  {
    var n := |keys| - 1;
    if i < n {
      ZipEntry(keys[..n], values, i);
      assert keys[i] != keys[n];
      assert keys[..n][i] == keys[i];
    }
  }

  /** The keys of one dict in the order of another whose keys are a rearrangement of them. */
  lemma Reordered<K, V, W>(d: Dict<K, V>, e: Dict<K, W>)
    requires d.Valid() && e.Valid() && multiset(d.keys) == multiset(e.keys)
    ensures d.entries.Keys == e.entries.Keys
    ensures Dict(d.keys, e.entries).Valid()
  {
    forall k | k in e.entries
      ensures k in d.entries
    {
      assert k in multiset(e.keys);
      assert k in multiset(d.keys);
    }
    forall k | k in d.entries
      ensures k in e.entries
    {
      assert k in multiset(d.keys);
      assert k in multiset(e.keys);
    }
  }

  /** Two valid dicts with the same key sequence have the same key set. */
  lemma SameKeysSameDomain<K, V, W>(d: Dict<K, V>, e: Dict<K, W>)
    requires d.Valid() && e.Valid() && d.keys == e.keys
    ensures d.entries.Keys == e.entries.Keys
  {
  }
}

/** Sums over sequences, accumulated from the front as Python's loops and `sum` do. */
module Sums {

  function Sum(s: seq<real>): real
    decreases |s|
  {
    if s == [] then 0.0 else Sum(s[..|s| - 1]) + s[|s| - 1]
  }

  function SumOf<T>(s: seq<T>, f: T -> real): real
    decreases |s|
  {
    if s == [] then 0.0 else SumOf(s[..|s| - 1], f) + f(s[|s| - 1])
  }

  lemma {:induction false} SumScaled(s: seq<real>, t: seq<real>, c: real)
    requires c != 0.0 && |s| == |t|
    requires forall i | 0 <= i < |s| :: t[i] == s[i] / c
    ensures Sum(t) == Sum(s) / c
    decreases |s|
  {
    if s != [] {
      var n := |s| - 1;
      SumScaled(s[..n], t[..n], c);
      assert Sum(t) == Sum(s[..n]) / c + s[n] / c;
    }
  }

  lemma {:induction false} SumOfConcat<T>(a: seq<T>, b: seq<T>, f: T -> real)
    ensures SumOf(a + b, f) == SumOf(a, f) + SumOf(b, f)
    decreases |b|
  {
    if b == [] {
      assert a + b == a;
    } else {
      var n := |b| - 1;
      assert SumOf(b, f) == SumOf(b[..n], f) + f(b[n]);
      assert (a + b)[..|a + b| - 1] == a + b[..n];
      assert (a + b)[|a + b| - 1] == b[n];
      SumOfConcat(a, b[..n], f);
      assert SumOf(a + b, f) == SumOf(a + b[..n], f) + f(b[n]);
    }
  }

  /** Taking out the term at `k` takes its value out of the sum. */
  lemma SumOfRemove<T>(t: seq<T>, k: nat, f: T -> real)
    requires k < |t|
    ensures SumOf(t, f) == SumOf(t[..k] + t[k + 1..], f) + f(t[k])
  {
    assert t == t[..k] + ([t[k]] + t[k + 1..]);
    SumOfConcat(t[..k], [t[k]] + t[k + 1..], f);
    SumOfConcat([t[k]], t[k + 1..], f);
    SumOfConcat(t[..k], t[k + 1..], f);
    assert SumOf([t[k]], f) == f(t[k]);
  }

  lemma MultisetRemove<T>(t: seq<T>, k: nat)
    requires k < |t|
    ensures multiset(t[..k] + t[k + 1..]) == multiset(t) - multiset{t[k]}
  {
    assert t == t[..k] + [t[k]] + t[k + 1..];
  }

  /** A sum does not depend on the order of its terms. */
  lemma {:induction false} SumOfPermutation<T>(s: seq<T>, t: seq<T>, f: T -> real)
    requires multiset(s) == multiset(t)
    ensures SumOf(s, f) == SumOf(t, f)
    decreases |s|
  {
    if s == [] {
      assert |t| == |multiset(t)| == 0;
    } else {
      var n := |s| - 1;
      var x := s[n];
      assert x in multiset(t);
      var k :| 0 <= k < |t| && t[k] == x;
      MultisetRemove(s, n);
      MultisetRemove(t, k);
      assert s[..n] + s[n + 1..] == s[..n];
      SumOfPermutation(s[..n], t[..k] + t[k + 1..], f);
      SumOfRemove(t, k, f);
    }
  }
}

/** Integer facts behind the loggers' `iteration % log_every` cadence. */
module Cadence {

  lemma DivModUnique(n: int, k: int, q: int, r: int)
    requires k > 0 && n == q * k + r && 0 <= r < k
    ensures n / k == q && n % k == r
  {
    var q0, r0 := n / k, n % k;
    assert n == q0 * k + r0;
    assert (q - q0) * k == r0 - r;
    if q > q0 {
      MulAtLeast(q - q0, k);
    } else if q < q0 {
      MulAtLeast(q0 - q, k);
    }
  }

  lemma MulAtLeast(d: int, k: int)
    requires d >= 1 && k > 0
    ensures d * k >= k
  {
  }

  /** The counter reaching `n + 1` completes a new block of `k` exactly when `k` divides `n + 1`. */
  lemma NextCount(n: int, k: int)
    requires n >= 0 && k > 0
    ensures (n + 1) % k == 0 ==> (n + 1) / k == n / k + 1
    ensures (n + 1) % k != 0 ==> (n + 1) / k == n / k
  {
    var q, r := n / k, n % k;
    if r + 1 == k {
      DivModUnique(n + 1, k, q + 1, 0);
    } else {
      DivModUnique(n + 1, k, q, r + 1);
    }
  }

  /** `n % k`, counted up one step at a time from 0. */
  function Phase(n: nat, k: int): (p: int)
    requires k > 0
    ensures 0 <= p < k
  {
    if n == 0 then 0 else if Phase(n - 1, k) + 1 == k then 0 else Phase(n - 1, k) + 1
  }

  lemma {:induction false} PhaseIsRemainder(n: nat, k: int)
    requires k > 0
    ensures Phase(n, k) == n % k
  {
    if n > 0 {
      PhaseIsRemainder(n - 1, k);
      var q, r := (n - 1) / k, (n - 1) % k;
      if r + 1 == k {
        DivModUnique(n, k, q + 1, 0);
      } else {
        DivModUnique(n, k, q, r + 1);
      }
    }
  }

  /** A multiple of `k` is `k` times its quotient. */
  lemma MultipleIsQuotientTimes(n: int, k: int)
    requires k > 0 && n % k == 0
    ensures n == (n / k) * k
  {
  }
}
