/**
 * Python's insertion-ordered `dict`, as a sequence of key/value pairs.
 *
 * `Put` is `d[k] = v`: an existing key keeps its position and takes the new
 * value, a new key is appended.  `FromItems` is a dict built by assigning the
 * pairs in turn (what a dict comprehension does): duplicate keys collapse to
 * their first position and the last value assigned wins.
 */
module Dicts {
  import opened Wrappers

  type Dict<K, V> = seq<(K, V)>

  function Keys<K, V>(d: Dict<K, V>): (ks: seq<K>)
    ensures |ks| == |d|
    ensures forall i :: 0 <= i < |d| ==> ks[i] == d[i].0
  {
    if |d| == 0 then [] else [d[0].0] + Keys(d[1..])
  }

  function Values<K, V>(d: Dict<K, V>): (vs: seq<V>)
    ensures |vs| == |d|
    ensures forall i :: 0 <= i < |d| ==> vs[i] == d[i].1
  {
    seq(|d|, i requires 0 <= i < |d| => d[i].1)
  }

  predicate NoDuplicates<T(==,!new)>(xs: seq<T>) {
    forall i, j :: 0 <= i < j < |xs| ==> xs[i] != xs[j]
  }

  /** What every Python dict satisfies: no key appears twice. */
  predicate DistinctKeys<K(==,!new), V>(d: Dict<K, V>) {
    NoDuplicates(Keys(d))
  }

  /** The elements of `xs` in order of first occurrence, each once. */
  function Dedup<T(==,!new)>(xs: seq<T>): (r: seq<T>)
    ensures forall x :: x in r <==> x in xs
    ensures NoDuplicates(r)
    ensures |r| <= |xs|
  {
    if |xs| == 0 then []
    else
      var p := Dedup(xs[..|xs| - 1]);
      assert forall x :: x in xs <==> x in xs[..|xs| - 1] || x == xs[|xs| - 1] by {
        assert xs == xs[..|xs| - 1] + [xs[|xs| - 1]];
      }
      if xs[|xs| - 1] in p then p else p + [xs[|xs| - 1]]
  }

  lemma DedupOfDistinct<T(!new)>(xs: seq<T>)
    requires NoDuplicates(xs)
    ensures Dedup(xs) == xs
  {
    if |xs| > 0 {
      DedupOfDistinct(xs[..|xs| - 1]);
      assert xs == xs[..|xs| - 1] + [xs[|xs| - 1]];
    }
  }

  /** `d.get(k)`: the value stored under `k`, if any. */
  function Get<K(==,!new), V>(d: Dict<K, V>, k: K): Option<V> {
    if |d| == 0 then None
    else if d[0].0 == k then Some(d[0].1)
    else Get(d[1..], k)
  }

  /** A key is found exactly when it is present, and then with a value stored under it. */
  lemma {:induction false} GetFound<K(!new), V>(d: Dict<K, V>, k: K)
    ensures Get(d, k).None? <==> k !in Keys(d)
    ensures Get(d, k).Some? ==> (k, Get(d, k).value) in d
  {
    if |d| > 0 && d[0].0 != k {
      assert Keys(d) == [d[0].0] + Keys(d[1..]);
      GetFound(d[1..], k);
    }
  }

  /** `d.get(k, default)`. */
  function GetOr<K(==,!new), V>(d: Dict<K, V>, k: K, default: V): V {
    Get(d, k).GetOr(default)
  }

  lemma GetAt<K(!new), V>(d: Dict<K, V>, i: nat)
    requires DistinctKeys(d) && i < |d|
    ensures Get(d, d[i].0) == Some(d[i].1)
  {
    if i > 0 {
      assert Keys(d[1..]) == Keys(d)[1..];
      GetAt(d[1..], i - 1);
    }
  }

  /** Lookup finds the first pair with the key, whatever follows it. */
  lemma {:induction false} GetFirst<K(!new), V>(d: Dict<K, V>, j: nat)
    requires j < |d|
    requires forall i :: 0 <= i < j ==> d[i].0 != d[j].0
    ensures Get(d, d[j].0) == Some(d[j].1)
  {
    if j > 0 {
      GetFirst(d[1..], j - 1);
    }
  }

  /** `d[k] = v` on a copy of `d`. */
  function Put<K(==,!new), V>(d: Dict<K, V>, k: K, v: V): Dict<K, V> {
    if |d| == 0 then [(k, v)]
    else if d[0].0 == k then [(k, v)] + d[1..]
    else [d[0]] + Put(d[1..], k, v)
  }

  /** An existing key keeps its position; a new key goes last. */
  lemma {:induction false} PutKeys<K(!new), V>(d: Dict<K, V>, k: K, v: V)
    ensures Keys(Put(d, k, v)) == if k in Keys(d) then Keys(d) else Keys(d) + [k]
  {
    if |d| > 0 && d[0].0 != k {
      PutKeys(d[1..], k, v);
      assert Put(d, k, v)[1..] == Put(d[1..], k, v);
    }
  }

  lemma {:induction false} PutNew<K(!new), V>(d: Dict<K, V>, k: K, v: V)
    requires k !in Keys(d)
    ensures Put(d, k, v) == d + [(k, v)]
  {
    if |d| > 0 {
      assert Keys(d) == [d[0].0] + Keys(d[1..]);
      PutNew(d[1..], k, v);
      assert d == [d[0]] + d[1..];
    }
  }

  lemma {:induction false} PutSame<K(!new), V>(d: Dict<K, V>, k: K, v: V)
    requires Get(d, k) == Some(v)
    ensures Put(d, k, v) == d
  {
    if d[0].0 != k {
      PutSame(d[1..], k, v);
      assert d == [d[0]] + d[1..];
    }
  }

  lemma {:induction false} PutGet<K(!new), V>(d: Dict<K, V>, k: K, v: V, k': K)
    ensures Get(Put(d, k, v), k') == if k' == k then Some(v) else Get(d, k')
  {
    if |d| > 0 && d[0].0 != k {
      PutGet(d[1..], k, v, k');
      var r := Put(d, k, v);
      assert r[1..] == Put(d[1..], k, v);
    }
  }

  lemma PutDistinct<K(!new), V>(d: Dict<K, V>, k: K, v: V)
    requires DistinctKeys(d)
    ensures DistinctKeys(Put(d, k, v))
  {
    var ks := Keys(d);
    PutKeys(d, k, v);
    if k !in ks {
      assert Keys(Put(d, k, v)) == ks + [k];
    }
  }

  /** The value of the last pair in `items` whose key is `k`. */
  function LastValue<K(==,!new), V>(items: seq<(K, V)>, k: K): Option<V> {
    if |items| == 0 then None
    else if items[|items| - 1].0 == k then Some(items[|items| - 1].1)
    else LastValue(items[..|items| - 1], k)
  }

  lemma {:induction false} LastValueIn<K(!new), V>(items: seq<(K, V)>, k: K)
    requires LastValue(items, k).Some?
    ensures (k, LastValue(items, k).value) in items
  {
    var n := |items| - 1;
    if items[n].0 != k {
      LastValueIn(items[..n], k);
    }
  }

  /** The last pair with a key gives its last value. */
  lemma {:induction false} LastValueAt<K(!new), V>(items: seq<(K, V)>, j: nat)
    requires j < |items|
    requires forall l :: j < l < |items| ==> items[l].0 != items[j].0
    ensures LastValue(items, items[j].0) == Some(items[j].1)
  {
    var n := |items| - 1;
    if j < n {
      LastValueAt(items[..n], j);
    }
  }

  /** The dict obtained by assigning the pairs of `items` one after another. */
  function FromItems<K(==,!new), V>(items: seq<(K, V)>): Dict<K, V> {
    if |items| == 0 then []
    else Put(FromItems(items[..|items| - 1]), items[|items| - 1].0, items[|items| - 1].1)
  }

  /**
   * The built dict has each key of `items` once, in order of first
   * occurrence, holding the last value assigned to it.
   */
  lemma {:induction false} FromItemsSpec<K(!new), V>(items: seq<(K, V)>)
    ensures DistinctKeys(FromItems(items))
    ensures Keys(FromItems(items)) == Dedup(Keys(items))
    ensures forall k :: Get(FromItems(items), k) == LastValue(items, k)
  {
    if |items| > 0 {
      var n := |items| - 1;
      var prefix := FromItems(items[..n]);
      FromItemsSpec(items[..n]);
      assert Keys(items[..n]) == Keys(items)[..n];
      PutDistinct(prefix, items[n].0, items[n].1);
      PutKeys(prefix, items[n].0, items[n].1);
      forall k
        ensures Get(Put(prefix, items[n].0, items[n].1), k) == LastValue(items, k)
      {
        PutGet(prefix, items[n].0, items[n].1, k);
      }
    }
  }

  /** Building a dict one assignment further: what a loop of `d[k] = v` does at each step. */
  lemma FromItemsStep<K(!new), V>(items: seq<(K, V)>, i: nat)
    requires i < |items|
    ensures FromItems(items[..i + 1]) == Put(FromItems(items[..i]), items[i].0, items[i].1)
  {
    assert items[..i + 1][..i] == items[..i];
  }

  /** Every entry of the built dict is one of the pairs assigned. */
  lemma FromItemsEntry<K(!new), V>(items: seq<(K, V)>, i: nat)
    requires i < |FromItems(items)|
    ensures FromItems(items)[i] in items
  {
    var d := FromItems(items);
    FromItemsSpec(items);
    GetAt(d, i);
    LastValueIn(items, d[i].0);
  }

  /** A comprehension over pairs that are already distinct keys changes nothing. */
  lemma {:induction false} FromItemsOfDistinct<K(!new), V>(items: seq<(K, V)>)
    requires DistinctKeys(items)
    ensures FromItems(items) == items
  {
    if |items| > 0 {
      var n := |items| - 1;
      DistinctLast(items);
      FromItemsOfDistinct(items[..n]);
      PutNew(items[..n], items[n].0, items[n].1);
      assert FromItems(items) == Put(items[..n], items[n].0, items[n].1);
      assert items[..n] + [items[n]] == items;
    }
  }

  /** Without its last pair a dict with distinct keys still has distinct keys, none of them the last key. */
  lemma DistinctLast<K(!new), V>(items: seq<(K, V)>)
    requires |items| > 0 && DistinctKeys(items)
    ensures DistinctKeys(items[..|items| - 1])
    ensures items[|items| - 1].0 !in Keys(items[..|items| - 1])
  {
    var n := |items| - 1;
    assert Keys(items[..n]) == Keys(items)[..n];
    assert Keys(items)[n] == items[n].0;
  }

  /** The pairs `(x, f(x))` for the elements `x` of `xs`, in order. */
  function Graph<K, V>(f: K -> V, xs: seq<K>): (g: Dict<K, V>)
    ensures |g| == |xs|
    ensures forall i :: 0 <= i < |xs| ==> g[i] == (xs[i], f(xs[i]))
  {
    seq(|xs|, i requires 0 <= i < |xs| => (xs[i], f(xs[i])))
  }

  lemma {:induction false} GraphGet<K(!new), V>(f: K -> V, xs: seq<K>, x: K)
    requires x in xs
    ensures Get(Graph(f, xs), x) == Some(f(x))
  {
    var g := Graph(f, xs);
    if xs[0] != x {
      assert x in xs[1..];
      assert g[1..] == Graph(f, xs[1..]);
      GraphGet(f, xs[1..], x);
    }
  }

  /**
   * `{x: f(x) for x in xs}` holds each distinct element of `xs` once, in
   * order of first occurrence, mapped to `f` of it.
   */
  lemma {:induction false} FromItemsGraph<K(!new), V>(f: K -> V, xs: seq<K>)
    ensures FromItems(Graph(f, xs)) == Graph(f, Dedup(xs))
  {
    if |xs| > 0 {
      var n := |xs| - 1;
      assert Graph(f, xs)[..n] == Graph(f, xs[..n]);
      FromItemsGraph(f, xs[..n]);
      var p := Dedup(xs[..n]);
      assert Keys(Graph(f, p)) == p;
      if xs[n] in p {
        GraphGet(f, p, xs[n]);
        PutSame(Graph(f, p), xs[n], f(xs[n]));
      } else {
        PutNew(Graph(f, p), xs[n], f(xs[n]));
        assert Graph(f, p) + [(xs[n], f(xs[n]))] == Graph(f, p + [xs[n]]);
      }
    }
  }
}
