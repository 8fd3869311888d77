/** Insertion-ordered dictionaries with string keys: a JavaScript object
    and a PHP array with string keys alike. Assigning to an existing key
    replaces its value where it stands; a new key goes to the end. That is
    what both the object spread `{...a, ...b}` and PHP's `array_merge($a, $b)`
    do, key by key, for the keys of `b` in order. */
module Dict {
  import opened Values

  function Keys<V>(d: seq<(string, V)>): (ks: seq<string>)
    ensures |ks| == |d|
  {
    if d == [] then [] else [d[0].0] + Keys(d[1..])
  }

  /** No key occurs twice. */
  predicate DistinctKeys<V>(d: seq<(string, V)>) {
    d == [] || (d[0].0 !in Keys(d[1..]) && DistinctKeys(d[1..]))
  }

  /** An object or array. */
  type Dict<V> = d: seq<(string, V)> | DistinctKeys(d) witness []

  lemma {:induction false} KeysAt<V>(d: seq<(string, V)>, i: nat)
    requires i < |d|
    ensures Keys(d)[i] == d[i].0
  {
    if i > 0 {
      KeysAt(d[1..], i - 1);
    }
  }

  /** Distinct keys, stated by position. */
  lemma {:induction false} DistinctByIndex<V>(d: seq<(string, V)>)
    requires forall i, j :: 0 <= i < j < |d| ==> d[i].0 != d[j].0
    ensures DistinctKeys(d)
  {
    if d != [] {
      forall j | 0 <= j < |Keys(d[1..])| ensures Keys(d[1..])[j] != d[0].0 {
        KeysAt(d[1..], j);
        assert d[1..][j] == d[j + 1];
      }
      DistinctByIndex(d[1..]);
    }
  }

  /** The keys of a literal object, read off by position. */
  lemma LiteralFacts<V>(d: seq<(string, V)>, ks: seq<string>)
    requires |d| == |ks| && forall i :: 0 <= i < |d| ==> d[i].0 == ks[i]
    requires forall i, j :: 0 <= i < j < |ks| ==> ks[i] != ks[j]
    ensures Keys(d) == ks && DistinctKeys(d)
  {
    forall i | 0 <= i < |d| ensures Keys(d)[i] == ks[i] {
      KeysAt(d, i);
    }
    DistinctByIndex(d);
  }

  /** The value stored under `k` (the first entry with that key). */
  function Get<V>(d: seq<(string, V)>, k: string): (r: Option<V>)
    ensures r.Some? <==> k in Keys(d)
  {
    if d == [] then None
    else if d[0].0 == k then Some(d[0].1)
    else Get(d[1..], k)
  }

  lemma {:induction false} GetAt<V>(d: seq<(string, V)>, i: nat)
    requires DistinctKeys(d) && i < |d|
    ensures Get(d, d[i].0) == Some(d[i].1)
  {
    if i > 0 {
      GetAt(d[1..], i - 1);
    }
  }

  /** `d[k] = v`: replace the value in place, or append a new entry. */
  function Put<V>(d: seq<(string, V)>, k: string, v: V): (r: seq<(string, V)>)
    ensures Keys(r) == if k in Keys(d) then Keys(d) else Keys(d) + [k]
    ensures DistinctKeys(d) ==> DistinctKeys(r)
  {
    if d == [] then [(k, v)]
    else if d[0].0 == k then [(k, v)] + d[1..]
    else
      var r := [d[0]] + Put(d[1..], k, v);
      assert Keys(r) == [d[0].0] + Keys(Put(d[1..], k, v));
      r
  }

  lemma {:induction false} GetPut<V>(d: seq<(string, V)>, k: string, v: V, key: string)
    ensures Get(Put(d, k, v), key) == if key == k then Some(v) else Get(d, key)
  {
    if d != [] && d[0].0 != k {
      GetPut(d[1..], k, v, key);
    }
  }

  /** Appending a key that is not there yet. */
  lemma {:induction false} PutNew<V>(d: seq<(string, V)>, k: string, v: V)
    requires k !in Keys(d)
    ensures Put(d, k, v) == d + [(k, v)]
  {
    if d != [] {
      assert d[0].0 != k;
      assert k !in Keys(d[1..]);
      PutNew(d[1..], k, v);
    }
  }

  /** The entries of `b`, in order, assigned one by one into `a`. */
  function Merge<V>(a: seq<(string, V)>, b: seq<(string, V)>): (r: seq<(string, V)>)
    ensures DistinctKeys(a) ==> DistinctKeys(r)
    decreases |b|
  {
    if b == [] then a else Merge(Put(a, b[0].0, b[0].1), b[1..])
  }

  /** The keys of `bs` that are not among `ks`, in the order of `bs`. */
  function NewKeys(ks: seq<string>, bs: seq<string>): seq<string> {
    if bs == [] then [] else (if bs[0] in ks then [] else [bs[0]]) + NewKeys(ks, bs[1..])
  }

  lemma {:induction false} NewKeysIgnore(ks: seq<string>, x: string, bs: seq<string>)
    requires x !in bs
    ensures NewKeys(ks + [x], bs) == NewKeys(ks, bs)
  {
    if bs != [] {
      NewKeysIgnore(ks, x, bs[1..]);
    }
  }

  lemma KeysTail<V>(b: seq<(string, V)>)
    requires b != []
    ensures Keys(b) == [b[0].0] + Keys(b[1..])
  {
  }

  /** Right-biased lookup: a key of `b` takes `b`'s value, every other key
      keeps `a`'s. */
  lemma {:induction false} GetMerge<V>(a: seq<(string, V)>, b: seq<(string, V)>, k: string)
    requires DistinctKeys(b)
    ensures Get(Merge(a, b), k) == if k in Keys(b) then Get(b, k) else Get(a, k)
    decreases |b|
  {
    if b != [] {
      var a' := Put(a, b[0].0, b[0].1);
      assert DistinctKeys(b[1..]);
      GetMerge(a', b[1..], k);
      GetPut(a, b[0].0, b[0].1, k);
      KeysTail(b);
      if k == b[0].0 {
        assert k !in Keys(b[1..]);
      }
    }
  }

  /** Order: the keys of `a` stay where they were, and the keys new to `a`
      follow in `b`'s order. */
  lemma {:induction false} KeysMerge<V>(a: seq<(string, V)>, b: seq<(string, V)>)
    requires DistinctKeys(b)
    ensures Keys(Merge(a, b)) == Keys(a) + NewKeys(Keys(a), Keys(b))
    decreases |b|
  {
    if b != [] {
      var k := b[0].0;
      var a' := Put(a, k, b[0].1);
      assert DistinctKeys(b[1..]);
      KeysMerge(a', b[1..]);
      KeysTail(b);
      var rest := Keys(b[1..]);
      assert k !in rest;
      assert NewKeys(Keys(a), Keys(b)) == (if k in Keys(a) then [] else [k]) + NewKeys(Keys(a), rest);
      if k !in Keys(a) {
        NewKeysIgnore(Keys(a), k, rest);
        assert Keys(a') == Keys(a) + [k];
      } else {
        assert Keys(a') == Keys(a);
      }
    }
  }

  lemma {:induction false} KeysAppend<V>(a: seq<(string, V)>, b: seq<(string, V)>)
    ensures Keys(a + b) == Keys(a) + Keys(b)
  {
    if a == [] {
      assert a + b == b;
    } else {
      assert (a + b)[0] == a[0] && (a + b)[1..] == a[1..] + b;
      KeysAppend(a[1..], b);
    }
  }

  /** Merging into a dictionary with none of `b`'s keys appends `b`; in
      particular `{...b}` is `b`. */
  lemma {:induction false} MergeDisjoint<V>(a: seq<(string, V)>, b: seq<(string, V)>)
    requires DistinctKeys(b)
    requires forall i :: 0 <= i < |b| ==> b[i].0 !in Keys(a)
    ensures Merge(a, b) == a + b
    decreases |b|
  {
    if b != [] {
      var a' := a + [b[0]];
      MergeAppendStep(a, b);
      DisjointTail(a, b);
      MergeDisjoint(a', b[1..]);
      AppendHead(a, b);
    }
  }

  lemma AppendHead<T>(a: seq<T>, b: seq<T>)
    requires b != []
    ensures (a + [b[0]]) + b[1..] == a + b
  {
  }

  lemma MergeAppendStep<V>(a: seq<(string, V)>, b: seq<(string, V)>)
    requires b != [] && b[0].0 !in Keys(a)
    ensures Merge(a, b) == Merge(a + [b[0]], b[1..])
  {
    PutNew(a, b[0].0, b[0].1);
  }

  lemma DisjointTail<V>(a: seq<(string, V)>, b: seq<(string, V)>)
    requires b != [] && DistinctKeys(b)
    requires forall i :: 0 <= i < |b| ==> b[i].0 !in Keys(a)
    ensures forall i :: 0 <= i < |b[1..]| ==> b[1..][i].0 !in Keys(a + [b[0]])
  {
    KeysAppend(a, [b[0]]);
    assert Keys([b[0]]) == [b[0].0];
    forall i | 0 <= i < |b[1..]| ensures b[1..][i].0 !in Keys(a + [b[0]]) {
      KeysAt(b[1..], i);
      assert b[1..][i] == b[i + 1];
    }
  }
}
