/**
 * Python dictionaries with string keys, as the sequence of their entries in
 * insertion order. Assigning to a present key keeps its position; assigning
 * to a new key appends it.
 */
module Dicts {
  import opened Wrappers

  type Dict<V> = seq<(string, V)>

  function Keys<V>(d: Dict<V>): (ks: seq<string>)
    ensures |ks| == |d| && forall i :: 0 <= i < |d| ==> ks[i] == d[i].0
  {
    seq(|d|, i requires 0 <= i < |d| => d[i].0)
  }

  predicate Distinct(ks: seq<string>) {
    forall i, j :: 0 <= i < j < |ks| ==> ks[i] != ks[j]
  }

  /** What every Python dictionary satisfies. */
  predicate DistinctKeys<V>(d: Dict<V>) {
    Distinct(Keys(d))
  }

  /** `d.get(k)`. */
  function Get<V>(d: Dict<V>, k: string): Option<V>
    decreases |d|
  {
    if d == [] then None
    else if d[0].0 == k then Some(d[0].1)
    else Get(d[1..], k)
  }

  /** `d[k] = v`. */
  function Put<V>(d: Dict<V>, k: string, v: V): Dict<V>
    decreases |d|
  {
    if d == [] then [(k, v)]
    else if d[0].0 == k then [(k, v)] + d[1..]
    else [d[0]] + Put(d[1..], k, v)
  }

  /** The assigned key reads back the assigned value; every other key reads what it read before. */
  lemma {:induction false} PutGet<V>(d: Dict<V>, k: string, v: V, k': string)
    ensures Get(Put(d, k, v), k') == if k' == k then Some(v) else Get(d, k')
    decreases |d|
  {
    if d != [] && d[0].0 != k {
      PutGet(d[1..], k, v, k');
      assert Put(d, k, v)[1..] == Put(d[1..], k, v);
    } else if d != [] {
      assert Put(d, k, v)[1..] == d[1..];
    }
  }

  lemma KeysTail<V>(d: Dict<V>)
    requires d != []
    ensures Keys(d) == [d[0].0] + Keys(d[1..])
  {
  }

  /** Assignment keeps the key order and appends a new key at the end. */
  lemma {:induction false} PutKeys<V>(d: Dict<V>, k: string, v: V)
    ensures Keys(Put(d, k, v)) == if k in Keys(d) then Keys(d) else Keys(d) + [k]
    decreases |d|
  {
    if d != [] {
      var p := Put(d, k, v);
      KeysTail(d);
      KeysTail(p);
      if d[0].0 != k {
        PutKeys(d[1..], k, v);
        assert p[1..] == Put(d[1..], k, v);
        assert k in Keys(d) <==> k in Keys(d[1..]);
      } else {
        assert p[1..] == d[1..];
      }
    }
  }

  /** Assignment keeps the keys distinct. */
  lemma PutDistinct<V>(d: Dict<V>, k: string, v: V)
    requires DistinctKeys(d)
    ensures DistinctKeys(Put(d, k, v))
  {
    PutKeys(d, k, v);
  }

  /** In distinct keys, the first key after a prefix is not in the prefix. */
  lemma DistinctHead(a: seq<string>, b: seq<string>)
    requires Distinct(a + b) && b != []
    ensures b[0] !in a
  {
    forall i | 0 <= i < |a|
      ensures a[i] != b[0]
    {
      assert (a + b)[i] == a[i] && (a + b)[|a|] == b[0];
    }
  }

  /** Moving a new first key of `rest` into `acc` keeps the combined key sequence. */
  lemma PutNext<V, W>(acc: Dict<V>, rest: Dict<W>, v: V)
    requires rest != [] && rest[0].0 !in Keys(acc)
    ensures Keys(Put(acc, rest[0].0, v)) + Keys(rest[1..]) == Keys(acc) + Keys(rest)
  {
    var k := rest[0].0;
    KeysTail(rest);
    PutKeys(acc, k, v);
    MoveAcross(Keys(acc), k, Keys(rest[1..]), Keys(Put(acc, k, v)), Keys(rest));
  }

  lemma MoveAcross<T>(a: seq<T>, x: T, b: seq<T>, l: seq<T>, r: seq<T>)
    requires l == a + [x] && r == [x] + b
    ensures l + b == a + r
  {
  }
}
